/**
 Cutting and joining text at separator characters.
 */
module Text {

  /** The text up to the first `c`, or all of it. */
  function Before(s: string, c: char): (r: string)
    ensures |r| <= |s| && c !in r && (|r| == |s| <==> c !in s)
  {
    if s == [] || s[0] == c then [] else [s[0]] + Before(s[1..], c)
  }

  /** The text after the first `c`. */
  function After(s: string, c: char): string
    requires c in s
  {
    s[|Before(s, c)| + 1..]
  }

  /** The pieces between separators; there is always at least one. */
  function Split(s: string, c: char): (parts: seq<string>)
    ensures |parts| > 0
    decreases |s|
  {
    if c in s then [Before(s, c)] + Split(After(s, c), c) else [s]
  }

  function Join(parts: seq<string>, c: char): string
    requires parts != []
  {
    if |parts| == 1 then parts[0] else parts[0] + [c] + Join(parts[1..], c)
  }

  lemma {:induction false} BeforeSeparator(x: string, c: char, y: string)
    requires c !in x
    ensures var s := x + [c] + y;
            c in s && Before(s, c) == x && After(s, c) == y
    decreases |x|
  {
    var s := x + [c] + y;
    assert s[|x|] == c;
    if x != [] {
      assert s[1..] == x[1..] + [c] + y;
      BeforeSeparator(x[1..], c, y);
      assert s[0] == x[0];
    }
    assert s[|x| + 1..] == y;
  }

  lemma {:induction false} BeforeAbsent(s: string, c: char)
    requires c !in s
    ensures Before(s, c) == s
    decreases |s|
  {
    if s != [] { BeforeAbsent(s[1..], c); }
  }

  lemma {:induction false} SplitInvertsJoin(parts: seq<string>, c: char)
    requires parts != [] && forall p :: p in parts ==> c !in p
    ensures Split(Join(parts, c), c) == parts
    decreases |parts|
  {
    if |parts| == 1 {
      assert parts[0] in parts;
    } else {
      var rest := Join(parts[1..], c);
      assert parts[0] in parts;
      BeforeSeparator(parts[0], c, rest);
      SplitInvertsJoin(parts[1..], c);
      assert parts == [parts[0]] + parts[1..];
    }
  }

  lemma {:induction false} JoinAvoids(parts: seq<string>, c: char, d: char)
    requires parts != [] && c != d && forall p :: p in parts ==> d !in p
    ensures d !in Join(parts, c)
    decreases |parts|
  {
    assert parts[0] in parts;
    if |parts| > 1 { JoinAvoids(parts[1..], c, d); }
  }

  lemma {:induction false} SplitAvoids(s: string, c: char)
    ensures forall p :: p in Split(s, c) ==> c !in p
    decreases |s|
  {
    if c in s { SplitAvoids(After(s, c), c); }
  }

  lemma {:induction false} BeforeIsPrefix(s: string, c: char)
    requires c in s
    ensures s == Before(s, c) + [c] + After(s, c)
    decreases |s|
  {
    if s[0] != c {
      BeforeIsPrefix(s[1..], c);
      assert s == [s[0]] + s[1..];
    }
  }

  lemma {:induction false} JoinInvertsSplit(s: string, c: char)
    ensures Join(Split(s, c), c) == s
    decreases |s|
  {
    if c in s {
      var rest := Split(After(s, c), c);
      JoinInvertsSplit(After(s, c), c);
      BeforeIsPrefix(s, c);
      assert Split(s, c) == [Before(s, c)] + rest;
      assert Split(s, c)[1..] == rest;
    }
  }
}
