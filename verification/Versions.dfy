/**
 Version comparison in the updater: parsing of version strings and the order that decides whether a
 published version replaces the running one.
 */
module Versions {
  import opened Basics
  import opened Text

  datatype Version = Version(core: seq<int>, prerelease: seq<string>)

  // ----- text

  predicate IsSpace(c: char) {
    c in {' ', '\t', '\n', '\r'} || c as int in {0x0B, 0x0C, 0x85, 0xA0, 0x1680, 0x2028, 0x2029, 0x202F, 0x205F, 0x3000}
    || 0x2000 <= c as int <= 0x200A
  }

  function TrimLeft(s: string): string { if s != [] && IsSpace(s[0]) then TrimLeft(s[1..]) else s }

  function TrimRight(s: string): string {
    if s != [] && IsSpace(s[|s| - 1]) then TrimRight(s[..|s| - 1]) else s
  }

  function TrimVersion(s: string): string {
    var trimmed := TrimRight(TrimLeft(s));
    if trimmed != [] && trimmed[0] == 'v' then trimmed[1..] else trimmed
  }

  predicate IsDigit(c: char) { '0' <= c <= '9' }

  predicate AllDigits(s: string) { forall i :: 0 <= i < |s| ==> IsDigit(s[i]) }

  /** The number that a string of digits denotes. */
  function Value(s: string): nat
    requires AllDigits(s)
  {
    if s == [] then 0 else 10 * Value(s[..|s| - 1]) + (s[|s| - 1] as int - '0' as int)
  }

  /** Decimal conversion as strconv.Atoi does it: an optional sign, digits, and a range check. */
  function Atoi(s: string): Option<int> {
    var signed := s != [] && s[0] in {'+', '-'};
    var digits := if signed then s[1..] else s;
    if digits == [] || !AllDigits(digits) then None
    else
      var n: int := if signed && s[0] == '-' then 0 - Value(digits) else Value(digits);
      if -MAX_I64 - 1 <= n <= MAX_I64 then Some(n) else None
  }

  /** Byte-wise order of strings, where a proper prefix comes first. */
  predicate TextLess(a: string, b: string) {
    b != [] && (a == [] || a[0] < b[0] || (a[0] == b[0] && TextLess(a[1..], b[1..])))
  }

  // ----- parsing

  predicate CorePartOk(part: string) { Atoi(part).Some? && Atoi(part).value >= 0 }

  function CoreNumber(parts: seq<string>, i: nat): int {
    if i < |parts| && CorePartOk(parts[i]) then Atoi(parts[i]).value else 0
  }

  function Parsed(value: string): Option<Version> {
    var trimmed := TrimVersion(value);
    if trimmed == [] then None
    else
      var text := Before(trimmed, '+');
      var parts := Split(Before(text, '-'), '.');
      if |parts| > 3 || exists i :: 0 <= i < |parts| && !CorePartOk(parts[i]) then None
      else
        var core := [CoreNumber(parts, 0), CoreNumber(parts, 1), CoreNumber(parts, 2)];
        if '-' !in text then Some(Version(core, []))
        else
          var identifiers := Split(After(text, '-'), '.');
          if [] in identifiers then None else Some(Version(core, identifiers))
  }

  method ParseVersion(value: string) returns (r: Option<Version>)
    ensures r == Parsed(value)
  {
    hide TrimVersion, Before, Split, After, Atoi;
    var trimmed := TrimVersion(value);
    if trimmed == [] { return None; }
    var text := Before(trimmed, '+');
    var parts := Split(Before(text, '-'), '.');
    if |parts| > 3 { return None; }
    var core := [0, 0, 0];
    for index := 0 to |parts|
      invariant |core| == 3
      invariant forall i :: 0 <= i < index ==> CorePartOk(parts[i])
      invariant forall i :: 0 <= i < 3 ==> core[i] == if i < index then CoreNumber(parts, i) else 0
    {
      var number := Atoi(parts[index]);
      if number.None? || number.value < 0 { return None; }
      core := core[index := number.value];
    }
    assert core == [CoreNumber(parts, 0), CoreNumber(parts, 1), CoreNumber(parts, 2)];
    if '-' !in text { return Some(Version(core, [])); }
    var identifiers := Split(After(text, '-'), '.');
    for index := 0 to |identifiers|
      invariant forall i :: 0 <= i < index ==> identifiers[i] != []
    {
      if identifiers[index] == [] { return None; }
    }
    r := Some(Version(core, identifiers));
  }

  // ----- the order

  function NumericIdentifier(s: string): Option<int> {
    if s == [] || !AllDigits(s) then None else Atoi(s)
  }

  method ComputeNumericIdentifier(s: string) returns (r: Option<int>)
    ensures r == NumericIdentifier(s)
  {
    if s == [] { return None; }
    for i := 0 to |s|
      invariant AllDigits(s[..i])
    {
      if s[i] < '0' || s[i] > '9' { return None; }
    }
    assert s[..|s|] == s;
    r := Atoi(s);
  }

  predicate PartGreater(a: string, b: string) {
    var x, y := NumericIdentifier(a), NumericIdentifier(b);
    if x.Some? && y.Some? then x.value > y.value
    else if x.Some? then false
    else if y.Some? then true
    else TextLess(b, a)
  }

  predicate PrereleaseGreater(a: seq<string>, b: seq<string>) {
    if a == [] || b == [] then |a| > |b|
    else if a[0] == b[0] then PrereleaseGreater(a[1..], b[1..])
    else PartGreater(a[0], b[0])
  }

  predicate CoreGreater(a: seq<int>, b: seq<int>)
    requires |a| == |b|
  {
    a != [] && (a[0] > b[0] || (a[0] == b[0] && CoreGreater(a[1..], b[1..])))
  }

  predicate VersionGreater(a: Version, b: Version)
    requires |a.core| == |b.core|
  {
    if a.core != b.core then CoreGreater(a.core, b.core)
    else if a.prerelease == [] || b.prerelease == [] then a.prerelease == [] && b.prerelease != []
    else PrereleaseGreater(a.prerelease, b.prerelease)
  }

  predicate Newer(candidate: string, current: string) {
    && current != "" && current != "dev"
    && Parsed(candidate).Some? && Parsed(current).Some?
    && VersionGreater(Parsed(candidate).value, Parsed(current).value)
  }

  method NewerVersion(candidate: string, current: string) returns (newer: bool)
    ensures newer == Newer(candidate, current)
  {
    hide Parsed, NumericIdentifier;
    if current == "" || current == "dev" { return false; }
    var left := ParseVersion(candidate);
    var right := ParseVersion(current);
    if left.None? || right.None? { return false; }
    var a, b := left.value, right.value;
    CoreHasThree(candidate);
    CoreHasThree(current);
    assert a.core[0..] == a.core && b.core[0..] == b.core;
    for index := 0 to 3
      invariant forall i :: 0 <= i < index ==> a.core[i] == b.core[i]
      invariant CoreGreater(a.core, b.core) <==> CoreGreater(a.core[index..], b.core[index..])
    {
      if a.core[index] != b.core[index] {
        return a.core[index] > b.core[index];
      }
      assert a.core[index..][1..] == a.core[index + 1..] && b.core[index..][1..] == b.core[index + 1..];
    }
    assert a.core == b.core;
    if |a.prerelease| == 0 || |b.prerelease| == 0 {
      return |a.prerelease| == 0 && |b.prerelease| > 0;
    }
    newer := ComparePrerelease(a.prerelease, b.prerelease);
  }

  method ComparePrerelease(a: seq<string>, b: seq<string>) returns (greater: bool)
    ensures greater == PrereleaseGreater(a, b)
  {
    hide NumericIdentifier, TextLess;
    var index := 0;
    assert a[0..] == a && b[0..] == b;
    while index < |a| && index < |b|
      invariant 0 <= index <= |a| && index <= |b|
      invariant PrereleaseGreater(a, b) <==> PrereleaseGreater(a[index..], b[index..])
    {
      if a[index] != b[index] {
        var x := ComputeNumericIdentifier(a[index]);
        var y := ComputeNumericIdentifier(b[index]);
        if x.Some? && y.Some? { return x.value > y.value; }
        if x.Some? { return false; }
        if y.Some? { return true; }
        return TextLess(b[index], a[index]);
      }
      assert a[index..][1..] == a[index + 1..] && b[index..][1..] == b[index + 1..];
      index := index + 1;
    }
    greater := |a| > |b|;
  }

  lemma CoreHasThree(value: string)
    ensures Parsed(value).Some? ==> |Parsed(value).value.core| == 3
  {}

  // ----- it is a strict order

  lemma {:induction false} TextLessTransitive(a: string, b: string, c: string)
    requires TextLess(a, b) && TextLess(b, c)
    ensures TextLess(a, c)
    decreases |a|
  {
    if a != [] && a[0] == b[0] == c[0] { TextLessTransitive(a[1..], b[1..], c[1..]); }
  }

  lemma {:induction false} TextLessIrreflexive(a: string)
    ensures !TextLess(a, a)
    decreases |a|
  {
    if a != [] { TextLessIrreflexive(a[1..]); }
  }

  lemma PartGreaterTransitive(a: string, b: string, c: string)
    requires PartGreater(a, b) && PartGreater(b, c)
    ensures PartGreater(a, c)
  {
    hide NumericIdentifier;
    if NumericIdentifier(a).None? && NumericIdentifier(b).None? && NumericIdentifier(c).None? {
      TextLessTransitive(c, b, a);
    }
  }

  lemma PartGreaterIrreflexive(a: string)
    ensures !PartGreater(a, a)
  {
    hide NumericIdentifier;
    TextLessIrreflexive(a);
  }

  lemma {:induction false} PrereleaseGreaterTransitive(a: seq<string>, b: seq<string>, c: seq<string>)
    requires PrereleaseGreater(a, b) && PrereleaseGreater(b, c)
    ensures PrereleaseGreater(a, c)
    decreases |a|
  {
    hide PartGreater;
    if a != [] && b != [] && c != [] {
      if a[0] == b[0] == c[0] {
        PrereleaseGreaterTransitive(a[1..], b[1..], c[1..]);
      } else if a[0] != b[0] && b[0] != c[0] {
        PartGreaterTransitive(a[0], b[0], c[0]);
        PartGreaterIrreflexive(a[0]);
      }
    }
  }

  lemma {:induction false} PrereleaseGreaterIrreflexive(a: seq<string>)
    ensures !PrereleaseGreater(a, a)
    decreases |a|
  {
    if a != [] { PrereleaseGreaterIrreflexive(a[1..]); }
  }

  lemma {:induction false} CoreGreaterTransitive(a: seq<int>, b: seq<int>, c: seq<int>)
    requires |a| == |b| == |c| && CoreGreater(a, b) && CoreGreater(b, c)
    ensures CoreGreater(a, c)
    decreases |a|
  {
    if a[0] == b[0] == c[0] { CoreGreaterTransitive(a[1..], b[1..], c[1..]); }
  }

  lemma {:induction false} CoreGreaterIrreflexive(a: seq<int>)
    ensures !CoreGreater(a, a)
    decreases |a|
  {
    if a != [] { CoreGreaterIrreflexive(a[1..]); }
  }

  lemma VersionGreaterTransitive(a: Version, b: Version, c: Version)
    requires |a.core| == |b.core| == |c.core|
    requires VersionGreater(a, b) && VersionGreater(b, c)
    ensures VersionGreater(a, c)
  {
    hide CoreGreater, PrereleaseGreater;
    if a.core != b.core && b.core != c.core {
      CoreGreaterTransitive(a.core, b.core, c.core);
      CoreGreaterIrreflexive(a.core);
    } else if a.core == b.core == c.core && a.prerelease != [] && b.prerelease != [] && c.prerelease != [] {
      PrereleaseGreaterTransitive(a.prerelease, b.prerelease, c.prerelease);
    }
  }

  /** Over all strings, "newer" is transitive. */
  lemma NewerTransitive(a: string, b: string, c: string)
    requires Newer(a, b) && Newer(b, c)
    ensures Newer(a, c)
  {
    hide Parsed, VersionGreater;
    CoreHasThree(a);
    CoreHasThree(b);
    CoreHasThree(c);
    VersionGreaterTransitive(Parsed(a).value, Parsed(b).value, Parsed(c).value);
  }

  /** No string is newer than itself, and no two strings are newer than each other. */
  lemma NewerAsymmetric(a: string, b: string)
    ensures !Newer(a, a)
    ensures !(Newer(a, b) && Newer(b, a))
  {
    hide Parsed;
    CoreHasThree(a);
    if Parsed(a).Some? {
      PrereleaseGreaterIrreflexive(Parsed(a).value.prerelease);
    }
    if Newer(a, b) && Newer(b, a) {
      NewerTransitive(a, b, a);
    }
  }

  /** A chain of updates, each newer than what it replaced, climbs throughout and never repeats a version. */
  lemma {:induction false} UpdatesNeverRepeat(installed: seq<string>, i: nat, j: nat)
    requires forall k :: 0 < k < |installed| ==> Newer(installed[k], installed[k - 1])
    requires i < j < |installed|
    ensures Newer(installed[j], installed[i]) && Parsed(installed[i]) != Parsed(installed[j])
    decreases j
  {
    hide Parsed, VersionGreater;
    if i < j - 1 {
      UpdatesNeverRepeat(installed, i, j - 1);
      NewerTransitive(installed[j], installed[j - 1], installed[i]);
    }
    if Parsed(installed[j]) == Parsed(installed[i]) {
      SameParseNotNewer(installed[j], installed[i]);
    }
  }

  lemma SameParseNotNewer(a: string, b: string)
    requires Parsed(a) == Parsed(b)
    ensures !Newer(a, b)
  {
    hide Parsed;
    CoreHasThree(a);
    if Parsed(a).Some? {
      PrereleaseGreaterIrreflexive(Parsed(a).value.prerelease);
    }
  }

  // ----- agreement with item 11 of Semantic Versioning 2.0.0

  predicate Numeric(id: string) { id != [] && AllDigits(id) }

  /** Item 9: numeric identifiers have no leading zero. */
  predicate NoLeadingZero(id: string) { Numeric(id) ==> id == "0" || id[0] != '0' }

  /** Digits that denote a number beyond the machine's integers. */
  predicate Oversized(id: string) { Numeric(id) && Value(id) > MAX_I64 }

  /** Item 11.4: identifiers of only digits compare as numbers and are lower than any other. */
  predicate IdentifierHigher(a: string, b: string) {
    if Numeric(a) && Numeric(b) then Value(a) > Value(b)
    else if Numeric(a) then false
    else if Numeric(b) then true
    else TextLess(b, a)
  }

  predicate IdentifierEqual(a: string, b: string) {
    if Numeric(a) && Numeric(b) then Value(a) == Value(b) else a == b
  }

  /** The first difference decides; if there is none, more identifiers are higher. */
  ghost predicate PrereleaseHigher(a: seq<string>, b: seq<string>) {
    exists k :: DecidesAt(a, b, k)
  }

  predicate DecidesAt(a: seq<string>, b: seq<string>, k: nat) {
    && k <= |b| && k < |a|
    && (forall i :: 0 <= i < k ==> IdentifierEqual(a[i], b[i]))
    && (k < |b| ==> IdentifierHigher(a[k], b[k]))
  }

  /** Item 11.2: major, minor and patch compare numerically, in this order. */
  ghost predicate CoreHigher(a: seq<int>, b: seq<int>)
    requires |a| == |b|
  {
    exists k: nat :: CoreDecidesAt(a, b, k)
  }

  predicate CoreDecidesAt(a: seq<int>, b: seq<int>, k: nat)
    requires |a| == |b|
  {
    k < |a| && a[k] > b[k] && a[..k] == b[..k]
  }

  /** Items 11.2 to 11.4 together; a version without pre-release is higher than one with. */
  ghost predicate Precedes(lower: Version, higher: Version)
    requires |lower.core| == |higher.core|
  {
    || CoreHigher(higher.core, lower.core)
    || (higher.core == lower.core && higher.prerelease == [] && lower.prerelease != [])
    || (higher.core == lower.core && higher.prerelease != [] && lower.prerelease != []
        && PrereleaseHigher(higher.prerelease, lower.prerelease))
  }

  lemma {:induction false} NumericIdentifierOf(id: string)
    ensures NumericIdentifier(id) == if Numeric(id) && !Oversized(id) then Some(Value(id)) else None
  {}

  lemma {:induction false} LeadingDigitBounds(id: string)
    requires Numeric(id) && id[0] != '0'
    ensures Value(id) > 0 && (|id| > 1 ==> Value(id) >= 10)
    decreases |id|
  {
    if |id| > 1 {
      assert id[..|id| - 1][0] == id[0];
      LeadingDigitBounds(id[..|id| - 1]);
    } else {
      assert Value(id[..0]) == 0;
    }
  }

  lemma {:induction false} SingleDigit(id: string)
    requires Numeric(id) && |id| == 1
    ensures Value(id) == id[0] as int - '0' as int < 10
  {
    assert Value(id[..0]) == 0;
  }

  /** Without leading zeros, equal numbers are written equally. */
  lemma {:induction false} ValueInjective(a: string, b: string)
    requires Numeric(a) && Numeric(b) && NoLeadingZero(a) && NoLeadingZero(b)
    requires Value(a) == Value(b)
    ensures a == b
    decreases |a| + |b|
  {
    if |a| == 1 && |b| == 1 {
      SingleDigit(a);
      SingleDigit(b);
    } else if |a| == 1 {
      SingleDigit(a);
      LeadingDigitBounds(b);
    } else if |b| == 1 {
      SingleDigit(b);
      LeadingDigitBounds(a);
    } else {
      var p, q := a[..|a| - 1], b[..|b| - 1];
      assert p[0] == a[0] && q[0] == b[0];
      ValueInjective(p, q);
      assert a == p + [a[|a| - 1]] && b == q + [b[|b| - 1]];
    }
  }

  /** Without a leading zero, more digits make a larger number. */
  lemma {:induction false} LongerIsLarger(a: string, b: string)
    requires AllDigits(a) && AllDigits(b) && |a| > |b| && a[0] != '0'
    ensures Value(a) > Value(b)
    decreases |b|
  {
    if b == [] {
      LeadingDigitBounds(a);
    } else {
      LongerIsLarger(a[..|a| - 1], b[..|b| - 1]);
    }
  }

  /** The order of texts of one length, decided from the back: the last character only breaks a tie. */
  lemma {:induction false} TextLessByLast(a: string, b: string)
    requires |a| == |b| > 0
    ensures var n := |a| - 1;
            TextLess(a, b) <==> TextLess(a[..n], b[..n]) || (a[..n] == b[..n] && a[n] < b[n])
    decreases |a|
  {
    var n := |a| - 1;
    if n == 0 {
      assert a[1..] == [] && b[1..] == [];
    } else {
      TextLessByLast(a[1..], b[1..]);
      assert a[1..][..n - 1] == a[..n][1..] && b[1..][..n - 1] == b[..n][1..];
      assert a[..n] == [a[0]] + a[..n][1..] && b[..n] == [b[0]] + b[..n][1..];
    }
  }

  /** Digit strings of one length are ordered as text exactly as their numbers are. */
  lemma {:induction false} SameLengthOrder(a: string, b: string)
    requires AllDigits(a) && AllDigits(b) && |a| == |b|
    ensures TextLess(a, b) <==> Value(a) < Value(b)
    ensures a == b <==> Value(a) == Value(b)
    decreases |a|
  {
    hide TextLess;
    if a != [] {
      var n := |a| - 1;
      SameLengthOrder(a[..n], b[..n]);
      TextLessByLast(a, b);
      assert a == a[..n] + [a[n]] && b == b[..n] + [b[n]];
    } else {
      TextLessIrreflexive(a);
    }
  }

  /**
   Whether comparing two identifiers as text, which is what happens if neither is a number in range
   and at least one is an oversized one, gives the order of their kinds and numbers: between two
   oversized numbers of different length the longer must also be the greater text, and beside an
   identifier that is no number the oversized one must also be the smaller text.
   */
  predicate TextOrderFits(a: string, b: string) {
    if Oversized(a) && Oversized(b) then |a| == |b| || (TextLess(b, a) <==> |a| > |b|)
    else if Oversized(a) && !Numeric(b) then !TextLess(b, a)
    else if Oversized(b) && !Numeric(a) then TextLess(b, a)
    else true
  }

  lemma OversizedHasNoLeadingZero(id: string)
    requires Oversized(id) && NoLeadingZero(id)
    ensures id[0] != '0'
  {
    SingleDigit("0");
  }

  lemma {:induction false} OversizedOrder(a: string, b: string)
    requires Oversized(a) && Oversized(b) && NoLeadingZero(a) && NoLeadingZero(b) && |a| != |b|
    ensures Value(a) > Value(b) <==> |a| > |b|
  {
    hide Value;
    OversizedHasNoLeadingZero(a);
    OversizedHasNoLeadingZero(b);
    if |a| > |b| { LongerIsLarger(a, b); } else { LongerIsLarger(b, a); }
  }

  /** Two identifiers are ordered as item 11.4 wants exactly if their order as text fits where it is used. */
  lemma PartMatchesIdentifierIff(a: string, b: string)
    requires NoLeadingZero(a) && NoLeadingZero(b)
    ensures (PartGreater(a, b) <==> IdentifierHigher(a, b)) <==> TextOrderFits(a, b)
    ensures IdentifierEqual(a, b) <==> a == b
  {
    hide NumericIdentifier, TextLess, Value, AllDigits;
    NumericIdentifierOf(a);
    NumericIdentifierOf(b);
    if Numeric(a) && Numeric(b) && Value(a) == Value(b) { ValueInjective(a, b); }
    if Oversized(a) && Oversized(b) {
      if |a| == |b| { SameLengthOrder(b, a); } else { OversizedOrder(a, b); }
    }
  }

  lemma IdentifierHigherIrreflexive(a: string)
    ensures !IdentifierHigher(a, a)
  {
    TextLessIrreflexive(a);
  }

  /** The first pair of identifiers that differ is one whose order as text fits where it is used. */
  predicate DecidingPairFits(a: seq<string>, b: seq<string>) {
    if a == [] || b == [] then true
    else if a[0] == b[0] then DecidingPairFits(a[1..], b[1..])
    else TextOrderFits(a[0], b[0])
  }

  lemma {:induction false} PrereleaseMatchesSpecIff(a: seq<string>, b: seq<string>)
    requires forall x :: x in a ==> NoLeadingZero(x)
    requires forall x :: x in b ==> NoLeadingZero(x)
    ensures (PrereleaseGreater(a, b) <==> PrereleaseHigher(a, b)) <==> DecidingPairFits(a, b)
    decreases |a|
  {
    hide PartGreater, IdentifierHigher, IdentifierEqual, NoLeadingZero, TextOrderFits, DecidesAt;
    if a == [] || b == [] {
      PrereleaseEnds(a, b);
    } else {
      PartMatchesIdentifierIff(a[0], b[0]);
      if a[0] == b[0] {
        PrereleaseMatchesSpecIff(a[1..], b[1..]);
        PrereleaseHigherTail(a, b);
      } else {
        PrereleaseHigherHead(a, b);
      }
    }
  }

  lemma PrereleaseEnds(a: seq<string>, b: seq<string>)
    requires a == [] || b == []
    ensures PrereleaseHigher(a, b) <==> |a| > |b|
  {
    if a != [] { assert DecidesAt(a, b, 0); }
  }

  lemma PrereleaseHigherTail(a: seq<string>, b: seq<string>)
    requires a != [] && b != [] && a[0] == b[0] && IdentifierEqual(a[0], b[0])
    ensures PrereleaseHigher(a, b) <==> PrereleaseHigher(a[1..], b[1..])
  {
    hide IdentifierHigher, IdentifierEqual;
    IdentifierHigherIrreflexive(a[0]);
    if k: nat :| DecidesAt(a, b, k) {
      assert k > 0;
      DecidesShift(a, b, k - 1);
    }
    if k: nat :| DecidesAt(a[1..], b[1..], k) {
      DecidesShift(a, b, k);
    }
  }

  lemma PrereleaseHigherHead(a: seq<string>, b: seq<string>)
    requires a != [] && b != [] && !IdentifierEqual(a[0], b[0])
    ensures PrereleaseHigher(a, b) <==> IdentifierHigher(a[0], b[0])
  {
    hide IdentifierHigher, IdentifierEqual;
    assert forall k: nat :: k > 0 ==> !DecidesAt(a, b, k);
    assert DecidesAt(a, b, 0) <==> IdentifierHigher(a[0], b[0]);
  }

  lemma DecidesShift(a: seq<string>, b: seq<string>, k: nat)
    requires a != [] && b != [] && IdentifierEqual(a[0], b[0])
    ensures DecidesAt(a, b, k + 1) <==> DecidesAt(a[1..], b[1..], k)
  {
    hide IdentifierHigher, IdentifierEqual;
    if DecidesAt(a[1..], b[1..], k) {
      forall i | 0 <= i < k + 1 ensures IdentifierEqual(a[i], b[i]) {
        if i > 0 { assert IdentifierEqual(a[1..][i - 1], b[1..][i - 1]); }
      }
    }
    if DecidesAt(a, b, k + 1) {
      forall i | 0 <= i < k ensures IdentifierEqual(a[1..][i], b[1..][i]) {
        assert IdentifierEqual(a[i + 1], b[i + 1]);
      }
    }
  }

  lemma {:induction false} CoreMatchesSpec(a: seq<int>, b: seq<int>)
    requires |a| == |b|
    ensures CoreGreater(a, b) <==> CoreHigher(a, b)
    decreases |a|
  {
    if a != [] {
      CoreMatchesSpec(a[1..], b[1..]);
      if a[0] > b[0] {
        assert CoreDecidesAt(a, b, 0);
      } else if a[0] == b[0] {
        forall k: nat ensures CoreDecidesAt(a, b, k + 1) <==> CoreDecidesAt(a[1..], b[1..], k) {
          CoreDecidesShift(a, b, k);
        }
        if k: nat :| CoreDecidesAt(a, b, k) {
          assert k > 0 && CoreDecidesAt(a[1..], b[1..], k - 1);
        }
      } else {
        forall k: nat ensures !CoreDecidesAt(a, b, k) {
          if 0 < k < |a| {
            assert a[..k][0] == a[0] && b[..k][0] == b[0];
          }
        }
      }
    }
  }

  lemma CoreDecidesShift(a: seq<int>, b: seq<int>, k: nat)
    requires |a| == |b| && a != [] && a[0] == b[0]
    ensures CoreDecidesAt(a, b, k + 1) <==> CoreDecidesAt(a[1..], b[1..], k)
  {
    if k + 1 < |a| {
      assert a[..k + 1] == [a[0]] + a[1..][..k] && b[..k + 1] == [b[0]] + b[1..][..k];
      assert a[1..][..k] == a[..k + 1][1..] && b[1..][..k] == b[..k + 1][1..];
    }
  }

  lemma {:induction false} CoreHigherDiffers(a: seq<int>, b: seq<int>)
    requires |a| == |b| && CoreHigher(a, b)
    ensures a != b
  {}

  /**
   The updater's order is the precedence of Semantic Versioning exactly if the cores or the presence
   of a pre-release decide, or the first identifiers that differ are compared rightly as text.
   */
  lemma OrderIsSemanticPrecedenceIff(a: Version, b: Version)
    requires |a.core| == |b.core|
    requires forall x :: x in a.prerelease ==> NoLeadingZero(x)
    requires forall x :: x in b.prerelease ==> NoLeadingZero(x)
    ensures (VersionGreater(a, b) <==> Precedes(b, a)) <==>
            (a.core == b.core ==> DecidingPairFits(a.prerelease, b.prerelease))
  {
    hide CoreGreater, PrereleaseGreater, CoreHigher, PrereleaseHigher, NoLeadingZero, TextOrderFits;
    CoreMatchesSpec(a.core, b.core);
    PrereleaseMatchesSpecIff(a.prerelease, b.prerelease);
    if CoreHigher(a.core, b.core) { CoreHigherDiffers(a.core, b.core); }
  }

  /** Identifiers in range leave nothing to compare wrongly. */
  lemma {:induction false} InRangePairsFit(a: seq<string>, b: seq<string>)
    requires forall x :: x in a ==> !Oversized(x)
    requires forall x :: x in b ==> !Oversized(x)
    ensures DecidingPairFits(a, b)
    decreases |a|
  {
    hide Oversized;
    if a != [] && b != [] && a[0] == b[0] { InRangePairsFit(a[1..], b[1..]); }
  }

  /** On numbers in range the updater's order is the precedence of Semantic Versioning. */
  lemma OrderIsSemanticPrecedence(a: Version, b: Version)
    requires |a.core| == |b.core|
    requires forall x :: x in a.prerelease ==> NoLeadingZero(x) && !Oversized(x)
    requires forall x :: x in b.prerelease ==> NoLeadingZero(x) && !Oversized(x)
    ensures VersionGreater(a, b) <==> Precedes(b, a)
  {
    hide CoreGreater, PrereleaseGreater, Precedes, NoLeadingZero, Oversized, DecidingPairFits;
    OrderIsSemanticPrecedenceIff(a, b);
    InRangePairsFit(a.prerelease, b.prerelease);
  }

  // ----- version texts parse to what they say

  /** The part of a rendered version before its plus sign. */
  function RenderedText(core: seq<string>, identifiers: seq<string>): string
    requires core != []
  {
    Join(core, '.') + if identifiers == [] then "" else "-" + Join(identifiers, '.')
  }

  /** MAJOR.MINOR.PATCH, then identifiers after a dash, then whatever follows a plus sign. */
  function Rendered(core: seq<string>, identifiers: seq<string>, build: Option<string>): string
    requires core != []
  {
    RenderedText(core, identifiers) + if build.None? then "" else "+" + build.value
  }

  /** Digits in range for the core, non-empty identifiers without dots, plus signs or spaces. */
  predicate WellFormed(core: seq<string>, identifiers: seq<string>, build: Option<string>) {
    && 1 <= |core| <= 3 && (forall i :: 0 <= i < |core| ==> Numeric(core[i]) && Value(core[i]) <= MAX_I64)
    && (forall p :: p in identifiers ==>
          p != [] && '.' !in p && '+' !in p && forall i :: 0 <= i < |p| ==> !IsSpace(p[i]))
    && (build.Some? ==> forall i :: 0 <= i < |build.value| ==> !IsSpace(build.value[i]))
  }

  predicate NoSpaces(s: string) { forall i :: 0 <= i < |s| ==> !IsSpace(s[i]) }

  lemma {:induction false} JoinNoSpaces(parts: seq<string>)
    requires parts != [] && forall p :: p in parts ==> NoSpaces(p)
    ensures NoSpaces(Join(parts, '.'))
    decreases |parts|
  {
    assert parts[0] in parts;
    if |parts| > 1 { JoinNoSpaces(parts[1..]); }
  }

  lemma TrimsNothing(s: string)
    requires NoSpaces(s) && s != [] && s[0] != 'v'
    ensures TrimVersion(s) == s && TrimVersion("v" + s) == s
  {
    var t := "v" + s;
    assert t[0] == 'v' && t[1..] == s && t[|t| - 1] == s[|s| - 1];
  }

  lemma DigitsAvoid(core: seq<string>)
    requires core != [] && forall p :: p in core ==> Numeric(p)
    ensures forall p :: p in core ==> '.' !in p && '-' !in p && '+' !in p && NoSpaces(p)
  {
    forall p | p in core ensures '.' !in p && '-' !in p && '+' !in p && NoSpaces(p) {
      assert forall i :: 0 <= i < |p| ==> IsDigit(p[i]);
    }
  }

  /** Cutting at the first dash separates the numbers from the identifiers. */
  lemma {:induction false} RenderedTextRegions(core: seq<string>, identifiers: seq<string>)
    requires core != [] && (forall p :: p in core ==> '-' !in p)
    ensures var text := RenderedText(core, identifiers);
            && Before(text, '-') == Join(core, '.')
            && ('-' in text <==> identifiers != [])
            && (identifiers != [] ==> After(text, '-') == Join(identifiers, '.'))
  {
    hide Before, Join, After;
    JoinAvoids(core, '.', '-');
    var head, text := Join(core, '.'), RenderedText(core, identifiers);
    if identifiers == [] {
      assert text == head;
      BeforeAbsent(text, '-');
    } else {
      BeforeSeparator(head, '-', Join(identifiers, '.'));
      assert text == head + ['-'] + Join(identifiers, '.');
    }
  }

  lemma RenderedTextHasNoPlus(core: seq<string>, identifiers: seq<string>)
    requires core != [] && (forall p :: p in core ==> '+' !in p) && (forall p :: p in identifiers ==> '+' !in p)
    ensures '+' !in RenderedText(core, identifiers)
  {
    hide Join;
    JoinAvoids(core, '.', '+');
    if identifiers != [] { JoinAvoids(identifiers, '.', '+'); }
  }

  /** Cutting at the plus sign drops the build suffix. */
  lemma RenderedBeforePlus(core: seq<string>, identifiers: seq<string>, build: Option<string>)
    requires core != [] && '+' !in RenderedText(core, identifiers)
    ensures Before(Rendered(core, identifiers, build), '+') == RenderedText(core, identifiers)
  {
    hide Before, Join;
    var text := RenderedText(core, identifiers);
    if build.None? {
      assert Rendered(core, identifiers, build) == text;
      BeforeAbsent(text, '+');
    } else {
      assert Rendered(core, identifiers, build) == text + ['+'] + build.value;
      BeforeSeparator(text, '+', build.value);
    }
  }

  /** Cutting a rendered version at its plus sign and then at its first dash recovers its three regions. */
  lemma {:induction false} RenderedRegions(core: seq<string>, identifiers: seq<string>, build: Option<string>)
    requires WellFormed(core, identifiers, build)
    ensures var text := Before(Rendered(core, identifiers, build), '+');
            && Before(text, '-') == Join(core, '.')
            && ('-' in text <==> identifiers != [])
            && (identifiers != [] ==> After(text, '-') == Join(identifiers, '.'))
  {
    hide Before, After, Join, NoSpaces, IsSpace, Value, RenderedText, Rendered;
    DigitsAvoid(core);
    RenderedTextHasNoPlus(core, identifiers);
    RenderedBeforePlus(core, identifiers, build);
    RenderedTextRegions(core, identifiers);
  }

  lemma RenderedNeedsNoTrim(core: seq<string>, identifiers: seq<string>, build: Option<string>)
    requires WellFormed(core, identifiers, build)
    ensures var s := Rendered(core, identifiers, build);
            NoSpaces(s) && s != [] && s[0] != 'v'
  {
    hide IsSpace, Value;
    DigitsAvoid(core);
    JoinNoSpaces(core);
    if identifiers != [] { JoinNoSpaces(identifiers); }
    assert core[0] in core;
    assert Join(core, '.')[0] == core[0][0];
    DashAndPlusAreNotSpaces();
  }

  lemma DashAndPlusAreNotSpaces()
    ensures !IsSpace('-') && !IsSpace('+') && !IsSpace('.')
  {}

  /** The number in a place of the core; what is left out is zero. */
  function CoreValue(core: seq<string>, i: nat): nat {
    if i < |core| && AllDigits(core[i]) then Value(core[i]) else 0
  }

  /**
   Every well-formed version text, with or without a leading "v", parses to its numbers and identifiers;
   minor and patch may be left out.
   */
  lemma RenderedVersionParses(core: seq<string>, identifiers: seq<string>, build: Option<string>)
    requires WellFormed(core, identifiers, build)
    ensures var version := Some(Version([CoreValue(core, 0), CoreValue(core, 1), CoreValue(core, 2)], identifiers));
            && Parsed(Rendered(core, identifiers, build)) == version
            && Parsed("v" + Rendered(core, identifiers, build)) == version
  {
    hide Before, Join, Split, IsSpace, TrimVersion, After, NoSpaces;
    var s := Rendered(core, identifiers, build);
    RenderedNeedsNoTrim(core, identifiers, build);
    TrimsNothing(s);
    RenderedRegions(core, identifiers, build);
    DigitsAvoid(core);
    SplitInvertsJoin(core, '.');
    if identifiers != [] { SplitInvertsJoin(identifiers, '.'); }
    forall i | 0 <= i < |core| ensures CorePartOk(core[i]) && CoreNumber(core, i) == Value(core[i]) {}
    assert forall i :: 0 <= i < 3 ==> CoreNumber(core, i) == CoreValue(core, i);
  }

  // ----- the order of texts

  /** Where two texts part: one ends, or it has the smaller character there. */
  predicate PartsAt(a: string, b: string, k: nat) {
    k <= |a| && k < |b| && a[..k] == b[..k] && (k == |a| || a[k] < b[k])
  }

  /**
   A text comes before another exactly if it is a proper prefix or has the smaller character where they
   first differ.
   */
  lemma {:induction false} TextLessMeans(a: string, b: string)
    ensures TextLess(a, b) <==> exists k: nat :: PartsAt(a, b, k)
    decreases |a|
  {
    if b == [] {
    } else if a == [] || a[0] < b[0] {
      assert PartsAt(a, b, 0);
    } else if a[0] == b[0] {
      TextLessMeans(a[1..], b[1..]);
      if k: nat :| PartsAt(a[1..], b[1..], k) {
        assert a[..k + 1] == [a[0]] + a[1..][..k] && b[..k + 1] == [b[0]] + b[1..][..k];
        assert PartsAt(a, b, k + 1);
      }
      if k: nat :| PartsAt(a, b, k) {
        assert k > 0;
        assert a[1..][..k - 1] == a[..k][1..] && b[1..][..k - 1] == b[..k][1..];
        assert PartsAt(a[1..], b[1..], k - 1);
      }
    } else {
      forall k: nat ensures !PartsAt(a, b, k) {
        if 0 < k <= |a| && k <= |b| { assert a[..k][0] == a[0] && b[..k][0] == b[0]; }
      }
    }
  }

  /** Of two different texts one comes before the other. */
  lemma {:induction false} TextLessTotal(a: string, b: string)
    ensures TextLess(a, b) || TextLess(b, a) || a == b
    decreases |a|
  {
    if a != [] && b != [] && a[0] == b[0] {
      TextLessTotal(a[1..], b[1..]);
      assert a == [a[0]] + a[1..] && b == [b[0]] + b[1..];
    }
  }

  // ----- texts that are no versions, and short ones

  lemma {:induction false} TrimLeftDrops(pad: string, s: string)
    requires (forall i :: 0 <= i < |pad| ==> IsSpace(pad[i])) && (s != [] ==> !IsSpace(s[0]))
    ensures TrimLeft(pad + s) == s
    decreases |pad|
  {
    hide IsSpace;
    if pad == [] {
      assert pad + s == s;
    } else {
      assert (pad + s)[1..] == pad[1..] + s;
      TrimLeftDrops(pad[1..], s);
    }
  }

  lemma {:induction false} TrimRightDrops(s: string, pad: string)
    requires (forall i :: 0 <= i < |pad| ==> IsSpace(pad[i])) && (s != [] ==> !IsSpace(s[|s| - 1]))
    ensures TrimRight(s + pad) == s
    decreases |pad|
  {
    hide IsSpace;
    if pad == [] {
      assert s + pad == s;
    } else {
      var n := |pad| - 1;
      assert (s + pad)[..|s + pad| - 1] == s + pad[..n];
      TrimRightDrops(s, pad[..n]);
    }
  }

  /** Spaces around a version do not matter. */
  lemma SpacesAroundAreIgnored(before: string, s: string, after: string)
    requires s != [] && !IsSpace(s[0]) && !IsSpace(s[|s| - 1])
    requires (forall i :: 0 <= i < |before| ==> IsSpace(before[i]))
             && (forall i :: 0 <= i < |after| ==> IsSpace(after[i]))
    ensures Parsed(before + s + after) == Parsed(s)
  {
    hide IsSpace, TrimLeft, TrimRight;
    assert before + s + after == before + (s + after);
    TrimLeftDrops(before, s + after);
    TrimLeftDrops([], s);
    assert [] + s == s;
    TrimRightDrops(s, after);
    TrimRightDrops(s, []);
    assert s + [] == s;
  }

  /** Digits only, and within the machine's integers. */
  predicate InRangeNumber(part: string) { Numeric(part) && Value(part) <= MAX_I64 }

  /**
   What a text needs to be a version: something before the plus sign and dash that is one to three
   numbers, and no empty identifier.
   */
  lemma ParsesExactlyWhen(value: string)
    ensures var trimmed := TrimVersion(value);
            var text := Before(trimmed, '+');
            var parts := Split(Before(text, '-'), '.');
            Parsed(value).Some? <==>
              && trimmed != "" && |parts| <= 3
              && (forall i :: 0 <= i < |parts| ==> InRangeNumber(parts[i]))
              && ('-' in text ==> "" !in Split(After(text, '-'), '.'))
  {
    hide TrimVersion, Split, After, Before, CorePartOk, InRangeNumber;
    var text := Before(TrimVersion(value), '+');
    var parts := Split(Before(text, '-'), '.');
    forall i | 0 <= i < |parts| ensures CorePartOk(parts[i]) <==> InRangeNumber(parts[i]) {
      CorePartIsNumber(value, i);
    }
    assert (exists i :: 0 <= i < |parts| && !CorePartOk(parts[i]))
        <==> !(forall i :: 0 <= i < |parts| ==> InRangeNumber(parts[i]));
  }

  lemma {:induction false} BeforeKeepsOut(s: string, c: char, d: char)
    requires d !in s
    ensures d !in Before(s, c)
    decreases |s|
  {
    if s != [] && s[0] != c { BeforeKeepsOut(s[1..], c, d); }
  }

  lemma {:induction false} PiecesKeepOut(s: string, c: char, d: char)
    requires d !in s
    ensures forall p :: p in Split(s, c) ==> d !in p
    decreases |s|
  {
    hide Before;
    BeforeKeepsOut(s, c, d);
    if c in s {
      BeforeIsPrefix(s, c);
      assert forall i :: 0 <= i < |After(s, c)| ==> After(s, c)[i] in s;
      PiecesKeepOut(After(s, c), c, d);
    }
  }

  /** No sign is left in a part of the core, so that it is a number exactly if it is all digits and in range. */
  lemma CorePartIsNumber(value: string, i: nat)
    requires i < |Split(Before(Before(TrimVersion(value), '+'), '-'), '.')|
    ensures var part := Split(Before(Before(TrimVersion(value), '+'), '-'), '.')[i];
            CorePartOk(part) <==> InRangeNumber(part)
  {
    hide TrimVersion, Split, Before;
    var head := Before(Before(TrimVersion(value), '+'), '-');
    BeforeKeepsOut(Before(TrimVersion(value), '+'), '-', '+');
    PiecesKeepOut(head, '.', '+');
    PiecesKeepOut(head, '.', '-');
    var part := Split(head, '.')[i];
    assert part in Split(head, '.');
    assert part != [] ==> part[0] in part;
  }

  // ----- where the order departs from Semantic Versioning

  function PowerOfTen(n: nat): nat { if n == 0 then 1 else 10 * PowerOfTen(n - 1) }

  lemma {:induction false} LeadingDigitPower(id: string)
    requires Numeric(id) && id[0] != '0'
    ensures Value(id) >= PowerOfTen(|id| - 1)
    decreases |id|
  {
    if |id| > 1 {
      assert id[..|id| - 1][0] == id[0];
      LeadingDigitPower(id[..|id| - 1]);
    } else {
      LeadingDigitBounds(id);
    }
  }

  lemma {:induction false} PowersGrow(m: nat, n: nat)
    requires m <= n
    ensures PowerOfTen(m) <= PowerOfTen(n)
    decreases n
  {
    if m < n { PowersGrow(m, n - 1); }
  }

  /** Twenty digits and more are always beyond the machine's integers. */
  lemma TwentyDigitsAreOversized(id: string)
    requires Numeric(id) && id[0] != '0' && |id| >= 20
    ensures Oversized(id)
  {
    LeadingDigitPower(id);
    PowersGrow(19, |id| - 1);
    assert PowerOfTen(7) == 10_000_000;
    assert PowerOfTen(13) == 10_000_000_000_000;
    assert PowerOfTen(19) == 10_000_000_000_000_000_000;
  }

  /** A version 1.0.0 with one pre-release identifier, as text and as parsed. */
  function Candidate(id: string): string { Rendered(["1", "0", "0"], [id], None) }

  lemma CandidateParses(id: string)
    requires WellFormed(["1", "0", "0"], [id], None)
    ensures Parsed(Candidate(id)).Some? && Parsed(Candidate(id)).value.prerelease == [id]
    ensures Parsed(Candidate(id)).value.core == [Value("1"), Value("0"), Value("0")]
    ensures Candidate(id) != "" && Candidate(id) != "dev"
  {
    hide Parsed;
    RenderedVersionParses(["1", "0", "0"], [id], None);
    assert Candidate(id)[0] == '1';
  }

  lemma DigitCoreWellFormed(id: string)
    requires id != [] && '.' !in id && '+' !in id && NoSpaces(id)
    ensures WellFormed(["1", "0", "0"], [id], None)
  {
    SingleDigit("1");
    SingleDigit("0");
  }

  /** What the updater says of two candidates whose identifiers it compares as text. */
  lemma {:induction false} CandidatesComparedAsText(a: string, b: string)
    requires a != [] && '.' !in a && '+' !in a && NoSpaces(a) && b != [] && '.' !in b && '+' !in b && NoSpaces(b)
    requires NumericIdentifier(a).None? && NumericIdentifier(b).None? && a != b
    ensures Newer(Candidate(a), Candidate(b)) <==> TextLess(b, a)
  {
    hide Parsed, Candidate, NumericIdentifier, TextLess, NoSpaces, WellFormed;
    DigitCoreWellFormed(a);
    DigitCoreWellFormed(b);
    CandidateParses(a);
    CandidateParses(b);
    assert PrereleaseGreater([a], [b]) == PartGreater(a, b);
  }

  const MANY_NINES := "99999999999999999999"
  const ONE_MANY_ZEROS := "100000000000000000000"

  lemma LongIdentifiers()
    ensures Oversized(MANY_NINES) && Oversized(ONE_MANY_ZEROS)
    ensures NoSpaces(MANY_NINES) && NoSpaces(ONE_MANY_ZEROS)
  {
    TwentyDigitsAreOversized(MANY_NINES);
    TwentyDigitsAreOversized(ONE_MANY_ZEROS);
  }

  /**
   Beyond the range the updater can take a lower version for a newer one: 10^20 - 1 before 10^20, and
   a number before an identifier with a letter.
   */
  lemma OversizedMisordered()
    ensures var nines, power := Parsed(Candidate("99999999999999999999")), Parsed(Candidate("100000000000000000000"));
            && nines.Some? && power.Some? && |nines.value.core| == |power.value.core|
            && Newer(Candidate("99999999999999999999"), Candidate("100000000000000000000"))
            && Precedes(nines.value, power.value)
    ensures var nines, letter := Parsed(Candidate("99999999999999999999")), Parsed(Candidate("1a"));
            && nines.Some? && letter.Some? && |nines.value.core| == |letter.value.core|
            && Newer(Candidate("99999999999999999999"), Candidate("1a"))
            && Precedes(nines.value, letter.value)
  {
    hide Parsed, Candidate, NumericIdentifier, WellFormed, NoSpaces, CoreHigher, Value;
    LongIdentifiers();
    LetterIdentifier();
    NumericIdentifierOf(MANY_NINES);
    NumericIdentifierOf(ONE_MANY_ZEROS);
    NumericIdentifierOf("1a");
    assert TextLess(ONE_MANY_ZEROS, MANY_NINES) && TextLess("1a", MANY_NINES);
    CandidatesComparedAsText(MANY_NINES, ONE_MANY_ZEROS);
    CandidatesComparedAsText(MANY_NINES, "1a");
    DigitCoreWellFormed(MANY_NINES);
    DigitCoreWellFormed(ONE_MANY_ZEROS);
    DigitCoreWellFormed("1a");
    CandidateParses(MANY_NINES);
    CandidateParses(ONE_MANY_ZEROS);
    CandidateParses("1a");
    LongerIsLarger(ONE_MANY_ZEROS, MANY_NINES);
    assert DecidesAt([ONE_MANY_ZEROS], [MANY_NINES], 0);
    assert DecidesAt(["1a"], [MANY_NINES], 0);
  }

  lemma LetterIdentifier()
    ensures !Numeric("1a") && NoSpaces("1a")
  {
    assert !IsDigit("1a"[1]);
  }

  /**
   A development build, or one without a version, is never replaced; nor does a text that is no version
   replace anything.
   */
  lemma NeverUpdated(candidate: string, current: string)
    ensures !Newer(candidate, "") && !Newer(candidate, "dev")
    ensures Parsed(candidate).None? || Parsed(current).None? ==> !Newer(candidate, current)
  {
    hide Parsed;
  }

}
