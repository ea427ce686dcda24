/**
 Thinning a history out to a maximum number of points: evenly spaced positions from the first to the
 last sample.
 */
module Downsample {

  datatype Sample = Sample(receivedAt: int, value: int)

  /** The exact position of point `i`: `i` steps of (n - 1) / (points - 1), rounded down. */
  function Position(n: nat, points: nat, i: nat): nat
    requires n > 0 && points > 1
  {
    i * (n - 1) / (points - 1)
  }

  /** The positions visited by the first `i` turns of the loop, without immediate repetitions. */
  function Visited(position: nat -> nat, i: nat): seq<nat> {
    if i == 0 then []
    else
      var before := Visited(position, i - 1);
      if before != [] && before[|before| - 1] == position(i - 1) then before else before + [position(i - 1)]
  }

  function At(input: seq<Sample>, positions: seq<nat>): seq<Sample>
    requires forall k :: 0 <= k < |positions| ==> positions[k] < |input|
  {
    seq(|positions|, k requires 0 <= k < |positions| => input[positions[k]])
  }

  /** The output with its last point replaced if it does not carry the input's last timestamp. */
  function LastFixed(input: seq<Sample>, output: seq<Sample>): seq<Sample>
    requires input != [] && output != []
  {
    var last := input[|input| - 1];
    if output[|output| - 1].receivedAt != last.receivedAt then output[|output| - 1 := last] else output
  }

  lemma {:induction false} VisitedInRange(position: nat -> nat, i: nat, bound: nat)
    requires forall k :: 0 <= k < i ==> position(k) < bound
    ensures forall k :: 0 <= k < |Visited(position, i)| ==> Visited(position, i)[k] < bound
    ensures i > 0 ==> Visited(position, i) != [] && Visited(position, i)[|Visited(position, i)| - 1] == position(i - 1)
  {
    if i > 0 { VisitedInRange(position, i - 1, bound); }
  }

  /** The loop, for whatever positions its floating-point arithmetic produces within the input. */
  method Thin(input: seq<Sample>, maxPoints: int, position: nat -> nat) returns (output: seq<Sample>)
    requires forall k :: 0 <= k < maxPoints && |input| > 0 ==> position(k) < |input|
    ensures maxPoints <= 0 || |input| <= maxPoints ==> output == input
    ensures maxPoints == 1 < |input| ==> output == [input[|input| - 1]]
    ensures 1 < maxPoints < |input| ==>
              && (forall k :: 0 <= k < |Visited(position, maxPoints)| ==> Visited(position, maxPoints)[k] < |input|)
              && Visited(position, maxPoints) != []
              && output == LastFixed(input, At(input, Visited(position, maxPoints)))
  {
    if maxPoints <= 0 || |input| <= maxPoints {
      return input;
    }
    if maxPoints == 1 {
      return [input[|input| - 1]];
    }
    output := [];
    var last: int := -1;
    for i := 0 to maxPoints
      invariant forall k :: 0 <= k < |Visited(position, i)| ==> Visited(position, i)[k] < |input|
      invariant output == At(input, Visited(position, i))
      invariant last == if i == 0 then -1 else position(i - 1)
      invariant i > 0 ==> Visited(position, i) != [] && Visited(position, i)[|Visited(position, i)| - 1] == last
    {
      VisitedInRange(position, i + 1, |input|);
      var index := position(i);
      if index != last {
        output := output + [input[index]];
        last := index;
      }
    }
    if output[|output| - 1].receivedAt != input[|input| - 1].receivedAt {
      output := output[|output| - 1 := input[|input| - 1]];
    }
  }

  // ----- exact positions

  lemma MultiplesApart(p: nat, q: nat, d: nat)
    requires p < q
    ensures q * d >= p * d + d
  {
    assert q * d == p * d + (q - p) * d;
    assert (q - p) * d == d + (q - p - 1) * d;
  }

  lemma QuotientsOrdered(p: nat, r: nat, q: nat, t: nat, d: nat)
    requires r < d && p * d + r <= q * d + t && t < d
    ensures p <= q
  {
    if q < p { MultiplesApart(q, p, d); }
  }

  lemma DivUnique(x: nat, d: nat, q: nat, r: nat)
    requires d > 0 && x == q * d + r && r < d
    ensures x / d == q
  {
    var p, t := x / d, x % d;
    assert x == p * d + t;
    QuotientsOrdered(p, t, q, r, d);
    QuotientsOrdered(q, r, p, t, d);
  }

  lemma DivAddMultiple(x: nat, d: nat)
    requires d > 0
    ensures (x + d) / d == x / d + 1
  {
    var q, r := x / d, x % d;
    assert x == q * d + r;
    assert (q + 1) * d == q * d + d;
    DivUnique(x + d, d, q + 1, r);
  }

  lemma DivMonotone(x: nat, y: nat, d: nat)
    requires d > 0 && x <= y
    ensures x / d <= y / d
  {
    assert x == x / d * d + x % d && y == y / d * d + y % d;
    QuotientsOrdered(x / d, x % d, y / d, y % d, d);
  }

  /** With fewer points than samples each step moves on by at least one. */
  lemma PositionStep(n: nat, points: nat, i: nat)
    requires 1 < points < n
    ensures Position(n, points, i) < Position(n, points, i + 1)
  {
    var a, d := n - 1, points - 1;
    assert (i + 1) * a == i * a + a;
    DivAddMultiple(i * a, d);
    DivMonotone(i * a + d, i * a + a, d);
  }

  lemma PositionEnds(n: nat, points: nat)
    requires 1 < points < n
    ensures Position(n, points, 0) == 0 && Position(n, points, points - 1) == n - 1
  {
    DivUnique(0, points - 1, 0, 0);
    assert 0 * (n - 1) == 0;
    assert (points - 1) * (n - 1) == (n - 1) * (points - 1) + 0;
    DivUnique((points - 1) * (n - 1), points - 1, n - 1, 0);
  }

  lemma {:induction false} PositionIncreases(n: nat, points: nat, i: nat, j: nat)
    requires 1 < points < n && i < j
    ensures Position(n, points, i) < Position(n, points, j)
    decreases j
  {
    hide Position;
    PositionStep(n, points, j - 1);
    if i < j - 1 { PositionIncreases(n, points, i, j - 1); }
  }

  /** Positions that never repeat are all kept. */
  lemma {:induction false} NothingSkipped(position: nat -> nat, i: nat)
    requires forall k :: 0 < k < i ==> position(k) != position(k - 1)
    ensures |Visited(position, i)| == i
    ensures forall k :: 0 <= k < i ==> Visited(position, i)[k] == position(k)
  {
    if i > 0 { NothingSkipped(position, i - 1); }
  }

  lemma {:induction false} ExactPositions(n: nat, points: nat, position: nat -> nat)
    requires 1 < points < n
    requires forall i :: 0 <= i < points ==> position(i) == Position(n, points, i)
    ensures var chosen := Visited(position, points);
            && |chosen| == points && chosen[0] == 0 && chosen[points - 1] == n - 1
            && (forall i, j :: 0 <= i < j < points ==> chosen[i] < chosen[j])
  {
    hide Position, Visited;
    forall i, j | 0 <= i < j < points ensures position(i) < position(j) {
      PositionIncreases(n, points, i, j);
    }
    NothingSkipped(position, points);
    PositionEnds(n, points);
  }

  /**
   With exact arithmetic the output has exactly the wanted number of points, at strictly increasing
   positions that include the first and the last sample; nothing is skipped and nothing is fixed up.
   */
  lemma {:induction false} ExactThinning(input: seq<Sample>, points: nat, position: nat -> nat)
    requires 1 < points < |input|
    requires forall i :: 0 <= i < points ==> position(i) == Position(|input|, points, i)
    ensures var chosen := Visited(position, points);
            && |chosen| == points && chosen[0] == 0 && chosen[points - 1] == |input| - 1
            && (forall i, j :: 0 <= i < j < points ==> chosen[i] < chosen[j])
            && (forall i :: 0 <= i < points ==> chosen[i] < |input|)
            && LastFixed(input, At(input, chosen)) == At(input, chosen)
            && At(input, chosen)[points - 1] == input[|input| - 1]
  {
    hide Position, Visited;
    ExactPositions(|input|, points, position);
    var chosen := Visited(position, points);
    assert forall i :: 0 <= i < points - 1 ==> chosen[i] < chosen[points - 1];
    assert At(input, chosen)[points - 1] == input[chosen[points - 1]];
  }

  /** If rounding makes just the last position one too low, the fix-up still ends the output with the last sample. */
  lemma {:induction false} LowLastPositionIsFixed(input: seq<Sample>, points: nat, position: nat -> nat)
    requires 1 < points < |input|
    requires forall i :: 0 <= i < points - 1 ==> position(i) == Position(|input|, points, i)
    requires position(points - 1) == |input| - 2
    requires forall i, j :: 0 <= i < j < |input| ==> input[i].receivedAt != input[j].receivedAt
    ensures var chosen := Visited(position, points);
            && chosen != [] && (forall k :: 0 <= k < |chosen| ==> chosen[k] < |input|)
            && var output := LastFixed(input, At(input, chosen));
               output[|output| - 1] == input[|input| - 1]
  {
    hide Position;
    PositionEnds(|input|, points);
    forall i | 0 <= i < points - 1 ensures position(i) < |input| {
      PositionIncreases(|input|, points, i, points - 1);
    }
    VisitedInRange(position, points, |input|);
  }

  /**
   Exact positions are evenly spread: the i-th lies at i equal steps from the first to the last sample,
   rounded down.
   */
  lemma EvenlySpread(n: nat, points: nat, i: nat)
    requires 1 < points < n
    ensures Position(n, points, i) * (points - 1) <= i * (n - 1) < (Position(n, points, i) + 1) * (points - 1)
  {
    var x, d := i * (n - 1), points - 1;
    assert x == x / d * d + x % d;
    assert (x / d + 1) * d == x / d * d + d;
  }

  /** So two neighbours are a full step apart, give or take one sample. */
  lemma NeighboursApart(n: nat, points: nat, i: nat)
    requires 1 < points < n
    ensures var gap := Position(n, points, i + 1) - Position(n, points, i);
            (gap - 1) * (points - 1) < n - 1 < (gap + 1) * (points - 1)
  {
    hide Position;
    var p, q, a, d := Position(n, points, i), Position(n, points, i + 1), n - 1, points - 1;
    EvenlySpread(n, points, i);
    EvenlySpread(n, points, i + 1);
    assert (i + 1) * a == i * a + a;
    assert (q - p - 1) * d == q * d - (p + 1) * d;
    assert (q - p + 1) * d == (q + 1) * d - p * d;
  }

  /** Whatever positions come out, the output never repeats one right after itself and leaves none out. */
  lemma {:induction false} VisitedExactly(position: nat -> nat, i: nat)
    ensures forall k :: 0 < k < |Visited(position, i)| ==> Visited(position, i)[k] != Visited(position, i)[k - 1]
    ensures forall k :: 0 <= k < i ==> position(k) in Visited(position, i)
    ensures |Visited(position, i)| <= i
  {
    if i > 0 { VisitedExactly(position, i - 1); }
  }

}
