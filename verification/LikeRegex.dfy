/**
  The regular expressions that internal/db.py builds, under a backtracking engine's
  semantics: the ends of the matches from a start, in the order the engine tries them.
 */
module LikeRegex {
  import opened LikeSemantics

  datatype Regex =
    | Empty
    | One(atom: Atom)
    | Then(first: Regex, second: Regex)
    | LazyAny                // .*?  (DOTALL)
    | GreedyAny              // .*   (DOTALL)
    | Atomic(body: Regex)    // (?>body)

  predicate Within(positions: seq<nat>, low: nat, high: nat) {
    forall k :: 0 <= k < |positions| ==> low <= positions[k] <= high
  }

  function Ends(regex: Regex, value: string, i: nat): (ends: seq<nat>)
    requires i <= |value|
    ensures Within(ends, i, |value|)
    decreases regex, 0
  {
    match regex
    case Empty => [i]
    case One(atom) => if i < |value| && atom.Accepts(value[i]) then [i + 1] else []
    case Then(first, second) => EndsFromAll(second, value, Ends(first, value, i), i)
    case LazyAny => Upwards(i, |value|)
    case GreedyAny => Downwards(i, |value|)
    case Atomic(body) =>
      var ends := Ends(body, value, i);
      if ends == [] then [] else [ends[0]]
  }

  function EndsFromAll(regex: Regex, value: string, starts: seq<nat>, low: nat): (ends: seq<nat>)
    requires Within(starts, low, |value|)
    ensures Within(ends, low, |value|)
    decreases regex, 1 + |starts|
  {
    if starts == [] then []
    else Ends(regex, value, starts[0]) + EndsFromAll(regex, value, starts[1..], low)
  }

  function Upwards(i: nat, n: nat): (s: seq<nat>)
    requires i <= n
    ensures Within(s, i, n) && forall e: nat :: i <= e <= n ==> e in s
    decreases n - i
  {
    if i == n then [n] else [i] + Upwards(i + 1, n)
  }

  function Downwards(i: nat, n: nat): (s: seq<nat>)
    requires i <= n
    ensures Within(s, i, n) && forall e: nat :: i <= e <= n ==> e in s
    decreases n - i
  {
    if i == n then [i] else Downwards(i + 1, n) + [i]
  }

  /** `re.fullmatch`: the engine backtracks until some match ends at the end of the value. */
  predicate FullMatch(regex: Regex, value: string) {
    |value| in Ends(regex, value, 0)
  }

  function SegmentRegex(segment: Segment): Regex {
    if segment == [] then Empty else Then(One(segment[0]), SegmentRegex(segment[1..]))
  }

  /** Every segment after the first: an atomic lazy search each, and a greedy one for the last. */
  function TailRegex(segments: seq<Segment>): Regex
    requires |segments| > 0
  {
    if |segments| == 1 then Then(GreedyAny, SegmentRegex(segments[0]))
    else Then(Atomic(Then(LazyAny, SegmentRegex(segments[0]))), TailRegex(segments[1..]))
  }

  function ToRegex(segments: seq<Segment>): Regex
    requires |segments| > 0
  {
    if |segments| == 1 then SegmentRegex(segments[0])
    else Then(SegmentRegex(segments[0]), TailRegex(segments[1..]))
  }

  lemma EndsFromOne(regex: Regex, value: string, start: nat, low: nat)
    requires low <= start <= |value|
    ensures EndsFromAll(regex, value, [start], low) == Ends(regex, value, start)
  {
    assert EndsFromAll(regex, value, [], low) == [];
  }

  lemma {:induction false} SegmentEnds(segment: Segment, value: string, i: nat)
    requires i <= |value|
    ensures Ends(SegmentRegex(segment), value, i) == if OccursAt(segment, value, i) then [i + |segment|] else []
  {
    if segment == [] {
    } else {
      var tail := segment[1..];
      if i < |value| && segment[0].Accepts(value[i]) {
        SegmentEnds(tail, value, i + 1);
        EndsFromOne(SegmentRegex(tail), value, i + 1, i);
      }
    }
  }

  /** The leftmost place at or after `i` where the segment occurs, or -1. */
  function Leftmost(segment: Segment, value: string, i: nat): (j: int)
    requires i <= |value|
    ensures j == -1 ==> forall k: nat :: i <= k <= |value| ==> !OccursAt(segment, value, k)
    ensures j != -1 ==> i <= j && OccursAt(segment, value, j)
    ensures j != -1 ==> forall k: nat :: i <= k < j ==> !OccursAt(segment, value, k)
    decreases |value| - i
  {
    if OccursAt(segment, value, i) then i
    else if i == |value| then -1
    else Leftmost(segment, value, i + 1)
  }

  /** A lazy search tries the leftmost occurrence first. */
  lemma {:induction false} LazyTriesLeftmost(segment: Segment, value: string, i: nat, low: nat)
    requires low <= i <= |value|
    ensures var ends := EndsFromAll(SegmentRegex(segment), value, Upwards(i, |value|), low);
            var j := Leftmost(segment, value, i);
            if j == -1 then ends == [] else ends != [] && ends[0] == j + |segment|
    decreases |value| - i
  {
    SegmentEnds(segment, value, i);
    if i < |value| {
      LazyTriesLeftmost(segment, value, i + 1, low);
      assert Upwards(i, |value|)[1..] == Upwards(i + 1, |value|);
    } else {
      assert Upwards(i, |value|)[1..] == [];
    }
  }

  lemma AtomicPinsLeftmost(segment: Segment, value: string, i: nat)
    requires i <= |value|
    ensures var j := Leftmost(segment, value, i);
            Ends(Atomic(Then(LazyAny, SegmentRegex(segment))), value, i) == if j == -1 then [] else [j + |segment|]
  {
    LazyTriesLeftmost(segment, value, i, i);
    var search := Then(LazyAny, SegmentRegex(segment));
    assert Ends(search, value, i) == EndsFromAll(SegmentRegex(segment), value, Upwards(i, |value|), i);
  }

  lemma {:induction false} LastSegmentFromStarts(segment: Segment, value: string, starts: seq<nat>, low: nat)
    requires Within(starts, low, |value|)
    ensures |value| in EndsFromAll(SegmentRegex(segment), value, starts, low)
       <==> exists k :: 0 <= k < |starts| && EndsTheValue(segment, value, starts[k])
  {
    if starts != [] {
      var rest := starts[1..];
      LastSegmentFromStarts(segment, value, rest, low);
      SegmentEnds(segment, value, starts[0]);
      if k :| 0 <= k < |rest| && EndsTheValue(segment, value, rest[k]) {
        assert EndsTheValue(segment, value, starts[k + 1]);
      }
      if k :| 0 <= k < |starts| && EndsTheValue(segment, value, starts[k]) {
        assert k > 0 ==> EndsTheValue(segment, value, rest[k - 1]);
      }
    }
  }

  predicate EndsTheValue(segment: Segment, value: string, i: nat) {
    OccursAt(segment, value, i) && i + |segment| == |value|
  }

  lemma LastSegmentIsExact(segments: seq<Segment>, value: string, i: nat)
    requires |segments| == 1 && i <= |value|
    ensures |value| in Ends(TailRegex(segments), value, i) <==> CoversFrom(segments, value, i)
  {
    var segment, starts := segments[0], Downwards(i, |value|);
    LastSegmentFromStarts(segment, value, starts, i);
    if k :| 0 <= k < |starts| && EndsTheValue(segment, value, starts[k]) {
      CoversFromHere(segments, value, i, starts[k]);
    }
    if CoversFrom(segments, value, i) {
      var s := CoversFromWhere(segments, value, i);
      assert s in starts;
      var k :| 0 <= k < |starts| && starts[k] == s;
      assert EndsTheValue(segment, value, starts[k]);
    }
  }

  /** Pinning each middle segment to its leftmost occurrence loses no match: the exchange argument. */
  lemma {:induction false} PinnedTailIsExact(segments: seq<Segment>, value: string, i: nat)
    requires |segments| > 0 && i <= |value|
    ensures |value| in Ends(TailRegex(segments), value, i) <==> CoversFrom(segments, value, i)
  {
    var segment := segments[0];
    if |segments| == 1 {
      LastSegmentIsExact(segments, value, i);
    } else {
      var rest := segments[1..];
      var j := Leftmost(segment, value, i);
      AtomicPinsLeftmost(segment, value, i);
      if j == -1 {
        NoOccurrenceNoCover(segments, value, i);
        assert EndsFromAll(TailRegex(rest), value, [], i) == [];
      } else {
        var pin: nat := j + |segment|;
        PinnedTailIsExact(rest, value, pin);
        EndsFromOne(TailRegex(rest), value, pin, i);
        LeftmostSuffices(segments, value, i, j);
      }
    }
  }

  lemma NoOccurrenceNoCover(segments: seq<Segment>, value: string, i: nat)
    requires |segments| > 0 && i <= |value| && Leftmost(segments[0], value, i) == -1
    ensures !CoversFrom(segments, value, i)
  {
    if CoversFrom(segments, value, i) {
      var k := CoversFromWhere(segments, value, i);
      assert false;
    }
  }

  lemma LeftmostSuffices(segments: seq<Segment>, value: string, i: nat, j: nat)
    requires |segments| > 1 && i <= |value| && Leftmost(segments[0], value, i) == j
    ensures CoversFrom(segments[1..], value, j + |segments[0]|) <==> CoversFrom(segments, value, i)
  {
    var width := |segments[0]|;
    if CoversFrom(segments, value, i) {
      var k := CoversFromWhere(segments, value, i);
      assert OccursAt(segments[0], value, k);
      var later := CoversFromWhere(segments[1..], value, k + width);
      CoversFromHere(segments[1..], value, j + width, later);
    }
    if CoversFrom(segments[1..], value, j + width) {
      CoversFromHere(segments, value, i, j);
    }
  }

  /** The compiled expression fully matches exactly the values the segments cover. */
  lemma RegexIsExact(segments: seq<Segment>, value: string)
    requires |segments| > 0
    ensures FullMatch(ToRegex(segments), value) <==> Covers(segments, value, 0)
  {
    SegmentEnds(segments[0], value, 0);
    if |segments| > 1 && OccursAt(segments[0], value, 0) {
      var width := |segments[0]|;
      PinnedTailIsExact(segments[1..], value, width);
      EndsFromOne(TailRegex(segments[1..]), value, width, 0);
    } else if |segments| > 1 {
      assert EndsFromAll(TailRegex(segments[1..]), value, [], 0) == [];
    }
  }
}
