/**
  The plain meaning of `value LIKE pattern ESCAPE escape`, and the segment form to
  which the SQLite replacement in internal/db.py compiles a pattern.
 */
module LikeSemantics {
  import opened Wrappers

  /** The reference: '%' tries every split, '_' takes one character, an escape makes the
      next character literal, and an escape with nothing after it matches no value. */
  predicate Like(pattern: string, escape: Option<char>, value: string)
    decreases |pattern| + |value|
  {
    if pattern == "" then
      value == ""
    else if escape == Some(pattern[0]) then
      |pattern| > 1 && value != "" && value[0] == pattern[1] && Like(pattern[2..], escape, value[1..])
    else if pattern[0] == '%' then
      Like(pattern[1..], escape, value) || (value != "" && Like(pattern, escape, value[1..]))
    else
      value != "" && (pattern[0] == '_' || value[0] == pattern[0]) && Like(pattern[1..], escape, value[1..])
  }

  /** One position of a segment: `.` or an escaped literal. */
  datatype Atom = AnyChar | Exactly(c: char) {
    predicate Accepts(x: char) {
      AnyChar? || c == x
    }
  }

  type Segment = seq<Atom>

  /** The segments of `pattern` split at its unescaped '%', or None when an escape dangles.
      `escaped` says that the character just before `pattern` was an unescaped escape. */
  function Segments(pattern: string, escape: Option<char>, escaped: bool): (segments: Option<seq<Segment>>)
    ensures segments.Some? ==> |segments.value| > 0
  {
    if pattern == "" then
      if escaped then None else Some([[]])
    else if !escaped && escape == Some(pattern[0]) then
      Segments(pattern[1..], escape, true)
    else
      match Segments(pattern[1..], escape, false)
      case None => None
      case Some(rest) =>
        if !escaped && pattern[0] == '%' then Some([[]] + rest)
        else Some([[AtomOf(pattern[0], escaped)] + rest[0]] + rest[1..])
  }

  function AtomOf(c: char, escaped: bool): Atom {
    if !escaped && c == '_' then AnyChar else Exactly(c)
  }

  /** `segment` occurs in `value` at position `i`. */
  predicate OccursAt(segment: Segment, value: string, i: nat)
    ensures OccursAt(segment, value, i) ==> i + |segment| <= |value|
  {
    if segment == [] then i <= |value|
    else i < |value| && segment[0].Accepts(value[i]) && OccursAt(segment[1..], value, i + 1)
  }

  /** `value[i..]` is the segments in order, with any gap between consecutive ones. */
  predicate Covers(segments: seq<Segment>, value: string, i: nat)
    requires |segments| > 0
    decreases |segments|, 0, 0
  {
    OccursAt(segments[0], value, i) &&
    if |segments| == 1 then i + |segments[0]| == |value|
    else CoversFrom(segments[1..], value, i + |segments[0]|)
  }

  /** The segments cover some suffix of `value` that begins at `i` or later. */
  predicate CoversFrom(segments: seq<Segment>, value: string, i: nat)
    requires |segments| > 0 && i <= |value|
    decreases |segments|, 1, |value| - i
  {
    Covers(segments, value, i) || (i < |value| && CoversFrom(segments, value, i + 1))
  }

  lemma {:induction false} CoversFromWhere(segments: seq<Segment>, value: string, i: nat) returns (k: nat)
    requires |segments| > 0 && i <= |value| && CoversFrom(segments, value, i)
    ensures i <= k <= |value| && Covers(segments, value, k)
    decreases |value| - i
  {
    if Covers(segments, value, i) {
      k := i;
    } else {
      k := CoversFromWhere(segments, value, i + 1);
    }
  }

  lemma {:induction false} CoversFromHere(segments: seq<Segment>, value: string, i: nat, k: nat)
    requires |segments| > 0 && i <= k <= |value| && Covers(segments, value, k)
    ensures CoversFrom(segments, value, i)
    decreases k - i
  {
    if i < k {
      CoversFromHere(segments, value, i + 1, k);
    }
  }

  lemma CoversPrepend(atom: Atom, segments: seq<Segment>, value: string, i: nat)
    requires |segments| > 0
    ensures Covers([[atom] + segments[0]] + segments[1..], value, i)
       <==> i < |value| && atom.Accepts(value[i]) && Covers(segments, value, i + 1)
  {
    var longer := [[atom] + segments[0]] + segments[1..];
    assert longer[1..] == segments[1..];
    assert longer[0][1..] == segments[0];
  }

  /** Splitting at '%' keeps the meaning of the pattern. */
  lemma {:induction false} SegmentsMeanLike(pattern: string, escape: Option<char>, value: string, i: nat)
    requires i <= |value|
    ensures Like(pattern, escape, value[i..])
       <==> var segments := Segments(pattern, escape, false);
            segments.Some? && Covers(segments.value, value, i)
    decreases |pattern| + |value| - i, 1
  {
    var rest := value[i..];
    if i < |value| {
      assert rest[1..] == value[i + 1..];
    }
    if pattern == "" {
    } else if escape == Some(pattern[0]) {
      if |pattern| > 1 {
        assert pattern[1..][1..] == pattern[2..];
        LiteralStep(Exactly(pattern[1]), pattern[2..], escape, value, i);
      }
    } else if pattern[0] == '%' {
      SegmentsMeanLike(pattern[1..], escape, value, i);
      if i < |value| {
        SegmentsMeanLike(pattern, escape, value, i + 1);
      }
      var tail := Segments(pattern[1..], escape, false);
      if tail.Some? {
        assert ([[]] + tail.value)[1..] == tail.value;
      }
    } else {
      LiteralStep(AtomOf(pattern[0], false), pattern[1..], escape, value, i);
    }
  }

  lemma LiteralStep(atom: Atom, tail: string, escape: Option<char>, value: string, i: nat)
    requires i <= |value|
    ensures (i < |value| && atom.Accepts(value[i]) && Like(tail, escape, value[i + 1..]))
       <==> var segments := Segments(tail, escape, false);
            segments.Some? && Covers([[atom] + segments.value[0]] + segments.value[1..], value, i)
    decreases |tail| + |value| - i + 1, 0
  {
    var segments := Segments(tail, escape, false);
    if segments.Some? {
      CoversPrepend(atom, segments.value, value, i);
    }
    if i < |value| {
      SegmentsMeanLike(tail, escape, value, i + 1);
    }
  }

  /** The length of the run of `escape` characters that ends `pattern`. */
  function TrailingEscapes(pattern: string, escape: Option<char>): nat {
    if pattern != "" && escape == Some(pattern[|pattern| - 1])
    then 1 + TrailingEscapes(pattern[..|pattern| - 1], escape)
    else 0
  }

  /** An escape dangles exactly when the pattern ends in an odd run of escapes. */
  lemma {:induction false} DanglingIffOddRun(pattern: string, escape: Option<char>, escaped: bool)
    ensures Segments(pattern, escape, escaped).None?
       <==> TrailingEscapes(pattern, escape) % 2 == if escaped && AllEscapes(pattern, escape) then 0 else 1
  {
    if pattern == "" {
    } else {
      var tail := pattern[1..];
      var nextEscaped := !escaped && escape == Some(pattern[0]);
      DanglingIffOddRun(tail, escape, nextEscaped);
      TrailingOfTail(pattern, escape);
      AllEscapesOfTail(pattern, escape);
      assert Segments(pattern, escape, escaped).None? <==> Segments(tail, escape, nextEscaped).None?;
    }
  }

  ghost predicate AllEscapes(pattern: string, escape: Option<char>) {
    forall k :: 0 <= k < |pattern| ==> escape == Some(pattern[k])
  }

  lemma AllEscapesOfTail(pattern: string, escape: Option<char>)
    requires pattern != ""
    ensures AllEscapes(pattern, escape) <==> escape == Some(pattern[0]) && AllEscapes(pattern[1..], escape)
  {
    if escape == Some(pattern[0]) && AllEscapes(pattern[1..], escape) {
      forall k | 0 <= k < |pattern| ensures escape == Some(pattern[k]) {
        assert k > 0 ==> pattern[k] == pattern[1..][k - 1];
      }
    }
  }

  lemma {:induction false} TrailingOfTail(pattern: string, escape: Option<char>)
    requires pattern != ""
    ensures TrailingEscapes(pattern, escape)
         == TrailingEscapes(pattern[1..], escape) + if AllEscapes(pattern, escape) then 1 else 0
  {
    var last := |pattern| - 1;
    if escape != Some(pattern[last]) {
    } else if last == 0 {
      assert pattern[..last] == "";
    } else {
      TrailingOfTail(pattern[..last], escape);
      assert pattern[..last][1..] == pattern[1..][..last - 1];
      assert AllEscapes(pattern, escape) <==> AllEscapes(pattern[..last], escape);
    }
  }

  ghost predicate MatchesSomething(pattern: string, escape: Option<char>) {
    exists value :: Like(pattern, escape, value)
  }

  /** A pattern matches no value at all exactly when its final escape dangles. */
  lemma NeverMatchesIffDangling(pattern: string, escape: Option<char>)
    ensures !MatchesSomething(pattern, escape) <==> TrailingEscapes(pattern, escape) % 2 == 1
  {
    DanglingIffOddRun(pattern, escape, false);
    if Segments(pattern, escape, false).None? {
      forall value ensures !Like(pattern, escape, value) {
        SegmentsMeanLike(pattern, escape, value, 0);
        assert value[0..] == value;
      }
    } else {
      var example := Example(pattern, escape);
    }
  }

  /** A value matched by a pattern that parses. */
  lemma {:induction false} Example(pattern: string, escape: Option<char>) returns (value: string)
    requires Segments(pattern, escape, false).Some?
    ensures Like(pattern, escape, value)
    decreases |pattern|
  {
    if pattern == "" {
      value := "";
    } else if escape == Some(pattern[0]) {
      assert pattern[1..] != "";
      assert pattern[1..][1..] == pattern[2..];
      var rest := Example(pattern[2..], escape);
      value := [pattern[1]] + rest;
      assert value[1..] == rest;
    } else {
      var rest := Example(pattern[1..], escape);
      value := if pattern[0] == '%' then rest else [pattern[0]] + rest;
      assert pattern[0] != '%' ==> value[1..] == rest;
    }
  }
}
