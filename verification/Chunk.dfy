/** `chunkText` of bot-gateway/src/chunk.ts: cutting a reply into chunks of at most so many code points. */
module Chunk {
  import opened Wrappers

  /** A JavaScript string is a sequence of UTF-16 code units. */
  type Unit = u: int | 0 <= u < 0x1_0000
  type Text = seq<Unit>

  predicate IsHigh(u: Unit) { 0xD800 <= u < 0xDC00 }
  predicate IsLow(u: Unit) { 0xDC00 <= u < 0xE000 }

  predicate StartsPair(t: Text) {
    |t| >= 2 && IsHigh(t[0]) && IsLow(t[1])
  }

  function PointLength(t: Text): (n: nat)
    requires t != []
    ensures 1 <= n <= |t|
  {
    if StartsPair(t) then 2 else 1
  }

  /** `Array.from`: the code points of a string; a lone surrogate is a point of its own. */
  function Points(t: Text): seq<Text> {
    if t == [] then [] else [t[..PointLength(t)]] + Points(t[PointLength(t)..])
  }

  /** `join('')`. */
  function Join(points: seq<Text>): Text {
    if points == [] then [] else points[0] + Join(points[1..])
  }

  function JoinAll(chunks: seq<seq<Text>>): seq<Text> {
    if chunks == [] then [] else chunks[0] + JoinAll(chunks[1..])
  }

  // ----- Splitting and joining -----

  /** Points that `Array.from` could have produced. */
  predicate Canonical(points: seq<Text>) {
    && (forall i :: 0 <= i < |points| ==> |points[i]| == 1 || (|points[i]| == 2 && StartsPair(points[i])))
    && (forall i :: 0 <= i < |points| - 1 && |points[i]| == 1 && |points[i + 1]| > 0 && IsHigh(points[i][0]) ==>
                      !IsLow(points[i + 1][0]))
  }

  lemma {:induction false} PointsAreCanonical(t: Text)
    ensures Canonical(Points(t)) && Join(Points(t)) == t
    ensures t != [] ==> Points(t) != [] && Points(t)[0] != [] && Points(t)[0][0] == t[0]
    decreases |t|
  {
    if t != [] {
      var n := PointLength(t);
      PointsAreCanonical(t[n..]);
      assert Points(t) == [t[..n]] + Points(t[n..]);
      assert Points(t)[1..] == Points(t[n..]);
      assert t == t[..n] + t[n..];
    }
  }

  lemma {:induction false} JoinPoints(points: seq<Text>)
    requires Canonical(points)
    ensures Points(Join(points)) == points
    ensures points != [] ==> Join(points) != [] && Join(points)[0] == points[0][0]
    decreases |points|
  {
    if points != [] {
      var rest := points[1..];
      JoinPoints(rest);
      var t, n := Join(points), |points[0]|;
      assert t[..n] == points[0] && t[n..] == Join(rest);
      if rest != [] {
        assert Join(rest)[0] == rest[0][0] && rest[0] == points[1];
      }
    }
  }

  lemma SliceIsCanonical(points: seq<Text>, i: nat, j: nat)
    requires Canonical(points) && i <= j <= |points|
    ensures Canonical(points[i..j])
  {
    var slice := points[i..j];
    forall k | 0 <= k < |slice| - 1 && |slice[k]| == 1 && |slice[k + 1]| > 0 && IsHigh(slice[k][0])
      ensures !IsLow(slice[k + 1][0])
    {
      assert slice[k] == points[i + k] && slice[k + 1] == points[i + k + 1];
    }
  }

  /** Splitting a text in two splits its points, unless the cut is inside a surrogate pair. */
  lemma {:induction false} PointsConcat(s: Text, t: Text)
    requires s == [] || t == [] || !IsHigh(s[|s| - 1]) || !IsLow(t[0])
    ensures Points(s + t) == Points(s) + Points(t)
    decreases |s|
  {
    if s == [] {
      assert s + t == t;
    } else if t == [] {
      assert s + t == s;
    } else {
      var first, rest := s[..PointLength(s)], s[PointLength(s)..];
      SamePair(s, t);
      assert rest == [] || rest[|rest| - 1] == s[|s| - 1];
      PointsConcat(rest, t);
      ConsPoints(s + t, s, first, rest, rest + t, t);
    }
  }

  lemma SamePair(s: Text, t: Text)
    requires s != [] && t != [] && (!IsHigh(s[|s| - 1]) || !IsLow(t[0]))
    ensures PointLength(s + t) == PointLength(s) <= |s|
    ensures s == s[..PointLength(s)] + s[PointLength(s)..]
    ensures s + t == s[..PointLength(s)] + (s[PointLength(s)..] + t)
  {
    assert StartsPair(s + t) <==> StartsPair(s);
  }

  lemma ConsPoints(whole: Text, s: Text, first: Text, rest: Text, tail: Text, t: Text)
    requires s == first + rest && whole == first + tail && s != [] && whole != []
    requires |first| == PointLength(s) == PointLength(whole) && Points(tail) == Points(rest) + Points(t)
    ensures Points(whole) == Points(s) + Points(t)
  {
    PointsStep(whole, first, tail);
    PointsStep(s, first, rest);
    Regroup(first, Points(rest), Points(t));
  }

  lemma PointsStep(t: Text, first: Text, rest: Text)
    requires t != [] && t == first + rest && |first| == PointLength(t)
    ensures Points(t) == [first] + Points(rest)
  {
    assert t[..|first|] == first && t[|first|..] == rest;
  }

  lemma Regroup(first: Text, a: seq<Text>, b: seq<Text>)
    ensures [first] + (a + b) == ([first] + a) + b
  {
  }

  lemma {:induction false} JoinConcat(a: seq<Text>, b: seq<Text>)
    ensures Join(a + b) == Join(a) + Join(b)
  {
    if a == [] {
      assert a + b == b;
    } else {
      assert (a + b)[1..] == a[1..] + b;
      JoinConcat(a[1..], b);
    }
  }

  // ----- Markers -----

  const MARKERS: seq<Text> :=
    [[0x0A, 0x0A], [0x0A], [0x3002], [0xFF01], [0xFF1F], [0x21], [0x3F], [0xFF1B], [0x3B], [0x20]]

  predicate IsMarker(m: Text) {
    m != [] && forall i :: 0 <= i < |m| ==> !IsHigh(m[i]) && !IsLow(m[i])
  }

  predicate OccursAt(t: Text, m: Text, i: nat) {
    i + |m| <= |t| && t[i..i + |m|] == m
  }

  predicate EndsWith(t: Text, m: Text) {
    |m| <= |t| && t[|t| - |m|..] == m
  }

  /** `lastIndexOf`, looking at positions below `bound`. */
  function LastIndexBelow(t: Text, m: Text, bound: nat): (r: Option<nat>)
    ensures r.Some? ==> r.value < bound && OccursAt(t, m, r.value)
    ensures forall i :: (if r.Some? then r.value else -1) < i < bound ==> !OccursAt(t, m, i)
  {
    if bound == 0 then None
    else if OccursAt(t, m, bound - 1) then Some(bound - 1)
    else LastIndexBelow(t, m, bound - 1)
  }

  function LastIndexOf(t: Text, m: Text): Option<nat> {
    LastIndexBelow(t, m, |t| + 1)
  }

  /** How many code points of the window lead up to the end of the marker's last occurrence. */
  function Candidate(window: seq<Text>, m: Text): Option<nat> {
    var joined := Join(window);
    var index := LastIndexOf(joined, m);
    if index.None? then None else Some(|Points(joined[..index.value + |m|])|)
  }

  /** Wherever a marker occurs in the joined window, its end is a code-point boundary. */
  lemma MarkerEndsOnBoundary(window: seq<Text>, m: Text, i: nat)
    requires Canonical(window) && IsMarker(m) && OccursAt(Join(window), m, i)
    ensures var k := |Points(Join(window)[..i + |m|])|;
            0 < k <= |window| && Join(window[..k]) == Join(window)[..i + |m|]
            && Points(Join(window)[..i + |m|]) == window[..k]
  {
    var joined := Join(window);
    var head, tail := joined[..i + |m|], joined[i + |m|..];
    assert head[|head| - 1] == joined[i..i + |m|][|m| - 1];
    assert joined == head + tail;
    PointsConcat(head, tail);
    JoinPoints(window);
    PointsAreCanonical(head);
    assert window[..|Points(head)|] == Points(head);
  }

  /** A marker ends after the first `k` points of the window. */
  predicate EndsAt(window: seq<Text>, m: Text, k: nat) {
    k <= |window| && EndsWith(Join(window[..k]), m)
  }

  lemma EndsAtOccurs(window: seq<Text>, m: Text, k: nat)
    requires EndsAt(window, m, k)
    ensures OccursAt(Join(window), m, |Join(window[..k])| - |m|)
  {
    assert window == window[..k] + window[k..];
    JoinConcat(window[..k], window[k..]);
  }

  lemma {:induction false} JoinGrows(points: seq<Text>)
    requires Canonical(points)
    ensures |Join(points)| >= |points|
  {
    if points != [] {
      SliceIsCanonical(points, 1, |points|);
      JoinGrows(points[1..]);
    }
  }

  lemma LongerJoin(window: seq<Text>, j: nat, k: nat)
    requires Canonical(window) && j < k <= |window|
    ensures |Join(window[..j])| < |Join(window[..k])|
  {
    assert window[..k] == window[..j] + window[j..k];
    JoinConcat(window[..j], window[j..k]);
    SliceIsCanonical(window, j, k);
    JoinGrows(window[j..k]);
  }

  /** The last occurrence ends no earlier than any place where the marker ends. */
  lemma LastIndexCovers(window: seq<Text>, m: Text, j: nat)
    requires EndsAt(window, m, j)
    ensures var index := LastIndexOf(Join(window), m);
            index.Some? && |Join(window[..j])| <= index.value + |m|
  {
    EndsAtOccurs(window, m, j);
    assert OccursAt(Join(window), m, |Join(window[..j])| - |m|);
  }

  lemma CandidateLength(window: seq<Text>, m: Text)
    requires Canonical(window) && IsMarker(m) && LastIndexOf(Join(window), m).Some?
    ensures var (k, index) := (Candidate(window, m), LastIndexOf(Join(window), m).value);
            k.Some? && k.value <= |window| && |Join(window[..k.value])| == index + |m|
  {
    MarkerEndsOnBoundary(window, m, LastIndexOf(Join(window), m).value);
  }

  lemma NoLaterEnd(window: seq<Text>, m: Text, j: nat)
    requires Canonical(window) && IsMarker(m) && EndsAt(window, m, j)
    ensures Candidate(window, m).Some? && j <= Candidate(window, m).value
  {
    LastIndexCovers(window, m, j);
    CandidateLength(window, m);
    if Candidate(window, m).value < j {
      LongerJoin(window, Candidate(window, m).value, j);
    }
  }

  lemma CandidateEnds(window: seq<Text>, m: Text)
    requires Canonical(window) && IsMarker(m) && Candidate(window, m).Some?
    ensures var k := Candidate(window, m).value; 0 < k <= |window| && EndsAt(window, m, k)
  {
    MarkerEndsOnBoundary(window, m, LastIndexOf(Join(window), m).value);
  }

  /** The candidate is the last place in the window, counted in code points, where the marker ends. */
  lemma CandidateIsLastEnd(window: seq<Text>, m: Text)
    requires Canonical(window) && IsMarker(m)
    ensures match Candidate(window, m)
            case Some(k) =>
              0 < k <= |window| && EndsAt(window, m, k) && forall j :: k < j <= |window| ==> !EndsAt(window, m, j)
            case None => forall j :: 0 <= j <= |window| ==> !EndsAt(window, m, j)
  {
    forall j | 0 <= j <= |window| && EndsAt(window, m, j)
      ensures Candidate(window, m).Some? && j <= Candidate(window, m).value
    {
      NoLaterEnd(window, m, j);
    }
    if Candidate(window, m).Some? {
      CandidateEnds(window, m);
    }
  }

  // ----- Where to cut -----

  /** The first of the markers, from the `n`-th on, whose last end in the window is late enough. */
  function CutFrom(window: seq<Text>, minimum: nat, markers: seq<Text>, n: nat): nat
    requires n <= |markers|
    decreases |markers| - n
  {
    if n == |markers| then |window|
    else
      var candidate := Candidate(window, markers[n]);
      if candidate.Some? && candidate.value >= minimum then candidate.value
      else CutFrom(window, minimum, markers, n + 1)
  }

  /** No end of this marker in the window is at or past the preferred minimum. */
  predicate TooEarly(window: seq<Text>, minimum: nat, m: Text) {
    forall k :: minimum <= k <= |window| ==> !EndsAt(window, m, k)
  }

  predicate AllTooEarly(window: seq<Text>, minimum: nat, markers: seq<Text>) {
    forall i :: 0 <= i < |markers| ==> TooEarly(window, minimum, markers[i])
  }

  predicate IsLastEnd(window: seq<Text>, m: Text, cut: nat) {
    EndsAt(window, m, cut) && forall j :: cut < j <= |window| ==> !EndsAt(window, m, j)
  }

  /** The cut is the last end of the first listed marker that ends late enough. */
  predicate IsPreferred(window: seq<Text>, minimum: nat, markers: seq<Text>, cut: nat, n: nat) {
    n < |markers| && cut >= minimum && IsLastEnd(window, markers[n], cut) && AllTooEarly(window, minimum, markers[..n])
  }

  lemma OneMarker(window: seq<Text>, minimum: nat, m: Text)
    requires Canonical(window) && IsMarker(m)
    ensures var candidate := Candidate(window, m);
            if candidate.Some? && candidate.value >= minimum
            then 0 < candidate.value <= |window| && IsLastEnd(window, m, candidate.value)
            else TooEarly(window, minimum, m)
  {
    CandidateIsLastEnd(window, m);
  }

  lemma OneMoreTooEarly(window: seq<Text>, minimum: nat, markers: seq<Text>, n: nat)
    requires n < |markers| && AllTooEarly(window, minimum, markers[..n]) && TooEarly(window, minimum, markers[n])
    ensures AllTooEarly(window, minimum, markers[..n + 1])
  {
    var more := markers[..n + 1];
    forall i | 0 <= i < |more| ensures TooEarly(window, minimum, more[i]) {
      assert i < n ==> more[i] == markers[..n][i];
    }
  }

  lemma {:induction false} CutIsPreferred(window: seq<Text>, minimum: nat, markers: seq<Text>, n: nat)
    returns (which: Option<nat>)
    requires Canonical(window) && window != [] && minimum <= |window| && n <= |markers|
    requires forall i :: 0 <= i < |markers| ==> IsMarker(markers[i])
    requires AllTooEarly(window, minimum, markers[..n])
    ensures var cut := CutFrom(window, minimum, markers, n);
            0 < cut <= |window| && minimum <= cut &&
            match which
            case Some(k) => IsPreferred(window, minimum, markers, cut, k)
            case None => cut == |window| && AllTooEarly(window, minimum, markers)
    decreases |markers| - n
  {
    if n == |markers| {
      which := None;
      assert markers[..n] == markers;
    } else {
      OneMarker(window, minimum, markers[n]);
      var candidate := Candidate(window, markers[n]);
      if candidate.Some? && candidate.value >= minimum {
        which := Some(n);
      } else {
        OneMoreTooEarly(window, minimum, markers, n);
        which := CutIsPreferred(window, minimum, markers, n + 1);
      }
    }
  }

  // ----- The chunks -----

  /** floor(0.55 * limit). */
  function MinimumBreak(limit: nat): nat {
    limit * 11 / 20
  }

  lemma MinimumInTwentieths(limit: nat, k: nat)
    ensures k >= MinimumBreak(limit) <==> 20 * k > 11 * limit - 20
  {
  }

  function Cut(points: seq<Text>, limit: nat): nat
    requires limit < |points|
  {
    CutFrom(points[..limit], MinimumBreak(limit), MARKERS, 0)
  }

  lemma CutInRange(points: seq<Text>, limit: nat)
    requires Canonical(points) && 1 <= limit < |points|
    ensures 1 <= Cut(points, limit) <= limit && Cut(points, limit) >= MinimumBreak(limit)
    ensures Canonical(points[..Cut(points, limit)]) && Canonical(points[Cut(points, limit)..])
  {
    SliceIsCanonical(points, 0, limit);
    var which := CutIsPreferred(points[..limit], MinimumBreak(limit), MARKERS, 0);
    SliceIsCanonical(points, 0, Cut(points, limit));
    SliceIsCanonical(points, Cut(points, limit), |points|);
  }

  ghost function Chunks(points: seq<Text>, limit: nat): seq<seq<Text>>
    requires Canonical(points) && limit >= 1
    decreases |points|
  {
    if |points| <= limit then [points]
    else
      CutInRange(points, limit);
      var cut := Cut(points, limit);
      [points[..cut]] + Chunks(points[cut..], limit)
  }

  /** The chunks put back together are the text, none is empty or over the limit, and all but the last
      are at least max(1, floor(0.55 * limit)) long. */
  lemma {:induction false} ChunksFit(points: seq<Text>, limit: nat)
    requires Canonical(points) && limit >= 1 && points != []
    ensures var chunks := Chunks(points, limit);
            && chunks != [] && JoinAll(chunks) == points
            && (forall i :: 0 <= i < |chunks| ==> Canonical(chunks[i]) && 1 <= |chunks[i]| <= limit)
            && (forall i :: 0 <= i < |chunks| - 1 ==> 20 * |chunks[i]| > 11 * limit - 20)
    decreases |points|
  {
    if |points| <= limit {
      assert JoinAll([points]) == points + JoinAll([]);
    } else {
      CutInRange(points, limit);
      var cut := Cut(points, limit);
      MinimumInTwentieths(limit, cut);
      ChunksFit(points[cut..], limit);
      assert points == points[..cut] + points[cut..];
    }
  }

  /** What is still to be sent when chunk `i` is cut off. */
  function Remaining(chunks: seq<seq<Text>>, i: nat): seq<Text>
    requires i <= |chunks|
  {
    JoinAll(chunks[i..])
  }

  /** Every chunk but the last ends where the first suitable marker of its window last ends; a full-width
      cut without a marker happens only when no listed marker ends in the window late enough. */
  lemma {:induction false} ChunksAreCutWell(points: seq<Text>, limit: nat, i: nat) returns (which: Option<nat>)
    requires Canonical(points) && limit >= 1 && points != [] && i + 1 < |Chunks(points, limit)|
    ensures var chunks := Chunks(points, limit);
            |Remaining(chunks, i)| > limit &&
            var window := Remaining(chunks, i)[..limit];
            chunks[i] <= window &&
            match which
            case Some(n) => IsPreferred(window, MinimumBreak(limit), MARKERS, |chunks[i]|, n)
            case None => |chunks[i]| == limit && AllTooEarly(window, MinimumBreak(limit), MARKERS)
    decreases i
  {
    CutInRange(points, limit);
    var cut := Cut(points, limit);
    ChunksFit(points, limit);
    if i == 0 {
      SliceIsCanonical(points, 0, limit);
      assert Chunks(points, limit)[0..] == Chunks(points, limit);
      which := CutIsPreferred(points[..limit], MinimumBreak(limit), MARKERS, 0);
    } else {
      which := ChunksAreCutWell(points[cut..], limit, i - 1);
      assert Chunks(points, limit)[i..] == Chunks(points[cut..], limit)[i - 1..];
    }
  }

  /** The marker ends in the window, after at least floor(0.55 * limit) of its points. */
  ghost predicate EndsLate(window: seq<Text>, limit: nat, m: Text) {
    exists k: nat :: 20 * k > 11 * limit - 20 && EndsAt(window, m, k)
  }

  lemma TooEarlyIsNotLate(window: seq<Text>, limit: nat, m: Text)
    ensures TooEarly(window, MinimumBreak(limit), m) <==> !EndsLate(window, limit, m)
  {
    forall k: nat ensures k >= MinimumBreak(limit) <==> 20 * k > 11 * limit - 20 {
      MinimumInTwentieths(limit, k);
    }
  }

  /** The marker is the first of the list that ends late enough. */
  ghost predicate IsFirstLate(window: seq<Text>, limit: nat, markers: seq<Text>, n: nat) {
    && n < |markers| && EndsLate(window, limit, markers[n])
    && forall i :: 0 <= i < n ==> !EndsLate(window, limit, markers[i])
  }

  lemma PreferredIsFirstLate(window: seq<Text>, limit: nat, markers: seq<Text>, cut: nat, n: nat)
    requires IsPreferred(window, MinimumBreak(limit), markers, cut, n)
    ensures IsFirstLate(window, limit, markers, n)
  {
    MinimumInTwentieths(limit, cut);
    forall i | 0 <= i < n ensures !EndsLate(window, limit, markers[i]) {
      assert markers[..n][i] == markers[i];
      TooEarlyIsNotLate(window, limit, markers[i]);
    }
  }

  lemma MarkersListed()
    ensures |MARKERS| == 10 && MARKERS[0] == [0x0A, 0x0A] && MARKERS[1] == [0x0A] && MARKERS[2] == [0x3002]
    ensures MARKERS[3] == [0xFF01] && MARKERS[4] == [0xFF1F] && MARKERS[5] == [0x21] && MARKERS[6] == [0x3F]
    ensures MARKERS[7] == [0xFF1B] && MARKERS[8] == [0x3B] && MARKERS[9] == [0x20]
  {
  }

  /** At the last blank line if one ends late enough, otherwise at the last line break, the last full stop,
      exclamation or question mark (full width before ASCII), semicolon (likewise) or space, in this order; and at
      the full width only when none of them does. */
  ghost predicate EndsInOrder(w: seq<Text>, limit: nat, cut: nat) {
    if EndsLate(w, limit, [0x0A, 0x0A]) then IsLastEnd(w, [0x0A, 0x0A], cut)
    else if EndsLate(w, limit, [0x0A]) then IsLastEnd(w, [0x0A], cut)
    else if EndsLate(w, limit, [0x3002]) then IsLastEnd(w, [0x3002], cut)
    else if EndsLate(w, limit, [0xFF01]) then IsLastEnd(w, [0xFF01], cut)
    else if EndsLate(w, limit, [0xFF1F]) then IsLastEnd(w, [0xFF1F], cut)
    else if EndsLate(w, limit, [0x21]) then IsLastEnd(w, [0x21], cut)
    else if EndsLate(w, limit, [0x3F]) then IsLastEnd(w, [0x3F], cut)
    else if EndsLate(w, limit, [0xFF1B]) then IsLastEnd(w, [0xFF1B], cut)
    else if EndsLate(w, limit, [0x3B]) then IsLastEnd(w, [0x3B], cut)
    else if EndsLate(w, limit, [0x20]) then IsLastEnd(w, [0x20], cut)
    else cut == limit
  }

  lemma FirstLateDecides(w: seq<Text>, limit: nat, cut: nat, n: nat)
    requires IsFirstLate(w, limit, MARKERS, n) && IsLastEnd(w, MARKERS[n], cut)
    ensures EndsInOrder(w, limit, cut)
  {
    MarkersListed();
  }

  lemma NoneLateDecides(w: seq<Text>, limit: nat)
    requires forall n :: 0 <= n < |MARKERS| ==> !EndsLate(w, limit, MARKERS[n])
    ensures EndsInOrder(w, limit, limit)
  {
    MarkersListed();
    assert !EndsLate(w, limit, MARKERS[0]) && !EndsLate(w, limit, MARKERS[1]) && !EndsLate(w, limit, MARKERS[2]);
    assert !EndsLate(w, limit, MARKERS[3]) && !EndsLate(w, limit, MARKERS[4]) && !EndsLate(w, limit, MARKERS[5]);
    assert !EndsLate(w, limit, MARKERS[6]) && !EndsLate(w, limit, MARKERS[7]) && !EndsLate(w, limit, MARKERS[8]);
  }

  /** Which marker wins, for every chunk that is not the last. */
  lemma MarkersInOrder(points: seq<Text>, limit: nat, i: nat)
    requires Canonical(points) && limit >= 1 && points != [] && i + 1 < |Chunks(points, limit)|
    ensures var chunks := Chunks(points, limit);
            |Remaining(chunks, i)| > limit && EndsInOrder(Remaining(chunks, i)[..limit], limit, |chunks[i]|)
  {
    var which := ChunksAreCutWell(points, limit, i);
    var w := Remaining(Chunks(points, limit), i)[..limit];
    if which.Some? {
      PreferredIsFirstLate(w, limit, MARKERS, |Chunks(points, limit)[i]|, which.value);
      FirstLateDecides(w, limit, |Chunks(points, limit)[i]|, which.value);
    } else {
      forall n | 0 <= n < |MARKERS| ensures !EndsLate(w, limit, MARKERS[n]) {
        TooEarlyIsNotLate(w, limit, MARKERS[n]);
      }
      NoneLateDecides(w, limit);
    }
  }

  // ----- The texts sent -----

  function Texts(chunks: seq<seq<Text>>): seq<Text> {
    seq(|chunks|, i requires 0 <= i < |chunks| => Join(chunks[i]))
  }

  lemma {:induction false} JoinTexts(chunks: seq<seq<Text>>)
    ensures Join(Texts(chunks)) == Join(JoinAll(chunks))
  {
    if chunks != [] {
      JoinTexts(chunks[1..]);
      assert Texts(chunks)[1..] == Texts(chunks[1..]);
      JoinConcat(chunks[0], JoinAll(chunks[1..]));
    }
  }

  /** The chunks as texts: they concatenate to the whole text, no code point is split between two of
      them, and their lengths in code points are as promised. */
  lemma TextsFit(text: Text, limit: nat)
    requires text != [] && limit >= 1 && Canonical(Points(text))
    ensures var chunks := Texts(Chunks(Points(text), limit));
            && chunks != [] && Join(chunks) == text
            && (forall i :: 0 <= i < |chunks| ==> chunks[i] != [] && 1 <= |Points(chunks[i])| <= limit)
            && (forall i :: 0 <= i < |chunks| - 1 ==> 20 * |Points(chunks[i])| > 11 * limit - 20)
  {
    PointsAreCanonical(text);
    var pieces := Chunks(Points(text), limit);
    ChunksFit(Points(text), limit);
    JoinTexts(pieces);
    forall i | 0 <= i < |pieces| ensures Points(Texts(pieces)[i]) == pieces[i] {
      JoinPoints(pieces[i]);
    }
  }

  datatype Outcome = Chunked(chunks: seq<Text>) | BadLimit

  const MAX_SAFE_INTEGER := 0x1F_FFFF_FFFF_FFFF

  lemma MarkersAreMarkers()
    ensures forall i :: 0 <= i < |MARKERS| ==> IsMarker(MARKERS[i])
  {
  }

  /** The inner loop: try the markers in order of preference. */
  method FindCut(window: seq<Text>, minimum: nat, markers: seq<Text>) returns (cut: nat)
    requires Canonical(window) && window != [] && minimum <= |window|
    requires forall i :: 0 <= i < |markers| ==> IsMarker(markers[i])
    ensures cut == CutFrom(window, minimum, markers, 0)
  {
    var found := -1;
    var joined := Join(window);
    var n := 0;
    while n < |markers|
      invariant n <= |markers| && found == -1
      invariant CutFrom(window, minimum, markers, 0) == CutFrom(window, minimum, markers, n)
    {
      var index := LastIndexOf(joined, markers[n]);
      if index.Some? {
        var candidate := |Points(joined[..index.value + |markers[n]|])|;
        OneMarker(window, minimum, markers[n]);
        if candidate >= minimum {
          found := candidate;
          break;
        }
      }
      n := n + 1;
    }
    cut := if found < 1 then |window| else found;
  }

  lemma TextsPush(done: seq<seq<Text>>, piece: seq<Text>)
    ensures Texts(done + [piece]) == Texts(done) + [Join(piece)]
  {
  }

  /** The chunks done and those of the rest, from `offset` on, are all the chunks. */
  ghost predicate Progress(points: seq<Text>, limit: nat, offset: nat, done: seq<seq<Text>>)
    requires Canonical(points) && limit >= 1
  {
    offset < |points| && Canonical(points[offset..]) && Chunks(points, limit) == done + Chunks(points[offset..], limit)
  }

  lemma NoProgressYet(points: seq<Text>, limit: nat)
    requires Canonical(points) && limit >= 1 && points != []
    ensures Progress(points, limit, 0, [])
  {
    assert points[0..] == points;
    assert [] + Chunks(points, limit) == Chunks(points, limit);
  }

  lemma MoreProgress(points: seq<Text>, limit: nat, offset: nat, done: seq<seq<Text>>, cut: nat)
    requires Canonical(points) && limit >= 1 && Progress(points, limit, offset, done) && offset + limit < |points|
    requires cut == CutFrom(points[offset..offset + limit], MinimumBreak(limit), MARKERS, 0)
    ensures 1 <= cut <= limit && Progress(points, limit, offset + cut, done + [points[offset..offset + cut]])
  {
    var rest := points[offset..];
    assert rest[..limit] == points[offset..offset + limit];
    CutInRange(rest, limit);
    assert rest[..cut] == points[offset..offset + cut] && rest[cut..] == points[offset + cut..];
  }

  lemma LastProgress(points: seq<Text>, limit: nat, offset: nat, done: seq<seq<Text>>)
    requires Canonical(points) && limit >= 1 && Progress(points, limit, offset, done) && |points| - offset <= limit
    ensures Chunks(points, limit) == done + [points[offset..]]
  {
  }

  method CutPoints(points: seq<Text>, limit: nat) returns (chunks: seq<Text>)
    requires Canonical(points) && 1 <= limit < |points|
    ensures chunks == Texts(Chunks(points, limit))
  {
    chunks := [];
    ghost var done: seq<seq<Text>> := [];
    var offset := 0;
    var minimum := MinimumBreak(limit);
    NoProgressYet(points, limit);
    while offset < |points|
      invariant Progress(points, limit, offset, done) && chunks == Texts(done)
    {
      var remaining := |points| - offset;
      if remaining <= limit {
        LastProgress(points, limit, offset, done);
        TextsPush(done, points[offset..]);
        chunks := chunks + [Join(points[offset..])];
        break;
      }
      SliceIsCanonical(points, offset, offset + limit);
      MarkersAreMarkers();
      var cut := FindCut(points[offset..offset + limit], minimum, MARKERS);
      MoreProgress(points, limit, offset, done, cut);
      TextsPush(done, points[offset..offset + cut]);
      chunks := chunks + [Join(points[offset..offset + cut])];
      done := done + [points[offset..offset + cut]];
      offset := offset + cut;
    }
  }

  method ChunkText(text: Text, limit: int) returns (r: Outcome)
    ensures text == [] ==> r == Chunked([])
    ensures text != [] ==> (r.BadLimit? <==> limit < 1 || limit > MAX_SAFE_INTEGER)
    ensures text != [] && r.Chunked? ==> Canonical(Points(text)) && r.chunks == Texts(Chunks(Points(text), limit))
    ensures r.Chunked? ==>
              && Join(r.chunks) == text
              && (forall i :: 0 <= i < |r.chunks| ==> 1 <= |Points(r.chunks[i])| <= limit)
              && (forall i :: 0 <= i < |r.chunks| - 1 ==> 20 * |Points(r.chunks[i])| > 11 * limit - 20)
  {
    if text == [] {
      return Chunked([]);
    }
    if limit < 1 || limit > MAX_SAFE_INTEGER {
      return BadLimit;
    }
    PointsAreCanonical(text);
    TextsFit(text, limit);
    var points := Points(text);
    if |points| <= limit {
      assert Texts([points]) == [Join(points)];
      return Chunked([text]);
    }
    var chunks := CutPoints(points, limit);
    return Chunked(chunks);
  }
}
