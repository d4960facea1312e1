/** Chart bucketing and token ranges of backend/open_webui/models/analytics_sessions.py. */
module Analytics {
  import opened Wrappers

  // ----- Bars of the trace chart -----

  /** One assistant response; its ordinal is its place in the list, counted from 1. */
  datatype Usage = Usage(inputTokens: Option<int>, outputTokens: Option<int>, incomplete: bool, failed: bool)

  predicate IsRecorded(u: Usage) {
    u.inputTokens.Some? || u.outputTokens.Some?
  }

  predicate IsComplete(u: Usage) {
    u.inputTokens.Some? && u.outputTokens.Some? && !u.incomplete
  }

  datatype Measure = InputTokens | OutputTokens | Recorded | Complete | Errors

  /** What a response adds; an unknown token count adds nothing to an SQL sum. */
  function Weigh(m: Measure, u: Usage): int {
    match m
    case InputTokens => if u.inputTokens.Some? then u.inputTokens.value else 0
    case OutputTokens => if u.outputTokens.Some? then u.outputTokens.value else 0
    case Recorded => if IsRecorded(u) then 1 else 0
    case Complete => if IsComplete(u) then 1 else 0
    case Errors => if u.failed then 1 else 0
  }

  function Total(m: Measure, rows: seq<Usage>): int {
    if rows == [] then 0 else Total(m, rows[..|rows| - 1]) + Weigh(m, rows[|rows| - 1])
  }

  /** `max(1, math.ceil(responses / 128))`. */
  function GroupSize(responses: nat): (size: nat)
    ensures size >= 1 && 128 * size >= responses
    ensures size > 1 ==> 128 * (size - 1) < responses
  {
    if responses <= 128 then 1 else (responses + 127) / 128
  }

  function BucketOf(ordinal: nat, size: nat): nat
    requires ordinal >= 1 && size >= 1
  {
    var position := ordinal - 1;
    (position - position % size) / size
  }

  /** `GROUP BY bucket`: the sum over the rows of one bucket, wherever they stand. */
  function SumOfBucket(m: Measure, rows: seq<Usage>, size: nat, bucket: nat): int
    requires size >= 1
  {
    if rows == [] then 0
    else
      SumOfBucket(m, rows[..|rows| - 1], size, bucket) +
      if BucketOf(|rows|, size) == bucket then Weigh(m, rows[|rows| - 1]) else 0
  }

  function SumOfBuckets(m: Measure, rows: seq<Usage>, size: nat, buckets: nat): int
    requires size >= 1
  {
    if buckets == 0 then 0
    else SumOfBuckets(m, rows, size, buckets - 1) + SumOfBucket(m, rows, size, buckets - 1)
  }

  /** How many bars come out. */
  function Bars(rows: nat, size: nat): nat
    requires size >= 1
  {
    if rows == 0 then 0 else BucketOf(rows, size) + 1
  }

  function First(bucket: nat, size: nat): nat { bucket * size + 1 }

  function Last(bucket: nat, size: nat, rows: nat): nat {
    if (bucket + 1) * size < rows then (bucket + 1) * size else rows
  }

  lemma MultiplyOrder(a: nat, b: nat, size: nat)
    requires a <= b
    ensures a * size <= b * size
  {
  }

  lemma QuotientUnique(x: nat, size: nat, a: nat, b: nat)
    requires a * size <= x < a * size + size && b * size <= x < b * size + size
    ensures a == b
  {
    if a < b {
      MultiplyOrder(a + 1, b, size);
    } else if b < a {
      MultiplyOrder(b + 1, a, size);
    }
  }

  lemma Euclid(x: nat, size: nat)
    requires size >= 1
    ensures x == x / size * size + x % size && 0 <= x % size < size
  {
  }

  lemma BucketBounds(ordinal: nat, size: nat)
    requires ordinal >= 1 && size >= 1
    ensures var bucket := BucketOf(ordinal, size); bucket * size < ordinal <= bucket * size + size
  {
    var position := ordinal - 1;
    var multiple := position - position % size;
    Euclid(position, size);
    Euclid(multiple, size);
    var q, bucket := position / size, multiple / size;
    assert multiple == q * size;
    QuotientUnique(multiple, size, q, bucket);
  }

  lemma BucketIsQuotient(ordinal: nat, size: nat, bucket: nat)
    requires ordinal >= 1 && size >= 1
    ensures BucketOf(ordinal, size) == bucket <==> bucket * size < ordinal <= bucket * size + size
  {
    BucketBounds(ordinal, size);
    if bucket * size < ordinal <= bucket * size + size {
      QuotientUnique(ordinal - 1, size, bucket, BucketOf(ordinal, size));
    }
  }

  /** The bars are the ordinals 1..n cut into contiguous, non-overlapping, non-empty runs, in order. */
  lemma BarsTile(n: nat, size: nat, bucket: nat)
    requires size >= 1 && bucket < Bars(n, size)
    ensures forall ordinal :: 1 <= ordinal <= n ==>
              (BucketOf(ordinal, size) == bucket <==> First(bucket, size) <= ordinal <= Last(bucket, size, n))
    ensures First(bucket, size) <= Last(bucket, size, n) <= n
    ensures bucket == 0 ==> First(bucket, size) == 1
    ensures bucket + 1 < Bars(n, size) ==> First(bucket + 1, size) == Last(bucket, size, n) + 1
    ensures bucket + 1 == Bars(n, size) ==> Last(bucket, size, n) == n
  {
    var top := Bars(n, size) - 1;
    BucketIsQuotient(n, size, top);
    assert (bucket + 1) * size == bucket * size + size;
    MultiplyOrder(bucket, top, size);
    if bucket < top {
      MultiplyOrder(bucket + 1, top, size);
    }
    forall ordinal | 1 <= ordinal <= n
      ensures BucketOf(ordinal, size) == bucket <==> First(bucket, size) <= ordinal <= Last(bucket, size, n)
    {
      BucketIsQuotient(ordinal, size, bucket);
    }
  }

  /** At most 128 bars exactly when there are at most 128 times the group size rows, so in particular
      when there are no more rows than responses were counted. */
  lemma AtMost128Bars(n: nat, responses: nat)
    ensures Bars(n, GroupSize(responses)) <= 128 <==> n <= 128 * GroupSize(responses)
    ensures n <= responses ==> Bars(n, GroupSize(responses)) <= 128
  {
    var size := GroupSize(responses);
    if n > 0 {
      BucketIsQuotient(n, size, BucketOf(n, size));
      if BucketOf(n, size) <= 127 {
        MultiplyOrder(BucketOf(n, size), 127, size);
      } else {
        MultiplyOrder(128, BucketOf(n, size), size);
      }
    }
  }

  lemma {:induction false} EmptyBuckets(m: Measure, size: nat, buckets: nat)
    requires size >= 1
    ensures SumOfBuckets(m, [], size, buckets) == 0
  {
    if buckets > 0 {
      EmptyBuckets(m, size, buckets - 1);
    }
  }

  /** One more row adds its weight to one bucket. */
  lemma {:induction false} LastRowCounts(m: Measure, rows: seq<Usage>, size: nat, buckets: nat)
    requires size >= 1 && rows != []
    ensures SumOfBuckets(m, rows, size, buckets) == SumOfBuckets(m, rows[..|rows| - 1], size, buckets)
              + if BucketOf(|rows|, size) < buckets then Weigh(m, rows[|rows| - 1]) else 0
  {
    if buckets > 0 {
      LastRowCounts(m, rows, size, buckets - 1);
    }
  }

  /** Conservation: the bars of any chart that has them all add up to the totals of the rows. */
  lemma {:induction false} BarsConserve(m: Measure, rows: seq<Usage>, size: nat, buckets: nat)
    requires size >= 1 && buckets >= Bars(|rows|, size)
    ensures SumOfBuckets(m, rows, size, buckets) == Total(m, rows)
  {
    if rows == [] {
      EmptyBuckets(m, size, buckets);
    } else {
      var n := |rows| - 1;
      FewerBars(n, size);
      BarsConserve(m, rows[..n], size, buckets);
      LastRowCounts(m, rows, size, buckets);
    }
  }

  lemma FewerBars(n: nat, size: nat)
    requires size >= 1
    ensures Bars(n, size) <= Bars(n + 1, size)
  {
    if n > 0 {
      BucketBounds(n, size);
      BucketBounds(n + 1, size);
      InOrder(n, n + 1, size, BucketOf(n, size), BucketOf(n + 1, size));
    }
  }

  lemma InOrder(x: nat, y: nat, size: nat, a: nat, b: nat)
    requires a * size < x <= y <= b * size + size
    ensures a <= b
  {
    if b < a {
      MultiplyOrder(b + 1, a, size);
    }
  }

  // ----- What a bar shows -----

  /** The places in `lo..hi` whose row has the property. */
  function Places(rows: seq<Usage>, lo: nat, hi: nat, p: Usage -> bool): set<int>
    requires lo <= hi <= |rows|
  {
    set i: int | lo <= i < hi && p(rows[i])
  }

  function Sum(values: seq<int>): int {
    if values == [] then 0 else Sum(values[..|values| - 1]) + values[|values| - 1]
  }

  /** The values that are known, in order. */
  function Known(values: seq<Option<int>>): seq<int> {
    if values == [] then []
    else
      var last := values[|values| - 1];
      Known(values[..|values| - 1]) + if last.Some? then [last.value] else []
  }

  /** The column of the rows in `lo..hi`. */
  function Column(rows: seq<Usage>, lo: nat, hi: nat, read: Usage -> Option<int>): seq<Option<int>>
    requires lo <= hi <= |rows|
  {
    seq(hi - lo, i requires 0 <= i < hi - lo => read(rows[lo + i]))
  }

  lemma SlicePush(rows: seq<Usage>, lo: nat, hi: nat)
    requires lo <= hi < |rows|
    ensures rows[lo..hi + 1] == rows[lo..hi] + [rows[hi]]
  {
  }

  lemma TotalPush(m: Measure, rows: seq<Usage>, lo: nat, hi: nat)
    requires lo <= hi < |rows|
    ensures Total(m, rows[lo..hi + 1]) == Total(m, rows[lo..hi]) + Weigh(m, rows[hi])
  {
    SlicePush(rows, lo, hi);
    assert rows[lo..hi + 1][..hi - lo] == rows[lo..hi];
  }

  lemma {:induction false} TotalCounts(m: Measure, rows: seq<Usage>, lo: nat, hi: nat, p: Usage -> bool)
    requires lo <= hi <= |rows| && forall u :: Weigh(m, u) == if p(u) then 1 else 0
    ensures Total(m, rows[lo..hi]) == |Places(rows, lo, hi, p)|
    decreases hi
  {
    if lo == hi {
      assert Places(rows, lo, hi, p) == {};
    } else {
      TotalCounts(m, rows, lo, hi - 1, p);
      TotalPush(m, rows, lo, hi - 1);
      assert Places(rows, lo, hi, p) == Places(rows, lo, hi - 1, p) + if p(rows[hi - 1]) then {hi - 1} else {};
    }
  }

  lemma SumPush(values: seq<int>, value: int)
    ensures Sum(values + [value]) == Sum(values) + value && values + [] == values
  {
    assert (values + [value])[..|values|] == values;
  }

  lemma {:induction false} TotalSums(m: Measure, rows: seq<Usage>, lo: nat, hi: nat, read: Usage -> Option<int>)
    requires lo <= hi <= |rows| && forall u :: Weigh(m, u) == if read(u).Some? then read(u).value else 0
    ensures Total(m, rows[lo..hi]) == Sum(Known(Column(rows, lo, hi, read)))
    decreases hi
  {
    if lo < hi {
      TotalSums(m, rows, lo, hi - 1, read);
      TotalPush(m, rows, lo, hi - 1);
      var (column, last) := (Column(rows, lo, hi, read), read(rows[hi - 1]));
      assert column[..|column| - 1] == Column(rows, lo, hi - 1, read) && column[|column| - 1] == last;
      SumPush(Known(Column(rows, lo, hi - 1, read)), if last.Some? then last.value else 0);
    }
  }

  /** Where the rows of a bucket begin and end among the first `n`. */
  function Clip(ordinal: nat, n: nat): nat {
    if ordinal < n then ordinal else n
  }

  lemma {:induction false} BucketIsSlice(m: Measure, rows: seq<Usage>, size: nat, bucket: nat)
    requires size >= 1
    ensures var (lo, hi) := (Clip(bucket * size, |rows|), Clip(bucket * size + size, |rows|));
            SumOfBucket(m, rows, size, bucket) == Total(m, rows[lo..hi])
  {
    if rows != [] {
      var n := |rows| - 1;
      BucketIsSlice(m, rows[..n], size, bucket);
      BucketIsQuotient(n + 1, size, bucket);
      var (lo, hi) := (Clip(bucket * size, n), Clip(bucket * size + size, n));
      assert rows[..n][lo..hi] == rows[lo..hi];
      if bucket * size < n + 1 <= bucket * size + size {
        TotalPush(m, rows, lo, n);
      } else {
        var (lo', hi') := (Clip(bucket * size, n + 1), Clip(bucket * size + size, n + 1));
        assert n < bucket * size ==> rows[lo..hi] == [] == rows[lo'..hi'];
      }
    }
  }

  /** A bar's sums are those of the rows from its first ordinal to its last. */
  lemma BarIsSlice(m: Measure, rows: seq<Usage>, size: nat, bucket: nat)
    requires size >= 1 && bucket < Bars(|rows|, size)
    ensures 1 <= First(bucket, size) <= Last(bucket, size, |rows|) <= |rows|
    ensures SumOfBucket(m, rows, size, bucket)
         == Total(m, rows[First(bucket, size) - 1..Last(bucket, size, |rows|)])
  {
    BarsTile(|rows|, size, bucket);
    BucketIsSlice(m, rows, size, bucket);
    assert (bucket + 1) * size == bucket * size + size;
  }

  /**
    What each bar shows. Of the rows between its first and its last ordinal: how many have a token count at all, how
    many have both and are not marked incomplete, how many failed, and the sums of the input and of the output
    tokens that are known.
   */
  lemma BarShows(rows: seq<Usage>, size: nat, bucket: nat)
    requires size >= 1 && bucket < Bars(|rows|, size)
    ensures 1 <= First(bucket, size) <= Last(bucket, size, |rows|) <= |rows|
    ensures var (lo, hi) := (First(bucket, size) - 1, Last(bucket, size, |rows|));
            && SumOfBucket(Recorded, rows, size, bucket)
               == |Places(rows, lo, hi, (u: Usage) => u.inputTokens.Some? || u.outputTokens.Some?)|
            && SumOfBucket(Complete, rows, size, bucket)
               == |Places(rows, lo, hi, (u: Usage) => u.inputTokens.Some? && u.outputTokens.Some? && !u.incomplete)|
            && SumOfBucket(Errors, rows, size, bucket) == |Places(rows, lo, hi, (u: Usage) => u.failed)|
            && SumOfBucket(InputTokens, rows, size, bucket)
               == Sum(Known(Column(rows, lo, hi, (u: Usage) => u.inputTokens)))
            && SumOfBucket(OutputTokens, rows, size, bucket)
               == Sum(Known(Column(rows, lo, hi, (u: Usage) => u.outputTokens)))
  {
    BarIsSlice(Recorded, rows, size, bucket);
    BarIsSlice(Complete, rows, size, bucket);
    BarIsSlice(Errors, rows, size, bucket);
    BarIsSlice(InputTokens, rows, size, bucket);
    BarIsSlice(OutputTokens, rows, size, bucket);
    var lo, hi := First(bucket, size) - 1, Last(bucket, size, |rows|);
    TotalCounts(Recorded, rows, lo, hi, (u: Usage) => u.inputTokens.Some? || u.outputTokens.Some?);
    TotalCounts(Complete, rows, lo, hi, (u: Usage) => u.inputTokens.Some? && u.outputTokens.Some? && !u.incomplete);
    TotalCounts(Errors, rows, lo, hi, (u: Usage) => u.failed);
    TotalSums(InputTokens, rows, lo, hi, (u: Usage) => u.inputTokens);
    TotalSums(OutputTokens, rows, lo, hi, (u: Usage) => u.outputTokens);
  }

  // ----- Token ranges of the session list -----

  datatype Session = Session(recordedResponses: nat, tokens: int)

  /** Lower bounds included, upper bounds excluded; the last range is open. */
  const TOKEN_RANGES: seq<(int, Option<int>)> :=
    [(0, Some(1)), (1, Some(1000)), (1000, Some(10000)),
     (10000, Some(100000)), (100000, Some(1000000)), (1000000, None)]

  predicate InRange(s: Session, i: nat)
    requires i < |TOKEN_RANGES|
  {
    s.recordedResponses > 0 && TOKEN_RANGES[i].0 <= s.tokens &&
    (TOKEN_RANGES[i].1.Some? ==> s.tokens < TOKEN_RANGES[i].1.value)
  }

  /** The table's WHERE clause for `token_min` and `token_max`. */
  predicate Listed(s: Session, tokenMin: Option<int>, tokenMax: Option<int>) {
    && (tokenMin.Some? || tokenMax.Some? ==> s.recordedResponses > 0)
    && (tokenMin.Some? ==> s.tokens >= tokenMin.value)
    && (tokenMax.Some? ==> s.tokens < tokenMax.value)
  }

  /** The ranges in numbers: none, under a thousand, and powers of ten up to a million and more. */
  lemma RangesInNumbers(s: Session)
    ensures |TOKEN_RANGES| == 6
    ensures InRange(s, 0) <==> s.recordedResponses > 0 && s.tokens == 0
    ensures InRange(s, 1) <==> s.recordedResponses > 0 && 1 <= s.tokens <= 999
    ensures InRange(s, 2) <==> s.recordedResponses > 0 && 1000 <= s.tokens <= 9999
    ensures InRange(s, 3) <==> s.recordedResponses > 0 && 10000 <= s.tokens <= 99999
    ensures InRange(s, 4) <==> s.recordedResponses > 0 && 100000 <= s.tokens <= 999999
    ensures InRange(s, 5) <==> s.recordedResponses > 0 && s.tokens >= 1000000
  {
  }

  function Table(sessions: seq<Session>, tokenMin: Option<int>, tokenMax: Option<int>): seq<Session> {
    if sessions == [] then []
    else
      (if Listed(sessions[0], tokenMin, tokenMax) then [sessions[0]] else []) + Table(sessions[1..], tokenMin, tokenMax)
  }

  function CountInRange(sessions: seq<Session>, i: nat): nat
    requires i < |TOKEN_RANGES|
  {
    if sessions == [] then 0 else (if InRange(sessions[0], i) then 1 else 0) + CountInRange(sessions[1..], i)
  }

  function Unrecorded(sessions: seq<Session>): nat {
    if sessions == [] then 0 else (if sessions[0].recordedResponses == 0 then 1 else 0) + Unrecorded(sessions[1..])
  }

  function Distribution(sessions: seq<Session>, ranges: nat): nat
    requires ranges <= |TOKEN_RANGES|
  {
    if ranges == 0 then 0 else Distribution(sessions, ranges - 1) + CountInRange(sessions, ranges - 1)
  }

  /** The table lists exactly the sessions within the bounds given, and leaves out the unrecorded when there are any. */
  lemma {:induction false} TableIff(sessions: seq<Session>, tokenMin: Option<int>, tokenMax: Option<int>, s: Session)
    ensures s in Table(sessions, tokenMin, tokenMax) <==>
            && s in sessions
            && (tokenMin.Some? ==> s.recordedResponses > 0 && tokenMin.value <= s.tokens)
            && (tokenMax.Some? ==> s.recordedResponses > 0 && s.tokens < tokenMax.value)
  {
    if sessions != [] {
      TableIff(sessions[1..], tokenMin, tokenMax, s);
      assert sessions == [sessions[0]] + sessions[1..];
    }
  }

  /** Each bar of the distribution has the height of the table filtered by that bar's range. */
  lemma {:induction false} BarIsTable(sessions: seq<Session>, i: nat)
    requires i < |TOKEN_RANGES|
    ensures CountInRange(sessions, i) == |Table(sessions, Some(TOKEN_RANGES[i].0), TOKEN_RANGES[i].1)|
  {
    if sessions != [] {
      BarIsTable(sessions[1..], i);
    }
  }

  lemma CountOne(s: Session, i: nat)
    requires i < |TOKEN_RANGES|
    ensures CountInRange([s], i) == if InRange(s, i) then 1 else 0
  {
    assert CountInRange([s], i) == (if InRange(s, i) then 1 else 0) + CountInRange([s][1..], i);
  }

  lemma {:induction false} DistributionAdds(sessions: seq<Session>, ranges: nat)
    requires sessions != [] && ranges <= |TOKEN_RANGES|
    ensures Distribution(sessions, ranges) == Distribution(sessions[1..], ranges) + Distribution([sessions[0]], ranges)
  {
    if ranges > 0 {
      DistributionAdds(sessions, ranges - 1);
      CountOne(sessions[0], ranges - 1);
    }
  }

  /** A recorded session is in exactly one range if its tokens are not negative, else in none. */
  lemma OneRange(s: Session)
    ensures Distribution([s], |TOKEN_RANGES|) == if s.recordedResponses > 0 && s.tokens >= 0 then 1 else 0
  {
    forall i | 0 <= i < |TOKEN_RANGES| ensures CountInRange([s], i) == if InRange(s, i) then 1 else 0 {
      CountOne(s, i);
    }
    Unroll([s]);
  }

  lemma Unroll(sessions: seq<Session>)
    ensures Distribution(sessions, |TOKEN_RANGES|)
         == CountInRange(sessions, 0) + CountInRange(sessions, 1) + CountInRange(sessions, 2)
          + CountInRange(sessions, 3) + CountInRange(sessions, 4) + CountInRange(sessions, 5)
  {
    assert Distribution(sessions, 1) == Distribution(sessions, 0) + CountInRange(sessions, 0);
    assert Distribution(sessions, 2) == Distribution(sessions, 1) + CountInRange(sessions, 1);
    assert Distribution(sessions, 3) == Distribution(sessions, 2) + CountInRange(sessions, 2);
    assert Distribution(sessions, 4) == Distribution(sessions, 3) + CountInRange(sessions, 3);
    assert Distribution(sessions, 5) == Distribution(sessions, 4) + CountInRange(sessions, 4);
  }

  function NegativeRecorded(sessions: seq<Session>): nat {
    if sessions == [] then 0
    else
      (if sessions[0].recordedResponses > 0 && sessions[0].tokens < 0 then 1 else 0) + NegativeRecorded(sessions[1..])
  }

  /** The distribution and the unrecorded sessions account for all sessions, up to those with a negative
      token sum, which no bar shows. */
  lemma {:induction false} DistributionAccounts(sessions: seq<Session>)
    ensures Distribution(sessions, |TOKEN_RANGES|) + Unrecorded(sessions) + NegativeRecorded(sessions) == |sessions|
  {
    if sessions == [] {
      Unroll([]);
    } else {
      DistributionAccounts(sessions[1..]);
      DistributionAdds(sessions, |TOKEN_RANGES|);
      OneRange(sessions[0]);
    }
  }
}
