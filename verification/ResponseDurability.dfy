/** What the response stream writer gets into the store: nothing is lost while its appends are answered. */
module ResponseDurability {
  import opened Wrappers
  import opened ResponseStream

  function LineOf<O>(encode: Line<O> -> Bytes, e: Event): Bytes {
    encode(Delta(e)) + [NEWLINE]
  }

  /** The delta is short enough, beside what is stored, and not mixed with other changes. */
  predicate MayAppend<O>(w: Writer<O>, line: Bytes, plain: bool) {
    w.streamSize > 0 && plain && w.streamSize + |line| <= 2 * w.snapshotSize
  }

  /**
    A text delta, exactly. Its line is added to a value of the size the writer trusts when the script is executed at
    all; the writer goes on trusting only a single execution whose answer arrived; and in every other case the value
    stays as it was and the next save must be a snapshot.
   */
  lemma DeltaIsAppendedIff<O>(encode: Line<O> -> Bytes, w: Writer<O>, step: Step<O>)
    requires step.TextDelta? && (step.answered ==> step.executions > 0)
    ensures var (w', line) := (Apply(encode, w, step), LineOf(encode, step.event));
            && w'.output == step.output && w'.snapshotSize == w.snapshotSize
            && w'.stored == (if MayAppend(w, line, step.plain) && step.executions > 0 && |w.stored| == w.streamSize
                             then w.stored + line else w.stored)
            && w'.streamSize == (if MayAppend(w, line, step.plain) && step.executions == 1 && step.answered
                                    && |w.stored| == w.streamSize
                                 then w.streamSize + |line| else 0)
  {
    AppendIsIdempotent(w.stored, LineOf(encode, step.event), w.streamSize, step.executions);
  }

  /** A trusted value has at most twice the size of its snapshot. */
  lemma {:induction false} AtMostTwiceSnapshot<O(!new)>(
    encode: Line<O> -> Bytes, p: Header -> bool, writers: seq<Writer<O>>, steps: seq<Step<O>>, n: nat)
    requires IsRun(encode, p, writers, steps) && n < |writers|
    ensures writers[n].streamSize > 0 ==> writers[n].streamSize <= 2 * writers[n].snapshotSize
  {
    if n > 0 {
      AtMostTwiceSnapshot(encode, p, writers, steps, n - 1);
      assert FollowsAt(encode, p, writers, steps, n - 1);
      if steps[n - 1].TextDelta? {
        DeltaIsAppendedIff(encode, writers[n - 1], steps[n - 1]);
      }
    }
  }

  // ----- Nothing is lost -----

  /** The events handed over in steps `i` up to `j`. */
  function Events<O>(steps: seq<Step<O>>, i: nat, j: nat): seq<Event>
    requires i <= j <= |steps|
    decreases j - i
  {
    if i == j then []
    else Events(steps, i, j - 1) + if steps[j - 1].TextDelta? then [steps[j - 1].event] else []
  }

  predicate IsAcknowledged<O>(step: Step<O>) {
    step.TextDelta? && step.plain && step.executions == 1 && step.answered
  }

  lemma {:induction false} StoredGrows<O>(encode: Line<O> -> Bytes, output: O, a: seq<Event>, b: seq<Event>)
    requires a <= b
    ensures |Stored(encode, output, a)| <= |Stored(encode, output, b)|
    decreases |b|
  {
    if a != b {
      var shorter := b[..|b| - 1];
      StoredGrows(encode, output, a, shorter);
      StoredAppend(encode, output, shorter, b[|b| - 1]);
      assert shorter + [b[|b| - 1]] == b;
    }
  }

  /** The value is exactly the snapshot and these deltas, and the writer trusts it. */
  predicate UpToDate<O>(encode: Line<O> -> Bytes, w: Writer<O>, output: O, deltas: seq<Event>) {
    && w.stored == Stored(encode, output, deltas) && w.streamSize == |w.stored|
    && w.snapshotSize == |Stored(encode, output, [])|
  }

  lemma AppendKeepsUp<O>(encode: Line<O> -> Bytes, w: Writer<O>, step: Step<O>, output: O, deltas: seq<Event>)
    requires UpToDate(encode, w, output, deltas) && IsAcknowledged(step)
    requires |Stored(encode, output, deltas + [step.event])| <= 2 * |Stored(encode, output, [])|
    ensures UpToDate(encode, Apply(encode, w, step), output, deltas + [step.event])
    ensures Apply(encode, w, step).output == step.output
  {
    StoredAppend(encode, output, deltas, step.event);
    DeltaIsAppendedIff(encode, w, step);
  }

  lemma SaveIsUpToDate<O>(encode: Line<O> -> Bytes, w: Writer<O>)
    ensures UpToDate(encode, Apply(encode, w, Save(true, true)), w.output, [])
  {
    assert Stored(encode, w.output, []) == encode(Snapshot(w.output)) + [NEWLINE];
  }

  lemma {:induction false} WriterKeepsUp<O(!new)>(
    encode: Line<O> -> Bytes, p: Header -> bool, writers: seq<Writer<O>>, steps: seq<Step<O>>, i: nat, j: nat)
    requires IsRun(encode, p, writers, steps) && i < j < |writers| && steps[i] == Save(true, true)
    requires forall m :: i < m < j ==> IsAcknowledged(steps[m])
    requires |Stored(encode, writers[i].output, Events(steps, i + 1, j))| <= 2 * |Stored(encode, writers[i].output, [])|
    ensures UpToDate(encode, writers[j], writers[i].output, Events(steps, i + 1, j))
    ensures AllIn(p, Events(steps, i + 1, j))
    decreases j - i
  {
    assert FollowsAt(encode, p, writers, steps, j - 1);
    if i + 1 == j {
      SaveIsUpToDate(encode, writers[i]);
    } else {
      var before := Events(steps, i + 1, j - 1);
      StoredGrows(encode, writers[i].output, before, Events(steps, i + 1, j));
      WriterKeepsUp(encode, p, writers, steps, i, j - 1);
      AppendKeepsUp(encode, writers[j - 1], steps[j - 1], writers[i].output, before);
    }
  }

  lemma {:induction false} LiveIsFold<O(!new)>(
    encode: Line<O> -> Bytes, h: (Event, O) -> O, p: Header -> bool, writers: seq<Writer<O>>, steps: seq<Step<O>>,
    i: nat, j: nat)
    requires IsRun(encode, p, writers, steps) && i < j < |writers| && steps[i] == Save(true, true)
    requires forall m :: i < m < j ==> IsAcknowledged(steps[m]) && AgreesAt(h, writers, steps, m)
    ensures writers[j].output == Fold(h, Events(steps, i + 1, j), writers[i].output)
    decreases j - i
  {
    assert FollowsAt(encode, p, writers, steps, j - 1);
    if i + 1 < j {
      LiveIsFold(encode, h, p, writers, steps, i, j - 1);
      var (before, e) := (Events(steps, i + 1, j - 1), steps[j - 1].event);
      assert AgreesAt(h, writers, steps, j - 1);
      DeltaIsAppendedIff(encode, writers[j - 1], steps[j - 1]);
      FoldConcat(h, before, [e], writers[i].output);
      assert Fold(h, [e], writers[j - 1].output) == Fold(h, [], h(e, writers[j - 1].output));
    }
  }

  /**
    Nothing is lost. After a snapshot was saved, as long as every following delta is plain, answered and fits, the
    store holds the snapshot and all of them, and loads as the deltas applied in turn; where replaying agrees with the
    live updates that is the live output of this very moment.
   */
  lemma NothingIsLost<O(!new)>(
    encode: Line<O> -> Bytes, decode: Bytes -> Option<Line<O>>, h: (Event, O) -> O, p: Header -> bool,
    writers: seq<Writer<O>>, steps: seq<Step<O>>, i: nat, j: nat)
    requires GoodCodec(encode, decode) && Additive(h, p) && IsRun(encode, p, writers, steps)
    requires i < j < |writers| && steps[i] == Save(true, true)
    requires forall m :: i < m < j ==> IsAcknowledged(steps[m])
    requires |Stored(encode, writers[i].output, Events(steps, i + 1, j))| <= 2 * |Stored(encode, writers[i].output, [])|
    ensures Load(decode, h, writers[j].stored) == Some(Fold(h, Events(steps, i + 1, j), writers[i].output))
    ensures (forall m :: i < m < j ==> AgreesAt(h, writers, steps, m)) ==>
              Load(decode, h, writers[j].stored) == Some(writers[j].output)
  {
    WriterKeepsUp(encode, p, writers, steps, i, j);
    LoadStored(encode, decode, h, p, writers[i].output, Events(steps, i + 1, j));
    if forall m :: i < m < j ==> AgreesAt(h, writers, steps, m) {
      LiveIsFold(encode, h, p, writers, steps, i, j);
    }
  }
}
