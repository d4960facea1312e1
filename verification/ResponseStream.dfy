/**
  Resumable response streams, backend/open_webui/tasks.py: a snapshot line followed by appended delta
  lines, replayed with adjacent deltas joined. The event handler is a parameter, `h`.
 */
module ResponseStream {
  import opened Wrappers

  /** Everything of a streaming event but its text. */
  datatype Header = Header(
    kind: string, itemId: Option<string>, outputIndex: Option<int>, contentIndex: Option<int>,
    summaryIndex: Option<int>, other: string)

  datatype Event = Event(header: Header, delta: string)

  datatype Key = Key(
    kind: string, itemId: Option<string>, outputIndex: Option<int>, contentIndex: Option<int>,
    summaryIndex: Option<int>)

  predicate StartsWith(s: string, prefix: string) {
    prefix <= s
  }

  predicate EndsWith(s: string, suffix: string) {
    |suffix| <= |s| && s[|s| - |suffix|..] == suffix
  }

  /** `get_response_delta_key`. */
  function DeltaKey(e: Event): Option<Key> {
    var h := e.header;
    if !StartsWith(h.kind, "response.") || !EndsWith(h.kind, ".delta") then None
    else Some(Key(h.kind, h.itemId, h.outputIndex, h.contentIndex, h.summaryIndex))
  }

  // ----- Replaying -----

  function Fold<O>(h: (Event, O) -> O, deltas: seq<Event>, output: O): O {
    if deltas == [] then output else Fold(h, deltas[1..], h(deltas[0], output))
  }

  /** How many events from the front share the key of the first: one group of `groupby`. */
  function GroupLength(deltas: seq<Event>): (n: nat)
    requires deltas != []
    ensures 1 <= n <= |deltas|
    ensures forall i :: 0 <= i < n ==> DeltaKey(deltas[i]) == DeltaKey(deltas[0])
    ensures n < |deltas| ==> DeltaKey(deltas[n]) != DeltaKey(deltas[0])
  {
    if |deltas| == 1 || DeltaKey(deltas[1]) != DeltaKey(deltas[0]) then 1 else 1 + GroupLength(deltas[1..])
  }

  function JoinDeltas(events: seq<Event>): string {
    if events == [] then "" else events[0].delta + JoinDeltas(events[1..])
  }

  /** The first event of a group with the text of all. */
  function Joined(group: seq<Event>): Event
    requires group != []
  {
    group[0].(delta := group[0].delta + JoinDeltas(group[1..]))
  }

  function Replay<O>(h: (Event, O) -> O, deltas: seq<Event>, output: O): O
    decreases |deltas|
  {
    if deltas == [] then output
    else
      var n := GroupLength(deltas);
      Replay(h, deltas[n..], h(Joined(deltas[..n]), output))
  }

  predicate AddsUp<O(==)>(h: (Event, O) -> O, a: Event, b: Event, output: O) {
    DeltaKey(a) == DeltaKey(b) ==> h(b, h(a, output)) == h(a.(delta := a.delta + b.delta), output)
  }

  /** On the events with headers in `p`, applying two deltas with the same key in turn is applying their
      joined text once. */
  ghost predicate Additive<O(!new)>(h: (Event, O) -> O, p: Header -> bool) {
    forall a: Event, b: Event, output: O :: p(a.header) && p(b.header) ==> AddsUp(h, a, b, output)
  }

  predicate AllIn(p: Header -> bool, deltas: seq<Event>) {
    forall i :: 0 <= i < |deltas| ==> p(deltas[i].header)
  }

  lemma {:induction false} GroupFolds<O(!new)>(
    h: (Event, O) -> O, p: Header -> bool, first: Event, rest: seq<Event>, output: O)
    requires Additive(h, p) && p(first.header) && AllIn(p, rest)
    requires forall i :: 0 <= i < |rest| ==> DeltaKey(rest[i]) == DeltaKey(first)
    ensures h(first.(delta := first.delta + JoinDeltas(rest)), output) == Fold(h, rest, h(first, output))
    decreases |rest|
  {
    if rest == [] {
      assert first.(delta := first.delta + "") == first;
    } else {
      var both := first.(delta := first.delta + rest[0].delta);
      assert AddsUp(h, first, rest[0], output);
      assert DeltaKey(both) == DeltaKey(first);
      GroupFolds(h, p, both, rest[1..], output);
      assert first.delta + JoinDeltas(rest) == both.delta + JoinDeltas(rest[1..]);
    }
  }

  lemma {:induction false} FoldConcat<O>(h: (Event, O) -> O, a: seq<Event>, b: seq<Event>, output: O)
    ensures Fold(h, a + b, output) == Fold(h, b, Fold(h, a, output))
    decreases |a|
  {
    if a == [] {
      assert a + b == b;
    } else {
      assert (a + b)[1..] == a[1..] + b;
      FoldConcat(h, a[1..], b, h(a[0], output));
    }
  }

  /** For a handler that is additive on such events, joining adjacent deltas of one key changes nothing. */
  lemma {:induction false} ReplayIsFold<O(!new)>(
    h: (Event, O) -> O, p: Header -> bool, deltas: seq<Event>, output: O)
    requires Additive(h, p) && AllIn(p, deltas)
    ensures Replay(h, deltas, output) == Fold(h, deltas, output)
    decreases |deltas|
  {
    if deltas != [] {
      var n := GroupLength(deltas);
      var group := deltas[..n];
      var after := h(Joined(group), output);
      assert after == Fold(h, group, output) by {
        GroupFolds(h, p, group[0], group[1..], output);
      }
      ReplayIsFold(h, p, deltas[n..], after);
      FoldConcat(h, group, deltas[n..], output);
      assert group + deltas[n..] == deltas;
    }
  }

  ghost predicate JoiningIsHarmless<O(!new)>(h: (Event, O) -> O, p: Header -> bool) {
    forall deltas, output :: AllIn(p, deltas) ==> Replay(h, deltas, output) == Fold(h, deltas, output)
  }

  lemma TwoDeltas<O>(h: (Event, O) -> O, a: Event, b: Event, output: O)
    requires DeltaKey(a) == DeltaKey(b)
    ensures Replay(h, [a, b], output) == h(a.(delta := a.delta + b.delta), output)
    ensures Fold(h, [a, b], output) == h(b, h(a, output))
  {
    var deltas := [a, b];
    assert deltas[1..] == [b] && deltas[1..][1..] == [];
    assert GroupLength(deltas) == 2;
    assert deltas[..2] == deltas && deltas[2..] == [];
    assert JoinDeltas([b]) == b.delta + JoinDeltas([]);
    var both := a.(delta := a.delta + b.delta);
    assert Joined(deltas) == both;
    assert Replay(h, deltas, output) == Replay(h, [], h(both, output)) == h(both, output);
    assert Fold(h, deltas, output) == Fold(h, [b], h(a, output)) == Fold(h, [], h(b, h(a, output)));
  }

  /** Additivity on the events that can be stored is exactly what the joining needs. */
  lemma HarmlessIffAdditive<O(!new)>(h: (Event, O) -> O, p: Header -> bool)
    ensures JoiningIsHarmless(h, p) <==> Additive(h, p)
  {
    if Additive(h, p) {
      forall deltas, output | AllIn(p, deltas) ensures Replay(h, deltas, output) == Fold(h, deltas, output) {
        ReplayIsFold(h, p, deltas, output);
      }
    }
    if JoiningIsHarmless(h, p) {
      forall a: Event, b: Event, output: O | p(a.header) && p(b.header) ensures AddsUp(h, a, b, output) {
        if DeltaKey(a) == DeltaKey(b) {
          TwoDeltas(h, a, b, output);
          assert AllIn(p, [a, b]);
          assert Replay(h, [a, b], output) == Fold(h, [a, b], output);
        }
      }
    }
  }

  // ----- The stored value -----

  type Bytes = seq<int>

  const NEWLINE := 10

  datatype Line<O> = Snapshot(output: O) | Delta(event: Event)

  /** Encoded lines decode back, are not empty and hold no newline. */
  ghost predicate GoodCodec<O(!new)>(encode: Line<O> -> Bytes, decode: Bytes -> Option<Line<O>>) {
    forall line :: decode(encode(line)) == Some(line) && encode(line) != [] && NEWLINE !in encode(line)
  }

  /** The pieces between newlines, empty ones dropped. */
  function Lines(value: Bytes, piece: Bytes): seq<Bytes> {
    if value == [] then (if piece == [] then [] else [piece])
    else if value[0] == NEWLINE then (if piece == [] then [] else [piece]) + Lines(value[1..], [])
    else Lines(value[1..], piece + [value[0]])
  }

  lemma {:induction false} LinesSkip(text: Bytes, rest: Bytes, piece: Bytes)
    requires NEWLINE !in text
    ensures Lines(text + rest, piece) == Lines(rest, piece + text)
    decreases |text|
  {
    if text == [] {
      assert text + rest == rest && piece + text == piece;
    } else {
      assert (text + rest)[1..] == text[1..] + rest;
      LinesSkip(text[1..], rest, piece + [text[0]]);
      assert piece + [text[0]] + text[1..] == piece + text;
    }
  }

  lemma LinesCons(text: Bytes, rest: Bytes)
    requires NEWLINE !in text && text != []
    ensures Lines(text + [NEWLINE] + rest, []) == [text] + Lines(rest, [])
  {
    assert text + [NEWLINE] + rest == text + ([NEWLINE] + rest);
    LinesSkip(text, [NEWLINE] + rest, []);
    assert [] + text == text && ([NEWLINE] + rest)[1..] == rest;
  }

  function DeltaLines<O>(encode: Line<O> -> Bytes, deltas: seq<Event>): Bytes {
    if deltas == [] then [] else encode(Delta(deltas[0])) + [NEWLINE] + DeltaLines(encode, deltas[1..])
  }

  /** What a snapshot and the deltas appended since leave under the key. */
  function Stored<O>(encode: Line<O> -> Bytes, output: O, deltas: seq<Event>): Bytes {
    encode(Snapshot(output)) + [NEWLINE] + DeltaLines(encode, deltas)
  }

  function DecodeDeltas<O>(decode: Bytes -> Option<Line<O>>, lines: seq<Bytes>): Option<seq<Event>> {
    if lines == [] then Some([])
    else
      var (first, rest) := (decode(lines[0]), DecodeDeltas(decode, lines[1..]));
      if first.Some? && first.value.Delta? && rest.Some? then Some([first.value.event] + rest.value) else None
  }

  /** `load_response_stream`: nothing comes of a value that is not a snapshot and deltas. */
  function Load<O>(decode: Bytes -> Option<Line<O>>, h: (Event, O) -> O, value: Bytes): Option<O> {
    var lines := Lines(value, []);
    if lines == [] then None
    else
      var (first, deltas) := (decode(lines[0]), DecodeDeltas(decode, lines[1..]));
      if first.Some? && first.value.Snapshot? && deltas.Some? then Some(Replay(h, deltas.value, first.value.output))
      else None
  }

  lemma {:induction false} DeltaLinesDecode<O(!new)>(
    encode: Line<O> -> Bytes, decode: Bytes -> Option<Line<O>>, deltas: seq<Event>)
    requires GoodCodec(encode, decode)
    ensures DecodeDeltas(decode, Lines(DeltaLines(encode, deltas), [])) == Some(deltas)
    decreases |deltas|
  {
    if deltas != [] {
      var text := encode(Delta(deltas[0]));
      DeltaLinesDecode(encode, decode, deltas[1..]);
      LinesCons(text, DeltaLines(encode, deltas[1..]));
      var lines := Lines(DeltaLines(encode, deltas), []);
      assert lines[0] == text && lines[1..] == Lines(DeltaLines(encode, deltas[1..]), []);
      assert [deltas[0]] + deltas[1..] == deltas;
    }
  }

  /** Round trip: loading gives the output that applying the deltas one by one to the snapshot gives. */
  lemma LoadStored<O(!new)>(
    encode: Line<O> -> Bytes, decode: Bytes -> Option<Line<O>>, h: (Event, O) -> O, p: Header -> bool, output: O,
    deltas: seq<Event>)
    requires GoodCodec(encode, decode) && Additive(h, p) && AllIn(p, deltas)
    ensures Load(decode, h, Stored(encode, output, deltas)) == Some(Fold(h, deltas, output))
  {
    var text := encode(Snapshot(output));
    LinesCons(text, DeltaLines(encode, deltas));
    var lines := Lines(Stored(encode, output, deltas), []);
    assert lines[0] == text && lines[1..] == Lines(DeltaLines(encode, deltas), []);
    DeltaLinesDecode(encode, decode, deltas);
    ReplayIsFold(h, p, deltas, output);
  }

  lemma {:induction false} StoredAppend<O>(encode: Line<O> -> Bytes, output: O, deltas: seq<Event>, e: Event)
    ensures Stored(encode, output, deltas + [e]) == Stored(encode, output, deltas) + (encode(Delta(e)) + [NEWLINE])
    decreases |deltas|
  {
    DeltaLinesAppend(encode, deltas, e);
  }

  lemma {:induction false} DeltaLinesAppend<O>(encode: Line<O> -> Bytes, deltas: seq<Event>, e: Event)
    ensures DeltaLines(encode, deltas + [e]) == DeltaLines(encode, deltas) + (encode(Delta(e)) + [NEWLINE])
    decreases |deltas|
  {
    if deltas == [] {
      assert deltas + [e] == [e] && [e][1..] == [];
      assert DeltaLines(encode, [e]) == encode(Delta(e)) + [NEWLINE] + DeltaLines(encode, []);
    } else {
      assert (deltas + [e])[1..] == deltas[1..] + [e] && (deltas + [e])[0] == deltas[0];
      DeltaLinesAppend(encode, deltas[1..], e);
    }
  }

  // ----- The length-checked append -----

  /** The script of `append_response_stream`; a missing key has length 0. */
  function Append(value: Bytes, delta: Bytes, size: nat): Bytes {
    if |value| != size then value else value + delta
  }

  function AppendTimes(value: Bytes, delta: Bytes, size: nat, times: nat): Bytes {
    if times == 0 then value else Append(AppendTimes(value, delta, size, times - 1), delta, size)
  }

  /** Executing the same append again and again, with nothing else in between, appends at most once. */
  lemma {:induction false} AppendIsIdempotent(value: Bytes, delta: Bytes, size: nat, times: nat)
    requires delta != []
    ensures AppendTimes(value, delta, size, times) == if times == 0 then value else Append(value, delta, size)
  {
    if times > 0 {
      AppendIsIdempotent(value, delta, size, times - 1);
    }
  }

  // ----- The writer -----

  /** What the server holds under the key ([] when there is none), and the writer's view of it. */
  datatype Writer<O> = Writer(stored: Bytes, streamSize: nat, snapshotSize: nat, output: O)

  /**
    `TextDelta` changes the live output, in whatever way, and hands an event to `save_response_delta`; the append
    script may be executed any number of times by retries, and its answer may be lost. `Other` changes the output
    without such an event. `Save` writes a snapshot, which may fail before or after taking effect.
   */
  datatype Step<O> =
    | TextDelta(event: Event, output: O, plain: bool, executions: nat, answered: bool)
    | Other(output: O)
    | Save(executed: bool, answered: bool)
    | Expire

  /** The events stored have headers in `p`. */
  predicate Enabled<O>(p: Header -> bool, step: Step<O>) {
    match step
    case TextDelta(event, _, _, executions, answered) => p(event.header) && (answered ==> executions > 0)
    case Save(executed, answered) => answered ==> executed
    case _ => true
  }

  function SaveDelta<O>(w: Writer<O>, line: Bytes, plain: bool, executions: nat, answered: bool): Writer<O> {
    if w.streamSize == 0 then w
    else if !plain || w.streamSize + |line| > w.snapshotSize * 2 then w.(streamSize := 0)
    else
      var appended := answered && executions == 1 && |w.stored| == w.streamSize;
      w.(stored := AppendTimes(w.stored, line, w.streamSize, executions),
         streamSize := if appended then w.streamSize + |line| else 0)
  }

  function Apply<O>(encode: Line<O> -> Bytes, w: Writer<O>, step: Step<O>): Writer<O> {
    match step
    case TextDelta(event, output, plain, executions, answered) =>
      SaveDelta(w.(output := output), encode(Delta(event)) + [NEWLINE], plain, executions, answered)
    case Other(output) => w.(output := output, streamSize := 0)
    case Save(executed, answered) =>
      var value := encode(Snapshot(w.output)) + [NEWLINE];
      w.(stored := if executed then value else w.stored,
         streamSize := if answered then |value| else 0,
         snapshotSize := if answered then |value| else 0)
    case Expire => w.(stored := [])
  }

  /** Replaying the event does to the output what the live update did. */
  predicate Agrees<O(==)>(h: (Event, O) -> O, before: O, step: Step<O>) {
    step.TextDelta? ==> h(step.event, before) == step.output
  }

  /** The value stands for this output: a snapshot and deltas that lead to it. */
  ghost predicate StandsFor<O(!new)>(
    encode: Line<O> -> Bytes, h: (Event, O) -> O, p: Header -> bool, value: Bytes, output: O)
  {
    exists base, deltas ::
      AllIn(p, deltas) && value == Stored(encode, base, deltas) && Fold(h, deltas, base) == output
  }

  /** While the writer trusts its size, what is stored is either gone or stands for the live output. */
  ghost predicate InSync<O(!new)>(encode: Line<O> -> Bytes, h: (Event, O) -> O, p: Header -> bool, w: Writer<O>) {
    w.streamSize > 0 && w.stored != [] ==>
      |w.stored| == w.streamSize && StandsFor(encode, h, p, w.stored, w.output)
  }

  lemma SnapshotStands<O(!new)>(encode: Line<O> -> Bytes, h: (Event, O) -> O, p: Header -> bool, output: O)
    ensures StandsFor(encode, h, p, encode(Snapshot(output)) + [NEWLINE], output)
  {
    assert encode(Snapshot(output)) + [NEWLINE] == Stored(encode, output, []);
    assert Fold(h, [], output) == output && AllIn(p, []);
  }

  lemma AppendStands<O(!new)>(
    encode: Line<O> -> Bytes, h: (Event, O) -> O, p: Header -> bool, value: Bytes, output: O, e: Event)
    requires StandsFor(encode, h, p, value, output) && p(e.header)
    ensures StandsFor(encode, h, p, value + (encode(Delta(e)) + [NEWLINE]), h(e, output))
  {
    var base, deltas :| AllIn(p, deltas) && value == Stored(encode, base, deltas) && Fold(h, deltas, base) == output;
    StoredAppend(encode, base, deltas, e);
    FoldConcat(h, deltas, [e], base);
    assert Fold(h, [e], output) == Fold(h, [], h(e, output));
    assert AllIn(p, deltas + [e]);
  }

  /** A step that agrees leaves the stored value as it was, removes it, or makes it stand for the output. */
  lemma StepStores<O(!new)>(
    encode: Line<O> -> Bytes, h: (Event, O) -> O, p: Header -> bool, w: Writer<O>, step: Step<O>)
    requires InSync(encode, h, p, w) && Enabled(p, step)
    ensures var w' := Apply(encode, w, step);
            && (step.TextDelta? && w'.streamSize > 0 ==> w'.stored != w.stored)
            && (w'.stored == w.stored || w'.stored == [] || Agrees(h, w.output, step) ==>
                  && InSync(encode, h, p, w')
                  && (w'.stored == w.stored || w'.stored == [] || StandsFor(encode, h, p, w'.stored, w'.output)))
            && (Agrees(h, w.output, step) || !step.TextDelta? || w'.streamSize == 0 ==> InSync(encode, h, p, w'))
  {
    match step
    case TextDelta(event, output, plain, executions, answered) =>
      DeltaStores(encode, h, p, w, event, output, plain, executions, answered);
    case Save(_, _) => SnapshotStands(encode, h, p, w.output);
    case _ =>
  }

  lemma DeltaStores<O(!new)>(
    encode: Line<O> -> Bytes, h: (Event, O) -> O, p: Header -> bool, w: Writer<O>, event: Event, output: O,
    plain: bool, executions: nat, answered: bool)
    requires InSync(encode, h, p, w) && p(event.header)
    ensures var w' := Apply(encode, w, TextDelta(event, output, plain, executions, answered));
            && (w'.streamSize > 0 ==> w'.stored != w.stored)
            && (w'.stored == w.stored ==> w'.streamSize == 0)
            && (w'.stored != w.stored && output == h(event, w.output) ==>
                  InSync(encode, h, p, w') && StandsFor(encode, h, p, w'.stored, w'.output))
  {
    var line := encode(Delta(event)) + [NEWLINE];
    AppendIsIdempotent(w.stored, line, w.streamSize, executions);
    if w.streamSize > 0 && w.stored != [] {
      AppendStands(encode, h, p, w.stored, w.output, event);
    }
  }

  ghost predicate IsRun<O(!new)>(
    encode: Line<O> -> Bytes, p: Header -> bool, writers: seq<Writer<O>>, steps: seq<Step<O>>)
  {
    && |writers| == |steps| + 1
    && writers[0].stored == [] && writers[0].streamSize == 0
    && forall n :: 0 <= n < |steps| ==> FollowsAt(encode, p, writers, steps, n)
  }

  ghost predicate FollowsAt<O(!new)>(
    encode: Line<O> -> Bytes, p: Header -> bool, writers: seq<Writer<O>>, steps: seq<Step<O>>, n: nat)
    requires n < |steps| && |writers| == |steps| + 1
  {
    Enabled(p, steps[n]) && writers[n + 1] == Apply(encode, writers[n], steps[n])
  }

  /** Step `m` appends an event to what is stored. */
  predicate AppendsAt<O(==)>(writers: seq<Writer<O>>, steps: seq<Step<O>>, m: nat)
    requires m < |steps| && |writers| == |steps| + 1
  {
    steps[m].TextDelta? && writers[m + 1].stored != writers[m].stored
  }

  predicate AgreesAt<O(==)>(h: (Event, O) -> O, writers: seq<Writer<O>>, steps: seq<Step<O>>, m: nat)
    requires m < |steps| && |writers| == |steps| + 1
  {
    Agrees(h, writers[m].output, steps[m])
  }

  lemma {:induction false} StoredStands<O(!new)>(
    encode: Line<O> -> Bytes, h: (Event, O) -> O, p: Header -> bool, writers: seq<Writer<O>>, steps: seq<Step<O>>,
    n: nat) returns (m: nat)
    requires IsRun(encode, p, writers, steps) && n < |writers|
    requires forall k :: 0 <= k < |steps| && AppendsAt(writers, steps, k) ==> AgreesAt(h, writers, steps, k)
    ensures InSync(encode, h, p, writers[n])
    ensures m <= n && (writers[n].stored != [] ==> StandsFor(encode, h, p, writers[n].stored, writers[m].output))
  {
    m := n;
    if n > 0 {
      var before := StoredStands(encode, h, p, writers, steps, n - 1);
      assert FollowsAt(encode, p, writers, steps, n - 1);
      assert AppendsAt(writers, steps, n - 1) ==> AgreesAt(h, writers, steps, n - 1);
      StepStores(encode, h, p, writers[n - 1], steps[n - 1]);
      if writers[n].stored == writers[n - 1].stored {
        m := before;
      }
    }
  }

  /** Whatever fails, is retried or expires: if replaying agrees with the live update at every step that appends, a
      stored stream always loads as an output the live response had at that moment or earlier. */
  lemma StoredLoadsAsPast<O(!new)>(
    encode: Line<O> -> Bytes, decode: Bytes -> Option<Line<O>>, h: (Event, O) -> O, p: Header -> bool,
    writers: seq<Writer<O>>, steps: seq<Step<O>>, n: nat) returns (m: nat)
    requires GoodCodec(encode, decode) && Additive(h, p) && IsRun(encode, p, writers, steps) && n < |writers|
    requires forall k :: 0 <= k < |steps| && AppendsAt(writers, steps, k) ==> AgreesAt(h, writers, steps, k)
    requires writers[n].stored != []
    ensures m <= n && Load(decode, h, writers[n].stored) == Some(writers[m].output)
  {
    m := StoredStands(encode, h, p, writers, steps, n);
    StandsForLoads(encode, decode, h, p, writers[n].stored, writers[m].output);
  }

  lemma StandsForLoads<O(!new)>(
    encode: Line<O> -> Bytes, decode: Bytes -> Option<Line<O>>, h: (Event, O) -> O, p: Header -> bool, value: Bytes,
    output: O)
    requires GoodCodec(encode, decode) && Additive(h, p) && StandsFor(encode, h, p, value, output)
    ensures Load(decode, h, value) == Some(output)
  {
    var base, deltas :| AllIn(p, deltas) && value == Stored(encode, base, deltas) && Fold(h, deltas, base) == output;
    LoadStored(encode, decode, h, p, base, deltas);
  }

  // ----- Exactly when the writer may trust its size -----

  /** While the writer trusts its size, what is stored loads as the live output or is gone. */
  predicate Trustworthy<O(==)>(decode: Bytes -> Option<Line<O>>, h: (Event, O) -> O, w: Writer<O>) {
    w.streamSize > 0 && w.stored != [] ==> Load(decode, h, w.stored) == Some(w.output)
  }

  /** An append that leaves the writer trusting its size. */
  predicate TrustedAppend<O>(writers: seq<Writer<O>>, steps: seq<Step<O>>, m: nat)
    requires m < |steps| && |writers| == |steps| + 1
  {
    steps[m].TextDelta? && writers[m + 1].streamSize > 0
  }

  lemma {:induction false} AgreeingIsTrustworthy<O(!new)>(
    encode: Line<O> -> Bytes, h: (Event, O) -> O, p: Header -> bool, writers: seq<Writer<O>>, steps: seq<Step<O>>,
    n: nat)
    requires IsRun(encode, p, writers, steps) && n < |writers|
    requires forall k :: 0 <= k < |steps| && TrustedAppend(writers, steps, k) ==> AgreesAt(h, writers, steps, k)
    ensures InSync(encode, h, p, writers[n])
  {
    if n > 0 {
      AgreeingIsTrustworthy(encode, h, p, writers, steps, n - 1);
      assert FollowsAt(encode, p, writers, steps, n - 1);
      assert TrustedAppend(writers, steps, n - 1) ==> AgreesAt(h, writers, steps, n - 1);
      StepStores(encode, h, p, writers[n - 1], steps[n - 1]);
    }
  }

  /** What is stored always is a snapshot and deltas, and as long as the writer thinks. */
  ghost predicate WellFormed<O(!new)>(encode: Line<O> -> Bytes, p: Header -> bool, w: Writer<O>) {
    && (w.stored != [] ==> exists base, deltas :: AllIn(p, deltas) && w.stored == Stored(encode, base, deltas))
    && (w.streamSize > 0 && w.stored != [] ==> |w.stored| == w.streamSize)
  }

  lemma StepWellFormed<O(!new)>(encode: Line<O> -> Bytes, p: Header -> bool, w: Writer<O>, step: Step<O>)
    requires WellFormed(encode, p, w) && Enabled(p, step)
    ensures WellFormed(encode, p, Apply(encode, w, step))
  {
    if step.TextDelta? {
      var line := encode(Delta(step.event)) + [NEWLINE];
      AppendIsIdempotent(w.stored, line, w.streamSize, step.executions);
      if w.stored != [] {
        var base, deltas :| AllIn(p, deltas) && w.stored == Stored(encode, base, deltas);
        StoredAppend(encode, base, deltas, step.event);
        assert AllIn(p, deltas + [step.event]);
      }
    } else if step.Save? {
      assert AllIn(p, []) && encode(Snapshot(w.output)) + [NEWLINE] == Stored(encode, w.output, []);
    }
  }

  lemma {:induction false} RunWellFormed<O(!new)>(
    encode: Line<O> -> Bytes, p: Header -> bool, writers: seq<Writer<O>>, steps: seq<Step<O>>, n: nat)
    requires IsRun(encode, p, writers, steps) && n < |writers|
    ensures WellFormed(encode, p, writers[n])
  {
    if n > 0 {
      RunWellFormed(encode, p, writers, steps, n - 1);
      assert FollowsAt(encode, p, writers, steps, n - 1);
      StepWellFormed(encode, p, writers[n - 1], steps[n - 1]);
    }
  }

  /** After a trusted append the stored value loads as what replaying the event makes of the output before. */
  lemma TrustedAppendLoads<O(!new)>(
    encode: Line<O> -> Bytes, decode: Bytes -> Option<Line<O>>, h: (Event, O) -> O, p: Header -> bool, w: Writer<O>,
    step: Step<O>)
    requires GoodCodec(encode, decode) && Additive(h, p) && WellFormed(encode, p, w) && Enabled(p, step)
    requires step.TextDelta? && Apply(encode, w, step).streamSize > 0 && Trustworthy(decode, h, w)
    ensures var w' := Apply(encode, w, step);
            w'.stored != [] && Load(decode, h, w'.stored) == Some(h(step.event, w.output))
  {
    var line := encode(Delta(step.event)) + [NEWLINE];
    AppendIsIdempotent(w.stored, line, w.streamSize, step.executions);
    var base, deltas :| AllIn(p, deltas) && w.stored == Stored(encode, base, deltas);
    LoadStored(encode, decode, h, p, base, deltas);
    StoredAppend(encode, base, deltas, step.event);
    assert AllIn(p, deltas + [step.event]);
    LoadStored(encode, decode, h, p, base, deltas + [step.event]);
    FoldConcat(h, deltas, [step.event], base);
    assert Fold(h, [step.event], w.output) == Fold(h, [], h(step.event, w.output));
  }

  ghost predicate AlwaysTrustworthy<O(!new)>(
    decode: Bytes -> Option<Line<O>>, h: (Event, O) -> O, writers: seq<Writer<O>>)
  {
    forall n :: 0 <= n < |writers| ==> Trustworthy(decode, h, writers[n])
  }

  ghost predicate TrustedAppendsAgree<O(!new)>(h: (Event, O) -> O, writers: seq<Writer<O>>, steps: seq<Step<O>>)
    requires |writers| == |steps| + 1
  {
    forall k :: 0 <= k < |steps| && TrustedAppend(writers, steps, k) ==> AgreesAt(h, writers, steps, k)
  }

  /** Over every run: what is stored loads as the live output whenever the writer trusts its size, if and only if
      replaying agrees with the live update at every trusted append. */
  lemma TrustIffAgrees<O(!new)>(
    encode: Line<O> -> Bytes, decode: Bytes -> Option<Line<O>>, h: (Event, O) -> O, p: Header -> bool,
    writers: seq<Writer<O>>, steps: seq<Step<O>>)
    requires GoodCodec(encode, decode) && Additive(h, p) && IsRun(encode, p, writers, steps)
    ensures AlwaysTrustworthy(decode, h, writers) <==> TrustedAppendsAgree(h, writers, steps)
  {
    if TrustedAppendsAgree(h, writers, steps) {
      forall n | 0 <= n < |writers| ensures Trustworthy(decode, h, writers[n]) {
        AgreeingIsTrustworthy(encode, h, p, writers, steps, n);
        if writers[n].streamSize > 0 && writers[n].stored != [] {
          StandsForLoads(encode, decode, h, p, writers[n].stored, writers[n].output);
        }
      }
    }
    if AlwaysTrustworthy(decode, h, writers) {
      forall k | 0 <= k < |steps| && TrustedAppend(writers, steps, k) ensures AgreesAt(h, writers, steps, k) {
        assert FollowsAt(encode, p, writers, steps, k);
        assert Trustworthy(decode, h, writers[k]) && Trustworthy(decode, h, writers[k + 1]);
        RunWellFormed(encode, p, writers, steps, k);
        TrustedAppendLoads(encode, decode, h, p, writers[k], steps[k]);
      }
    }
  }

  // ----- The loop of load_response_stream -----

  /** Where the group that begins at `i` ends. */
  function GroupEnd(deltas: seq<Event>, i: nat): (end: nat)
    requires i < |deltas|
    ensures i < end <= |deltas|
  {
    i + GroupLength(deltas[i..])
  }

  /** Its first event with the text of all. */
  function GroupEvent(deltas: seq<Event>, i: nat): Event
    requires i < |deltas|
  {
    deltas[i].(delta := deltas[i].delta + JoinDeltas(deltas[i + 1..GroupEnd(deltas, i)]))
  }

  /** What the loop still has to do from `i` on. */
  function ReplayFrom<O>(h: (Event, O) -> O, deltas: seq<Event>, i: nat, output: O): O
    requires i <= |deltas|
    decreases |deltas| - i
  {
    if i == |deltas| then output
    else ReplayFrom(h, deltas, GroupEnd(deltas, i), h(GroupEvent(deltas, i), output))
  }

  lemma GroupEventIsJoined(deltas: seq<Event>, i: nat)
    requires i < |deltas|
    ensures var rest := deltas[i..];
            GroupEvent(deltas, i) == Joined(rest[..GroupLength(rest)]) &&
            rest[GroupLength(rest)..] == deltas[GroupEnd(deltas, i)..]
  {
    var rest, n := deltas[i..], GroupLength(deltas[i..]);
    assert rest[..n][1..] == deltas[i + 1..i + n];
  }

  lemma {:induction false} ReplayFromIsReplay<O>(h: (Event, O) -> O, deltas: seq<Event>, i: nat, output: O)
    requires i <= |deltas|
    ensures ReplayFrom(h, deltas, i, output) == Replay(h, deltas[i..], output)
    decreases |deltas| - i
  {
    if i < |deltas| {
      GroupEventIsJoined(deltas, i);
      ReplayFromIsReplay(h, deltas, GroupEnd(deltas, i), h(GroupEvent(deltas, i), output));
    }
  }

  method ReplayDeltas<O>(h: (Event, O) -> O, deltas: seq<Event>, snapshot: O) returns (output: O)
    ensures output == Replay(h, deltas, snapshot)
  {
    ReplayFromIsReplay(h, deltas, 0, snapshot);
    assert deltas[0..] == deltas;
    output := ReplayGroups(h, deltas, snapshot);
  }

  method ReplayGroups<O>(h: (Event, O) -> O, deltas: seq<Event>, snapshot: O) returns (output: O)
    ensures output == ReplayFrom(h, deltas, 0, snapshot)
  {
    output := snapshot;
    var i := 0;
    while i < |deltas|
      invariant i <= |deltas| && ReplayFrom(h, deltas, i, output) == ReplayFrom(h, deltas, 0, snapshot)
    {
      output := h(GroupEvent(deltas, i), output);
      i := GroupEnd(deltas, i);
    }
  }
}
