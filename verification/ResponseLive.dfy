/**
  How backend/open_webui/utils/middleware.py changes the live output, the delta event it stores for each change,
  and exactly when replaying that event does the same.
 */
module ResponseLive {
  import opened Wrappers
  import opened ResponseStream
  import opened ResponseEvents

  // ----- The live updates -----

  /**
    A change to the output of the current round for which a delta is stored: a Responses API delta, given to the
    event handler; Chat Completions text that starts a message, or goes to an item already there; arguments of a
    tool call already there, with what they have accumulated to.
   */
  datatype Update =
    | Provider(e: Event)
    | NewMessage(id: string, value: string)
    | MoreText(at: nat, value: string)
    | Arguments(at: nat, name: string, total: string, delta: string)

  function OutputPart(value: string): Item {
    map["type" := Text("output_text"), "text" := Text(value)]
  }

  function Message(id: string, value: string): Item {
    map["type" := Text("message"), "id" := Text(id), "status" := Text("in_progress"), "role" := Text("assistant"),
        "content" := Parts([OutputPart(value)])]
  }

  function PartsOf(item: Item): seq<Item> {
    if "content" in item && item["content"].Parts? then item["content"].parts else []
  }

  /** The item ends in an `output_text` part, to which text can be appended. */
  predicate EndsInOutputText(item: Item) {
    PartsOf(item) != [] && TypeOf(PartsOf(item)[|PartsOf(item)| - 1]) == "output_text"
  }

  /** Text goes to the last part if that is an `output_text`; otherwise it becomes the whole content. */
  function Extended(item: Item, value: string): Option<Item> {
    if !EndsInOutputText(item) then Some(item["content" := Parts([OutputPart(value)])])
    else
      var parts, last := PartsOf(item), |PartsOf(item)| - 1;
      if "text" !in parts[last] || !parts[last]["text"].Text? then None
      else Some(item["content" := Parts(parts[last := parts[last]["text" := Text(parts[last]["text"].text + value)]])])
  }

  /** The update is the one the source makes on this output. */
  predicate Applies(u: Update, out: seq<Item>) {
    match u
    case Provider(e) => EndsWith(e.header.kind, ".delta")
    case NewMessage(_, _) => out == [] || TypeOf(out[|out| - 1]) != "message"
    case MoreText(at, _) => at < |out| && (TypeOf(out[at]) == "message" || TypeOf(out[at]) == "reasoning")
    case Arguments(at, name, _, _) =>
      at < |out| && TypeOf(out[at]) == "function_call" && Get(out[at], "name") == Some(Text(name))
  }

  /** The output of the round afterwards; None when the update raises. */
  function Live(u: Update, out: seq<Item>): Output {
    match u
    case Provider(e) => HandleDelta(e, Some(out))
    case NewMessage(id, value) => Some(out + [Message(id, value)])
    case MoreText(at, value) =>
      if at >= |out| || Extended(out[at], value).None? then None
      else Some(out[at := Extended(out[at], value).value])
    case Arguments(at, name, total, _) =>
      if at >= |out| then None
      else Some(out[at := out[at]["name" := Text(name)]["arguments" := Text(total)]["status" := Text("in_progress")]])
  }

  // ----- The events stored for them -----

  function Kind(deltaType: string): string {
    "response." + deltaType + ".delta"
  }

  function IdOf(item: Item): Option<string> {
    if "id" in item && item["id"].Text? then Some(item["id"].text) else None
  }

  /** Where `Extended` leaves the text. */
  function LastPart(item: Item): nat {
    if EndsInOutputText(item) then |PartsOf(item)| - 1 else 0
  }

  function EventFor(u: Update, out: seq<Item>): Event
    requires Applies(u, out)
  {
    match u
    case Provider(e) => e
    case NewMessage(id, value) => Event(Header(Kind("output_text"), Some(id), Some(|out|), Some(0), None, ""), value)
    case MoreText(at, value) =>
      var deltaType := if TypeOf(out[at]) == "reasoning" then "reasoning_text" else "output_text";
      Event(Header(Kind(deltaType), IdOf(out[at]), Some(at), Some(LastPart(out[at])), None, ""), value)
    case Arguments(at, _, _, delta) =>
      Event(Header(Kind("function_call_arguments"), IdOf(out[at]), Some(at), None, None, ""), delta)
  }

  /** `get_response_data_with_full_output_index`: indices count from the start of the earlier rounds' output. */
  function Shifted(e: Event, prior: seq<Item>): Event {
    if prior == [] || e.header.outputIndex.None? then e
    else e.(header := e.header.(outputIndex := Some(e.header.outputIndex.value + |prior|)))
  }

  // ----- Replaying behind the output of earlier rounds -----

  function WithPrior(prior: seq<Item>, output: Output): Output {
    if output.None? then None else Some(prior + output.value)
  }

  lemma ShiftKeepsType(e: Event, prior: seq<Item>)
    ensures DeltaType(Shifted(e, prior).header) == DeltaType(e.header) && Shifted(e, prior).delta == e.delta
  {
    assert DeltaKey(Event(Shifted(e, prior).header, "")).None? <==> DeltaKey(Event(e.header, "")).None?;
  }

  lemma ShiftKeepsUpdate(item: Item, deltaType: string, e: Event, prior: seq<Item>)
    ensures UpdateItem(item, deltaType, Shifted(e, prior).header, e.delta)
         == UpdateItem(item, deltaType, e.header, e.delta)
  {
  }

  lemma ShiftKeepsReach(items: seq<Item>, index: nat, deltaType: string, e: Event, prior: seq<Item>)
    ensures Reaching(prior + items, |prior| + index, deltaType, Shifted(e, prior).header)
         == prior + Reaching(items, index, deltaType, e.header)
  {
    assert Created(deltaType, Shifted(e, prior).header) == Created(deltaType, e.header);
  }

  /** An index that means the same place: replay changes the round's output as the handler does, behind the prior. */
  lemma ShiftedHandles(e: Event, prior: seq<Item>, out: seq<Item>, index: nat, deltaType: string)
    requires DeltaType(e.header) == Some(deltaType) && OutputIndex(e.header, |out|) == index
    requires OutputIndex(Shifted(e, prior).header, |prior| + |out|) == |prior| + index
    ensures HandleDelta(Shifted(e, prior), Some(prior + out)) == WithPrior(prior, HandleDelta(e, Some(out)))
  {
    var s := Shifted(e, prior);
    ShiftKeepsType(e, prior);
    var near := Reaching(out, index, deltaType, e.header);
    var far := Reaching(prior + out, |prior| + index, deltaType, s.header);
    ShiftKeepsReach(out, index, deltaType, e, prior);
    ReachingFirst(e.header, e.delta, out, index, deltaType);
    ReachingFirst(s.header, e.delta, prior + out, |prior| + index, deltaType);
    HandlesItem(e.header, e.delta, near, index, deltaType);
    HandlesItem(s.header, e.delta, far, |prior| + index, deltaType);
    assert far[|prior| + index] == near[index];
    ShiftKeepsUpdate(near[index], deltaType, e, prior);
    var item := UpdateItem(near[index], deltaType, e.header, e.delta);
    if item.Some? {
      assert far[|prior| + index := item.value] == prior + near[index := item.value];
    }
  }

  // ----- When replay does what the live update did -----

  /** Replaying the stored event on the full output before gives the full output after. */
  predicate Matches(u: Update, prior: seq<Item>, out: seq<Item>)
    requires Applies(u, out)
  {
    HandleDelta(Shifted(EventFor(u, out), prior), Some(prior + out)) == WithPrior(prior, Live(u, out))
  }

  /**
    The exact condition, on the output before the update. A provider's delta behind earlier rounds needs an index
    that is not negative, or none and an item in this round; a negative one is harmless only where it reaches
    nothing or changes nothing. Text needs an item that ends in an `output_text` part. Arguments need to have
    accumulated to what the item has plus the delta.
   */
  predicate Safe(u: Update, prior: seq<Item>, out: seq<Item>)
    requires Applies(u, out)
  {
    match u
    case Provider(e) =>
      DeltaType(e.header).None? || prior == [] || ProviderSafe(e, DeltaType(e.header).value, prior, out)
    case NewMessage(_, _) => false
    case MoreText(at, _) => EndsInOutputText(out[at])
    case Arguments(at, _, total, delta) =>
      && ("arguments" in out[at] ==> out[at]["arguments"].Text?)
      && Merge(Get(out[at], "arguments"), delta) == Text(total)
      && Get(out[at], "status") == Some(Text("in_progress"))
  }

  predicate ProviderSafe(e: Event, deltaType: string, prior: seq<Item>, out: seq<Item>) {
    match e.header.outputIndex
    case None => out != []
    case Some(k) =>
      k >= 0 || |prior| + k < 0 ||
      UpdateItem(prior[|prior| + k], deltaType, e.header, e.delta) == Some(prior[|prior| + k])
  }

  lemma SamePrior(prior: seq<Item>, a: seq<Item>, b: seq<Item>)
    ensures prior + a == prior + b <==> a == b
  {
    if prior + a == prior + b {
      assert a == (prior + a)[|prior|..] && b == (prior + b)[|prior|..];
    }
  }

  // A provider's delta.

  /** A negative index reaches back into the earlier rounds. */
  lemma NegativeReachesBack(e: Event, deltaType: string, prior: seq<Item>, out: seq<Item>)
    requires DeltaType(e.header) == Some(deltaType) && prior != []
    requires e.header.outputIndex.Some? && e.header.outputIndex.value < 0
    ensures HandleDelta(Shifted(e, prior), Some(prior + out)) == Some(prior + out)
       <==> ProviderSafe(e, deltaType, prior, out)
    ensures HandleDelta(e, Some(out)) == Some(out)
  {
    var s, k := Shifted(e, prior), |prior| + e.header.outputIndex.value;
    ShiftKeepsType(e, prior);
    if k >= 0 {
      assert (prior + out)[k] == prior[k];
      HandlesItem(s.header, e.delta, prior + out, k, deltaType);
      ShiftKeepsUpdate(prior[k], deltaType, e, prior);
      var item := UpdateItem(prior[k], deltaType, e.header, e.delta);
      if item.Some? {
        SetSame(prior + out, k, item.value);
      }
    }
  }

  lemma SetSame(items: seq<Item>, k: nat, item: Item)
    requires k < |items|
    ensures items[k := item] == items <==> item == items[k]
  {
    assert items[k := item][k] == item;
  }

  /** Without an index, and with nothing yet in this round, replay writes to the last item of the earlier ones. */
  lemma MissingFallsBack(e: Event, deltaType: string, prior: seq<Item>)
    requires DeltaType(e.header) == Some(deltaType) && prior != [] && e.header.outputIndex.None?
    ensures var replayed := HandleDelta(Shifted(e, prior), Some(prior));
            replayed.Some? ==> |replayed.value| == |prior|
    ensures var live := HandleDelta(e, Some([])); live.Some? ==> |live.value| == 1
  {
    ReachingFirst(e.header, e.delta, [], 0, deltaType);
    HandlesItem(e.header, e.delta, Reaching([], 0, deltaType, e.header), 0, deltaType);
    HandlesItem(e.header, e.delta, prior, |prior| - 1, deltaType);
  }

  lemma ProviderMatchesIff(e: Event, prior: seq<Item>, out: seq<Item>)
    requires Applies(Provider(e), out) && Live(Provider(e), out).Some?
    ensures Matches(Provider(e), prior, out) <==> Safe(Provider(e), prior, out)
  {
    ShiftKeepsType(e, prior);
    if DeltaType(e.header).Some? {
      var deltaType := DeltaType(e.header).value;
      if prior == [] {
        assert prior + out == out && prior + Live(Provider(e), out).value == Live(Provider(e), out).value;
      } else if e.header.outputIndex.Some? && e.header.outputIndex.value < 0 {
        NegativeReachesBack(e, deltaType, prior, out);
      } else if e.header.outputIndex.None? && out == [] {
        MissingFallsBack(e, deltaType, prior);
        assert prior + [] == prior;
      } else {
        ShiftedHandles(e, prior, out, OutputIndex(e.header, |out|), deltaType);
      }
    }
  }

  // Chat Completions.

  lemma KindHasType(header: Header, deltaType: string)
    requires '.' !in deltaType && header.kind == Kind(deltaType)
    ensures DeltaType(header) == Some(deltaType) && (deltaType != "type" ==> IsStored(header))
  {
    var kind := header.kind;
    assert kind == "response" + "." + (deltaType + "." + "delta");
    SplitAt("response", deltaType + "." + "delta");
    SplitAt(deltaType, "delta");
    assert Split(kind)[1] == deltaType;
    assert "response." <= kind && kind[|kind| - |".delta"|..] == ".delta";
  }

  /** The delta type of the event a Chat Completions update stores. */
  function ChatType(u: Update, out: seq<Item>): string
    requires !u.Provider? && Applies(u, out)
  {
    if u.Arguments? then "function_call_arguments"
    else if u.MoreText? && TypeOf(out[u.at]) == "reasoning" then "reasoning_text"
    else "output_text"
  }

  lemma ChatTypes(u: Update, out: seq<Item>)
    requires !u.Provider? && Applies(u, out)
    ensures DeltaType(EventFor(u, out).header) == Some(ChatType(u, out)) && IsStored(EventFor(u, out).header)
  {
    ChatTypeIsPlain(u, out);
    ChatKind(u, out);
    KindHasType(EventFor(u, out).header, ChatType(u, out));
  }

  lemma ChatTypeIsPlain(u: Update, out: seq<Item>)
    requires !u.Provider? && Applies(u, out)
    ensures '.' !in ChatType(u, out) && ChatType(u, out) != "type"
  {
    assert |ChatType(u, out)| > |"type"|;
  }

  lemma ChatKind(u: Update, out: seq<Item>)
    requires !u.Provider? && Applies(u, out)
    ensures EventFor(u, out).header.kind == Kind(ChatType(u, out))
  {
  }

  /** A new message: replay starts the item from the delta, with a part of type `text`. */
  lemma NewMessageReplays(id: string, value: string, out: seq<Item>)
    requires Applies(NewMessage(id, value), out)
    ensures var replayed := HandleDelta(EventFor(NewMessage(id, value), out), Some(out));
            replayed.Some? ==> |replayed.value| == |out| + 1 && TypeOfFirstPart(replayed.value[|out|]) == "text"
  {
    var e := EventFor(NewMessage(id, value), out);
    ChatTypes(NewMessage(id, value), out);
    ReachingFirst(e.header, value, out, |out|, "output_text");
    var items := Reaching(out, |out|, "output_text", e.header);
    HandlesItem(e.header, value, items, |out|, "output_text");
    StartsWithText(items[|out|], e.header, value);
  }

  lemma NewMessageDiffers(id: string, value: string, out: seq<Item>)
    requires Applies(NewMessage(id, value), out)
    ensures HandleDelta(EventFor(NewMessage(id, value), out), Some(out)) != Live(NewMessage(id, value), out)
  {
    NewMessageReplays(id, value, out);
    MessageStartsWithOutputText(id, value);
    var live := Live(NewMessage(id, value), out);
    assert live.value[|out|] == Message(id, value);
  }

  function TypeOfFirstPart(item: Item): string {
    if PartsOf(item) == [] then "" else TypeOf(PartsOf(item)[0])
  }

  lemma MessageStartsWithOutputText(id: string, value: string)
    ensures TypeOfFirstPart(Message(id, value)) == "output_text"
  {
  }

  lemma StartsWithText(item: Item, header: Header, value: string)
    requires item == Created("output_text", header) && header.contentIndex == Some(0)
    ensures var updated := UpdateItem(item, "output_text", header, value);
            updated.Some? ==> TypeOfFirstPart(updated.value) == "text"
  {
    assert "output_text"[0] != "reasoning"[0];
    assert TypeOf(item) == "message" && PartsOf(item) == [];
    assert Fill([], 0, TEXT_PART) == [TEXT_PART];
  }

  /** The item takes text of this delta type into its content. */
  predicate TakesText(item: Item, deltaType: string) {
    || (TypeOf(item) == "message" && deltaType == "output_text")
    || (TypeOf(item) == "reasoning" && deltaType == "reasoning_text")
  }

  lemma WritesText(item: Item, deltaType: string, header: Header, value: string)
    requires TakesText(item, deltaType) && header.contentIndex == Some(LastPart(item))
    ensures UpdateItem(item, deltaType, header, value)
         == WriteToPart(item, "content", LastPart(item), TEXT_PART, "text", value)
  {
  }

  lemma ReplacedDiffers(item: Item, value: string)
    requires !EndsInOutputText(item)
    ensures WriteToPart(item, "content", LastPart(item), TEXT_PART, "text", value) != Extended(item, value)
  {
    var updated := WriteToPart(item, "content", 0, TEXT_PART, "text", value);
    if updated.Some? {
      var list := Fill(PartsOf(item), 0, TEXT_PART);
      var first := list[0]["text" := Merge(Get(list[0], "text"), value)];
      assert updated.value["content"] == Parts(list[0 := first]);
      assert Extended(item, value).value["content"] == Parts([OutputPart(value)]);
      FirstDiffers(PartsOf(item), value);
    }
  }

  lemma FirstDiffers(parts: seq<Item>, value: string)
    requires parts != [] ==> TypeOf(parts[|parts| - 1]) != "output_text"
    ensures var list := Fill(parts, 0, TEXT_PART);
            list[0 := list[0]["text" := Merge(Get(list[0], "text"), value)]] != [OutputPart(value)]
  {
    var list := Fill(parts, 0, TEXT_PART);
    var first := list[0]["text" := Merge(Get(list[0], "text"), value)];
    assert TypeOf(first) == TypeOf(list[0]) && TypeOf(OutputPart(value)) == "output_text";
    assert list[0 := first][0] == first && [OutputPart(value)][0] == OutputPart(value);
  }

  /** Text for an item already there. */
  lemma AppendItemIff(item: Item, deltaType: string, header: Header, value: string)
    requires TakesText(item, deltaType) && header.contentIndex == Some(LastPart(item))
    requires Extended(item, value).Some?
    ensures UpdateItem(item, deltaType, header, value) == Extended(item, value) <==> EndsInOutputText(item)
  {
    WritesText(item, deltaType, header, value);
    if !EndsInOutputText(item) {
      ReplacedDiffers(item, value);
    }
  }

  lemma ArgumentsItemIff(item: Item, header: Header, name: string, total: string, delta: string)
    requires TypeOf(item) == "function_call" && Get(item, "name") == Some(Text(name))
    ensures UpdateItem(item, "function_call_arguments", header, delta)
         == Some(item["name" := Text(name)]["arguments" := Text(total)]["status" := Text("in_progress")])
       <==> && ("arguments" in item ==> item["arguments"].Text?)
            && Merge(Get(item, "arguments"), delta) == Text(total)
            && Get(item, "status") == Some(Text("in_progress"))
  {
    var live := item["name" := Text(name)]["arguments" := Text(total)]["status" := Text("in_progress")];
    var merged := Merge(Get(item, "arguments"), delta);
    var replayed := item["arguments" := merged];
    if replayed == live {
      assert replayed["arguments"] == live["arguments"];
      assert "status" in replayed && replayed["status"] == live["status"];
    }
    if merged == Text(total) && Get(item, "status") == Some(Text("in_progress")) {
      assert item["name" := Text(name)] == item;
      assert replayed["status" := Text("in_progress")] == replayed;
    }
  }

  /** On the output of the round alone. */
  lemma ChatMatchesIff(u: Update, out: seq<Item>)
    requires !u.Provider? && Applies(u, out) && Live(u, out).Some?
    ensures HandleDelta(EventFor(u, out), Some(out)) == Live(u, out) <==> Safe(u, [], out)
  {
    var e := EventFor(u, out);
    ChatTypes(u, out);
    match u
    case NewMessage(id, value) => NewMessageDiffers(id, value, out);
    case MoreText(at, value) =>
      var deltaType := if TypeOf(out[at]) == "reasoning" then "reasoning_text" else "output_text";
      HandlesItem(e.header, value, out, at, deltaType);
      AppendItemIff(out[at], deltaType, e.header, value);
      SameItemIff(out, at, UpdateItem(out[at], deltaType, e.header, value), Extended(out[at], value).value);
    case Arguments(at, name, total, delta) =>
      HandlesItem(e.header, delta, out, at, "function_call_arguments");
      ArgumentsItemIff(out[at], e.header, name, total, delta);
      SameItemIff(out, at, UpdateItem(out[at], "function_call_arguments", e.header, delta),
                  out[at]["name" := Text(name)]["arguments" := Text(total)]["status" := Text("in_progress")]);
  }

  lemma SameItemIff(out: seq<Item>, at: nat, updated: Option<Item>, item: Item)
    requires at < |out|
    ensures (if updated.None? then None else Some(out[at := updated.value])) == Some(out[at := item])
       <==> updated == Some(item)
  {
    if updated.Some? && out[at := updated.value] == out[at := item] {
      assert out[at := updated.value][at] == updated.value && out[at := item][at] == item;
    }
  }

  /** Earlier rounds make no difference to a Chat Completions update: its index is always given. */
  lemma ChatBehindPrior(u: Update, prior: seq<Item>, out: seq<Item>)
    requires !u.Provider? && Applies(u, out) && Live(u, out).Some?
    ensures Matches(u, prior, out) <==> HandleDelta(EventFor(u, out), Some(out)) == Live(u, out)
  {
    var e := EventFor(u, out);
    ChatTypes(u, out);
    ShiftedHandles(e, prior, out, e.header.outputIndex.value, ChatType(u, out));
    PriorIff(prior, HandleDelta(e, Some(out)), Live(u, out));
  }

  lemma PriorIff(prior: seq<Item>, a: Output, b: Output)
    ensures WithPrior(prior, a) == WithPrior(prior, b) <==> a == b
  {
    if a.Some? && b.Some? {
      SamePrior(prior, a.value, b.value);
    }
  }

  /** Replay does what the live update did exactly when the update is safe. */
  lemma MatchesIff(u: Update, prior: seq<Item>, out: seq<Item>)
    requires Applies(u, out) && Live(u, out).Some?
    ensures Matches(u, prior, out) <==> Safe(u, prior, out)
  {
    if u.Provider? {
      ProviderMatchesIff(u.e, prior, out);
    } else {
      ChatMatchesIff(u, out);
      ChatBehindPrior(u, prior, out);
    }
  }

  // ----- Over whole runs -----

  /** The output of earlier rounds, that of the current one, and the update made to it. */
  datatype Round = Round(prior: seq<Item>, out: seq<Item>, update: Update)

  /** The step makes this update and stores its event. */
  predicate MakesUpdate(before: Output, step: Step<Output>, r: Round) {
    && step.TextDelta? && Applies(r.update, r.out) && Live(r.update, r.out).Some?
    && before == Some(r.prior + r.out)
    && step.output == WithPrior(r.prior, Live(r.update, r.out))
    && step.event == Shifted(EventFor(r.update, r.out), r.prior)
  }

  /** Every step that may append is one of the source's updates, when no earlier message is being continued. */
  ghost predicate IsLive(writers: seq<Writer<Output>>, steps: seq<Step<Output>>, rounds: seq<Round>)
    requires |writers| == |steps| + 1
  {
    && |rounds| == |steps|
    && forall n :: 0 <= n < |steps| && steps[n].TextDelta? && steps[n].plain ==> LiveAt(writers, steps, rounds, n)
  }

  predicate LiveAt(writers: seq<Writer<Output>>, steps: seq<Step<Output>>, rounds: seq<Round>, n: nat)
    requires n < |steps| && |writers| == |steps| + 1 && |rounds| == |steps|
  {
    MakesUpdate(writers[n].output, steps[n], rounds[n])
  }

  predicate SafeAt(rounds: seq<Round>, n: nat)
    requires n < |rounds|
  {
    Applies(rounds[n].update, rounds[n].out) && Safe(rounds[n].update, rounds[n].prior, rounds[n].out)
  }

  lemma AgreesIffSafe(before: Output, step: Step<Output>, r: Round)
    requires MakesUpdate(before, step, r)
    ensures Agrees(HandleDelta, before, step) <==> Safe(r.update, r.prior, r.out)
  {
    MatchesIff(r.update, r.prior, r.out);
  }

  /** Only a plain delta is ever appended. */
  lemma AppendIsPlain(encode: Line<Output> -> Bytes, w: Writer<Output>, step: Step<Output>)
    requires step.TextDelta? && (Apply(encode, w, step).streamSize > 0 || Apply(encode, w, step).stored != w.stored)
    ensures step.plain
  {
  }

  lemma AppendAgreesIff(encode: Line<Output> -> Bytes, writers: seq<Writer<Output>>, steps: seq<Step<Output>>,
                        rounds: seq<Round>, k: nat)
    requires IsRun(encode, IsStored, writers, steps) && IsLive(writers, steps, rounds) && k < |steps|
    requires TrustedAppend(writers, steps, k) || AppendsAt(writers, steps, k)
    ensures AgreesAt(HandleDelta, writers, steps, k) <==> SafeAt(rounds, k)
  {
    assert FollowsAt(encode, IsStored, writers, steps, k);
    AppendIsPlain(encode, writers[k], steps[k]);
    assert LiveAt(writers, steps, rounds, k);
    AgreesIffSafe(writers[k].output, steps[k], rounds[k]);
  }

  /**
    The repository's stream, on every run: what is stored loads as the live output whenever the writer trusts its
    size, if and only if every update it appended for was safe.
   */
  lemma StreamTrustedIff(
    encode: Line<Output> -> Bytes, decode: Bytes -> Option<Line<Output>>, writers: seq<Writer<Output>>,
    steps: seq<Step<Output>>, rounds: seq<Round>)
    requires GoodCodec(encode, decode) && IsRun(encode, IsStored, writers, steps) && IsLive(writers, steps, rounds)
    ensures AlwaysTrustworthy(decode, HandleDelta, writers)
       <==> forall k :: 0 <= k < |steps| && TrustedAppend(writers, steps, k) ==> SafeAt(rounds, k)
  {
    HandlerIsAdditive();
    TrustIffAgrees(encode, decode, HandleDelta, IsStored, writers, steps);
    forall k | 0 <= k < |steps| && TrustedAppend(writers, steps, k)
      ensures AgreesAt(HandleDelta, writers, steps, k) <==> SafeAt(rounds, k)
    {
      AppendAgreesIff(encode, writers, steps, rounds, k);
    }
  }

  /** If all updates appended for were safe, a stored stream always loads as an output the response had. */
  lemma SafeStreamLoadsAsPast(
    encode: Line<Output> -> Bytes, decode: Bytes -> Option<Line<Output>>, writers: seq<Writer<Output>>,
    steps: seq<Step<Output>>, rounds: seq<Round>, n: nat) returns (m: nat)
    requires GoodCodec(encode, decode) && IsRun(encode, IsStored, writers, steps) && IsLive(writers, steps, rounds)
    requires forall k :: 0 <= k < |steps| && AppendsAt(writers, steps, k) ==> SafeAt(rounds, k)
    requires n < |writers| && writers[n].stored != []
    ensures m <= n && Load(decode, HandleDelta, writers[n].stored) == Some(writers[m].output)
  {
    HandlerIsAdditive();
    forall k | 0 <= k < |steps| && AppendsAt(writers, steps, k) ensures AgreesAt(HandleDelta, writers, steps, k) {
      AppendAgreesIff(encode, writers, steps, rounds, k);
    }
    m := StoredLoadsAsPast(encode, decode, HandleDelta, IsStored, writers, steps, n);
  }

  // ----- A run that does not load -----

  /** What is stored at the end loads as none of the outputs of the run. */
  ghost predicate IsMisread(decode: Bytes -> Option<Line<Output>>, writers: seq<Writer<Output>>) {
    && |writers| > 0 && writers[|writers| - 1].streamSize > 0 && writers[|writers| - 1].stored != []
    && forall m :: 0 <= m < |writers| ==>
         Load(decode, HandleDelta, writers[|writers| - 1].stored) != Some(writers[m].output)
  }

  /** One update that replay does not match is enough, when its line fits. */
  lemma Misread(
    encode: Line<Output> -> Bytes, decode: Bytes -> Option<Line<Output>>, event: Event, live: Output, r: Round)
    returns (writers: seq<Writer<Output>>, steps: seq<Step<Output>>, rounds: seq<Round>)
    requires GoodCodec(encode, decode) && r.out == [] && IsStored(event.header)
    requires MakesUpdate(Some(r.prior), TextDelta(event, live, true, 1, true), r)
    requires HandleDelta(event, Some(r.prior)) != Some(r.prior) && HandleDelta(event, Some(r.prior)) != live
    requires |encode(Delta(event))| <= |encode(Snapshot(Some(r.prior)))|
    ensures IsRun(encode, IsStored, writers, steps) && IsLive(writers, steps, rounds) && IsMisread(decode, writers)
    ensures |writers| == 3 && writers[2].output == live
  {
    writers, steps := SaveThenAppend(encode, r.prior, event, live);
    rounds := [r, r];
    SecondIsLive(writers, steps, r);
    MisreadLoads(encode, decode, r.prior, event, writers[2].stored);
    LoadsAsNone(decode, writers, HandleDelta(event, Some(r.prior)));
  }

  lemma SecondIsLive(writers: seq<Writer<Output>>, steps: seq<Step<Output>>, r: Round)
    requires |writers| == 3 && |steps| == 2 && steps[0].Save? && MakesUpdate(writers[1].output, steps[1], r)
    ensures IsLive(writers, steps, [r, r])
  {
    assert LiveAt(writers, steps, [r, r], 1);
  }

  lemma LoadsAsNone(decode: Bytes -> Option<Line<Output>>, writers: seq<Writer<Output>>, loaded: Output)
    requires |writers| == 3 && writers[2].streamSize > 0 && writers[2].stored != []
    requires Load(decode, HandleDelta, writers[2].stored) == Some(loaded)
    requires loaded != writers[0].output && loaded != writers[1].output && loaded != writers[2].output
    ensures IsMisread(decode, writers)
  {
  }

  /**
    A second round of Chat Completions, after a tool call: the earlier rounds are saved, then the first text of the
    round starts a message. If its line fits, the writer goes on trusting its size, and yet what is stored loads as
    no output the response ever had.
   */
  lemma NewMessageIsMisread(
    encode: Line<Output> -> Bytes, decode: Bytes -> Option<Line<Output>>, prior: seq<Item>, id: string, value: string)
    returns (writers: seq<Writer<Output>>, steps: seq<Step<Output>>, rounds: seq<Round>)
    requires GoodCodec(encode, decode)
    requires |encode(Delta(Shifted(EventFor(NewMessage(id, value), []), prior)))|
          <= |encode(Snapshot(Some(prior)))|
    ensures IsRun(encode, IsStored, writers, steps) && IsLive(writers, steps, rounds) && IsMisread(decode, writers)
    ensures |writers| == 3 && writers[2].output == Some(prior + [Message(id, value)])
  {
    NewMessageEvent(prior, id, value);
    NewMessageMisplaced(prior, id, value);
    var u := NewMessage(id, value);
    writers, steps, rounds := Misread(encode, decode, Shifted(EventFor(u, []), prior),
                                      Some(prior + [Message(id, value)]), Round(prior, [], u));
  }

  /** The step that starts a message, seen as an update of the round. */
  lemma NewMessageEvent(prior: seq<Item>, id: string, value: string)
    ensures var (u, event) := (NewMessage(id, value), Shifted(EventFor(NewMessage(id, value), []), prior));
            && IsStored(event.header)
            && MakesUpdate(Some(prior), TextDelta(event, Some(prior + [Message(id, value)]), true, 1, true),
                           Round(prior, [], u))
  {
    var u := NewMessage(id, value);
    assert prior + [] == prior && [] + [Message(id, value)] == [Message(id, value)];
    ChatTypes(u, []);
    ShiftKeepsType(EventFor(u, []), prior);
  }

  /** A snapshot and one delta, both acknowledged. */
  lemma SaveThenAppend(encode: Line<Output> -> Bytes, prior: seq<Item>, event: Event, live: Output)
    returns (writers: seq<Writer<Output>>, steps: seq<Step<Output>>)
    requires IsStored(event.header) && |encode(Delta(event))| <= |encode(Snapshot(Some(prior)))|
    ensures IsRun(encode, IsStored, writers, steps)
    ensures steps == [Save(true, true), TextDelta(event, live, true, 1, true)]
    ensures writers[0].output == writers[1].output == Some(prior) && writers[2].output == live
    ensures writers[2].streamSize > 0
    ensures writers[2].stored == encode(Snapshot(Some(prior))) + [NEWLINE] + (encode(Delta(event)) + [NEWLINE])
  {
    var w0: Writer<Output> := Writer([], 0, 0, Some(prior));
    steps := [Save(true, true), TextDelta(event, live, true, 1, true)];
    var w1 := Apply(encode, w0, steps[0]);
    var w2 := Apply(encode, w1, steps[1]);
    writers := [w0, w1, w2];
    AppendIsIdempotent(w1.stored, encode(Delta(event)) + [NEWLINE], w1.streamSize, 1);
    assert FollowsAt(encode, IsStored, writers, steps, 0) && FollowsAt(encode, IsStored, writers, steps, 1);
  }

  lemma MisreadLoads(
    encode: Line<Output> -> Bytes, decode: Bytes -> Option<Line<Output>>, prior: seq<Item>, event: Event, stored: Bytes)
    requires GoodCodec(encode, decode) && IsStored(event.header)
    requires stored == encode(Snapshot(Some(prior))) + [NEWLINE] + (encode(Delta(event)) + [NEWLINE])
    ensures Load(decode, HandleDelta, stored) == Some(HandleDelta(event, Some(prior)))
  {
    HandlerIsAdditive();
    var base: Output := Some(prior);
    assert Stored(encode, base, []) == encode(Snapshot(base)) + [NEWLINE];
    StoredAppend(encode, base, [], event);
    assert [] + [event] == [event] && AllIn(IsStored, [event]);
    LoadStored(encode, decode, HandleDelta, IsStored, base, [event]);
    assert Fold(HandleDelta, [event], base) == Fold(HandleDelta, [], HandleDelta(event, base));
  }

  lemma NewMessageMisplaced(prior: seq<Item>, id: string, value: string)
    ensures var replayed := HandleDelta(Shifted(EventFor(NewMessage(id, value), []), prior), Some(prior));
            replayed != Some(prior) && replayed != Some(prior + [Message(id, value)])
  {
    var u := NewMessage(id, value);
    var e := EventFor(u, []);
    ChatTypes(u, []);
    assert prior + [] == prior;
    ShiftedHandles(e, prior, [], 0, "output_text");
    NewMessageReplays(id, value, []);
    MessageStartsWithOutputText(id, value);
    var replayed := HandleDelta(e, Some([]));
    if replayed.Some? {
      SamePrior(prior, replayed.value, [Message(id, value)]);
      assert [Message(id, value)][0] == Message(id, value);
      assert |prior + replayed.value| > |prior|;
    }
  }
}
