/**
  The delta branch of `handle_responses_streaming_event` in backend/open_webui/utils/response.py, for
  events whose delta is text: what it does to the output, and that it is additive.
 */
module ResponseEvents {
  import opened Wrappers
  import opened ResponseStream

  /** A JSON value: text, a list of parts, or anything else. */
  datatype Value = Text(text: string) | Parts(parts: seq<map<string, Value>>) | Opaque(tag: nat)

  type Item = map<string, Value>

  /** The output, or None once the handler has raised an exception. */
  type Output = Option<seq<Item>>

  function Split(s: string): (parts: seq<string>)
    ensures parts != []
  {
    if s == "" then [""]
    else if s[0] == '.' then [""] + Split(s[1..])
    else
      var rest := Split(s[1..]);
      [[s[0]] + rest[0]] + rest[1..]
  }

  lemma {:induction false} SplitAt(a: string, b: string)
    requires '.' !in a
    ensures Split(a + "." + b) == [a] + Split(b)
  {
    var s := a + "." + b;
    if a == "" {
      assert s[1..] == b;
    } else {
      assert s[1..] == a[1..] + "." + b && s[0] == a[0];
      SplitAt(a[1..], b);
      assert [a[0]] + a[1..] == a;
    }
  }

  /** The second part of a kind of at least three, when the event goes to the delta branch. */
  function DeltaType(header: Header): Option<string> {
    var parts := Split(header.kind);
    if DeltaKey(Event(header, "")).None? || |parts| < 3 then None else Some(parts[1])
  }

  /** Writing text to a field: appended to text, otherwise in place of what was there. */
  function Merge(current: Option<Value>, delta: string): Value {
    if current.Some? && current.value.Text? then Text(current.value.text + delta) else Text(delta)
  }

  function Get(item: Item, key: string): Option<Value> {
    if key in item then Some(item[key]) else None
  }

  function TypeOf(item: Item): string {
    if "type" in item && item["type"].Text? then item["type"].text else ""
  }

  // ----- Lists of parts -----

  function Fill(list: seq<Item>, index: int, filler: Item): seq<Item> {
    if |list| > index then list else list + seq(index + 1 - |list|, _ => filler)
  }

  /** Where an index points in a list, negative ones from its end; None raises. */
  function PlaceIn(size: nat, index: int): (place: Option<nat>)
    ensures place.Some? ==> place.value < size
  {
    if 0 <= index < size then Some(index) else if index < 0 && 0 <= size + index then Some(size + index) else None
  }

  /** The list under `field`, grown to hold `index`, with the text written to one key of one part. */
  function WriteToPart(item: Item, field: string, index: int, filler: Item, key: string, delta: string): Option<Item> {
    if field in item && !item[field].Parts? then None
    else
      var list := Fill(if field in item then item[field].parts else [], index, filler);
      var place := PlaceIn(|list|, index);
      if place.None? then None
      else
        var part := list[place.value];
        Some(item[field := Parts(list[place.value := part[key := Merge(Get(part, key), delta)]])])
  }

  const TEXT_PART: Item := map["type" := Text("text"), "text" := Text("")]
  const SUMMARY_PART: Item := map["type" := Text("summary_text"), "text" := Text("")]

  function IndexOr0(index: Option<int>): int {
    if index.Some? then index.value else 0
  }

  function FieldFor(deltaType: string): string {
    if deltaType == "text" || deltaType == "output_text" then "text" else deltaType
  }

  /** The branches on the kind of delta and the type of the item. */
  function UpdateItem(item: Item, deltaType: string, header: Header, delta: string): Option<Item> {
    if deltaType == "function_call_arguments" then
      if TypeOf(item) != "function_call" then Some(item)
      else if "arguments" in item && !item["arguments"].Text? then None
      else Some(item["arguments" := Merge(Get(item, "arguments"), delta)])
    else if TypeOf(item) == "message" then
      if deltaType == "reasoning_text" || deltaType == "reasoning_summary_text" then Some(item)
      else WriteToPart(item, "content", IndexOr0(header.contentIndex), TEXT_PART, FieldFor(deltaType), delta)
    else if TypeOf(item) == "reasoning" then
      if deltaType == "reasoning_summary_text" then
        WriteToPart(item, "summary", IndexOr0(header.summaryIndex), SUMMARY_PART, "text", delta)
      else if deltaType == "reasoning_text" then
        WriteToPart(item, "content", IndexOr0(header.contentIndex), TEXT_PART, "text", delta)
      else Some(item)
    else Some(item[FieldFor(deltaType) := Merge(Get(item, FieldFor(deltaType)), delta)])
  }

  // ----- The output -----

  const PLACEHOLDER: Item :=
    map["type" := Text("message"), "status" := Text("in_progress"), "role" := Text("assistant"), "content" := Parts([])]

  function Created(deltaType: string, header: Header): Item {
    PLACEHOLDER["id" := if header.itemId.Some? then Text(header.itemId.value) else Opaque(0)][
      "type" := Text(if "reasoning" <= deltaType then "reasoning"
                     else if deltaType == "function_call_arguments" then "function_call" else "message")]
  }

  function OutputIndex(header: Header, size: nat): int {
    if header.outputIndex.Some? then header.outputIndex.value else if size == 0 then 0 else size - 1
  }

  /** A delta may start an item, without an added event; items before it are filled in. */
  function Reaching(items: seq<Item>, index: int, deltaType: string, header: Header): seq<Item> {
    if index < |items| then items
    else items + seq(index - |items|, _ => PLACEHOLDER) + [Created(deltaType, header)]
  }

  /** The handler on an event with a text delta. */
  function HandleDelta(e: Event, output: Output): Output {
    var deltaType := DeltaType(e.header);
    if output.None? || deltaType.None? then output
    else
      var index := OutputIndex(e.header, |output.value|);
      var items := Reaching(output.value, index, deltaType.value, e.header);
      if index < 0 then output
      else
        var item := UpdateItem(items[index], deltaType.value, e.header, e.delta);
        if item.None? then None else Some(items[index := item.value])
  }

  // ----- Additivity -----

  lemma MergeAdds(current: Option<Value>, x: string, y: string)
    ensures Merge(Some(Merge(current, x)), y) == Merge(current, x + y)
  {
    if current.Some? && current.value.Text? {
      assert current.value.text + x + y == current.value.text + (x + y);
    }
  }

  lemma PartAdds(item: Item, field: string, index: int, filler: Item, key: string, x: string, y: string)
    ensures var once := WriteToPart(item, field, index, filler, key, x);
            && (once.None? <==> WriteToPart(item, field, index, filler, key, x + y).None?)
            && (once.Some? ==>
                  WriteToPart(once.value, field, index, filler, key, y)
                  == WriteToPart(item, field, index, filler, key, x + y))
    ensures var once := WriteToPart(item, field, index, filler, key, x);
            once.Some? && field != "type" ==> TypeOf(once.value) == TypeOf(item)
  {
    var once := WriteToPart(item, field, index, filler, key, x);
    if once.Some? {
      var list := Fill(if field in item then item[field].parts else [], index, filler);
      var place := PlaceIn(|list|, index).value;
      var part := list[place];
      var part1 := part[key := Merge(Get(part, key), x)];
      var list1 := list[place := part1];
      assert once.value[field] == Parts(list1) && Fill(list1, index, filler) == list1;
      MergeAdds(Get(part, key), x, y);
      assert part1[key := Merge(Get(part1, key), y)] == part[key := Merge(Get(part, key), x + y)];
      assert list1[place := part1[key := Merge(Get(part1, key), y)]]
          == list[place := part[key := Merge(Get(part, key), x + y)]];
      PutTwice(item, field, Parts(list1), Parts(list[place := part[key := Merge(Get(part, key), x + y)]]));
    }
  }

  lemma PutTwice(item: Item, field: string, v: Value, w: Value)
    ensures item[field := v][field := w] == item[field := w]
  {
  }

  /** Writing to a field other than `type` leaves the branch the same for the next delta. */
  lemma FieldAdds(item: Item, field: string, x: string, y: string)
    ensures var once := item[field := Merge(Get(item, field), x)];
            && once[field := Merge(Get(once, field), y)] == item[field := Merge(Get(item, field), x + y)]
            && (field != "type" ==> TypeOf(once) == TypeOf(item))
  {
    MergeAdds(Get(item, field), x, y);
    PutTwice(item, field, Merge(Get(item, field), x), Merge(Get(item, field), x + y));
  }

  lemma ItemAdds(item: Item, deltaType: string, header: Header, x: string, y: string)
    requires deltaType != "type"
    ensures var once := UpdateItem(item, deltaType, header, x);
            && (once.None? <==> UpdateItem(item, deltaType, header, x + y).None?)
            && (once.Some? ==>
                  UpdateItem(once.value, deltaType, header, y) == UpdateItem(item, deltaType, header, x + y))
  {
    if deltaType == "function_call_arguments" {
      FieldAdds(item, "arguments", x, y);
    } else if TypeOf(item) == "message" {
      PartAdds(item, "content", IndexOr0(header.contentIndex), TEXT_PART, FieldFor(deltaType), x, y);
    } else if TypeOf(item) == "reasoning" {
      PartAdds(item, "content", IndexOr0(header.contentIndex), TEXT_PART, "text", x, y);
      PartAdds(item, "summary", IndexOr0(header.summaryIndex), SUMMARY_PART, "text", x, y);
    } else {
      FieldAdds(item, FieldFor(deltaType), x, y);
    }
  }

  /** The headers agree on everything the handler looks at. */
  predicate Agree(x: Header, y: Header) {
    x.kind == y.kind && x.itemId == y.itemId && x.outputIndex == y.outputIndex
    && x.contentIndex == y.contentIndex && x.summaryIndex == y.summaryIndex
  }

  lemma AgreeOnItem(item: Item, deltaType: string, x: Header, y: Header, delta: string)
    requires Agree(x, y)
    ensures UpdateItem(item, deltaType, x, delta) == UpdateItem(item, deltaType, y, delta)
  {
  }

  lemma AgreeOnItems(items: seq<Item>, index: int, deltaType: string, x: Header, y: Header)
    requires Agree(x, y)
    ensures Reaching(items, index, deltaType, x) == Reaching(items, index, deltaType, y)
  {
    assert Created(deltaType, x) == Created(deltaType, y);
  }

  lemma AgreeOnType(x: Header, y: Header)
    requires DeltaKey(Event(x, "")) == DeltaKey(Event(y, ""))
    ensures DeltaType(x) == DeltaType(y)
  {
  }

  lemma AgreeOnOutput(x: Header, y: Header, delta: string, output: Output)
    requires Agree(x, y) && DeltaType(x) == DeltaType(y)
    ensures HandleDelta(Event(x, delta), output) == HandleDelta(Event(y, delta), output)
  {
    if output.Some? && DeltaType(x).Some? && OutputIndex(x, |output.value|) >= 0 {
      var index, deltaType := OutputIndex(x, |output.value|), DeltaType(x).value;
      AgreeOnItems(output.value, index, deltaType, x, y);
      AgreeOnItem(Reaching(output.value, index, deltaType, x)[index], deltaType, x, y, delta);
    }
  }

  lemma SameKeyAgrees(a: Event, b: Event)
    requires DeltaKey(a) == DeltaKey(b)
    ensures DeltaKey(Event(a.header, "")) == DeltaKey(Event(b.header, "")) && DeltaType(a.header) == DeltaType(b.header)
    ensures DeltaKey(a).Some? ==> Agree(a.header, b.header)
    ensures DeltaKey(a).None? ==> DeltaType(a.header).None?
  {
    AgreeOnType(a.header, b.header);
  }

  /** Deltas of one key are handled alike. */
  lemma SameKeyHandles(a: Event, b: Event, output: Output)
    requires DeltaKey(a) == DeltaKey(b)
    ensures HandleDelta(b, output) == HandleDelta(Event(a.header, b.delta), output)
  {
    SameKeyAgrees(a, b);
    if DeltaKey(a).Some? {
      AgreeOnOutput(a.header, b.header, b.delta, output);
    }
  }

  /** The events that may spoil it: writing to a field called `type` can change the branch taken next. */
  predicate WritesType(header: Header) {
    DeltaType(header) == Some("type") && (header.outputIndex.Some? ==> header.outputIndex.value >= 0)
  }

  /** On an output that reaches far enough the handler updates one item. */
  lemma HandlesItem(header: Header, delta: string, items: seq<Item>, index: nat, deltaType: string)
    requires DeltaType(header) == Some(deltaType) && index < |items| && OutputIndex(header, |items|) == index
    ensures var item := UpdateItem(items[index], deltaType, header, delta);
            HandleDelta(Event(header, delta), Some(items))
            == if item.None? then None else Some(items[index := item.value])
  {
  }

  lemma ReachedAdds(header: Header, x: string, y: string, items: seq<Item>, index: nat, deltaType: string)
    requires DeltaType(header) == Some(deltaType) && index < |items| && OutputIndex(header, |items|) == index
    requires deltaType != "type"
    ensures HandleDelta(Event(header, y), HandleDelta(Event(header, x), Some(items)))
         == HandleDelta(Event(header, x + y), Some(items))
  {
    ItemAdds(items[index], deltaType, header, x, y);
    HandlesItem(header, x, items, index, deltaType);
    HandlesItem(header, x + y, items, index, deltaType);
    var once := UpdateItem(items[index], deltaType, header, x);
    if once.Some? {
      HandlesItem(header, y, items[index := once.value], index, deltaType);
      var twice := UpdateItem(once.value, deltaType, header, y);
      if twice.Some? {
        assert items[index := once.value][index := twice.value] == items[index := twice.value];
      }
    }
  }

  /** Filling in missing items first makes no difference. */
  lemma ReachingFirst(header: Header, delta: string, items: seq<Item>, index: nat, deltaType: string)
    requires DeltaType(header) == Some(deltaType) && OutputIndex(header, |items|) == index
    ensures var reached := Reaching(items, index, deltaType, header);
            && index < |reached| && OutputIndex(header, |reached|) == index
            && HandleDelta(Event(header, delta), Some(items)) == HandleDelta(Event(header, delta), Some(reached))
  {
    var reached := Reaching(items, index, deltaType, header);
    HandlesItem(header, delta, reached, index, deltaType);
  }

  lemma HeaderAdds(header: Header, x: string, y: string, output: Output)
    requires !WritesType(header)
    ensures HandleDelta(Event(header, y), HandleDelta(Event(header, x), output))
         == HandleDelta(Event(header, x + y), output)
  {
    var deltaType := DeltaType(header);
    if output.Some? && deltaType.Some? && OutputIndex(header, |output.value|) >= 0 {
      var index := OutputIndex(header, |output.value|);
      ReachingFirst(header, x, output.value, index, deltaType.value);
      ReachingFirst(header, x + y, output.value, index, deltaType.value);
      ReachedAdds(header, x, y, Reaching(output.value, index, deltaType.value, header), index, deltaType.value);
    }
  }

  /** What `save_response_delta` is given: kinds that end in `.delta`, apart from those that write `type`. */
  predicate IsStored(header: Header) {
    EndsWith(header.kind, ".delta") && !WritesType(header)
  }

  /** The handler is additive on these events, so the theorems on stored streams hold of it. */
  lemma HandlerIsAdditive()
    ensures Additive(HandleDelta, IsStored)
  {
    forall a: Event, b: Event, output: Output | IsStored(a.header) && IsStored(b.header)
      ensures AddsUp(HandleDelta, a, b, output)
    {
      if DeltaKey(a) == DeltaKey(b) {
        SameKeyHandles(a, b, HandleDelta(a, output));
        HeaderAdds(a.header, a.delta, b.delta, output);
      }
    }
  }

  ghost predicate AddsForAll(header: Header) {
    forall x, y, output :: AddsUp(HandleDelta, Event(header, x), Event(header, y), output)
  }

  /** An item of type `mess`, in the place the events write to. */
  function Victim(header: Header): seq<Item> {
    var size := if header.outputIndex.Some? && header.outputIndex.value >= 0 then header.outputIndex.value + 1 else 1;
    seq(size, _ => map["type" := Text("mess")])
  }

  lemma TypeSpoils(header: Header)
    requires WritesType(header)
    ensures !AddsUp(HandleDelta, Event(header, "age"), Event(header, "s"), Some(Victim(header)))
  {
    var items := Victim(header);
    var index := OutputIndex(header, |items|);
    var item: Item := map["type" := Text("mess")];
    assert items[index] == item;
    SpoiltItem(item, header);
    HandlesItem(header, "age", items, index, "type");
    HandlesItem(header, "ages", items, index, "type");
    var once := UpdateItem(item, "type", header, "age").value;
    HandlesItem(header, "s", items[index := once], index, "type");
    StaysMessage(once, "type", header, "s");
    var stepwise := HandleDelta(Event(header, "s"), HandleDelta(Event(header, "age"), Some(items)));
    var joined := HandleDelta(Event(header, "ages"), Some(items));
    assert stepwise.Some? ==> TypeOf(stepwise.value[index]) == "message";
    assert joined.Some? && TypeOf(joined.value[index]) == "messages";
    assert Event(header, "age").(delta := "age" + "s") == Event(header, "ages");
  }

  lemma SpoiltItem(item: Item, header: Header)
    requires item == map["type" := Text("mess")]
    ensures var once := UpdateItem(item, "type", header, "age"); once.Some? && TypeOf(once.value) == "message"
    ensures var whole := UpdateItem(item, "type", header, "ages"); whole.Some? && TypeOf(whole.value) == "messages"
  {
    assert "mess" + "age" == "message" && "mess" + "ages" == "messages";
  }

  lemma StaysMessage(item: Item, deltaType: string, header: Header, delta: string)
    requires TypeOf(item) == "message"
    ensures var after := UpdateItem(item, deltaType, header, delta);
            after.Some? ==> TypeOf(after.value) == "message"
  {
  }

  /** Exactly the headers that do not write `type` are additive, whatever the texts and the output. */
  lemma AddsIff(header: Header)
    ensures AddsForAll(header) <==> !WritesType(header)
  {
    if WritesType(header) {
      TypeSpoils(header);
    } else {
      forall x, y, output: Output ensures AddsUp(HandleDelta, Event(header, x), Event(header, y), output) {
        HeaderAdds(header, x, y, output);
      }
    }
  }
}
