/** Where the delta branch of `handle_responses_streaming_event` puts its text, and what it leaves alone. */
module ResponsePlacement {
  import opened Wrappers
  import opened ResponseStream
  import opened ResponseEvents

  // ----- What is read and what is written -----

  /** The text under a key, empty when there is none. */
  function TextAt(item: Item, key: string): string {
    if key in item && item[key].Text? then item[key].text else ""
  }

  function PartsAt(item: Item, field: string): seq<Item> {
    if field in item && item[field].Parts? then item[field].parts else []
  }

  /** The two items agree on every key but one. */
  ghost predicate OnlyKeyDiffers(before: Item, after: Item, key: string) {
    forall k :: k != key ==> (k in before <==> k in after) && (k in before ==> after[k] == before[k])
  }

  /** The text under `key` grew by `delta`, and nothing else changed. */
  ghost predicate TextGrows(before: Item, after: Item, key: string, delta: string) {
    key in after && after[key] == Text(TextAt(before, key) + delta) && OnlyKeyDiffers(before, after, key)
  }

  /** The part a list has at `p`, an empty one of type `partType` if it does not reach so far. */
  function PartOrNew(parts: seq<Item>, p: nat, partType: string): Item {
    if p < |parts| then parts[p] else map["type" := Text(partType), "text" := Text("")]
  }

  /**
    Of the list under `field` exactly the part at `place` changed: its text under `key` grew by `delta`. The list was
    extended to reach it, by empty parts of type `partType`, and no other key of the item changed.
   */
  ghost predicate PartGrows(
    before: Item, after: Item, field: string, place: nat, partType: string, key: string, delta: string)
  {
    && OnlyKeyDiffers(before, after, field)
    && field in after && after[field].Parts?
    && (var (parts, grown) := (PartsAt(before, field), PartsAt(after, field));
        && |grown| == (if place < |parts| then |parts| else place + 1)
        && (forall p :: 0 <= p < |grown| && p != place ==> grown[p] == PartOrNew(parts, p, partType))
        && TextGrows(PartOrNew(parts, place, partType), grown[place], key, delta))
  }

  /** Python's reading of an index into a list: negative ones count from the end, and may miss it. */
  predicate Misses(size: nat, index: int) {
    index < 0 && size + index < 0
  }

  function Place(size: nat, index: int): nat
    requires !Misses(size, index)
  {
    if index < 0 then size + index else index
  }

  /** The list under `field` was written at `index`, or that raised because there is no such list or place. */
  ghost predicate WritesPart(
    before: Item, after: Option<Item>, field: string, index: int, partType: string, key: string, delta: string)
  {
    if (field in before && !before[field].Parts?) || Misses(|PartsAt(before, field)|, index) then after.None?
    else
      && after.Some?
      && PartGrows(before, after.value, field, Place(|PartsAt(before, field)|, index), partType, key, delta)
  }

  lemma PartWritten(before: Item, field: string, index: int, partType: string, key: string, delta: string)
    ensures WritesPart(before,
                       WriteToPart(before, field, index, map["type" := Text(partType), "text" := Text("")], key, delta),
                       field, index, partType, key, delta)
  {
    var filler: Item := map["type" := Text(partType), "text" := Text("")];
    var parts := PartsAt(before, field);
    if !((field in before && !before[field].Parts?) || Misses(|parts|, index)) {
      var place := Place(|parts|, index);
      var list := Fill(parts, index, filler);
      assert PlaceIn(|list|, index) == Some(place) && list[place] == PartOrNew(parts, place, partType);
    }
  }

  // ----- The branches -----

  /** A summary delta of a reasoning item goes to the part `summary_index` (by default 0) of its `summary`. */
  lemma SummaryPlaced(item: Item, header: Header, delta: string)
    requires TypeOf(item) == "reasoning"
    ensures WritesPart(item, UpdateItem(item, "reasoning_summary_text", header, delta), "summary",
                       if header.summaryIndex.Some? then header.summaryIndex.value else 0,
                       "summary_text", "text", delta)
  {
    PartWritten(item, "summary", IndexOr0(header.summaryIndex), "summary_text", "text", delta);
  }

  /** A reasoning delta of a reasoning item goes to the part `content_index` (by default 0) of its `content`. */
  lemma ReasoningPlaced(item: Item, header: Header, delta: string)
    requires TypeOf(item) == "reasoning"
    ensures WritesPart(item, UpdateItem(item, "reasoning_text", header, delta), "content",
                       if header.contentIndex.Some? then header.contentIndex.value else 0,
                       "text", "text", delta)
  {
    PartWritten(item, "content", IndexOr0(header.contentIndex), "text", "text", delta);
  }

  /** Other deltas of a message go to its `content`: `text` and `output_text` to a part's text, others to their name. */
  lemma MessagePlaced(item: Item, deltaType: string, header: Header, delta: string)
    requires TypeOf(item) == "message"
    requires deltaType !in {"function_call_arguments", "reasoning_text", "reasoning_summary_text"}
    ensures WritesPart(item, UpdateItem(item, deltaType, header, delta), "content",
                       if header.contentIndex.Some? then header.contentIndex.value else 0,
                       "text", if deltaType in {"text", "output_text"} then "text" else deltaType, delta)
  {
    PartWritten(item, "content", IndexOr0(header.contentIndex), "text",
                if deltaType in {"text", "output_text"} then "text" else deltaType, delta);
  }

  /** Arguments go to the `arguments` of a function call; a value there that is not text raises. */
  lemma ArgumentsPlaced(item: Item, header: Header, delta: string)
    requires TypeOf(item) == "function_call"
    ensures var after := UpdateItem(item, "function_call_arguments", header, delta);
            if "arguments" in item && !item["arguments"].Text? then after.None?
            else after.Some? && TextGrows(item, after.value, "arguments", delta)
  {
  }

  /** An item of another type gets the text under the key named by the delta, `text` and `output_text` under `text`. */
  lemma OtherPlaced(item: Item, deltaType: string, header: Header, delta: string)
    requires TypeOf(item) != "message" && TypeOf(item) != "reasoning" && deltaType != "function_call_arguments"
    ensures var after := UpdateItem(item, deltaType, header, delta);
            after.Some? &&
            TextGrows(item, after.value, if deltaType in {"text", "output_text"} then "text" else deltaType, delta)
  {
  }

  /** The combinations that are skipped. */
  predicate Skipped(itemType: string, deltaType: string) {
    || (deltaType == "function_call_arguments" && itemType != "function_call")
    || (itemType == "message" && (deltaType == "reasoning_text" || deltaType == "reasoning_summary_text"))
    || (itemType == "reasoning" && deltaType != "reasoning_text" && deltaType != "reasoning_summary_text")
  }

  lemma SkippedUnchanged(item: Item, deltaType: string, header: Header, delta: string)
    requires Skipped(TypeOf(item), deltaType)
    ensures UpdateItem(item, deltaType, header, delta) == Some(item)
  {
  }

  // ----- The kind of event -----

  lemma {:induction false} SplitFirst(s: string)
    ensures '.' !in Split(s)[0]
    ensures if |Split(s)| == 1 then Split(s)[0] == s && '.' !in s else Split(s)[0] + "." <= s
  {
    if s != "" && s[0] != '.' {
      SplitFirst(s[1..]);
      assert s == [s[0]] + s[1..];
    }
  }

  lemma SecondPartIff(rest: string, t: string)
    ensures (|Split(rest)| >= 2 && Split(rest)[0] == t) <==> ('.' !in t && t + "." <= rest)
  {
    SplitFirst(rest);
    if t + "." <= rest && '.' !in t {
      assert rest == t + "." + rest[|t| + 1..];
      SplitAt(t, rest[|t| + 1..]);
    }
  }

  /** The delta's type is the part of the kind between `response.` and the next dot, of a kind ending in `.delta`. */
  lemma DeltaTypeIff(header: Header, t: string)
    ensures DeltaType(header) == Some(t) <==>
            '.' !in t && "response" + "." + t + "." <= header.kind && EndsWith(header.kind, ".delta")
  {
    var kind := header.kind;
    if "response" + "." <= kind {
      var rest := kind[|"response."|..];
      assert kind == "response" + "." + rest;
      SplitAt("response", rest);
      SecondPartIff(rest, t);
      assert "response" + "." + t + "." == ("response" + ".") + (t + ".");
      Prefixed("response" + ".", t + ".", rest);
    }
  }

  lemma Prefixed(a: string, b: string, rest: string)
    ensures a + b <= a + rest <==> b <= rest
  {
    if a + b <= a + rest {
      assert (a + rest)[|a|..|a| + |b|] == b;
    }
  }

  // ----- The whole output -----

  /** The item a delta creates. */
  ghost predicate IsCreated(item: Item, itemType: string, id: Option<string>) {
    && item.Keys == {"type", "id", "status", "role", "content"}
    && item["type"] == Text(itemType) && item["id"] == (if id.Some? then Text(id.value) else Opaque(0))
    && item["status"] == Text("in_progress") && item["role"] == Text("assistant") && item["content"] == Parts([])
  }

  /** An item filled in before it. */
  ghost predicate IsFiller(item: Item) {
    && item.Keys == {"type", "status", "role", "content"} && item["type"] == Text("message")
    && item["status"] == Text("in_progress") && item["role"] == Text("assistant") && item["content"] == Parts([])
  }

  /** The type of a created item: `reasoning` for every delta so called, `function_call` for arguments. */
  function TypeFor(deltaType: string): string {
    if deltaType == "function_call_arguments" then "function_call"
    else if |deltaType| >= 9 && deltaType[..9] == "reasoning" then "reasoning"
    else "message"
  }

  lemma CreatedIs(deltaType: string, header: Header)
    ensures IsCreated(Created(deltaType, header), TypeFor(deltaType), header.itemId) && IsFiller(PLACEHOLDER)
  {
    assert |"reasoning"| == 9 && "reasoning"[0] == 'r' && "function_call_arguments"[0] == 'f';
  }

  /** `target` is the item at `index`, one just created when the output did not reach it. */
  ghost predicate IsTarget(items: seq<Item>, index: nat, target: Item, deltaType: string, header: Header) {
    if index < |items| then target == items[index] else IsCreated(target, TypeFor(deltaType), header.itemId)
  }

  /**
    A delta touches one item: the one at `output_index`, the last by default. Every other item stays as it was, the
    output is extended to reach the item, by message placeholders and the created item, and the item itself becomes
    what its branch makes of it, or the handler raises because that branch does.
   */
  lemma OneItemTouched(e: Event, items: seq<Item>, index: nat, deltaType: string) returns (target: Item)
    requires DeltaType(e.header) == Some(deltaType)
    requires index == if e.header.outputIndex.Some? then e.header.outputIndex.value
                      else if items == [] then 0 else |items| - 1
    ensures IsTarget(items, index, target, deltaType, e.header)
    ensures var output := HandleDelta(e, Some(items));
            && (output.None? <==> UpdateItem(target, deltaType, e.header, e.delta).None?)
            && (output.Some? ==>
                  && |output.value| == (if index < |items| then |items| else index + 1)
                  && (forall i :: 0 <= i < |items| && i != index ==> output.value[i] == items[i])
                  && (forall i :: |items| <= i < index ==> IsFiller(output.value[i]))
                  && Some(output.value[index]) == UpdateItem(target, deltaType, e.header, e.delta))
  {
    CreatedIs(deltaType, e.header);
    ReachingFirst(e.header, e.delta, items, index, deltaType);
    target := Reaching(items, index, deltaType, e.header)[index];
  }

  /** Events outside the delta branch, and those for an item before the first, leave the output as it was. */
  lemma NothingTouched(e: Event, items: seq<Item>)
    requires DeltaType(e.header).None? || (e.header.outputIndex.Some? && e.header.outputIndex.value < 0)
    ensures HandleDelta(e, Some(items)) == Some(items)
  {
  }
}
