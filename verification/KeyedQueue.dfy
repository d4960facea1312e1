/**
  `KeyedSerialQueue` of bot-gateway/src/queue.ts: one conversation at a time, through chained promises.
  An entry's tail promise resolves once its own marker is released and its predecessor's tail has
  resolved; an entry's turn comes when the tail it found on arrival has resolved.
 */
module KeyedQueue {
  import opened Wrappers

  datatype Config = Config(maxDepthPerKey: nat, maxWaitMs: int)

  /** What an entry knows for good: its key and the tail it found. */
  datatype Link = Link(key: string, previous: Option<nat>)

  datatype Phase = Waiting | Running | Left

  datatype State = State(
    tails: map<string, nat>,     // key -> the entry whose tail promise is stored
    depths: map<string, int>,
    links: seq<Link>,
    phases: seq<Phase>,
    started: seq<nat>)           // in the order the tasks were started

  const INITIAL := State(map[], map[], [], [], [])

  function TailOf(s: State, key: string): Option<nat> {
    if key in s.tails then Some(s.tails[key]) else None
  }

  function DepthOf(s: State, key: string): int {
    if key in s.depths then s.depths[key] else 0
  }

  /** Predecessors come earlier and have the same key. */
  ghost predicate Linked(links: seq<Link>) {
    forall i :: 0 <= i < |links| && links[i].previous.Some? ==>
                  links[i].previous.value < i && links[links[i].previous.value].key == links[i].key
  }

  /** The tail promise `p` has resolved. */
  ghost predicate Resolved(links: seq<Link>, phases: seq<Phase>, p: Option<nat>)
    requires Linked(links) && |links| == |phases| && (p.Some? ==> p.value < |links|)
    decreases if p.Some? then p.value + 1 else 0
  {
    p.Some? ==> phases[p.value].Left? && Resolved(links, phases, links[p.value].previous)
  }

  /** Entry `e` is on the chain of predecessors that starts at `p`. */
  ghost predicate OnChain(links: seq<Link>, p: Option<nat>, e: nat)
    requires Linked(links) && (p.Some? ==> p.value < |links|)
    decreases if p.Some? then p.value + 1 else 0
  {
    p.Some? && (p.value == e || OnChain(links, links[p.value].previous, e))
  }

  /** How many entries of the key have not left. */
  function Open(links: seq<Link>, phases: seq<Phase>, key: string): nat
    requires |links| == |phases|
  {
    if links == [] then 0
    else
      var last := |links| - 1;
      Open(links[..last], phases[..last], key) + if links[last].key == key && !phases[last].Left? then 1 else 0
  }

  // ----- The steps -----

  predicate Admits(c: Config, s: State, key: string) {
    DepthOf(s, key) < c.maxDepthPerKey
  }

  /** `run` up to its first await; the caller is rejected when the key is full. */
  function Enter(c: Config, s: State, key: string): State {
    if !Admits(c, s, key) then s
    else
      State(s.tails[key := |s.links|], s.depths[key := DepthOf(s, key) + 1],
            s.links + [Link(key, TailOf(s, key))], s.phases + [Waiting], s.started)
  }

  /** The entry's turn: its predecessor's tail has resolved and its task begins. */
  function Start(s: State, i: nat): State
    requires i < |s.phases|
  {
    s.(phases := s.phases[i := Running], started := s.started + [i])
  }

  /** The `finally` block, after the task or after a timeout. */
  function Leave(s: State, i: nat): State
    requires i < |s.phases| && i < |s.links|
  {
    var key := s.links[i].key;
    var remaining := (if key in s.depths then s.depths[key] else 1) - 1;
    s.(phases := s.phases[i := Left],
       tails := if TailOf(s, key) == Some(i) then s.tails - {key} else s.tails,
       depths := if remaining <= 0 then s.depths - {key} else s.depths[key := remaining])
  }

  datatype Step = EnterStep(key: string) | StartStep(i: nat) | FinishStep(i: nat) | TimeOutStep(i: nat)

  ghost predicate Enabled(c: Config, s: State, step: Step)
    requires Linked(s.links) && |s.links| == |s.phases|
  {
    match step
    case EnterStep(key) => true
    case StartStep(i) => i < |s.links| && s.phases[i].Waiting? && Resolved(s.links, s.phases, s.links[i].previous)
    case FinishStep(i) => i < |s.links| && s.phases[i].Running?
    case TimeOutStep(i) => c.maxWaitMs > 0 && i < |s.links| && s.phases[i].Waiting?
  }

  ghost function Apply(c: Config, s: State, step: Step): State
    requires Linked(s.links) && |s.links| == |s.phases| && Enabled(c, s, step)
  {
    match step
    case EnterStep(key) => Enter(c, s, key)
    case StartStep(i) => Start(s, i)
    case FinishStep(i) => Leave(s, i)
    case TimeOutStep(i) => Leave(s, i)
  }

  // ----- What always holds -----

  ghost predicate TailsCurrent(s: State)
    requires |s.links| == |s.phases|
  {
    forall key :: key in s.tails ==>
      var t := s.tails[key];
      t < |s.links| && s.links[t].key == key && !s.phases[t].Left? &&
      forall i :: t < i < |s.links| ==> s.links[i].key != key
  }

  ghost predicate DepthsExact(c: Config, s: State)
    requires |s.links| == |s.phases|
  {
    && (forall key :: DepthOf(s, key) == Open(s.links, s.phases, key) <= c.maxDepthPerKey)
    && (forall key :: key in s.depths ==> s.depths[key] > 0)
  }

  ghost predicate StartsRecorded(s: State)
    requires |s.links| == |s.phases|
  {
    && (forall k :: 0 <= k < |s.started| ==> s.started[k] < |s.links| && !s.phases[s.started[k]].Waiting?)
    && (forall i :: 0 <= i < |s.links| && s.phases[i].Running? ==> i in s.started)
  }

  ghost predicate Inv(c: Config, s: State) {
    |s.links| == |s.phases| && Linked(s.links) && TailsCurrent(s) && DepthsExact(c, s) && StartsRecorded(s)
  }

  lemma OpenPush(links: seq<Link>, phases: seq<Phase>, link: Link, phase: Phase, key: string)
    requires |links| == |phases|
    ensures Open(links + [link], phases + [phase], key)
         == Open(links, phases, key) + if link.key == key && !phase.Left? then 1 else 0
  {
    assert (links + [link])[..|links|] == links && (phases + [phase])[..|phases|] == phases;
  }

  lemma {:induction false} OpenSet(links: seq<Link>, phases: seq<Phase>, i: nat, phase: Phase, key: string)
    requires |links| == |phases| && i < |links|
    ensures Open(links, phases[i := phase], key)
         == Open(links, phases, key) - (if links[i].key == key && !phases[i].Left? then 1 else 0)
                                     + (if links[i].key == key && !phase.Left? then 1 else 0)
  {
    var last := |links| - 1;
    if i == last {
      assert phases[i := phase][..last] == phases[..last];
    } else {
      OpenSet(links[..last], phases[..last], i, phase, key);
      assert phases[i := phase][..last] == phases[..last][i := phase];
    }
  }

  lemma {:induction false} OpenPositive(links: seq<Link>, phases: seq<Phase>, i: nat)
    requires |links| == |phases| && i < |links| && !phases[i].Left?
    ensures Open(links, phases, links[i].key) > 0
  {
    var last := |links| - 1;
    if i < last {
      OpenPositive(links[..last], phases[..last], i);
    }
  }

  lemma {:induction false} OpenZero(links: seq<Link>, phases: seq<Phase>, key: string)
    requires |links| == |phases|
    requires forall i :: 0 <= i < |links| && links[i].key == key ==> phases[i].Left?
    ensures Open(links, phases, key) == 0
  {
    if links != [] {
      var last := |links| - 1;
      OpenZero(links[..last], phases[..last], key);
    }
  }

  lemma EnterKeeps(c: Config, s: State, key: string)
    requires Inv(c, s)
    ensures Inv(c, Enter(c, s, key))
  {
    if Admits(c, s, key) {
      var s', link := Enter(c, s, key), Link(key, TailOf(s, key));
      forall k ensures DepthOf(s', k) == Open(s'.links, s'.phases, k) <= c.maxDepthPerKey {
        assert DepthOf(s, k) == Open(s.links, s.phases, k) <= c.maxDepthPerKey;
        OpenPush(s.links, s.phases, link, Waiting, k);
      }
      EnterTails(c, s, key);
    }
  }

  lemma EnterTails(c: Config, s: State, key: string)
    requires |s.links| == |s.phases| && Linked(s.links) && TailsCurrent(s) && StartsRecorded(s)
    ensures var s' := Enter(c, s, key);
            |s'.links| == |s'.phases| && Linked(s'.links) && TailsCurrent(s') && StartsRecorded(s')
  {
  }

  lemma StartKeeps(c: Config, s: State, i: nat)
    requires Inv(c, s) && i < |s.links| && s.phases[i].Waiting?
    ensures Inv(c, Start(s, i))
  {
    var s' := Start(s, i);
    forall k ensures DepthOf(s', k) == Open(s'.links, s'.phases, k) <= c.maxDepthPerKey {
      assert DepthOf(s, k) == Open(s.links, s.phases, k) <= c.maxDepthPerKey;
      OpenSet(s.links, s.phases, i, Running, k);
    }
    assert s'.started[|s.started|] == i;
  }

  lemma LeaveKeeps(c: Config, s: State, i: nat)
    requires Inv(c, s) && i < |s.links| && !s.phases[i].Left?
    ensures Inv(c, Leave(s, i))
  {
    var s', key := Leave(s, i), s.links[i].key;
    OpenPositive(s.links, s.phases, i);
    assert DepthOf(s, key) == Open(s.links, s.phases, key);
    forall k ensures DepthOf(s', k) == Open(s'.links, s'.phases, k) <= c.maxDepthPerKey {
      assert DepthOf(s, k) == Open(s.links, s.phases, k) <= c.maxDepthPerKey;
      OpenSet(s.links, s.phases, i, Left, k);
    }
  }

  lemma ApplyKeeps(c: Config, s: State, step: Step)
    requires Inv(c, s) && Enabled(c, s, step)
    ensures Inv(c, Apply(c, s, step))
  {
    match step
    case EnterStep(key) => EnterKeeps(c, s, key);
    case StartStep(i) => StartKeeps(c, s, i);
    case FinishStep(i) => LeaveKeeps(c, s, i);
    case TimeOutStep(i) => LeaveKeeps(c, s, i);
  }

  /** Once every entry of a key has left, neither map keeps the key. */
  lemma SettledKeyIsForgotten(c: Config, s: State, key: string)
    requires Inv(c, s)
    requires forall i :: 0 <= i < |s.links| && s.links[i].key == key ==> s.phases[i].Left?
    ensures key !in s.tails && key !in s.depths
  {
    OpenZero(s.links, s.phases, key);
    assert DepthOf(s, key) == 0;
  }

  // ----- The class -----

  class KeyedSerialQueue {
    const config: Config
    var tails: map<string, nat>
    var depths: map<string, int>
    var nextId: nat              // the identity of the next tail promise
    ghost var view: State

    ghost predicate Valid()
      reads this
    {
      tails == view.tails && depths == view.depths && nextId == |view.links| && Inv(config, view)
    }

    constructor (config: Config)
      ensures Valid() && this.config == config && view == INITIAL
    {
      this.config := config;
      tails, depths, nextId, view := map[], map[], 0, INITIAL;
    }

    /** The synchronous part of `run`; None is the error `queue_capacity_exceeded`. */
    method Arrive(key: string) returns (entry: Option<nat>)
      requires Valid()
      modifies this
      ensures Valid() && view == Enter(config, old(view), key)
      ensures entry.None? <==> Open(old(view).links, old(view).phases, key) >= config.maxDepthPerKey
      ensures entry.Some? ==>
                entry.value == |old(view).links| && view.links[entry.value].previous == TailOf(old(view), key)
    {
      EnterKeeps(config, view, key);
      assert DepthOf(view, key) == Open(view.links, view.phases, key);
      var depth := if key in depths then depths[key] else 0;
      if depth >= config.maxDepthPerKey {
        return None;
      }
      view := Enter(config, view, key);
      depths := depths[key := depth + 1];
      tails := tails[key := nextId];
      entry := Some(nextId);
      nextId := nextId + 1;
    }

    /** The `finally` block of `run`. */
    method Depart(key: string, entry: nat)
      requires Valid() && entry < |view.links| && view.links[entry].key == key && !view.phases[entry].Left?
      modifies this
      ensures Valid() && view == Leave(old(view), entry)
    {
      LeaveKeeps(config, view, entry);
      view := Leave(view, entry);
      if key in tails && tails[key] == entry {
        tails := tails - {key};
      }
      var remaining := (if key in depths then depths[key] else 1) - 1;
      if remaining <= 0 {
        depths := depths - {key};
      } else {
        depths := depths[key := remaining];
      }
    }
  }
}
