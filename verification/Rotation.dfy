/**
  The rotation array and its cursor in bot-gateway/src/queue.ts, seen as the cyclic order in
  which the scheduler will next look at the connections.
 */
module Rotation {
  type Connection = string

  ghost predicate NoDuplicates(s: seq<Connection>) {
    forall i, j :: 0 <= i < j < |s| ==> s[i] != s[j]
  }

  predicate InRange(rotation: seq<Connection>, index: nat) {
    index < |rotation| || (index == 0 && rotation == [])
  }

  /** The connections in the order of the scan that starts at the cursor. */
  function Cycle(rotation: seq<Connection>, index: nat): (cycle: seq<Connection>)
    requires index <= |rotation|
    ensures |cycle| == |rotation|
  {
    rotation[index..] + rotation[..index]
  }

  function IndexOf(s: seq<Connection>, c: Connection): (i: nat)
    requires c in s
    ensures i < |s| && s[i] == c && c !in s[..i]
  {
    if s[0] == c then 0 else 1 + IndexOf(s[1..], c)
  }

  function RemoveAt<T>(s: seq<T>, i: nat): seq<T>
    requires i < |s|
  {
    s[..i] + s[i + 1..]
  }

  /** The cursor after `rotation.splice(i, 1)`, as `removeRotation` adjusts it. */
  function CursorAfterRemoval(size: nat, i: nat, index: nat): nat
    requires i < size
  {
    var shifted := if i < index then index - 1 else index;
    if shifted >= size - 1 then 0 else shifted
  }

  lemma {:induction false} IndexUnique(s: seq<Connection>, i: nat)
    requires i < |s| && NoDuplicates(s)
    ensures IndexOf(s, s[i]) == i
  {
  }

  lemma CycleMembers(rotation: seq<Connection>, index: nat, c: Connection)
    requires index <= |rotation|
    ensures c in Cycle(rotation, index) <==> c in rotation
  {
    assert rotation == rotation[..index] + rotation[index..];
  }

  lemma CycleNoDuplicates(rotation: seq<Connection>, index: nat)
    requires NoDuplicates(rotation) && index <= |rotation|
    ensures NoDuplicates(Cycle(rotation, index))
  {
  }

  lemma RemoveAtNoDuplicates(s: seq<Connection>, i: nat)
    requires NoDuplicates(s) && i < |s|
    ensures NoDuplicates(RemoveAt(s, i))
    ensures forall c :: c in RemoveAt(s, i) <==> c in s && c != s[i]
  {
    forall c | c in s && c != s[i] ensures c in RemoveAt(s, i) {
      var j :| 0 <= j < |s| && s[j] == c;
      assert RemoveAt(s, i)[if j < i then j else j - 1] == c;
    }
  }

  lemma RemovalBehindCursor(rotation: seq<Connection>, index: nat, i: nat)
    requires i < index < |rotation|
    ensures Cycle(RemoveAt(rotation, i), index - 1) == RemoveAt(Cycle(rotation, index), |rotation| - index + i)
  {
    var cycle, rest, p := Cycle(rotation, index), RemoveAt(rotation, i), |rotation| - index + i;
    assert rest[index - 1..] == rotation[index..];
    assert rest[..index - 1] == rotation[..i] + rotation[i + 1..index];
    assert cycle[..p] == rotation[index..] + rotation[..i];
    assert cycle[p + 1..] == rotation[i + 1..index];
  }

  lemma RemovalAheadOfCursor(rotation: seq<Connection>, index: nat, i: nat)
    requires index <= i < |rotation|
    ensures Cycle(RemoveAt(rotation, i), index) == RemoveAt(Cycle(rotation, index), i - index)
  {
    var cycle, rest, p := Cycle(rotation, index), RemoveAt(rotation, i), i - index;
    assert rest[index..] == rotation[index..i] + rotation[i + 1..];
    assert rest[..index] == rotation[..index];
    assert cycle[..p] == rotation[index..i];
    assert cycle[p + 1..] == rotation[i + 1..] + rotation[..index];
  }

  /** Removing a connection takes it out of the scan order and disturbs nothing else. */
  lemma RemovalKeepsCycle(rotation: seq<Connection>, index: nat, i: nat, p: nat)
    requires InRange(rotation, index) && i < |rotation|
    requires p == if index <= i then i - index else |rotation| - index + i
    ensures p < |rotation| && Cycle(rotation, index)[p] == rotation[i]
    ensures InRange(RemoveAt(rotation, i), CursorAfterRemoval(|rotation|, i, index))
    ensures Cycle(RemoveAt(rotation, i), CursorAfterRemoval(|rotation|, i, index))
         == RemoveAt(Cycle(rotation, index), p)
  {
    if i < index {
      RemovalBehindCursor(rotation, index, i);
    } else {
      RemovalAheadOfCursor(rotation, index, i);
      var rest := RemoveAt(rotation, i);
      if index == |rest| {
        assert Cycle(rest, index) == rest == Cycle(rest, 0);
      }
    }
  }

  /** `(index + 1) % size`. */
  function Advance(size: nat, index: nat): (next: nat)
    requires index < size
    ensures next == if index + 1 == size then 0 else index + 1
  {
    (index + 1) % size
  }

  /** The scan advances one place: the head of the cycle goes to its end. */
  lemma AdvanceRotatesCycle(rotation: seq<Connection>, index: nat)
    requires index < |rotation|
    ensures Cycle(rotation, index)[0] == rotation[index]
    ensures Cycle(rotation, Advance(|rotation|, index)) == Cycle(rotation, index)[1..] + [rotation[index]]
  {
    if index + 1 == |rotation| {
      assert rotation[0..] == rotation[..index] + [rotation[index]];
    } else {
      assert rotation[..index + 1] == rotation[..index] + [rotation[index]];
      assert rotation[index..][1..] == rotation[index + 1..];
    }
  }

  /** A connection that joins is pushed at the end of the array: somewhere inside the cycle. */
  lemma JoinInsertsInCycle(rotation: seq<Connection>, index: nat, c: Connection)
    requires InRange(rotation, index)
    ensures InRange(rotation + [c], index)
    ensures var p := |rotation| - index;
            Cycle(rotation + [c], index) == Cycle(rotation, index)[..p] + [c] + Cycle(rotation, index)[p..]
  {
    assert (rotation + [c])[index..] == rotation[index..] + [c];
    assert (rotation + [c])[..index] == rotation[..index];
  }

  /** `b` comes before `a` in the order. */
  ghost predicate Before(order: seq<Connection>, b: Connection, a: Connection) {
    exists i, j :: 0 <= i < j < |order| && order[i] == b && order[j] == a
  }
}
