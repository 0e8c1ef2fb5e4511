/** Vector clocks: tables of ten slots, merged in place, that refine maps from node to time
    under pointwise maximum. */
module VClock {
  import opened Types

  /** A node of zero marks an empty slot. */
  datatype VSlot = VSlot(node: nat, time: nat)

  const EMPTY := VSlot(0, 0)

  type Clock = seq<VSlot>

  // Looking things up

  function IndexOf(c: Clock, id: nat, from: nat := 0): (i: nat)
    requires from <= |c|
    ensures from <= i <= |c|
    ensures i < |c| ==> c[i].node == id
    ensures forall j :: from <= j < i ==> c[j].node != id
    decreases |c| - from
  {
    if from == |c| || c[from].node == id then from else IndexOf(c, id, from + 1)
  }

  predicate Knows(c: Clock, id: nat) {
    IndexOf(c, id) < |c|
  }

  function TimeOf(c: Clock, id: nat): nat {
    if Knows(c, id) then c[IndexOf(c, id)].time else 0
  }

  function Ids(c: Clock): set<nat> {
    if c == [] then {}
    else Ids(c[..|c| - 1]) + if c[|c| - 1].node != 0 then {c[|c| - 1].node} else {}
  }

  function Empties(c: Clock): nat {
    if c == [] then 0 else Empties(c[..|c| - 1]) + if c[|c| - 1].node == 0 then 1 else 0
  }

  ghost predicate Distinct(c: Clock) {
    forall i, j :: 0 <= i < j < |c| && c[i].node != 0 ==> c[i].node != c[j].node
  }

  /** The greatest time a table holds for a node, over all slots. */
  function Latest(c: Clock, id: nat): nat {
    if c == [] then 0
    else
      var before, last := Latest(c[..|c| - 1], id), c[|c| - 1];
      if last.node == id && before < last.time then last.time else before
  }

  // The specification of the merge

  function MergeSlot(mine: Clock, x: VSlot, me: nat): (c: Clock)
    ensures |c| == |mine|
  {
    if x.node == 0 || x.node == me then mine
    else
      var i := IndexOf(mine, x.node);
      if i < |mine| then (if mine[i].time < x.time then mine[i := VSlot(x.node, x.time)] else mine)
      else
        var j := IndexOf(mine, 0);
        if j < |mine| then mine[j := x] else mine
  }

  function Merge(mine: Clock, other: Clock, me: nat): (c: Clock)
    ensures |c| == |mine|
  {
    if other == [] then mine
    else MergeSlot(Merge(mine, other[..|other| - 1], me), other[|other| - 1], me)
  }

  function Bump(c: Clock, me: nat): (c': Clock)
    ensures |c'| == |c|
  {
    var i := IndexOf(c, me);
    if i < |c| then c[i := VSlot(me, (c[i].time + 1) % TWO32)] else c
  }

  function Add(c: Clock, id: nat): (c': Clock)
    ensures |c'| == |c|
  {
    var i := IndexOf(c, 0);
    if i < |c| then c[i := VSlot(id, 1)] else c
  }

  // The code

  method Has(clock: array<VSlot>, id: nat) returns (has: bool)
    ensures has <==> Knows(clock[..], id)
  {
    var c := 0;
    while c < clock.Length
      invariant c <= clock.Length
      invariant forall j :: 0 <= j < c ==> clock[j].node != id
    {
      if clock[c].node == id {
        assert clock[..][c].node == id;
        return true;
      }
      c := c + 1;
    }
    assert forall j :: 0 <= j < c ==> clock[..][j].node != id;
    return false;
  }

  /** Increments the caller's own time; without an own slot the process exits. */
  method Increment(me: nat, clock: array<VSlot>) returns (ok: bool)
    modifies clock
    ensures ok <==> Knows(old(clock[..]), me)
    ensures clock[..] == Bump(old(clock[..]), me)
  {
    var c := 0;
    while c < clock.Length
      invariant c <= clock.Length
      invariant clock[..] == old(clock[..])
      invariant forall j :: 0 <= j < c ==> clock[..][j].node != me
    {
      if clock[c].node == me {
        assert IndexOf(clock[..], me) == c;
        clock[c] := VSlot(me, (clock[c].time + 1) % TWO32);
        return true;
      }
      c := c + 1;
    }
    return false;
  }

  /** Enters a node at time one in the first empty slot; without one the process exits. */
  method AddNode(clock: array<VSlot>, id: nat) returns (ok: bool)
    modifies clock
    ensures ok <==> Knows(old(clock[..]), 0)
    ensures clock[..] == Add(old(clock[..]), id)
  {
    var c := 0;
    while c < clock.Length
      invariant c <= clock.Length
      invariant clock[..] == old(clock[..])
      invariant forall j :: 0 <= j < c ==> clock[..][j].node != 0
    {
      if clock[c].node == 0 {
        assert IndexOf(clock[..], 0) == c;
        clock[c] := VSlot(id, 1);
        return true;
      }
      c := c + 1;
    }
    return false;
  }

  /** The merge, in place: for each slot of the other table, find our slot for that node,
      or else the first empty one. */
  method UpdateClock(me: nat, mine: array<VSlot>, other: array<VSlot>)
    requires mine != other && mine.Length == other.Length == MAX_NODES
    modifies mine
    ensures mine[..] == Merge(old(mine[..]), other[..], me)
  {
    var i := 0;
    while i < MAX_NODES
      invariant i <= MAX_NODES
      invariant mine[..] == Merge(old(mine[..]), other[..i], me)
    {
      assert other[..i + 1][..i] == other[..i];
      if other[i].node != 0 && other[i].node != me {
        UpdateSlot(me, mine, other[i]);
      }
      i := i + 1;
    }
    assert other[..i] == other[..];
  }

  method UpdateSlot(me: nat, mine: array<VSlot>, x: VSlot)
    requires x.node != 0 && x.node != me
    modifies mine
    ensures mine[..] == MergeSlot(old(mine[..]), x, me)
  {
    var firstEmpty, index := -1, -1;
    var j := 0;
    while j < mine.Length && index == -1
      invariant j <= mine.Length && mine[..] == old(mine[..])
      invariant index == -1 ==> forall k :: 0 <= k < j ==> mine[..][k].node != x.node
      invariant index != -1 ==> 0 <= index < mine.Length && index == IndexOf(mine[..], x.node)
      invariant firstEmpty == -1 ==> forall k :: 0 <= k < j ==> mine[..][k].node != 0
      invariant firstEmpty != -1 ==> 0 <= firstEmpty < mine.Length && firstEmpty == IndexOf(mine[..], 0)
    {
      if mine[j].node == 0 && firstEmpty == -1 {
        assert IndexOf(mine[..], 0) == j;
        firstEmpty := j;
      }
      if mine[j].node == x.node {
        assert IndexOf(mine[..], x.node) == j;
        index := j;
      }
      j := j + 1;
    }
    if index >= 0 {
      if mine[index].time < x.time {
        mine[index] := VSlot(mine[index].node, x.time);
      }
    } else if firstEmpty >= 0 {
      mine[firstEmpty] := x;
    }
  }

  // What one slot does

  lemma {:induction false} KnowsIds(c: Clock, id: nat)
    requires id != 0
    ensures Knows(c, id) <==> id in Ids(c)
  {
    if c != [] {
      var rest := c[..|c| - 1];
      KnowsIds(rest, id);
      assert forall i :: 0 <= i < |rest| ==> rest[i] == c[i];
      if Knows(rest, id) {
        assert c[IndexOf(rest, id)].node == id;
      }
    }
  }

  lemma {:induction false} IdsUpdate(c: Clock, i: nat, x: VSlot)
    requires i < |c| && x.node != 0 && (c[i].node == x.node || c[i].node == 0)
    ensures Ids(c[i := x]) == Ids(c) + {x.node}
    decreases |c|
  {
    var rest := c[..|c| - 1];
    if i == |c| - 1 {
      assert c[i := x][..|c| - 1] == rest;
    } else {
      assert c[i := x][..|c| - 1] == rest[i := x];
      IdsUpdate(rest, i, x);
    }
  }

  lemma LookupUnique(c: Clock, i: nat)
    requires Distinct(c) && i < |c| && c[i].node != 0
    ensures IndexOf(c, c[i].node) == i
  {
  }

  lemma {:induction false} EmptiesUpdate(c: Clock, i: nat, x: VSlot)
    requires i < |c|
    ensures Empties(c[i := x]) + (if c[i].node == 0 then 1 else 0) == Empties(c) + if x.node == 0 then 1 else 0
    decreases |c|
  {
    var rest := c[..|c| - 1];
    if i == |c| - 1 {
      assert c[i := x][..|c| - 1] == rest;
    } else {
      assert c[i := x][..|c| - 1] == rest[i := x];
      EmptiesUpdate(rest, i, x);
    }
  }

  lemma {:induction false} EmptiesZero(c: Clock)
    ensures Empties(c) == 0 <==> !Knows(c, 0)
  {
    if c != [] {
      var rest := c[..|c| - 1];
      EmptiesZero(rest);
      assert forall i :: 0 <= i < |rest| ==> rest[i] == c[i];
      if Knows(rest, 0) {
        assert c[IndexOf(rest, 0)].node == 0;
      }
    }
  }

  /** A slot overwritten with the same node, or an empty slot with an unknown one. */
  lemma Overwrite(c: Clock, i: nat, x: VSlot)
    requires Distinct(c) && i < |c| && x.node != 0
    requires c[i].node == x.node || (c[i].node == 0 && !Knows(c, x.node))
    ensures var c' := c[i := x];
            && Distinct(c') && Ids(c') == Ids(c) + {x.node}
            && TimeOf(c', x.node) == x.time
            && forall id :: id != 0 && id != x.node ==> TimeOf(c', id) == TimeOf(c, id)
  {
    var c' := c[i := x];
    assert c'[i] == x;
    assert forall j :: 0 <= j < |c| && j != i ==> c'[j] == c[j];
    assert Distinct(c');
    LookupUnique(c', i);
    IdsUpdate(c, i, x);
    forall id | id != 0 && id != x.node ensures TimeOf(c', id) == TimeOf(c, id) {
      if Knows(c, id) {
        var j := IndexOf(c, id);
        assert c'[j].node == id;
        LookupUnique(c', j);
      } else {
        assert forall j :: 0 <= j < |c'| ==> c'[j].node != id;
      }
    }
  }

  function Max(a: nat, b: nat): nat {
    if a < b then b else a
  }

  /** One step of the merge: the node's time becomes the greater one, nothing else changes,
      and an unknown node is dropped exactly when there is no empty slot. */
  lemma MergeSlotMeaning(c: Clock, x: VSlot, me: nat)
    requires Distinct(c)
    ensures var c' := MergeSlot(c, x, me);
            && Distinct(c')
            && (forall id :: id != 0 && id != x.node ==> TimeOf(c', id) == TimeOf(c, id))
            && (x.node == 0 || x.node == me ==> c' == c)
            && (x.node != 0 && x.node != me ==>
                  if x.node in Ids(c) || Empties(c) > 0
                  then && Ids(c') == Ids(c) + {x.node}
                       && TimeOf(c', x.node) == Max(TimeOf(c, x.node), x.time)
                       && Empties(c') + (if x.node in Ids(c) then 0 else 1) == Empties(c)
                  else c' == c)
  {
    if x.node != 0 && x.node != me {
      KnowsIds(c, x.node);
      EmptiesZero(c);
      var i := IndexOf(c, x.node);
      if i < |c| {
        if c[i].time < x.time {
          Overwrite(c, i, VSlot(x.node, x.time));
          EmptiesUpdate(c, i, VSlot(x.node, x.time));
        }
      } else if IndexOf(c, 0) < |c| {
        Overwrite(c, IndexOf(c, 0), x);
        EmptiesUpdate(c, IndexOf(c, 0), x);
      }
    }
  }

  /** Incrementing moves the own time on, modulo wrap-around, and no other. */
  lemma BumpMeaning(c: Clock, me: nat)
    requires Distinct(c) && me != 0 && Knows(c, me)
    ensures var c' := Bump(c, me);
            && Distinct(c') && Ids(c') == Ids(c) && TimeOf(c', me) == (TimeOf(c, me) + 1) % TWO32
            && forall id :: id != 0 && id != me ==> TimeOf(c', id) == TimeOf(c, id)
  {
    var i := IndexOf(c, me);
    Overwrite(c, i, VSlot(me, (c[i].time + 1) % TWO32));
    KnowsIds(c, me);
    assert Ids(c) + {me} == Ids(c);
  }

  /** Adding enters the node at time one, takes one empty slot and moves no other time. */
  lemma AddMeaning(c: Clock, id: nat)
    requires Distinct(c) && id != 0 && !Knows(c, id) && Knows(c, 0)
    ensures var c' := Add(c, id);
            && Distinct(c') && Ids(c') == Ids(c) + {id} && TimeOf(c', id) == 1 && Empties(c') + 1 == Empties(c)
            && forall other :: other != 0 && other != id ==> TimeOf(c', other) == TimeOf(c, other)
  {
    var i := IndexOf(c, 0);
    Overwrite(c, i, VSlot(id, 1));
    EmptiesUpdate(c, i, VSlot(id, 1));
  }

  // The whole merge

  /** The nodes that the other table brings in. */
  function NewIds(mine: Clock, other: Clock, me: nat): set<nat> {
    Ids(other) - {me} - Ids(mine)
  }

  /** The bookkeeping behind the merge, on sets alone: `known` nodes before, `now` in the
      table, `seen` in the part of the other table read so far. */
  ghost predicate Booked(known: set<nat>, now: set<nat>, seen: set<nat>, me: nat, total: nat, empty: nat) {
    && known <= now && now - known <= seen - {me} - known
    && empty + |now - known| == total
    && (empty > 0 ==> now - known == seen - {me} - known)
  }

  lemma BookOne(known: set<nat>, now: set<nat>, seen: set<nat>, me: nat, total: nat, empty: nat,
                node: nat, now': set<nat>, empty': nat)
    requires Booked(known, now, seen, me, total, empty) && node != 0
    requires if node == me || (node !in now && empty == 0) then now' == now && empty' == empty
             else now' == now + {node} && empty' + (if node in now then 0 else 1) == empty
    ensures Booked(known, now', seen + {node}, me, total, empty')
  {
    if node in now || node == me || empty == 0 {
      assert now' == now && empty' == empty;
      if empty > 0 && node in now && node !in known {
        assert node in now - known;
      }
    } else {
      assert now' - known == (now - known) + {node};
      assert |now' - known| == |now - known| + 1;
    }
  }

  /** New nodes take one empty slot each and are all there as long as a slot is left. */
  lemma {:induction false} MergeIds(mine: Clock, other: Clock, me: nat)
    requires Distinct(mine)
    ensures Distinct(Merge(mine, other, me))
    ensures Booked(Ids(mine), Ids(Merge(mine, other, me)), Ids(other), me,
                   Empties(mine), Empties(Merge(mine, other, me)))
  {
    if other == [] {
      assert Ids(mine) - Ids(mine) == {};
    } else {
      var rest, x := other[..|other| - 1], other[|other| - 1];
      MergeIds(mine, rest, me);
      MergeIdsStep(mine, Merge(mine, rest, me), rest, x, me);
    }
  }

  lemma MergeIdsStep(mine: Clock, before: Clock, rest: Clock, x: VSlot, me: nat)
    requires Distinct(before)
    requires Booked(Ids(mine), Ids(before), Ids(rest), me, Empties(mine), Empties(before))
    ensures var c := MergeSlot(before, x, me);
            && Distinct(c)
            && Booked(Ids(mine), Ids(c), Ids(rest) + (if x.node != 0 then {x.node} else {}), me, Empties(mine), Empties(c))
  {
    var c := MergeSlot(before, x, me);
    MergeSlotMeaning(before, x, me);
    if x.node != 0 {
      BookOne(Ids(mine), Ids(before), Ids(rest), me, Empties(mine), Empties(before), x.node, Ids(c), Empties(c));
    } else {
      assert Ids(rest) + {} == Ids(rest);
    }
  }

  lemma {:induction false} LatestUnknown(c: Clock, id: nat)
    requires id != 0 && id !in Ids(c)
    ensures Latest(c, id) == 0 && TimeOf(c, id) == 0
  {
    KnowsIds(c, id);
    if c != [] {
      LatestUnknown(c[..|c| - 1], id);
    }
  }

  /** The time of one node in the merge so far. */
  ghost predicate Timed(mine: Clock, c: Clock, latest: nat, me: nat, id: nat) {
    && (id == me ==> TimeOf(c, id) == TimeOf(mine, id))
    && (id != me && id in Ids(c) ==> TimeOf(c, id) == Max(TimeOf(mine, id), latest))
    && TimeOf(c, id) >= TimeOf(mine, id)
  }

  /** What one slot of the other table does to one node. */
  ghost predicate Moved(before: Clock, c: Clock, x: VSlot, me: nat, id: nat) {
    if x.node == id && id != me && (id in Ids(before) || Empties(before) > 0)
    then TimeOf(c, id) == Max(TimeOf(before, id), x.time)
    else TimeOf(c, id) == TimeOf(before, id) && (id in Ids(c) ==> id in Ids(before))
  }

  lemma MergeSlotMoves(before: Clock, x: VSlot, me: nat, id: nat)
    requires Distinct(before) && id != 0
    ensures Moved(before, MergeSlot(before, x, me), x, me, id)
  {
    MergeSlotMeaning(before, x, me);
  }

  /** A node that is not in the table although there is room has not been seen at all. */
  lemma UnseenWithRoom(mine: Clock, before: Clock, rest: Clock, me: nat, id: nat)
    requires id != 0 && id != me && id !in Ids(before) && Empties(before) > 0
    requires Booked(Ids(mine), Ids(before), Ids(rest), me, Empties(mine), Empties(before))
    ensures TimeOf(before, id) == 0 && TimeOf(mine, id) == 0 && Latest(rest, id) == 0
  {
    assert id !in Ids(before) - Ids(mine) && id !in Ids(mine);
    LatestUnknown(before, id);
    LatestUnknown(mine, id);
    LatestUnknown(rest, id);
  }

  /** The own entry is untouched, every other node in the result has the greater of the two
      times, whether or not the table was full, and no time decreases. */
  lemma {:induction false} MergeTimes(mine: Clock, other: Clock, me: nat, id: nat)
    requires Distinct(mine) && id != 0
    ensures Timed(mine, Merge(mine, other, me), Latest(other, id), me, id)
  {
    if other != [] {
      var rest, x := other[..|other| - 1], other[|other| - 1];
      MergeTimes(mine, rest, me, id);
      MergeIds(mine, rest, me);
      MergeSlotMoves(Merge(mine, rest, me), x, me, id);
      var before := Merge(mine, rest, me);
      if id != me && id !in Ids(before) && Empties(before) > 0 {
        UnseenWithRoom(mine, before, rest, me, id);
      }
    }
  }

  // The merge as a map

  function AsMap(c: Clock): map<nat, nat> {
    map id | id in Ids(c) :: TimeOf(c, id)
  }

  function LatestMap(c: Clock): map<nat, nat> {
    map id | id in Ids(c) :: Latest(c, id)
  }

  function Look(m: map<nat, nat>, id: nat): nat {
    if id in m then m[id] else 0
  }

  /** Pointwise maximum over all nodes but the caller's own. */
  function MapMerge(m: map<nat, nat>, o: map<nat, nat>, me: nat): map<nat, nat> {
    map id | id in m.Keys + (o.Keys - {me}) ::
      if id == me then Look(m, id) else Max(Look(m, id), Look(o, id))
  }

  /** All new nodes got a slot exactly when they did not outnumber the empty slots. */
  lemma BookedRoom(known: set<nat>, now: set<nat>, seen: set<nat>, me: nat, total: nat, empty: nat)
    requires Booked(known, now, seen, me, total, empty)
    ensures now == known + (seen - {me}) <==> |seen - {me} - known| <= total
  {
    var added, wanted := now - known, seen - {me} - known;
    SubsetSize(added, wanted);
    assert now == known + added && known + (seen - {me}) == known + wanted;
    if now == known + wanted {
      assert added == wanted;
    }
  }

  /** Where the nodes agree, the times agree. */
  lemma MergedMap(mine: Clock, other: Clock, c: Clock, me: nat)
    requires forall id :: id != 0 ==> Timed(mine, c, Latest(other, id), me, id)
    requires Ids(c) == Ids(mine) + (Ids(other) - {me})
    ensures AsMap(c) == MapMerge(AsMap(mine), LatestMap(other), me)
  {
    var want := MapMerge(AsMap(mine), LatestMap(other), me);
    MapKeys(mine, other, me, c);
    forall id | id in Ids(c) ensures TimeOf(c, id) == want[id] {
      MergedTime(mine, other, c, me, id);
    }
  }

  lemma MergedTime(mine: Clock, other: Clock, c: Clock, me: nat, id: nat)
    requires id in Ids(c) && (id != 0 ==> Timed(mine, c, Latest(other, id), me, id))
    requires id in Ids(mine) || (id in Ids(other) && id != me)
    ensures var want := MapMerge(AsMap(mine), LatestMap(other), me); id in want && TimeOf(c, id) == want[id]
  {
    ZeroIsNoId(c);
    if id !in Ids(mine) {
      LatestUnknown(mine, id);
    }
    if id !in Ids(other) {
      LatestUnknown(other, id);
    }
  }

  lemma {:induction false} ZeroIsNoId(c: Clock)
    ensures 0 !in Ids(c)
  {
    if c != [] {
      ZeroIsNoId(c[..|c| - 1]);
    }
  }

  /** The merge of tables refines the merge of maps exactly when there is room: when the new
      nodes do not outnumber the empty slots. */
  lemma MergeRefinesMap(mine: Clock, other: Clock, me: nat)
    requires Distinct(mine)
    ensures AsMap(Merge(mine, other, me)) == MapMerge(AsMap(mine), LatestMap(other), me) <==>
            |NewIds(mine, other, me)| <= Empties(mine)
  {
    var c := Merge(mine, other, me);
    MergeIds(mine, other, me);
    BookedRoom(Ids(mine), Ids(c), Ids(other), me, Empties(mine), Empties(c));
    MapKeys(mine, other, me, c);
    if Ids(c) == Ids(mine) + (Ids(other) - {me}) {
      forall id | id != 0 ensures Timed(mine, c, Latest(other, id), me, id) {
        MergeTimes(mine, other, me, id);
      }
      MergedMap(mine, other, c, me);
    }
  }

  lemma MapKeys(mine: Clock, other: Clock, me: nat, c: Clock)
    ensures AsMap(c).Keys == Ids(c)
    ensures MapMerge(AsMap(mine), LatestMap(other), me).Keys == Ids(mine) + (Ids(other) - {me})
  {
    assert AsMap(mine).Keys == Ids(mine) && LatestMap(other).Keys == Ids(other);
  }

  /** For tables that hold each node once the two readings of a table agree. */
  lemma {:induction false} LatestIsTime(c: Clock, id: nat)
    requires Distinct(c) && id != 0
    ensures Latest(c, id) == TimeOf(c, id)
  {
    if c != [] {
      var rest, last := c[..|c| - 1], c[|c| - 1];
      LatestIsTime(rest, id);
      assert forall i :: 0 <= i < |rest| ==> rest[i] == c[i];
      if Knows(rest, id) {
        assert c[IndexOf(rest, id)].node == id;
      } else if last.node == id {
        assert c[|rest|].node == id;
      }
    }
  }

  /** For tables that hold each node once, the merge is the pointwise maximum of the two maps
      exactly when there is room. */
  lemma MergeIsMaximum(mine: Clock, other: Clock, me: nat)
    requires Distinct(mine) && Distinct(other)
    ensures AsMap(Merge(mine, other, me)) == MapMerge(AsMap(mine), AsMap(other), me) <==>
            |NewIds(mine, other, me)| <= Empties(mine)
  {
    forall id | id in Ids(other) ensures Latest(other, id) == TimeOf(other, id) {
      ZeroIsNoId(other);
      LatestIsTime(other, id);
    }
    assert LatestMap(other) == AsMap(other);
    MergeRefinesMap(mine, other, me);
  }
}
