/** The mining order step of the current engine
    (core/systems/orderExecuting/mine.ts): find a rock in the target field
    that nobody else is mining (or spawn one), head for it, reserve it once
    there, and give the reservation back when the hold is full.

    The step sees the world through a small record: the miner's own parts,
    the order, every asteroid's reservation (`minable.minedById`) by id and
    every asteroid field by id. Helpers this model does not hold get simple
    stand-ins, stated where they are used: `getMineableAsteroid` is the
    field's `mineable` entry, `spawn` adds the unreserved asteroid `newRock`,
    `moveToActions` is the single move action `MoveAction(rock)`, and
    `getAvailableSpace` is the miner's `availableSpace`. `stop(entity)`
    changes only movement state, which the record does not hold. */
module Mining {
  import opened Wrappers
  import opened Components

  /** The `MineAction` record: its field and its (optional) rock. */
  datatype MineOrder = MineOrder(targetFieldId: int, targetRockId: Option<int>)

  /** An asteroid field: its `asteroidSpawn.amount`, and the rock
      `getMineableAsteroid` returns for it, if any. */
  datatype FieldInfo = FieldInfo(amount: int, mineable: Option<int>)

  /** The miner's parts the step reads and writes. */
  datatype Miner = Miner(
    id: int,
    targetReached: bool,
    availableSpace: int,
    miningEntityId: Option<int>,
    orders: seq<Order>)

  datatype World = World(
    miner: Miner,
    order: MineOrder,
    rocks: map<int, Option<int>>,
    fields: map<int, FieldInfo>)

  /** `getMineableAsteroid` hands out a known rock nobody has reserved. */
  predicate FieldsSound(w: World) {
    forall f :: f in w.fields && w.fields[f].mineable.Some? ==>
      w.fields[f].mineable.value in w.rocks && w.rocks[w.fields[f].mineable.value].None?
  }

  /** `order.targetRockId ? … : null`: the id 0 is falsy, so it counts as no
      target at all. */
  predicate HasTargetId(o: MineOrder) {
    o.targetRockId.Some? && o.targetRockId.value != 0
  }

  /** The current target is kept: it names a live rock that is unreserved
      or reserved by this miner. */
  predicate KeepsTarget(w: World) {
    && HasTargetId(w.order)
    && w.order.targetRockId.value in w.rocks
    && (w.rocks[w.order.targetRockId.value].None? || w.rocks[w.order.targetRockId.value] == Some(w.miner.id))
  }

  /** With no usable target, no mineable rock and nothing left to spawn the
      order is done. */
  predicate Exhausted(w: World)
    requires w.order.targetFieldId in w.fields
  {
    !KeepsTarget(w) && w.fields[w.order.targetFieldId].mineable.None? && w.fields[w.order.targetFieldId].amount <= 0
  }

  /** The rock re-acquisition settles on: the field's mineable rock, else
      the one spawned. */
  function Chosen(w: World, newRock: int): int
    requires w.order.targetFieldId in w.fields
  {
    var field := w.fields[w.order.targetFieldId];
    if field.mineable.Some? then field.mineable.value else newRock
  }

  /** Lines 20-35: look for a new rock when the target is missing or
      someone else's; spawn one when the field has none but may grow more;
      point the order at it and put the move in front of the head order's
      actions. */
  function Acquire(w: World, newRock: int): (r: Result<World>)
    requires FieldsSound(w) && w.order.targetFieldId in w.fields && !KeepsTarget(w) && !Exhausted(w)
    requires newRock !in w.rocks
    ensures r.Failure? <==> |w.miner.orders| == 0
    ensures r.Failure? ==> r.error == TypeError
    ensures r.Success? ==>
      var rock := Chosen(w, newRock);
      && r.value.order == w.order.(targetRockId := Some(rock))
      && rock in r.value.rocks
      && |r.value.miner.orders| == |w.miner.orders| > 0
      && r.value.miner.orders[0].actions == [MoveAction(rock)] + w.miner.orders[0].actions
      && r.value.miner.orders[1..] == w.miner.orders[1..]
      && r.value.miner == w.miner.(orders := r.value.miner.orders)
      && r.value.fields == w.fields
  {
    var field := w.fields[w.order.targetFieldId];
    var rocks := if field.mineable.Some? then w.rocks else w.rocks[newRock := None];
    var rock := Chosen(w, newRock);
    if |w.miner.orders| == 0 then Failure(TypeError)
    else
      var head := w.miner.orders[0];
      var orders := [head.(actions := [MoveAction(rock)] + head.actions)] + w.miner.orders[1..];
      Success(w.(order := w.order.(targetRockId := Some(rock)), rocks := rocks, miner := w.miner.(orders := orders)))
  }

  /** Lines 37-49: once there, reserve the rock and record it as the
      mining target; with no room left, give both back and finish. Here
      the id is read with a non-null assertion, so 0 is a rock like any
      other. */
  function Arrive(w: World): (r: (bool, World))
    requires w.order.targetRockId.Some? && w.order.targetRockId.value in w.rocks
    ensures var rock := w.order.targetRockId.value;
      && (w.miner.availableSpace == 0 <==> r.0)
      && r.1.order == w.order && r.1.fields == w.fields && r.1.rocks.Keys == w.rocks.Keys
      && r.1.miner == w.miner.(miningEntityId := r.1.miner.miningEntityId)
      && (r.0 ==> r.1.miner.miningEntityId.None? && r.1.rocks[rock].None?)
      && (!r.0 ==> r.1.miner.miningEntityId == Some(rock) && r.1.rocks[rock] == Some(w.miner.id))
      && forall id :: id in w.rocks && id != rock ==> r.1.rocks[id] == w.rocks[id]
  {
    var rock := w.order.targetRockId.value;
    if w.miner.availableSpace == 0 then
      (true, w.(miner := w.miner.(miningEntityId := None), rocks := w.rocks[rock := None]))
    else
      (false, w.(miner := w.miner.(miningEntityId := Some(rock)), rocks := w.rocks[rock := Some(w.miner.id)]))
  }

  /** `mineAction(entity, order)`: whether the order is done, and the world
      after the step. A missing field is `getOrThrow`'s
      `MissingEntityError`; a miner with no order to put the move in front
      of is a property read of `undefined`. */
  function MineAction(w: World, newRock: int): (r: Result<(bool, World)>)
    requires FieldsSound(w) && newRock !in w.rocks
    ensures w.order.targetFieldId !in w.fields ==> r == Failure(MissingEntityError(w.order.targetFieldId))
    ensures w.order.targetFieldId in w.fields && Exhausted(w) ==> r == Success((true, w))
    ensures w.order.targetFieldId in w.fields && !KeepsTarget(w) && !Exhausted(w) ==>
      (r.Failure? <==> |w.miner.orders| == 0)
    ensures w.order.targetFieldId in w.fields && KeepsTarget(w) ==> r.Success? && r.value.1.order == w.order && r.value.1.miner.orders == w.miner.orders
    ensures r.Success? ==> r.value.1.fields == w.fields && w.rocks.Keys <= r.value.1.rocks.Keys
  {
    if w.order.targetFieldId !in w.fields then Failure(MissingEntityError(w.order.targetFieldId))
    else if Exhausted(w) then Success((true, w))
    else
      var w1 :- if KeepsTarget(w) then Success(w) else Acquire(w, newRock);
      if w.miner.targetReached then Success(Arrive(w1)) else Success((false, w1))
  }

  /** The step never takes a rock another entity has reserved: such a
      rock's reservation comes out as it went in. */
  lemma ReservationsExclusive(w: World, newRock: int, rock: int)
    requires FieldsSound(w) && newRock !in w.rocks && MineAction(w, newRock).Success?
    requires rock in w.rocks && w.rocks[rock].Some? && w.rocks[rock] != Some(w.miner.id)
    ensures rock in MineAction(w, newRock).value.1.rocks
    ensures MineAction(w, newRock).value.1.rocks[rock] == w.rocks[rock]
  {
    if !Exhausted(w) && !KeepsTarget(w) {
      var w1 := Acquire(w, newRock).value;
      assert w1.rocks[rock] == w.rocks[rock];
      assert w1.order.targetRockId.value != rock;
    }
  }

  /** A reservation is only ever set to the miner's own id or cleared: a
      rock whose entry changed is now unreserved or the miner's. */
  lemma ReservationsOwnOrCleared(w: World, newRock: int, rock: int)
    requires FieldsSound(w) && newRock !in w.rocks && MineAction(w, newRock).Success?
    requires rock in MineAction(w, newRock).value.1.rocks
    requires rock !in w.rocks || MineAction(w, newRock).value.1.rocks[rock] != w.rocks[rock]
    ensures MineAction(w, newRock).value.1.rocks[rock] in {None, Some(w.miner.id)}
  {
  }

  /** The step's verdict: done exactly when the field is exhausted, or the
      miner has arrived with a full hold. */
  lemma DoneIff(w: World, newRock: int)
    requires FieldsSound(w) && newRock !in w.rocks && MineAction(w, newRock).Success?
    ensures MineAction(w, newRock).value.0 <==>
      Exhausted(w) || (w.miner.targetReached && w.miner.availableSpace == 0)
  {
  }

  /** After a step that did not finish and found the miner at its target,
      the miner mines the order's rock and holds its reservation. */
  lemma ArrivalReserves(w: World, newRock: int)
    requires FieldsSound(w) && newRock !in w.rocks && MineAction(w, newRock).Success?
    requires w.miner.targetReached && !MineAction(w, newRock).value.0
    ensures var w' := MineAction(w, newRock).value.1;
      && w'.order.targetRockId.Some?
      && w'.miner.miningEntityId == w'.order.targetRockId
      && w'.order.targetRockId.value in w'.rocks
      && w'.rocks[w'.order.targetRockId.value] == Some(w.miner.id)
  {
  }

  /** A rock with the id 0 is never kept: the falsy id sends the miner
      looking for another rock even when that one is its own. */
  lemma RockZeroIsDropped(w: World, newRock: int)
    requires FieldsSound(w) && newRock !in w.rocks && w.order.targetFieldId in w.fields
    requires w.order.targetRockId == Some(0) && 0 in w.rocks && w.rocks[0] == Some(w.miner.id)
    requires !Exhausted(w) && |w.miner.orders| > 0 && newRock != 0
    requires w.fields[w.order.targetFieldId].mineable != Some(0)
    ensures MineAction(w, newRock).Success?
    ensures MineAction(w, newRock).value.1.order.targetRockId != Some(0)
  {
  }

  /** Re-acquisition and arrival happen in one step: a miner whose drive
      still reports the previous target as reached reserves the newly
      chosen rock at once, before the new move has run. */
  lemma StaleArrivalReservesNewRock(w: World, newRock: int)
    requires FieldsSound(w) && newRock !in w.rocks && w.order.targetFieldId in w.fields
    requires !KeepsTarget(w) && !Exhausted(w) && |w.miner.orders| > 0
    requires w.miner.targetReached && w.miner.availableSpace != 0
    ensures MineAction(w, newRock).Success?
    ensures var w' := MineAction(w, newRock).value.1;
      && w'.miner.miningEntityId == Some(Chosen(w, newRock))
      && w'.rocks[Chosen(w, newRock)] == Some(w.miner.id)
      && w'.miner.orders[0].actions[0] == MoveAction(Chosen(w, newRock))
  {
    var w1 := Acquire(w, newRock).value;
    assert w1.order.targetRockId == Some(Chosen(w, newRock));
  }
}
