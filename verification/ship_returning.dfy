/** The ship-returning system of the current engine
    (core/systems/ai/shipReturning.ts): every three time units, each
    computer-owned craft left idle outside its owner's territory is sent to
    the nearest sector its owner holds.

    The pass sees the world through a small record: the orderable crafts in
    query order, the sectors in query order with their owners, the tags of
    every faction by id, and the `sim.paths` distance table. Creating the
    waypoint in the destination sector (a new entity at a random offset) is
    not part of this model: its id is the parameter `waypoint(craftId)`, and
    `moveToActions` is the single move action towards it. */
module ShipReturning {
  import opened Wrappers
  import opened Components
  import CD = Cooldowns

  /** An orderable craft: its order queue, the default type of its
      `autoOrder` when it has one, its owner's id and its sector's id. */
  datatype Craft = Craft(id: int, orders: seq<Order>, autoOrder: Option<string>, owner: int, sector: int)

  /** A sector and the id of its owner, if any. */
  datatype SectorInfo = SectorInfo(id: int, owner: Option<int>)

  datatype World = World(
    crafts: seq<Craft>,
    sectors: seq<SectorInfo>,
    factionTags: map<int, set<string>>,
    paths: map<int, map<int, real>>)

  /** Nothing to do: no orders queued, and no standing automatic order
      other than "hold". */
  predicate Idle(c: Craft) {
    |c.orders| == 0 && (c.autoOrder.Some? ==> c.autoOrder.value == "hold")
  }

  /** The sectors `owner` holds, in query order. */
  function Owned(sectors: seq<SectorInfo>, owner: int): (r: seq<SectorInfo>)
    ensures forall i :: 0 <= i < |r| ==> r[i].owner == Some(owner) && r[i] in sectors
    ensures forall s :: s in sectors && s.owner == Some(owner) ==> s in r
    ensures |r| <= |sectors|
  {
    if |sectors| == 0 then []
    else if sectors[0].owner == Some(owner) then [sectors[0]] + Owned(sectors[1..], owner)
    else Owned(sectors[1..], owner)
  }

  /** Whether `id` is the id of one of `sectors`. */
  predicate HasId(sectors: seq<SectorInfo>, id: int) {
    exists i :: 0 <= i < |sectors| && sectors[i].id == id
  }

  /** The filter of lines 26-36, evaluated left to right: the owner faction
      is looked up (and must exist) only for idle crafts. */
  function Stranded(w: World, c: Craft): (r: Result<bool>)
    ensures r.Failure? <==> Idle(c) && c.owner !in w.factionTags
    ensures r.Failure? ==> r.error == MissingEntityError(c.owner)
    ensures r == Success(true) <==>
      && Idle(c) && c.owner in w.factionTags
      && "player" !in w.factionTags[c.owner]
      && !HasId(Owned(w.sectors, c.owner), c.sector)
  {
    if !Idle(c) then Success(false)
    else if c.owner !in w.factionTags then Failure(MissingEntityError(c.owner))
    else Success("player" !in w.factionTags[c.owner] && !HasId(Owned(w.sectors, c.owner), c.sector))
  }

  /** The `sim.paths` distance from `from` to each of `sectors`; reading a
      missing row or entry reads a property of `undefined`. */
  function Distances(paths: map<int, map<int, real>>, from: int, sectors: seq<SectorInfo>): (r: Result<seq<real>>)
    ensures r.Success? <==> |sectors| == 0 || (from in paths && forall i :: 0 <= i < |sectors| ==> sectors[i].id in paths[from])
    ensures r.Failure? ==> r.error == TypeError
    ensures r.Success? ==> |r.value| == |sectors| && forall i :: 0 <= i < |sectors| ==> r.value[i] == paths[from][sectors[i].id]
  {
    if |sectors| == 0 then Success([])
    else if from !in paths || sectors[0].id !in paths[from] then Failure(TypeError)
    else
      var rest :- Distances(paths, from, sectors[1..]);
      Success([paths[from][sectors[0].id]] + rest)
  }

  /** Where a stable sort by distance puts first: the first of the
      smallest distances. */
  function FirstNearest(ds: seq<real>): (i: nat)
    requires |ds| > 0
    ensures i < |ds|
    ensures forall j :: 0 <= j < |ds| ==> ds[i] <= ds[j]
    ensures forall j :: 0 <= j < i ==> ds[j] > ds[i]
  {
    if |ds| == 1 then 0
    else
      var k := FirstNearest(ds[1..]);
      assert forall j :: 1 <= j < |ds| ==> ds[1..][j - 1] == ds[j];
      if ds[0] <= ds[k + 1] then 0 else k + 1
  }

  /** Two positions that are both the first of the smallest are the same:
      `FirstNearest` is the only answer. */
  lemma FirstNearestUnique(ds: seq<real>, i: nat)
    requires i < |ds|
    requires forall j :: 0 <= j < |ds| ==> ds[i] <= ds[j]
    requires forall j :: 0 <= j < i ==> ds[j] > ds[i]
    ensures FirstNearest(ds) == i
  {
  }

  /** Lines 39-52: the owned sector nearest to the craft's sector, the
      first in query order among equally near ones; none when the owner
      holds no sector. */
  function Destination(w: World, c: Craft): (r: Result<Option<SectorInfo>>)
    ensures r.Failure? <==> Distances(w.paths, c.sector, Owned(w.sectors, c.owner)).Failure?
    ensures r == Success(None) <==> |Owned(w.sectors, c.owner)| == 0
    ensures r.Success? && r.value.Some? ==>
      var owned := Owned(w.sectors, c.owner);
      && r.value.value.owner == Some(c.owner) && r.value.value in w.sectors
      && (forall i :: 0 <= i < |owned| ==> w.paths[c.sector][r.value.value.id] <= w.paths[c.sector][owned[i].id])
      && exists k :: 0 <= k < |owned| && owned[k] == r.value.value &&
           forall j :: 0 <= j < k ==> w.paths[c.sector][owned[j].id] > w.paths[c.sector][owned[k].id]
  {
    var owned := Owned(w.sectors, c.owner);
    var ds :- Distances(w.paths, c.sector, owned);
    if |owned| == 0 then Success(None)
    else
      var i := FirstNearest(ds);
      Success(Some(owned[i]))
  }

  /** The order pushed onto a returning craft. */
  function ReturnOrder(waypointId: int): Order {
    Order("move", [MoveAction(waypointId)], Auto)
  }

  /** The pass for one craft: when it is stranded and its owner holds a
      sector, one automatic move order is pushed onto its queue. */
  function ReturnCraft(w: World, c: Craft, waypoint: int -> int): (r: Result<Craft>)
    ensures r.Success? ==> r.value == c || r.value == c.(orders := c.orders + [ReturnOrder(waypoint(c.id))])
    ensures r.Success? && r.value != c <==>
      Stranded(w, c) == Success(true) && Destination(w, c).Success? && Destination(w, c).value.Some?
    ensures Stranded(w, c) == Success(false) ==> r == Success(c)
  {
    var stranded :- Stranded(w, c);
    if !stranded then Success(c)
    else
      var dest :- Destination(w, c);
      if dest.None? then Success(c)
      else Success(c.(orders := c.orders + [ReturnOrder(waypoint(c.id))]))
  }

  /** Lines 23-69: the pass over every orderable craft in query order. The
      first lookup that throws stops the pass. */
  function ReturnAll(w: World, crafts: seq<Craft>, waypoint: int -> int): (r: Result<seq<Craft>>)
    ensures r.Success? <==> forall i :: 0 <= i < |crafts| ==> ReturnCraft(w, crafts[i], waypoint).Success?
    ensures r.Success? ==> |r.value| == |crafts|
    ensures r.Success? ==> forall i :: 0 <= i < |crafts| ==> r.value[i] == ReturnCraft(w, crafts[i], waypoint).value
  {
    if |crafts| == 0 then Success([])
    else
      var first :- ReturnCraft(w, crafts[0], waypoint);
      var rest :- ReturnAll(w, crafts[1..], waypoint);
      assert forall i :: 1 <= i < |crafts| ==> crafts[1..][i - 1] == crafts[i];
      Success([first] + rest)
  }

  /** The system registers the `exec` cooldown when it starts. */
  const InitialCooldowns: CD.Cooldowns := CD.Add(CD.Empty, "exec")

  /** `exec()` on a tick of `delta` time units: nothing when the cooldown is
      running, otherwise restart it at 3 and run the pass. The cooldown is
      restarted before the pass, so it runs even after a pass that throws. */
  function Exec(cooldowns: CD.Cooldowns, delta: real, w: World, waypoint: int -> int): (r: CD.Tick<World>)
    ensures !CD.CanUse(CD.Update(cooldowns, delta), "exec") ==> r == CD.Tick(CD.Update(cooldowns, delta), Success(w))
    ensures CD.CanUse(CD.Update(cooldowns, delta), "exec") ==>
      && r.cooldowns == CD.Use(CD.Update(cooldowns, delta), "exec", 3.0)
      && (r.outcome.Success? <==> ReturnAll(w, w.crafts, waypoint).Success?)
      && (r.outcome.Failure? ==> r.outcome.error == ReturnAll(w, w.crafts, waypoint).error)
      && (r.outcome.Success? ==> r.outcome.value.crafts == ReturnAll(w, w.crafts, waypoint).value)
    ensures !CD.CanUse(r.cooldowns, "exec")
    ensures r.outcome.Success? ==> r.outcome.value == w.(crafts := r.outcome.value.crafts) && |r.outcome.value.crafts| == |w.crafts|
  {
    var cd := CD.Update(cooldowns, delta);
    if !CD.CanUse(cd, "exec") then CD.Tick(cd, Success(w))
    else
      var cd1 := CD.Use(cd, "exec", 3.0);
      match ReturnAll(w, w.crafts, waypoint)
      case Failure(e) => CD.Tick(cd1, Failure(e))
      case Success(crafts) => CD.Tick(cd1, Success(w.(crafts := crafts)))
  }

  /** After a pass the crafts are settled: a second pass over the result,
      with the same sectors, factions and distances, changes nothing. A
      craft sent home now has an order queued; one that stayed was either
      busy, not stranded, or without a destination, and still is. */
  lemma ReturnSettles(w: World, waypoint: int -> int)
    requires ReturnAll(w, w.crafts, waypoint).Success?
    ensures var w' := w.(crafts := ReturnAll(w, w.crafts, waypoint).value);
      ReturnAll(w', w'.crafts, waypoint) == Success(w'.crafts)
  {
    var w' := w.(crafts := ReturnAll(w, w.crafts, waypoint).value);
    forall i | 0 <= i < |w'.crafts| ensures ReturnCraft(w', w'.crafts[i], waypoint) == Success(w'.crafts[i]) {
      var c := w.crafts[i];
      if w'.crafts[i] != c {
        assert !Idle(w'.crafts[i]);
      } else {
        assert Stranded(w', c) == Stranded(w, c);
        assert Destination(w', c) == Destination(w, c);
      }
    }
    ReturnAllUnchanged(w', w'.crafts, waypoint);
  }

  /** A pass in which every craft comes out as it went in returns the
      crafts unchanged. */
  lemma {:induction false} ReturnAllUnchanged(w: World, crafts: seq<Craft>, waypoint: int -> int)
    requires forall i :: 0 <= i < |crafts| ==> ReturnCraft(w, crafts[i], waypoint) == Success(crafts[i])
    ensures ReturnAll(w, crafts, waypoint) == Success(crafts)
  {
    if |crafts| > 0 {
      assert forall i :: 1 <= i < |crafts| ==> crafts[1..][i - 1] == crafts[i];
      ReturnAllUnchanged(w, crafts[1..], waypoint);
      assert [crafts[0]] + crafts[1..] == crafts;
    }
  }

  /** The pass runs at most once every three time units: right after a
      tick that started a pass, whether or not the pass threw, the next tick
      runs one exactly when at least three units have passed. */
  lemma ReturnAtMostOncePerCooldown(cooldowns: CD.Cooldowns, delta: real, delta2: real, w: World, waypoint: int -> int)
    requires CD.CanUse(CD.Update(cooldowns, delta), "exec")
    ensures CD.CanUse(CD.Update(Exec(cooldowns, delta, w, waypoint).cooldowns, delta2), "exec") <==> delta2 >= 3.0
  {
    CD.UsableAfterDuration(CD.Update(cooldowns, delta), "exec", 3.0, delta2);
  }
}
