/** The simulation of the current engine (core/sim/Sim.ts): an id counter, a
    map of entities kept in insertion order, a time offset, and the calls the
    simulation makes on its hooks. Systems subscribe to those hooks; here the
    calls are recorded in a log instead of dispatched. */
module CoreSim {
  import opened Wrappers
  import opened Components
  import opened Entities
  import CD = Cooldowns
  import K = Kinds
  import M = Masks

  datatype Phase = Start | Init | Update | RenderPhase | Cleanup | End

  /** One call on a hook: an entity hook, or a phase hook with its delta. */
  datatype HookCall = EntityHook(hook: Hook) | PhaseHook(phase: Phase, delta: real)

  /** `entities` is the JavaScript `Map`; `order` is its iteration order (the
      order in which keys were first set). `time` is the clock that
      `updateTimer` advances (BaseSim is not part of this model). */
  datatype Sim = Sim(
    entityIdCounter: nat,
    entities: map<int, Entity>,
    order: seq<int>,
    timeOffset: real,
    time: real,
    log: seq<HookCall>)

  const Empty: Sim := Sim(0, map[], [], 0.0, 0.0, [])

  /** The bookkeeping every reachable simulation keeps: the iteration order
      lists each key once, in increasing order, every id is below the counter
      and every entity stores its own id. */
  ghost predicate Valid(s: Sim) {
    && (forall i :: 0 <= i < |s.order| ==> s.order[i] in s.entities)
    && (forall id :: id in s.entities ==> id in s.order)
    && Increasing(s.order)
    && (forall id :: id in s.entities ==> 0 <= id < s.entityIdCounter && s.entities[id].id == id)
  }

  lemma EmptyValid()
    ensures Valid(Empty)
  {
  }

  /** `registerEntity(entity)`: the entity receives the counter's value as id,
      is stored under it, and the counter moves on. */
  function RegisterEntity(s: Sim, e: Entity): (r: (Sim, Entity))
    ensures r.1.id == s.entityIdCounter && r.1.components == e.components
    ensures r.0.entityIdCounter == s.entityIdCounter + 1
    ensures r.0.entities == s.entities[s.entityIdCounter := r.1]
  {
    var id := s.entityIdCounter;
    var e' := e.(id := id);
    var order := if id in s.entities then s.order else s.order + [id];
    (s.(entities := s.entities[id := e'], order := order, entityIdCounter := id + 1), e')
  }

  /** Registration keeps the bookkeeping, and the new id was free before. */
  lemma RegisterKeepsValid(s: Sim, e: Entity)
    requires Valid(s)
    ensures s.entityIdCounter !in s.entities
    ensures Valid(RegisterEntity(s, e).0)
    ensures RegisterEntity(s, e).0.order == s.order + [s.entityIdCounter]
  {
  }

  /** `new Entity(sim)`: a blank entity registered with the simulation. */
  function NewEntity(s: Sim): (r: (Sim, Entity))
    ensures r.1.id == s.entityIdCounter && r.1.components == map[] && r.1.tags == {}
    ensures r.0.entities.Keys == s.entities.Keys + {s.entityIdCounter}
  {
    RegisterEntity(s, Blank)
  }

  /** Remove `id` from an order that lists it at most once. */
  function Without(order: seq<int>, id: int): (r: seq<int>)
    ensures forall x :: x in r <==> x in order && x != id
  {
    if |order| == 0 then []
    else if order[0] == id then Without(order[1..], id)
    else [order[0]] + Without(order[1..], id)
  }

  ghost predicate Increasing(order: seq<int>) {
    forall i, j :: 0 <= i < j < |order| ==> order[i] < order[j]
  }

  /** Removing an id from an increasing order leaves it increasing. */
  lemma {:induction false} WithoutIncreasing(order: seq<int>, id: int)
    requires Increasing(order)
    ensures Increasing(Without(order, id))
  {
    if |order| > 0 {
      WithoutIncreasing(order[1..], id);
      var rest := Without(order[1..], id);
      if order[0] != id {
        var r := [order[0]] + rest;
        forall j | 0 < j < |r| ensures order[0] < r[j] {
          assert r[j] == rest[j - 1];
          assert rest[j - 1] in order[1..];
        }
      }
    }
  }

  /** `unregisterEntity(entity)`: the `removeEntity` hook is called with the
      entity first, then its id is deleted from the map. */
  function UnregisterEntity(s: Sim, e: Entity): (r: Sim)
    ensures r.entities.Keys == s.entities.Keys - {e.id}
    ensures forall id :: id in r.entities ==> r.entities[id] == s.entities[id]
    ensures r.log == s.log + [EntityHook(RemoveEntityHook(e))]
    ensures r.entityIdCounter == s.entityIdCounter
  {
    s.(entities := s.entities - {e.id}, order := Without(s.order, e.id),
       log := s.log + [EntityHook(RemoveEntityHook(e))])
  }

  /** `entity.unregister()`: mark the entity deleted, then unregister it. The
      hook sees the deleted entity. */
  function Unregister(s: Sim, e: Entity): (r: Sim)
    ensures e.id !in r.entities
    ensures r.log == s.log + [EntityHook(RemoveEntityHook(e.(deleted := true)))]
  {
    UnregisterEntity(s, MarkDeleted(e))
  }

  lemma UnregisterKeepsValid(s: Sim, e: Entity)
    requires Valid(s)
    ensures Valid(UnregisterEntity(s, e))
  {
    var r := UnregisterEntity(s, e);
    WithoutIncreasing(s.order, e.id);
    forall i | 0 <= i < |r.order| ensures r.order[i] in r.entities {
      assert r.order[i] in r.order;
    }
  }

  /** Registering then unregistering the new entity restores the map (the
      counter keeps its advance, so ids are never reused). */
  lemma RegisterThenUnregister(s: Sim, e: Entity)
    requires Valid(s)
    ensures var (s1, e1) := RegisterEntity(s, e);
      var s2 := UnregisterEntity(s1, e1);
      s2.entities == s.entities && s2.order == s.order && s2.entityIdCounter == s.entityIdCounter + 1
  {
    var (s1, e1) := RegisterEntity(s, e);
    var s2 := UnregisterEntity(s1, e1);
    WithoutAppended(s.order, s.entityIdCounter);
    assert s2.entities == s.entities;
  }

  lemma {:induction false} WithoutAppended(order: seq<int>, id: int)
    requires id !in order
    ensures Without(order + [id], id) == order
  {
    if |order| > 0 {
      assert (order + [id])[1..] == order[1..] + [id];
      WithoutAppended(order[1..], id);
    }
  }

  /** `entity.addComponent(c)` for a registered entity: the stored entity is
      updated and the `addComponent` hook is called. */
  function AddComponentTo(s: Sim, id: int, c: Component): (r: Result<Sim>)
    ensures r.Success? <==> id in s.entities
    ensures r.Success? ==> (r.value.entities.Keys == s.entities.Keys
      && r.value.entityIdCounter == s.entityIdCounter
      && r.value.entities[id] == s.entities[id].(components := s.entities[id].components[c.Kind() := c])
      && (forall o :: o in s.entities && o != id ==> r.value.entities[o] == s.entities[o])
      && r.value.log == s.log + [EntityHook(AddComponentHook(s.entities[id].id, c.Kind()))])
  {
    if id !in s.entities then Failure(MissingEntityError(id))
    else
      var step := AddComponent(s.entities[id], c);
      Success(s.(entities := s.entities[id := step.entity], log := s.log + [EntityHook(step.hooks[0])]))
  }

  /** `next(delta)`: the six phase hooks in order, each with `delta`, then the
      timer advances by `delta`. */
  function Next(s: Sim, delta: real): (r: Sim)
    ensures |r.log| == |s.log| + 6 && r.log[..|s.log|] == s.log
    ensures r.log[|s.log|..] == [PhaseHook(Start, delta), PhaseHook(Init, delta), PhaseHook(Update, delta),
                                 PhaseHook(RenderPhase, delta), PhaseHook(Cleanup, delta), PhaseHook(End, delta)]
    ensures r.entities == s.entities && r.time == s.time + delta
  {
    var phases := [Start, Init, Update, RenderPhase, Cleanup, End];
    var calls := seq(6, i requires 0 <= i < 6 => PhaseHook(phases[i], delta));
    s.(log := s.log + calls, time := s.time + delta)
  }

  /** `entity.addTag(tag)` for a registered entity. */
  function AddTagTo(s: Sim, id: int, tag: string): (r: Result<Sim>)
    ensures r.Success? <==> id in s.entities
    ensures r.Success? ==> (r.value.entities.Keys == s.entities.Keys
      && r.value.entityIdCounter == s.entityIdCounter
      && r.value.entities[id] == s.entities[id].(tags := s.entities[id].tags + {tag})
      && (forall o :: o in s.entities && o != id ==> r.value.entities[o] == s.entities[o])
      && r.value.log == s.log + [EntityHook(AddTagHook(s.entities[id].id, tag))])
  {
    if id !in s.entities then Failure(MissingEntityError(id))
    else
      var step := AddTag(s.entities[id], tag);
      Success(s.(entities := s.entities[id := step.entity], log := s.log + [EntityHook(step.hooks[0])]))
  }

  /** A chain of `addComponent` calls on one registered entity. */
  function AddComponentsTo(s: Sim, id: int, cs: seq<Component>): (r: Result<Sim>)
    ensures r.Success? <==> id in s.entities
    ensures r.Success? ==> AddedAll(s, id, cs, r.value)
    decreases |cs|
  {
    if |cs| == 0 then
      if id in s.entities then Success(s) else Failure(MissingEntityError(id))
    else
      var s1 :- AddComponentTo(s, id, cs[0]);
      var r := AddComponentsTo(s1, id, cs[1..]);
      AddedAllStep(s, s1, id, cs, r.value);
      r
  }

  /** `r` is `s` after adding each of `cs` to entity `id` in turn: only that
      entity changes, its bag gains the kinds of `cs`, and one hook is logged
      per component. */
  predicate AddedAll(s: Sim, id: int, cs: seq<Component>, r: Sim) {
    && id in s.entities
    && r.entities.Keys == s.entities.Keys
    && r.entityIdCounter == s.entityIdCounter
    && r.entities[id] == s.entities[id].(components := Apply(s.entities[id].components, cs))
    && r.entities[id].components.Keys == s.entities[id].components.Keys + KindsOf(cs)
    && (forall o :: o in s.entities && o != id ==> r.entities[o] == s.entities[o])
    && r.log == s.log + AddHooks(s.entities[id].id, cs)
  }

  /** One added component followed by the rest is the whole chain. */
  lemma AddedAllStep(s: Sim, s1: Sim, id: int, cs: seq<Component>, r: Sim)
    requires |cs| > 0 && AddComponentTo(s, id, cs[0]) == Success(s1)
    requires AddedAll(s1, id, cs[1..], r)
    ensures AddedAll(s, id, cs, r)
  {
    SplitFirst(s.entities[id].id, cs);
    ApplyKeys(s.entities[id].components, cs);
    assert Apply(s.entities[id].components, cs) == Apply(s1.entities[id].components, cs[1..]);
  }

  function AddHooks(id: int, cs: seq<Component>): seq<HookCall> {
    seq(|cs|, i requires 0 <= i < |cs| => EntityHook(AddComponentHook(id, cs[i].Kind())))
  }

  lemma SplitFirst(id: int, cs: seq<Component>)
    requires |cs| > 0
    ensures KindsOf(cs) == {cs[0].Kind()} + KindsOf(cs[1..])
    ensures AddHooks(id, cs) == [EntityHook(AddComponentHook(id, cs[0].Kind()))] + AddHooks(id, cs[1..])
  {
    KindsOfFirst(cs);
    assert forall i :: 1 <= i < |cs| ==> cs[i] == cs[1..][i - 1];
  }

  /** The components `init()` gives the settings entity, in order. */
  const SettingsComponents: seq<Component> := [
    SelectionManager(None, None, false),
    Other(K.SystemManager, map["lastStatUpdate" := Plain("0"), "lastInflationStatUpdate" := Plain("0")]),
    Other(K.InflationStats, map["basketPrices" := Plain("[]")]),
    Other(K.Camera, map["zoom" := Plain("1"), "position" := Plain("[0, 0]")])]

  lemma SettingsKinds()
    ensures KindsOf(SettingsComponents) == {K.SelectionManager, K.SystemManager, K.InflationStats, K.Camera}
  {
    var cs := SettingsComponents;
    assert cs[0].Kind() == K.SelectionManager && cs[1].Kind() == K.SystemManager;
    assert cs[2].Kind() == K.InflationStats && cs[3].Kind() == K.Camera;
  }

  /** `init()`: a settings entity holding `selectionManager` (nothing
      selected), `systemManager`, `inflationStats` and `camera`, added in
      that order. */
  function InitSettings(s: Sim): (r: Sim)
    ensures s.entityIdCounter in r.entities
    ensures r.entities[s.entityIdCounter].components.Keys == KindsOf(SettingsComponents)
    ensures r.entityIdCounter == s.entityIdCounter + 1
    ensures r.log == s.log + AddHooks(s.entityIdCounter, SettingsComponents)
  {
    NewEntityWith(s, SettingsComponents)
  }

  /** A new entity given the components `cs`, added in order. */
  function NewEntityWith(s: Sim, cs: seq<Component>): (r: Sim)
    ensures s.entityIdCounter in r.entities
    ensures r.entities[s.entityIdCounter].components.Keys == KindsOf(cs)
    ensures r.entityIdCounter == s.entityIdCounter + 1
    ensures r.log == s.log + AddHooks(s.entityIdCounter, cs)
  {
    var (s1, e) := NewEntity(s);
    AddComponentsTo(s1, e.id, cs).value
  }

  /** The settings entity holds exactly the four settings components. */
  lemma InitSettingsKinds(s: Sim)
    ensures InitSettings(s).entities[s.entityIdCounter].components.Keys ==
      {K.SelectionManager, K.SystemManager, K.InflationStats, K.Camera}
  {
    SettingsKinds();
  }

  /** `get(id)`. */
  function Get(s: Sim, id: int): (r: Option<Entity>)
    ensures r.Some? <==> id in s.entities
    ensures r.Some? ==> r.value == s.entities[id]
  {
    if id in s.entities then Some(s.entities[id]) else None
  }

  /** `getOrThrow(id)`: the entity, or `MissingEntityError(id)`. */
  function GetOrThrow(s: Sim, id: int): (r: Result<Entity>)
    ensures r.Success? <==> id in s.entities
    ensures r.Success? ==> r.value == s.entities[id]
    ensures r.Failure? ==> r.error == MissingEntityError(id)
  {
    match Get(s, id)
    case Some(e) => Success(e)
    case None => Failure(MissingEntityError(id))
  }

  /** `get` follows the registry: after registering, the new id yields the
      registered entity and every other id what it yielded before; after
      unregistering, the entity's id yields nothing and every other id is
      unaffected. */
  lemma GetTracksRegistry(s: Sim, e: Entity, id: int)
    ensures var r := RegisterEntity(s, e);
      && Get(r.0, s.entityIdCounter) == Some(r.1)
      && (id != s.entityIdCounter ==> Get(r.0, id) == Get(s, id))
    ensures Get(UnregisterEntity(s, e), e.id) == None
    ensures id != e.id ==> Get(UnregisterEntity(s, e), id) == Get(s, id)
  {
  }

  /** `find(cb)`: the first entity in iteration order that satisfies `cb`. */
  method Find(s: Sim, cb: Entity -> bool) returns (r: Option<Entity>)
    requires Valid(s)
    ensures r.Some? ==> r.value.id in s.entities && s.entities[r.value.id] == r.value && cb(r.value)
    ensures r.Some? ==> forall i :: 0 <= i < |s.order| && s.order[i] < r.value.id ==> !cb(s.entities[s.order[i]])
    ensures r.None? <==> forall id :: id in s.entities ==> !cb(s.entities[id])
  {
    var i := 0;
    while i < |s.order|
      invariant 0 <= i <= |s.order|
      invariant forall j :: 0 <= j < i ==> !cb(s.entities[s.order[j]])
    {
      var e := s.entities[s.order[i]];
      if cb(e) {
        assert forall j :: 0 <= j < |s.order| && s.order[j] < e.id ==> !cb(s.entities[s.order[j]]);
        return Some(e);
      }
      i := i + 1;
    }
    forall id | id in s.entities ensures !cb(s.entities[id]) {
      var j :| 0 <= j < |s.order| && s.order[j] == id;
    }
    return None;
  }

  /** `filter(cb)`: every entity that satisfies `cb`, in iteration order. */
  function Filter(s: Sim, cb: Entity -> bool): (r: seq<Entity>)
    requires Valid(s)
    ensures forall e :: e in r <==> e.id in s.entities && s.entities[e.id] == e && cb(e)
  {
    FilterFrom(s, cb, 0)
  }

  function FilterFrom(s: Sim, cb: Entity -> bool, from: nat): (r: seq<Entity>)
    requires Valid(s) && from <= |s.order|
    ensures forall e :: e in r <==>
      exists i :: from <= i < |s.order| && s.order[i] == e.id && s.entities[e.id] == e && cb(e)
    decreases |s.order| - from
  {
    if from == |s.order| then []
    else
      var e := s.entities[s.order[from]];
      var rest := FilterFrom(s, cb, from + 1);
      if cb(e) then [e] + rest else rest
  }

  /** The serialised simulation: `toJSON()` picks the counter and the time
      offset, and lists the entities in iteration order. */
  datatype SimJSON = SimJSON(entityIdCounter: nat, timeOffset: real, entities: seq<EntityJSON>)

  function SerializeWith(s: Sim, ser: Entity -> EntityJSON): (j: SimJSON)
    requires Valid(s)
    ensures |j.entities| == |s.order|
    ensures forall i :: 0 <= i < |j.entities| ==> j.entities[i] == ser(s.entities[s.order[i]])
  {
    SimJSON(s.entityIdCounter, s.timeOffset,
      seq(|s.order|, i requires 0 <= i < |s.order| && s.order[i] in s.entities => ser(s.entities[s.order[i]])))
  }

  /** The snapshot as written, using `Entity.toJSON()` without tags. */
  function ToJSONAsWritten(s: Sim): (j: SimJSON)
    requires Valid(s)
    ensures |j.entities| == |s.order|
    ensures forall i :: 0 <= i < |j.entities| ==> j.entities[i].tags.None?
  {
    SerializeWith(s, Entities.ToJSONAsWritten)
  }

  /** The snapshot with each entity's tags included. */
  function ToJSON(s: Sim): (j: SimJSON)
    requires Valid(s)
    ensures |j.entities| == |s.order|
    ensures forall i :: 0 <= i < |j.entities| ==> j.entities[i].tags == Some(s.entities[s.order[i]].tags)
  {
    SerializeWith(s, Entities.ToJSON)
  }

  /** `Object.assign(new EntityComponents(), components)`: the JSON object's
      entries, a later duplicate key overwriting an earlier one. */
  function PairsToMap(ps: seq<(K.ComponentKind, Component)>): map<K.ComponentKind, Component>
  {
    if |ps| == 0 then map[] else PairsToMap(ps[..|ps| - 1])[ps[|ps| - 1].0 := ps[|ps| - 1].1]
  }

  /** With distinct keys the map holds exactly the listed pairs. */
  lemma {:induction false} PairsToMapFacts(ps: seq<(K.ComponentKind, Component)>)
    requires forall i, j :: 0 <= i < j < |ps| ==> ps[i].0 != ps[j].0
    ensures forall k :: k in PairsToMap(ps) <==> exists i :: 0 <= i < |ps| && ps[i].0 == k
    ensures forall i :: 0 <= i < |ps| ==> PairsToMap(ps)[ps[i].0] == ps[i].1
  {
    if |ps| > 0 {
      var init := ps[..|ps| - 1];
      PairsToMapFacts(init);
      forall k | k in PairsToMap(ps) ensures exists i :: 0 <= i < |ps| && ps[i].0 == k {
        if k != ps[|ps| - 1].0 {
          assert k in PairsToMap(init);
          var i :| 0 <= i < |init| && init[i].0 == k;
          assert ps[i].0 == k;
        }
      }
      forall i | 0 <= i < |ps| ensures PairsToMap(ps)[ps[i].0] == ps[i].1 {
        if i < |ps| - 1 { assert init[i] == ps[i]; }
      }
      forall k | (exists i :: 0 <= i < |ps| && ps[i].0 == k) ensures k in PairsToMap(ps) {
        var i :| 0 <= i < |ps| && ps[i].0 == k;
        if i < |ps| - 1 { assert init[i] == ps[i]; }
      }
    }
  }

  function Keys(ps: seq<(K.ComponentKind, Component)>): (ks: seq<K.ComponentKind>)
    ensures |ks| == |ps| && forall i :: 0 <= i < |ps| ==> ks[i] == ps[i].0
  {
    seq(|ps|, i requires 0 <= i < |ps| => ps[i].0)
  }

  /** Loading one entity: components re-wrapped, the mask rebuilt by OR-ing
      the table mask of every component key (a key without one makes the
      BigInt `|` throw a `TypeError`), tags turned back into a set (absent
      tags give the empty set), and `deleted` at its initial `false`. */
  function LoadEntity(j: EntityJSON): (r: Result<Entity>)
    ensures r.Success? <==> forall i :: 0 <= i < |j.components| ==> j.components[i].0 in M.MaskOrder()
    ensures r.Success? ==> (r.value.id == j.id && r.value.cooldowns == j.cooldowns && !r.value.deleted
      && r.value.components == PairsToMap(j.components)
      && r.value.tags == (if j.tags.Some? then j.tags.value else {}))
  {
    var keys := Keys(j.components);
    M.FoldMaskBits(keys, 0, 0);
    match M.FoldMask(keys, 0)
    case None => Failure(TypeError)
    case Some(mask) =>
      Success(Entity(j.id, PairsToMap(j.components), j.cooldowns,
                     if j.tags.Some? then j.tags.value else {}, false, mask))
  }

  /** The entity map rebuilt with `entityMap.set(entity.id, entity)`: a
      repeated id keeps its first position and its last value. */
  function BuildMap(es: seq<Entity>, m: map<int, Entity>, order: seq<int>): (r: (map<int, Entity>, seq<int>))
    decreases |es|
  {
    if |es| == 0 then (m, order)
    else
      var e := es[0];
      BuildMap(es[1..], m[e.id := e], if e.id in m then order else order + [e.id])
  }

  function LoadAll(js: seq<EntityJSON>): (r: Result<seq<Entity>>)
    ensures r.Success? <==> forall i :: 0 <= i < |js| ==> LoadEntity(js[i]).Success?
    ensures r.Success? ==> |r.value| == |js| && forall i :: 0 <= i < |js| ==> r.value[i] == LoadEntity(js[i]).value
  {
    if |js| == 0 then Success([])
    else
      var e :- LoadEntity(js[0]);
      var rest :- LoadAll(js[1..]);
      assert forall i :: 1 <= i < |js| ==> js[i] == js[1..][i - 1];
      Success([e] + rest)
  }

  /** `Sim.load(config, data)`: a fresh simulation (empty hook log) holding
      the saved counter, time offset and entities. The simulation has no
      queries and no systems here, so re-applying every configured system
      and resetting every query (core/sim/Sim.ts:211-218) are not modelled;
      that the time offset survives `plainToInstance` is assumed, since
      `BaseSim` is not part of this model. */
  function Load(j: SimJSON): (r: Result<Sim>)
    ensures r.Success? <==> forall i :: 0 <= i < |j.entities| ==> LoadEntity(j.entities[i]).Success?
    ensures r.Success? ==> (r.value.entityIdCounter == j.entityIdCounter && r.value.timeOffset == j.timeOffset
      && r.value.log == [])
  {
    var es :- LoadAll(j.entities);
    var (m, order) := BuildMap(es, map[], []);
    Success(Sim(j.entityIdCounter, m, order, j.timeOffset, 0.0, []))
  }

  /** Every component of a bag with its live-object fields dropped. */
  function StripAll(cs: map<K.ComponentKind, Component>): (r: map<K.ComponentKind, Component>)
    ensures r.Keys == cs.Keys
  {
    map k | k in cs :: cs[k].Strip()
  }

  /** Re-wrapping the serialised components gives each component back,
      stripped. */
  lemma ComponentsRoundTrip(cs: map<K.ComponentKind, Component>)
    ensures PairsToMap(Entities.ComponentsToJSON(cs)) == StripAll(cs)
  {
    var ps := Entities.ComponentsToJSON(cs);
    PairsToMapFacts(ps);
    var m := PairsToMap(ps);
    forall k | k in cs ensures k in m && m[k] == cs[k].Strip() {
      var i :| 0 <= i < |ps| && ps[i].0 == k;
    }
  }

  /** The rebuilt mask of serialised components that all have a mask exists
      and holds exactly the bits of their kinds. */
  lemma LoadedMaskBits(cs: map<K.ComponentKind, Component>, n: nat)
    requires K.StorageBonus !in cs
    ensures M.FoldMask(Keys(Entities.ComponentsToJSON(cs)), 0).Some?
    ensures M.Bit(M.FoldMask(Keys(Entities.ComponentsToJSON(cs)), 0).value, n)
      <==> exists k :: k in cs && M.Index(k) == Some(n)
  {
    var ps := Entities.ComponentsToJSON(cs);
    var keys := Keys(ps);
    forall i | 0 <= i < |keys| ensures keys[i] in M.MaskOrder() {
      M.IndexMatchesOrder(keys[i]);
    }
    M.FoldMaskBits(keys, 0, n);
    M.ZeroHasNoBits(n);
    if exists k :: k in cs && M.Index(k) == Some(n) {
      var k :| k in cs && M.Index(k) == Some(n);
      var i :| 0 <= i < |ps| && ps[i].0 == k;
      assert keys[i] == k;
    }
  }

  /** An entity whose components all have a mask in the table comes back
      from its serialised form with the same id and cooldowns, its components
      stripped, the saved tags (none when none were saved), and its mask
      holding exactly the bits of its component kinds. */
  lemma LoadEntityOfJSON(cs: map<K.ComponentKind, Component>, cd: CD.Cooldowns, id: int, tags: Option<set<string>>, n: nat)
    requires K.StorageBonus !in cs
    ensures LoadEntity(EntityJSON(Entities.ComponentsToJSON(cs), cd, id, tags)).Success?
    ensures var l := LoadEntity(EntityJSON(Entities.ComponentsToJSON(cs), cd, id, tags)).value;
      && l.id == id && l.cooldowns == cd && !l.deleted
      && l.tags == (if tags.Some? then tags.value else {})
      && l.components == StripAll(cs)
      && (M.Bit(l.componentsMask, n) <==> exists k :: k in cs && M.Index(k) == Some(n))
  {
    ComponentsRoundTrip(cs);
    LoadedMaskBits(cs, n);
  }

  /** Loading fails with a `TypeError` as soon as one saved entity holds a
      component that has no mask in the table. */
  lemma LoadRejectsUnmaskedKind(j: SimJSON, i: nat, c: nat)
    requires i < |j.entities| && c < |j.entities[i].components|
    requires j.entities[i].components[c].0 == K.StorageBonus
    ensures Load(j).Failure?
  {
    M.IndexMatchesOrder(K.StorageBonus);
  }

  /** `entityMap.set` over entities with distinct ids that are all new. */
  lemma BuildMapFacts(es: seq<Entity>, m: map<int, Entity>, order: seq<int>)
    requires forall i, j :: 0 <= i < j < |es| ==> es[i].id != es[j].id
    requires forall i :: 0 <= i < |es| ==> es[i].id !in m
    ensures BuildMap(es, m, order).1 == order + seq(|es|, i requires 0 <= i < |es| => es[i].id)
    ensures forall id :: id in BuildMap(es, m, order).0 <==> id in m || exists i :: 0 <= i < |es| && es[i].id == id
    ensures forall id :: id in m ==> BuildMap(es, m, order).0[id] == m[id]
    ensures forall i :: 0 <= i < |es| ==> BuildMap(es, m, order).0[es[i].id] == es[i]
  {
    BuildMapOrder(es, m, order);
    BuildMapEntries(es, m, order);
  }

  /** New ids are appended to the insertion order in sequence order. */
  lemma {:induction false} BuildMapOrder(es: seq<Entity>, m: map<int, Entity>, order: seq<int>)
    requires forall i, j :: 0 <= i < j < |es| ==> es[i].id != es[j].id
    requires forall i :: 0 <= i < |es| ==> es[i].id !in m
    ensures BuildMap(es, m, order).1 == order + seq(|es|, i requires 0 <= i < |es| => es[i].id)
    decreases |es|
  {
    if |es| > 0 {
      var e := es[0];
      var rest := es[1..];
      assert forall i :: 0 < i < |es| ==> es[i] == rest[i - 1];
      BuildMapOrder(rest, m[e.id := e], order + [e.id]);
      var ids := seq(|es|, i requires 0 <= i < |es| => es[i].id);
      var restIds := seq(|rest|, i requires 0 <= i < |rest| => rest[i].id);
      assert ids == [e.id] + restIds;
    }
  }

  /** The built map holds the old entries and each new entity under its id. */
  lemma {:induction false} BuildMapEntries(es: seq<Entity>, m: map<int, Entity>, order: seq<int>)
    requires forall i, j :: 0 <= i < j < |es| ==> es[i].id != es[j].id
    requires forall i :: 0 <= i < |es| ==> es[i].id !in m
    ensures forall id :: id in BuildMap(es, m, order).0 <==> id in m || exists i :: 0 <= i < |es| && es[i].id == id
    ensures forall id :: id in m ==> BuildMap(es, m, order).0[id] == m[id]
    ensures forall i :: 0 <= i < |es| ==> BuildMap(es, m, order).0[es[i].id] == es[i]
    decreases |es|
  {
    if |es| > 0 {
      var e := es[0];
      var rest := es[1..];
      assert forall i :: 0 < i < |es| ==> es[i] == rest[i - 1];
      BuildMapEntries(rest, m[e.id := e], order + [e.id]);
      assert BuildMap(es, m, order) == BuildMap(rest, m[e.id := e], order + [e.id]);
      forall id | id in BuildMap(es, m, order).0 ensures id in m || exists i :: 0 <= i < |es| && es[i].id == id {
        if id !in m && id != e.id {
          var i :| 0 <= i < |rest| && rest[i].id == id;
          assert es[i + 1].id == id;
        }
      }
    }
  }

  /** Every serialised entity of a valid simulation loads back. */
  lemma LoadAllOfToJSON(s: Sim)
    requires Valid(s)
    requires forall id :: id in s.entities ==> K.StorageBonus !in s.entities[id].components
    ensures LoadAll(ToJSON(s).entities).Success?
    ensures var es := LoadAll(ToJSON(s).entities).value;
      && |es| == |s.order|
      && forall i :: 0 <= i < |es| ==>
        && es[i].id == s.order[i]
        && es[i].tags == s.entities[s.order[i]].tags
        && es[i].cooldowns == s.entities[s.order[i]].cooldowns
        && es[i].components == StripAll(s.entities[s.order[i]].components)
  {
    var j := ToJSON(s);
    forall i | 0 <= i < |j.entities|
      ensures LoadEntity(j.entities[i]).Success?
      ensures var l := LoadEntity(j.entities[i]).value; var e := s.entities[s.order[i]];
        l.id == s.order[i] && l.tags == e.tags && l.cooldowns == e.cooldowns && l.components == StripAll(e.components)
    {
      var e := s.entities[s.order[i]];
      LoadEntityOfJSON(e.components, e.cooldowns, e.id, Some(e.tags), 0);
    }
  }

  /** A load whose entities carry distinct ids keeps them in saved order,
      each under its own id. */
  lemma LoadKeepsSavedOrder(j: SimJSON)
    requires LoadAll(j.entities).Success?
    requires var es := LoadAll(j.entities).value;
      forall i, k :: 0 <= i < k < |es| ==> es[i].id != es[k].id
    ensures Load(j).Success?
    ensures var es := LoadAll(j.entities).value; var l := Load(j).value;
      && l.order == seq(|es|, i requires 0 <= i < |es| => es[i].id)
      && (forall id :: id in l.entities <==> exists i :: 0 <= i < |es| && es[i].id == id)
      && (forall i :: 0 <= i < |es| ==> l.entities[es[i].id] == es[i])
  {
    BuildMapFacts(LoadAll(j.entities).value, map[], []);
  }

  /** Saving (with tags) and loading a valid simulation whose entities only
      hold components that have a mask gives back the same counter, time
      offset, iteration order and ids, and every entity with its id, tags and
      cooldowns, its components stripped of live-object fields. */
  lemma SaveLoadRoundTrip(s: Sim)
    requires Valid(s)
    requires forall id :: id in s.entities ==> K.StorageBonus !in s.entities[id].components
    ensures Load(ToJSON(s)).Success?
    ensures var l := Load(ToJSON(s)).value;
      && l.entityIdCounter == s.entityIdCounter && l.timeOffset == s.timeOffset
      && l.order == s.order && l.entities.Keys == s.entities.Keys
      && forall id :: id in s.entities ==>
           && l.entities[id].id == id
           && l.entities[id].tags == s.entities[id].tags
           && l.entities[id].cooldowns == s.entities[id].cooldowns
           && l.entities[id].components == StripAll(s.entities[id].components)
  {
    var j := ToJSON(s);
    LoadAllOfToJSON(s);
    var es := LoadAll(j.entities).value;
    assert forall i, k :: 0 <= i < k < |es| ==> es[i].id != es[k].id;
    LoadKeepsSavedOrder(j);
    LoadedInSavedOrder(s, es, Load(j).value);
  }

  /** The bookkeeping step of the round trip: entities loaded in the
      saved order, each stored under its id, rebuild the same iteration
      order and entity table. */
  lemma LoadedInSavedOrder(s: Sim, es: seq<Entity>, l: Sim)
    requires Valid(s)
    requires |es| == |s.order|
    requires forall i :: 0 <= i < |es| ==>
      && es[i].id == s.order[i]
      && es[i].tags == s.entities[s.order[i]].tags
      && es[i].cooldowns == s.entities[s.order[i]].cooldowns
      && es[i].components == StripAll(s.entities[s.order[i]].components)
    requires l.order == seq(|es|, i requires 0 <= i < |es| => es[i].id)
    requires forall id :: id in l.entities <==> exists i :: 0 <= i < |es| && es[i].id == id
    requires forall i :: 0 <= i < |es| ==> l.entities[es[i].id] == es[i]
    ensures l.order == s.order && l.entities.Keys == s.entities.Keys
    ensures forall id :: id in s.entities ==>
      && l.entities[id].id == id
      && l.entities[id].tags == s.entities[id].tags
      && l.entities[id].cooldowns == s.entities[id].cooldowns
      && l.entities[id].components == StripAll(s.entities[id].components)
  {
    assert l.order == s.order;
    forall id | id in s.entities
      ensures id in l.entities && l.entities[id].id == id && l.entities[id].tags == s.entities[id].tags
        && l.entities[id].cooldowns == s.entities[id].cooldowns
        && l.entities[id].components == StripAll(s.entities[id].components)
    {
      var i := Pos(s.order, id);
      assert es[i].id == id;
      assert l.entities[id] == es[i];
    }
    forall id | id in l.entities ensures id in s.entities {
      var i :| 0 <= i < |es| && es[i].id == id;
      assert s.order[i] == id;
    }
  }

  /** The position of a listed id. */
  function Pos(order: seq<int>, id: int): (i: nat)
    requires id in order
    ensures i < |order| && order[i] == id
  {
    if order[0] == id then 0 else 1 + Pos(order[1..], id)
  }

  /** As written, the snapshot carries no tags, so every loaded entity comes
      back with an empty tag set whatever it held. */
  lemma LoadAsWrittenDropsTags(s: Sim, id: int)
    requires Valid(s)
    requires Load(ToJSONAsWritten(s)).Success?
    requires id in Load(ToJSONAsWritten(s)).value.entities
    ensures Load(ToJSONAsWritten(s)).value.entities[id].tags == {}
  {
    var j := ToJSONAsWritten(s);
    var es := LoadAll(j.entities).value;
    BuildMapTags(es, map[], []);
  }

  lemma {:induction false} BuildMapTags(es: seq<Entity>, m: map<int, Entity>, order: seq<int>)
    requires forall i :: 0 <= i < |es| ==> es[i].tags == {}
    requires forall id :: id in m ==> m[id].tags == {}
    ensures forall id :: id in BuildMap(es, m, order).0 ==> BuildMap(es, m, order).0[id].tags == {}
    decreases |es|
  {
    if |es| > 0 {
      assert forall i :: 0 < i < |es| ==> es[i] == es[1..][i - 1];
      BuildMapTags(es[1..], m[es[0].id := es[0]], if es[0].id in m then order else order + [es[0].id]);
    }
  }

  /** A registered facility-tagged entity: saved as written and loaded back,
      its tag is gone. */
  lemma TagLostCounterexample()
    ensures var e := Entity(0, map[], CD.Empty, {"facility"}, false, 0);
      var s := Sim(1, map[0 := e], [0], 0.0, 0.0, []);
      && Valid(s)
      && Load(ToJSONAsWritten(s)).Success?
      && 0 in Load(ToJSONAsWritten(s)).value.entities
      && Load(ToJSONAsWritten(s)).value.entities[0].tags != s.entities[0].tags
  {
    var e := Entity(0, map[], CD.Empty, {"facility"}, false, 0);
    var s := Sim(1, map[0 := e], [0], 0.0, 0.0, []);
    OneEntityLoadsAsWritten(e, s);
    LoadAsWrittenDropsTags(s, 0);
  }

  /** A simulation holding one facility-tagged entity with no components
      loads back with that entity under its id. */
  lemma OneEntityLoadsAsWritten(e: Entity, s: Sim)
    requires e == Entity(0, map[], CD.Empty, {"facility"}, false, 0)
    requires s == Sim(1, map[0 := e], [0], 0.0, 0.0, [])
    ensures Valid(s) && Load(ToJSONAsWritten(s)).Success? && 0 in Load(ToJSONAsWritten(s)).value.entities
  {
    var j := ToJSONAsWritten(s);
    assert j.entities == [Entities.ToJSONAsWritten(e)];
    LoadEntityOfJSON(map[], CD.Empty, 0, None, 0);
    var es := LoadAll(j.entities).value;
    BuildMapFacts(es, map[], []);
    assert es[0].id == 0;
  }
}
