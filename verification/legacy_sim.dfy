/** The older simulation (src/sim/Sim.ts): entities in a list indexed by id,
    an `add-component` event stream, the settings entity made by the
    constructor, and a fixed list of systems run in order on every tick.
    src/components/entity.ts is not part of this model: a new entity is
    taken to register itself with the sim, and `addComponent` to store the
    component under its kind and emit `add-component`. What each system does
    on `exec` is not part of this module; a tick is recorded as the sequence
    of `exec(delta)` calls it makes. */
module LegacySim {
  import opened Wrappers
  import opened Components
  import opened Entities
  import K = Kinds

  /** The systems the constructor builds. */
  datatype SystemKind =
    | BudgetPlanningSystem | ProducingSystem | StorageQuotaPlanningSystem | TradingSystem | SelectingSystem
    | OrderPlanningSystem | MovingSystem | MiningSystem | RenderingSystem | OrderExecutingSystem

  /** The system list, in the order `next` runs it. */
  const Systems: seq<SystemKind> :=
    [BudgetPlanningSystem, ProducingSystem, StorageQuotaPlanningSystem, TradingSystem, SelectingSystem,
     OrderPlanningSystem, MovingSystem, MiningSystem, RenderingSystem, OrderExecutingSystem]

  /** One `exec(delta)` call made by `next`. */
  datatype Exec = Exec(system: SystemKind, delta: real)

  /** An event on the sim's emitter. */
  datatype Event = ComponentAdded(entityId: int, kind: K.ComponentKind)

  /** `world.factions`, by entity id (src/economy/faction.ts is not part of
      this model). */
  datatype World = World(factions: seq<int>)

  datatype Sim = Sim(
    entityIdCounter: nat,
    entities: seq<Entity>,
    factions: seq<int>,
    systems: seq<SystemKind>,
    events: seq<Event>,
    execs: seq<Exec>)

  /** Entity `i` of the list has id `i`, and the counter is the list's
      length. */
  ghost predicate Valid(s: Sim) {
    && |s.entities| == s.entityIdCounter
    && forall i :: 0 <= i < |s.entities| ==> s.entities[i].id == i
  }

  /** `registerEntity(entity)`: the entity takes the counter as its id and is
      appended, and the counter is incremented. */
  function RegisterEntity(s: Sim, e: Entity): (r: (Sim, Entity))
    ensures r.1 == e.(id := s.entityIdCounter)
    ensures r.0.entities == s.entities + [r.1]
    ensures r.0.entityIdCounter == s.entityIdCounter + 1
    ensures r.0.events == s.events && r.0.execs == s.execs
    ensures r.0.systems == s.systems && r.0.factions == s.factions
  {
    var e' := e.(id := s.entityIdCounter);
    (s.(entities := s.entities + [e'], entityIdCounter := s.entityIdCounter + 1), e')
  }

  /** Registration keeps ids equal to list positions, so ids are unique,
      strictly increasing and below the counter. */
  lemma RegisterKeepsValid(s: Sim, e: Entity)
    requires Valid(s)
    ensures Valid(RegisterEntity(s, e).0)
    ensures RegisterEntity(s, e).1.id == |s.entities|
  {
    var s' := RegisterEntity(s, e).0;
    forall i | 0 <= i < |s'.entities| ensures s'.entities[i].id == i {
      if i < |s.entities| { assert s'.entities[i] == s.entities[i]; }
    }
  }

  lemma ValidIdsIncrease(s: Sim, i: int, j: int)
    requires Valid(s) && 0 <= i < j < |s.entities|
    ensures s.entities[i].id < s.entities[j].id < s.entityIdCounter
  {
  }

  /** `new Entity(sim)`: a blank entity registered with the sim. */
  function NewEntity(s: Sim): (r: (Sim, Entity))
    ensures r.1.id == s.entityIdCounter && r.1.components == map[]
    ensures r.0.entities == s.entities + [r.1] && r.0.entityIdCounter == s.entityIdCounter + 1
    ensures r.0.events == s.events
  {
    RegisterEntity(s, Blank)
  }

  /** `entity.addComponent(c)` on the registered entity `id`: the component
      is stored under its kind and `add-component` is emitted once. */
  function AddComponentTo(s: Sim, id: nat, c: Component): (r: Sim)
    requires id < |s.entities|
    ensures r.entityIdCounter == s.entityIdCounter
    ensures r.entities == s.entities[id := s.entities[id].(components := s.entities[id].components[c.Kind() := c])]
    ensures r.events == s.events + [ComponentAdded(s.entities[id].id, c.Kind())]
    ensures r.execs == s.execs && r.systems == s.systems && r.factions == s.factions
  {
    var e := s.entities[id];
    s.(entities := s.entities[id := e.(components := e.components[c.Kind() := c])],
       events := s.events + [ComponentAdded(e.id, c.Kind())])
  }

  /** `new SelectionManager()`: nothing selected. */
  const NewSelectionManager: Component := SelectionManager(None, None, false)

  /** `new Sim()`: the settings entity is registered first and receives a
      selection manager by direct assignment, which emits no event; then
      the systems are built. */
  function Create(): (s: Sim)
    ensures Valid(s) && s.entityIdCounter == 1
    ensures s.entities[0].id == 0
    ensures s.entities[0].components == map[K.SelectionManager := NewSelectionManager]
    ensures s.events == [] && s.execs == [] && s.factions == []
    ensures s.systems == Systems
  {
    var empty := Sim(0, [], [], [], [], []);
    var (s1, settings) := NewEntity(empty);
    var settings' := settings.(components := settings.components[K.SelectionManager := NewSelectionManager]);
    s1.(entities := s1.entities[0 := settings'], systems := Systems)
  }

  /** `load(world)`: only the faction list is replaced. */
  function Load(s: Sim, w: World): (r: Sim)
    ensures r.factions == w.factions
    ensures r.entities == s.entities && r.entityIdCounter == s.entityIdCounter
    ensures r.systems == s.systems && r.events == s.events && r.execs == s.execs
  {
    s.(factions := w.factions)
  }

  /** The `exec(delta)` calls one pass over `systems` makes. */
  function Execs(systems: seq<SystemKind>, delta: real): (r: seq<Exec>)
    ensures |r| == |systems|
    ensures forall i :: 0 <= i < |systems| ==> r[i] == Exec(systems[i], delta)
  {
    if |systems| == 0 then [] else [Exec(systems[0], delta)] + Execs(systems[1..], delta)
  }

  /** `next(delta)`: one pass of `exec(delta)` calls over the system list;
      nothing else changes. */
  function Next(s: Sim, delta: real): (r: Sim)
    ensures r.execs == s.execs + Execs(s.systems, delta)
    ensures r.entities == s.entities && r.entityIdCounter == s.entityIdCounter
    ensures r.systems == s.systems && r.events == s.events && r.factions == s.factions
  {
    s.(execs := s.execs + Execs(s.systems, delta))
  }

  /** Running `n` ticks of the same length. */
  function Ticks(s: Sim, delta: real, n: nat): Sim
    decreases n
  {
    if n == 0 then s else Ticks(Next(s, delta), delta, n - 1)
  }

  /** `xs` repeated `n` times. */
  function Repeat<T>(xs: seq<T>, n: nat): (r: seq<T>)
    ensures |r| == n * |xs|
  {
    if n == 0 then [] else xs + Repeat(xs, n - 1)
  }

  /** `n` ticks make the calls of one tick `n` times over, always with the
      same system list, and change nothing else. */
  lemma {:induction false} TicksRepeatSystems(s: Sim, delta: real, n: nat)
    ensures Ticks(s, delta, n).execs == s.execs + Repeat(Execs(s.systems, delta), n)
    ensures Ticks(s, delta, n).systems == s.systems
    ensures Ticks(s, delta, n).entities == s.entities
    decreases n
  {
    if n > 0 {
      var s1 := Next(s, delta);
      TicksRepeatSystems(s1, delta, n - 1);
      var one := Execs(s.systems, delta);
      var r := Ticks(s1, delta, n - 1);
      assert Ticks(s, delta, n) == r;
      assert r.execs == (s.execs + one) + Repeat(one, n - 1);
      assert (s.execs + one) + Repeat(one, n - 1) == s.execs + (one + Repeat(one, n - 1));
    }
  }

  /** On a freshly constructed sim, a tick calls `exec` once on each system,
      from BudgetPlanningSystem to OrderExecutingSystem. */
  lemma FirstTickOrder(delta: real)
    ensures Next(Create(), delta).execs == Execs(Systems, delta)
  {
    assert Create().execs == [];
  }
}
