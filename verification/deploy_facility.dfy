/** The deploy-facility order action of the current engine
    (core/systems/orderExecuting/deployFacility.ts): a ship carrying a
    facility turns, in place, into a bare facility. It keeps its id, its
    owner, its orders and its position (turned to angle 0), loses its ship
    parts and its cargo, and gets an empty facility kit. */
module DeployFacility {
  import opened Wrappers
  import opened Commodities
  import opened Components
  import opened Entities
  import A = Archetypes
  import T = Trading
  import K = Kinds

  /** The components the action removes, in the order it removes them. */
  const ShipParts: seq<K.ComponentKind> :=
    [K.AutoOrder, K.Commander, K.Deployable, K.Dockable, K.Docks, K.Drive, K.Mining, K.Name, K.Render, K.Storage]

  /** The same kinds as a set. */
  const ShipPartSet: set<K.ComponentKind> :=
    {K.AutoOrder, K.Commander, K.Deployable, K.Dockable, K.Docks, K.Drive, K.Mining, K.Name, K.Render, K.Storage}

  /** The kinds of the components the action adds afterwards, in the order
      it adds them. */
  const KitOrder: seq<K.ComponentKind> :=
    [K.Budget, K.Docks, K.Modules, K.Name, K.Storage, K.Trade, K.Journal, K.Render]

  const KitKinds: set<K.ComponentKind> :=
    {K.Budget, K.Docks, K.Modules, K.Name, K.Storage, K.Trade, K.Journal, K.Render}

  lemma ShipPartsAsSet()
    ensures (set k | k in ShipParts) == ShipPartSet
  {
  }

  /** The facility look: the ship's render fields with scale 1, `maxZ`
      0.065, the "fFactory" texture and z-index 1. The ship's sprite is
      destroyed first, so no live sprite is carried over. */
  function FacilityLook(p: RenderProps): (q: RenderProps)
    ensures q.color == p.color && q.layer == p.layer
    ensures q.texture == "fFactory" && q.sprite.None?
  {
    p.(defaultScale := 1.0, maxZ := 0.065, texture := "fFactory", zIndex := 1, sprite := None)
  }

  /** The component bag after deployment: the ship parts taken out, the
      kit put in (an empty budget, docks for one large and three medium and
      three small ships, no modules, the name "Facility", empty storage, a
      fresh trade component, an empty journal, the facility look) and the
      position turned to angle 0. Every other component stays as it was. */
  function Deployed(m: map<K.ComponentKind, Component>, look: RenderProps, position: Component): map<K.ComponentKind, Component>
    requires position.Position?
  {
    (m - ShipPartSet)
     [K.Budget := NewBudget][K.Docks := NewDocks(1, 3, 3)][K.Modules := Modules([])][K.Name := Name("Facility", None)]
     [K.Storage := Storage(NewStorage)][K.Trade := Trade(NewTrade)][K.Journal := Journal([])][K.Render := Render(look)]
     [K.Position := position.(angle := 0.0)]
  }

  /** The deployed bag has the kit and the position, and no ship part
      that the kit does not put back. */
  lemma DeployedKeys(m: map<K.ComponentKind, Component>, look: RenderProps, position: Component)
    requires position.Position?
    ensures Deployed(m, look, position).Keys == (m.Keys - ShipPartSet) + KitKinds + {K.Position}
  {
  }

  /** The kit in the deployed bag is fresh: whatever budget, cargo, trade
      or journal was there before is gone. */
  lemma DeployedKit(m: map<K.ComponentKind, Component>, look: RenderProps, position: Component)
    requires position.Position?
    ensures var r := Deployed(m, look, position);
      && r[K.Budget] == NewBudget && r[K.Docks] == Docks(1, 3, 3, []) && r[K.Modules] == Modules([])
      && r[K.Name] == Name("Facility", None) && r[K.Storage] == Storage(NewStorage) && r[K.Trade] == Trade(NewTrade)
      && r[K.Journal] == Journal([]) && r[K.Render] == Render(look)
  {
  }

  /** Only the angle of the position changes, and every component that is
      neither a ship part nor in the kit (orders, owner, hitpoints, a module
      queue, ...) is kept as it was. */
  lemma DeployedKeepsTheRest(m: map<K.ComponentKind, Component>, look: RenderProps, position: Component)
    requires position.Position?
    ensures var r := Deployed(m, look, position);
      && r[K.Position] == position.(angle := 0.0)
      && forall k :: k in m && k !in ShipPartSet && k !in KitKinds && k != K.Position ==> k in r && r[k] == m[k]
  {
  }

  /** Deploying an already deployed bag again changes nothing. */
  lemma DeployedIdempotent(m: map<K.ComponentKind, Component>, p: RenderProps, position: Component)
    requires position.Position?
    ensures var d := Deployed(m, FacilityLook(p), position);
      Deployed(d, FacilityLook(FacilityLook(p)), d[K.Position]) == d
  {
    assert FacilityLook(FacilityLook(p)) == FacilityLook(p);
  }

  /** What the action reads without a guard: the ship's `render` (handed to
      `destroy`) and its `position` (whose angle it writes). */
  predicate CanDeploy(e: Entity) {
    && K.Render in e.components && e.components[K.Render].Render?
    && K.Position in e.components && e.components[K.Position].Position?
  }

  /** The hooks the action fires, in the order of its calls: one
      `removeComponent` per ship part (present or not), then one
      `addComponent` per kit component. */
  function DeployHooks(id: int): (hs: seq<Hook>)
    ensures |hs| == |ShipParts| + |KitOrder|
  {
    seq(|ShipParts|, i requires 0 <= i < |ShipParts| => RemoveComponentHook(id, ShipParts[i]))
      + seq(|KitOrder|, i requires 0 <= i < |KitOrder| => AddComponentHook(id, KitOrder[i]))
  }

  /** `deployFacilityAction(entity)`: whether the order action is done (it
      always is), and the entity after it with the hooks it fired. Removing
      the ship parts one by one is taking them out of the bag together.
      Without a render or a position the action reads a property of
      `undefined`. A ship with a render and no position throws only at the
      last step (core/systems/orderExecuting/deployFacility.ts:51), after the
      ship parts are removed and the kit is added; the failure here carries
      none of those writes. */
  function DeployFacilityAction(e: Entity): (r: Result<(bool, Step)>)
    ensures r.Failure? <==> !CanDeploy(e)
    ensures r.Failure? ==> r.error == TypeError
    ensures r.Success? ==> r.value.0 && r.value.1.hooks == DeployHooks(e.id)
    ensures r.Success? ==> r.value.1.entity == e.(components := r.value.1.entity.components)
  {
    if !CanDeploy(e) then Failure(TypeError)
    else
      var look := FacilityLook(e.components[K.Render].props);
      var d := e.(components := Deployed(e.components, look, e.components[K.Position]));
      Success((true, Step(d, DeployHooks(e.id))))
  }

  /** Deploying is idempotent on the entity: running the action again on a
      deployed facility gives the same entity back. */
  lemma DeployIdempotent(e: Entity)
    requires CanDeploy(e)
    ensures CanDeploy(DeployFacilityAction(e).value.1.entity)
    ensures var d := DeployFacilityAction(e).value.1.entity;
      DeployFacilityAction(d).value.1.entity == d
  {
    DeployedIdempotent(e.components, e.components[K.Render].props, e.components[K.Position]);
  }

  /** The deployed entity is a facility in the sense of `facility(entity)`
      exactly when the ship already had a module queue: the action does not
      add one. */
  lemma DeployedFacilityNeedsQueue(e: Entity)
    requires CanDeploy(e)
    ensures A.AsFacility(DeployFacilityAction(e).value.1.entity).Success? <==> K.FacilityModuleQueue in e.components
  {
    var d := DeployFacilityAction(e).value.1.entity;
    if K.FacilityModuleQueue in e.components {
      forall i | 0 <= i < |A.FacilityComponents| ensures A.FacilityComponents[i] in d.components {
        assert A.FacilityComponents[i] in KitKinds + {K.Position, K.FacilityModuleQueue};
      }
    } else {
      assert A.FacilityComponents[9] !in d.components;
    }
  }

  /** The deployed entity takes part in trading: it is no longer
      deployable, so price adjustment no longer skips it, and it has every
      part trading reads, provided a compound production it kept is priced
      for every commodity. */
  lemma DeployedTrades(e: Entity)
    requires CanDeploy(e)
    requires K.CompoundProduction in e.components && e.components[K.CompoundProduction].CompoundProduction? ==>
      Total(e.components[K.CompoundProduction].pac)
    ensures K.Deployable !in DeployFacilityAction(e).value.1.entity.components
    ensures T.IsTrader(DeployFacilityAction(e).value.1.entity)
  {
  }
}
