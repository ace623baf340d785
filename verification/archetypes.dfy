/** Entity templates of the current engine: facilities
    (core/archetypes/facility.ts) and sectors (core/archetypes/sector.ts). */
module Archetypes {
  import opened Wrappers
  import opened Commodities
  import opened Components
  import opened Entities
  import CS = CoreSim
  import K = Kinds

  /** The components that make an entity a facility. */
  const FacilityComponents: seq<K.ComponentKind> :=
    [K.Budget, K.Docks, K.Modules, K.Name, K.Position, K.Render, K.Journal, K.Storage, K.Trade, K.FacilityModuleQueue]

  /** `facility(entity)`: the entity narrowed to a facility, or
      `MissingComponentError`. */
  function AsFacility(e: Entity): (r: Result<Entity>)
    ensures r.Success? <==> forall i :: 0 <= i < |FacilityComponents| ==> FacilityComponents[i] in e.components
    ensures r.Failure? ==> r.error == MissingComponentError(e.id)
  {
    RequireComponents(e, FacilityComponents)
  }

  /** `String(x)` as `Array.prototype.join` renders it: `undefined` becomes the
      empty string. */
  function JoinPart(x: Option<string>): string {
    if x.Some? then x.value else ""
  }

  /** `createFacilityName(entity, label)`. The owner part is used only when the
      entity has an `owner` component with a truthy id (so owner id 0 counts
      as no owner); the owner and the sector are looked up with `getOrThrow`,
      and reading the `name` of either when it has none throws a `TypeError`.
      The result is the space-joined slug, sector name and label. */
  function FacilityName(s: CS.Sim, e: Entity, title: string): (r: Result<string>)
    requires K.Position in e.components && e.components[K.Position].Position?
    ensures var sectorId := e.components[K.Position].sector;
      r.Success? ==> (sectorId in s.entities && K.Name in s.entities[sectorId].components
        && s.entities[sectorId].components[K.Name].Name?)
    ensures var sectorId := e.components[K.Position].sector;
      sectorId !in s.entities && !HasOwner(e) ==> r == Failure(MissingEntityError(sectorId))
    ensures var sectorId := e.components[K.Position].sector;
      !HasOwner(e) ==> (r.Success? <==> (sectorId in s.entities && K.Name in s.entities[sectorId].components
        && s.entities[sectorId].components[K.Name].Name?))
    ensures r.Success? && !HasOwner(e) ==>
      r.value == s.entities[e.components[K.Position].sector].components[K.Name].value + " " + title
    ensures r.Success? && HasOwner(e) ==>
      var ownerId := e.components[K.Owner].ownerId;
      && ownerId in s.entities && K.Name in s.entities[ownerId].components
      && s.entities[ownerId].components[K.Name].Name?
      && r.value == JoinPart(s.entities[ownerId].components[K.Name].slug) + " "
           + s.entities[e.components[K.Position].sector].components[K.Name].value + " " + title
  {
    var sectorId := e.components[K.Position].sector;
    var ownerSlug :-
      if HasOwner(e) then
        var owner :- CS.GetOrThrow(s, e.components[K.Owner].ownerId);
        if K.Name in owner.components && owner.components[K.Name].Name? then
          Success(Some(JoinPart(owner.components[K.Name].slug)))
        else Failure(TypeError)
      else Success(None);
    var sector :- CS.GetOrThrow(s, sectorId);
    if K.Name in sector.components && sector.components[K.Name].Name? then
      var sectorName := sector.components[K.Name].value;
      Success(if ownerSlug.Some? then ownerSlug.value + " " + sectorName + " " + title
              else sectorName + " " + title)
    else Failure(TypeError)
  }

  /** `entity.cp.owner?.id` is truthy. */
  predicate HasOwner(e: Entity) {
    K.Owner in e.components && e.components[K.Owner].Owner? && e.components[K.Owner].ownerId != 0
  }

  datatype FacilityInput = FacilityInput(position: Coord, owner: Option<Entity>, sectorId: int)

  /** The render colour: the owner's colour when it has a truthy one, else the
      grey. An owner without a `color` component makes the read throw. */
  function FacilityColor(owner: Option<Entity>): (r: Result<RenderColor>)
    ensures owner.None? ==> r == Success(DefaultGrey)
    ensures owner.Some? && K.Color !in owner.value.components ==> r == Failure(TypeError)
  {
    match owner
    case None => Success(DefaultGrey)
    case Some(o) =>
      if K.Color in o.components && o.components[K.Color].Color? then
        var v := o.components[K.Color].color;
        Success(if v.Css? && v.value == "" then DefaultGrey else OwnerColor(v))
      else Failure(TypeError)
  }

  /** The render component of a new facility (`createRender` is not part of
      this model: depth range and z-index are taken as 0). */
  function FacilityRender(color: RenderColor): Component {
    Render(RenderProps(color, 1.0, 0.0, "fFactory", "facility", 0, None))
  }

  /** The hit points of a new facility; `g` holds a placeholder for live
      graphics. */
  const FacilityHitpoints: Component := Hitpoints(100000.0, 0.0, 100000.0, Some(0))

  /** The components `createFacility` adds before the name, in order:
      budget, docks 1/3/3, an idle module queue, no modules, the requested
      position at angle 0, the render, empty storage, fresh trade, an empty
      journal and full hit points. */
  function FacilityBase(input: FacilityInput, color: RenderColor): seq<Component> {
    [ NewBudget,
      NewDocks(1, 3, 3),
      FacilityModuleQueue(None, []),
      Modules([]),
      Position(0.0, input.position, input.sectorId, false),
      FacilityRender(color),
      Storage(NewStorage),
      Trade(NewTrade),
      Journal([]),
      FacilityHitpoints ]
  }

  /** Adding ten components of the base kinds, in the base order, fills one
      entry per kind. An unfolding step for `BaseApplied`, spelled out so the
      lemmas about a built facility can read its components by kind. */
  lemma ApplyBaseKinds(b0: Component, b1: Component, b2: Component, b3: Component, b4: Component, b5: Component, b6: Component, b7: Component, b8: Component, b9: Component)
    requires b0.Budget? && b1.Docks? && b2.FacilityModuleQueue? && b3.Modules? && b4.Position? && b5.Render? && b6.Storage? && b7.Trade? && b8.Journal? && b9.Hitpoints?
    ensures Apply(map[], [b0] + ([b1] + ([b2] + ([b3] + ([b4] + ([b5] + ([b6] + ([b7] + ([b8] + [b9]))))))))) ==
      map[K.Budget := b0, K.Docks := b1, K.FacilityModuleQueue := b2, K.Modules := b3, K.Position := b4, K.Render := b5, K.Storage := b6, K.Trade := b7, K.Journal := b8, K.Hitpoints := b9]
  {
    var r10: seq<Component> := [];
    var r9 := [b9];
    assert r9 == [b9] + r10;
    var r8 := [b8] + r9;
    var r7 := [b7] + r8;
    var r6 := [b6] + r7;
    var r5 := [b5] + r6;
    var r4 := [b4] + r5;
    var r3 := [b3] + r4;
    var r2 := [b2] + r3;
    var r1 := [b1] + r2;
    var r0 := [b0] + r1;
    var m0: map<K.ComponentKind, Component> := map[];
    var m1 := m0[K.Budget := b0];
    var m2 := m1[K.Docks := b1];
    var m3 := m2[K.FacilityModuleQueue := b2];
    var m4 := m3[K.Modules := b3];
    var m5 := m4[K.Position := b4];
    var m6 := m5[K.Render := b5];
    var m7 := m6[K.Storage := b6];
    var m8 := m7[K.Trade := b7];
    var m9 := m8[K.Journal := b8];
    var m10 := m9[K.Hitpoints := b9];
    ApplyCons(m0, b0, r1);
    ApplyCons(m1, b1, r2);
    ApplyCons(m2, b2, r3);
    ApplyCons(m3, b3, r4);
    ApplyCons(m4, b4, r5);
    ApplyCons(m5, b5, r6);
    ApplyCons(m6, b6, r7);
    ApplyCons(m7, b7, r8);
    ApplyCons(m8, b8, r9);
    ApplyCons(m9, b9, r10);
  }

  /** Adding the base components one by one fills one entry per kind. */
  lemma BaseApplied(input: FacilityInput, color: RenderColor)
    ensures Apply(map[], FacilityBase(input, color)) ==
      map[K.Budget := NewBudget,
          K.Docks := NewDocks(1, 3, 3),
          K.FacilityModuleQueue := FacilityModuleQueue(None, []),
          K.Modules := Modules([]),
          K.Position := Position(0.0, input.position, input.sectorId, false),
          K.Render := FacilityRender(color),
          K.Storage := Storage(NewStorage),
          K.Trade := Trade(NewTrade),
          K.Journal := Journal([]),
          K.Hitpoints := FacilityHitpoints]
  {
    var base := FacilityBase(input, color);
    assert base == [base[0]] + ([base[1]] + ([base[2]] + ([base[3]] + ([base[4]] + ([base[5]] + ([base[6]] + ([base[7]] + ([base[8]] + [base[9]]))))))));
    ApplyBaseKinds(NewBudget, NewDocks(1, 3, 3), FacilityModuleQueue(None, []), Modules([]), Position(0.0, input.position, input.sectorId, false), FacilityRender(color), Storage(NewStorage), Trade(NewTrade), Journal([]), FacilityHitpoints);
  }

  /** The bag the base components make, with the facts later stages read
      from it: every facility component but the name, no owner, and the
      requested position. */
  function BaseBag(input: FacilityInput, color: RenderColor): (m: map<K.ComponentKind, Component>)
    ensures forall i :: 0 <= i < |FacilityComponents| && FacilityComponents[i] != K.Name ==> FacilityComponents[i] in m
    ensures K.Owner !in m && K.Name !in m
    ensures K.Position in m && m[K.Position] == Position(0.0, input.position, input.sectorId, false)
  {
    BaseApplied(input, color);
    Apply(map[], FacilityBase(input, color))
  }

  /** The first stage of `createFacility`: register a new entity and add the
      base components. */
  function WithBase(s: CS.Sim, input: FacilityInput, color: RenderColor): (r: (CS.Sim, int))
    ensures var (s', id) := r;
      && id == s.entityIdCounter && id in s'.entities && s'.entities[id].id == id
      && s'.entityIdCounter == s.entityIdCounter + 1
      && s'.entities[id].tags == {}
      && s'.entities[id].components == BaseBag(input, color)
      && (forall o :: o in s.entities && o != id ==> o in s'.entities && s'.entities[o] == s.entities[o])
  {
    var (s1, e) := CS.NewEntity(s);
    (CS.AddComponentsTo(s1, e.id, FacilityBase(input, color)).value, e.id)
  }

  /** A component bag with the owner component `createFacility` attaches,
      if any. */
  function WithOwner(m: map<K.ComponentKind, Component>, owner: Option<Entity>): map<K.ComponentKind, Component> {
    if owner.Some? then m[K.Owner := Owner(owner.value.id)] else m
  }

  /** The name stage: the `name` component set on a registered entity. */
  function Named(s: CS.Sim, id: int, name: string): (r: CS.Sim)
    requires id in s.entities
    ensures r.entities.Keys == s.entities.Keys && r.entityIdCounter == s.entityIdCounter
    ensures r.entities[id] == s.entities[id].(components := s.entities[id].components[K.Name := Name(name, None)])
    ensures forall o :: o in s.entities && o != id ==> r.entities[o] == s.entities[o]
  {
    CS.AddComponentTo(s, id, Name(name, None)).value
  }

  /** The owner stage: an `owner` component on a registered entity exactly
      when an owner is given. */
  function WithOwnerOn(s: CS.Sim, id: int, owner: Option<Entity>): (r: CS.Sim)
    requires id in s.entities
    ensures r.entities.Keys == s.entities.Keys && r.entityIdCounter == s.entityIdCounter
    ensures r.entities[id] == s.entities[id].(components := WithOwner(s.entities[id].components, owner))
    ensures forall o :: o in s.entities && o != id ==> r.entities[o] == s.entities[o]
  {
    if owner.Some? then CS.AddComponentTo(s, id, Owner(owner.value.id)).value else s
  }

  /** Two tags added, in turn, to a registered entity. */
  function Tagged(s: CS.Sim, id: int, first: string, second: string): (r: CS.Sim)
    requires id in s.entities
    ensures r.entities.Keys == s.entities.Keys && r.entityIdCounter == s.entityIdCounter
    ensures r.entities[id] == s.entities[id].(tags := s.entities[id].tags + {first, second})
    ensures forall o :: o in s.entities && o != id ==> r.entities[o] == s.entities[o]
  {
    var s1 := CS.AddTagTo(s, id, first).value;
    CS.AddTagTo(s1, id, second).value
  }

  /** A base entity after the name, tags and owner stages: it keeps its id,
      gains both facility tags and the name, and an owner component exactly
      when an owner is given; the other components are kept. */
  function Finished(e: Entity, name: string, owner: Option<Entity>): (f: Entity)
    ensures f.id == e.id && f.tags == e.tags + {"selection", "facility"}
    ensures K.Name in f.components && f.components[K.Name] == Name(name, None)
    ensures K.Owner in f.components <==> (K.Owner in e.components || owner.Some?)
    ensures forall k :: k in e.components && k != K.Name && k != K.Owner ==> k in f.components && f.components[k] == e.components[k]
  {
    e.(tags := e.tags + {"selection", "facility"},
       components := WithOwner(e.components[K.Name := Name(name, None)], owner))
  }

  /** The name, tags and owner stages of `createFacility`, on the entity
      `id` built by the first stage, once its name is known. */
  function Finish(s: CS.Sim, id: int, name: string, owner: Option<Entity>): (r: (CS.Sim, Entity))
    requires id in s.entities
    ensures r.1 == Finished(s.entities[id], name, owner)
    ensures id in r.0.entities && r.0.entities[id] == r.1
    ensures r.0.entityIdCounter == s.entityIdCounter
    ensures forall o :: o in s.entities && o != id ==> o in r.0.entities && r.0.entities[o] == s.entities[o]
  {
    var s3 := Named(s, id, name);
    var s5 := Tagged(s3, id, "selection", "facility");
    var s6 := WithOwnerOn(s5, id, owner);
    (s6, s6.entities[id])
  }

  /** The sector a facility is created in is registered, is not the
      facility itself, and has a name. */
  predicate SectorUsable(s: CS.Sim, sectorId: int) {
    && sectorId in s.entities && sectorId != s.entityIdCounter
    && K.Name in s.entities[sectorId].components && s.entities[sectorId].components[K.Name].Name?
  }

  /** `createFacility` once the render colour is known. */
  function Build(s: CS.Sim, input: FacilityInput, color: RenderColor): (r: Result<(CS.Sim, Entity)>)
    ensures r.Success? <==> SectorUsable(s, input.sectorId)
    ensures input.sectorId !in s.entities && input.sectorId != s.entityIdCounter
      ==> r == Failure(MissingEntityError(input.sectorId))
    ensures r.Success? ==> (r.value.1.id == s.entityIdCounter && r.value.1.id in r.value.0.entities
      && r.value.0.entities[r.value.1.id] == r.value.1 && r.value.0.entityIdCounter == s.entityIdCounter + 1)
  {
    var (s2, id) := WithBase(s, input, color);
    assert input.sectorId in s.entities && input.sectorId != id ==> s2.entities[input.sectorId] == s.entities[input.sectorId];
    var name :- FacilityName(s2, s2.entities[id], "Facility");
    var (s6, f) := Finish(s2, id, name, input.owner);
    FinishedBase(s2.entities[id], input, color, name);
    var g :- AsFacility(f);
    Success((s6, g))
  }

  /** `createFacility(sim, initial)`: a new entity with the base components,
      the name `createFacilityName(entity, "Facility")`, the tags `selection`
      and `facility`, and an `owner` component iff an owner is given; the
      result is narrowed with `facility(entity)`. It fails when the owner has
      no colour or the sector cannot be read. */
  function CreateFacility(s: CS.Sim, input: FacilityInput): (r: Result<(CS.Sim, Entity)>)
    ensures r.Success? <==> FacilityColor(input.owner).Success? && SectorUsable(s, input.sectorId)
    ensures (FacilityColor(input.owner).Success? && input.sectorId !in s.entities
      && input.sectorId != s.entityIdCounter) ==> r == Failure(MissingEntityError(input.sectorId))
    ensures r.Success? ==> (r.value.1.id == s.entityIdCounter && r.value.1.id in r.value.0.entities
      && r.value.0.entities[r.value.1.id] == r.value.1 && r.value.0.entityIdCounter == s.entityIdCounter + 1)
  {
    var color :- FacilityColor(input.owner);
    Build(s, input, color)
  }

  /** A created facility holds every facility component, both tags, an
      `owner` component exactly when an owner was given, the position it was
      asked for, and the name "<sector name> Facility": the name is computed
      before the owner is attached, so it never carries the owner's slug.
      Every other entity is left as it was. */
  lemma CreatedFacility(s: CS.Sim, input: FacilityInput)
    requires FacilityColor(input.owner).Success? && SectorUsable(s, input.sectorId)
    ensures CreateFacility(s, input).Success?
    ensures var (s', f) := CreateFacility(s, input).value;
      && f.tags == {"selection", "facility"}
      && (forall i :: 0 <= i < |FacilityComponents| ==> FacilityComponents[i] in f.components)
      && (K.Owner in f.components <==> input.owner.Some?)
      && K.Position in f.components && f.components[K.Position] == Position(0.0, input.position, input.sectorId, false)
      && K.Name in f.components
      && f.components[K.Name] == Name(s.entities[input.sectorId].components[K.Name].value + " Facility", None)
      && (forall o :: o in s.entities && o != f.id ==> o in s'.entities && s'.entities[o] == s.entities[o])
  {
    BuiltFacility(s, input, FacilityColor(input.owner).value);
  }

  /** Without an owner, the name is the sector's name and the label. */
  lemma NameWithoutOwner(s: CS.Sim, e: Entity, title: string)
    requires K.Position in e.components && e.components[K.Position].Position? && !HasOwner(e)
    requires var sectorId := e.components[K.Position].sector;
      sectorId in s.entities && K.Name in s.entities[sectorId].components && s.entities[sectorId].components[K.Name].Name?
    ensures FacilityName(s, e, title)
      == Success(s.entities[e.components[K.Position].sector].components[K.Name].value + " " + title)
  {
  }

  /** The name a new facility receives. */
  lemma NewFacilityName(s: CS.Sim, input: FacilityInput, color: RenderColor)
    requires SectorUsable(s, input.sectorId)
    ensures var (s2, id) := WithBase(s, input, color);
      FacilityName(s2, s2.entities[id], "Facility")
        == Success(s.entities[input.sectorId].components[K.Name].value + " Facility")
  {
    var (s2, id) := WithBase(s, input, color);
    var e := s2.entities[id];
    assert s2.entities[input.sectorId] == s.entities[input.sectorId];
    assert e.components[K.Position].sector == input.sectorId;
    NameWithoutOwner(s2, e, "Facility");
    JoinLabel(s.entities[input.sectorId].components[K.Name].value);
  }

  lemma JoinLabel(sectorName: string)
    ensures sectorName + " " + "Facility" == sectorName + " Facility"
  {
  }

  /** The successful build is the finished base entity. */
  lemma BuildIsFinish(s: CS.Sim, input: FacilityInput, color: RenderColor)
    requires SectorUsable(s, input.sectorId)
    ensures var (s2, id) := WithBase(s, input, color);
      Build(s, input, color) == Success(Finish(s2, id, s.entities[input.sectorId].components[K.Name].value + " Facility", input.owner))
  {
    NewFacilityName(s, input, color);
    var (s2, id) := WithBase(s, input, color);
    var (s6, f) := Finish(s2, id, s.entities[input.sectorId].components[K.Name].value + " Facility", input.owner);
    assert AsFacility(f) == Success(f);
  }

  /** The facts a finished base entity carries. */
  lemma FinishedBase(e: Entity, input: FacilityInput, color: RenderColor, name: string)
    requires e.components == BaseBag(input, color) && e.tags == {}
    ensures var f := Finished(e, name, input.owner);
      && f.tags == {"selection", "facility"}
      && (forall i :: 0 <= i < |FacilityComponents| ==> FacilityComponents[i] in f.components)
      && (K.Owner in f.components <==> input.owner.Some?)
      && K.Position in f.components && f.components[K.Position] == Position(0.0, input.position, input.sectorId, false)
      && K.Name in f.components && f.components[K.Name] == Name(name, None)
  {
  }

  lemma BuiltFacility(s: CS.Sim, input: FacilityInput, color: RenderColor)
    requires SectorUsable(s, input.sectorId)
    ensures Build(s, input, color).Success?
    ensures var (s', f) := Build(s, input, color).value;
      && f.tags == {"selection", "facility"}
      && (forall i :: 0 <= i < |FacilityComponents| ==> FacilityComponents[i] in f.components)
      && (K.Owner in f.components <==> input.owner.Some?)
      && K.Position in f.components && f.components[K.Position] == Position(0.0, input.position, input.sectorId, false)
      && K.Name in f.components
      && f.components[K.Name] == Name(s.entities[input.sectorId].components[K.Name].value + " Facility", None)
      && (forall o :: o in s.entities && o != f.id ==> o in s'.entities && s'.entities[o] == s.entities[o])
  {
    BuildIsFinish(s, input, color);
    var (s2, id) := WithBase(s, input, color);
    var name := s.entities[input.sectorId].components[K.Name].value + " Facility";
    FinishedBase(s2.entities[id], input, color, name);
    var (s6, f) := Finish(s2, id, name, input.owner);
    assert f.id == id;
  }

  /** The components that make an entity a sector. */
  const SectorComponents: seq<K.ComponentKind> := [K.HecsPosition, K.Name, K.RenderGraphics, K.SectorStats]

  /** `sector(entity)`: the entity narrowed to a sector, or
      `MissingComponentError`. */
  function AsSector(e: Entity): (r: Result<Entity>)
    ensures r.Success? <==> forall i :: 0 <= i < |SectorComponents| ==> SectorComponents[i] in e.components
    ensures r.Success? ==> r.value == e
    ensures r.Failure? ==> r.error == MissingComponentError(e.id)
  {
    RequireComponents(e, SectorComponents)
  }

  /** Fresh sector statistics: no resource samples for each mineable
      commodity and no price samples for any commodity. */
  function NewSectorStats(): (c: Component)
    ensures c.SectorStats?
    ensures forall m :: m in c.availableResources <==> IsMineable(m)
    ensures forall m :: m in c.availableResources ==> c.availableResources[m] == []
    ensures Total(c.prices) && forall m :: c.prices[m] == PriceStats([], [])
  {
    SectorStats(map m | m in Mineable :: [], PerCommodity(_ => PriceStats([], [])))
  }

  /** The components `createSector` adds, in order. */
  function SectorBase(hex: (real, real, real), name: string): seq<Component> {
    [HecsPosition(hex), Name(name, None), NewSectorStats(), RenderGraphics("sector", None)]
  }

  /** The bag the sector components make. */
  function SectorBag(hex: (real, real, real), name: string): (m: map<K.ComponentKind, Component>)
    ensures forall i :: 0 <= i < |SectorComponents| ==> SectorComponents[i] in m
    ensures K.Name in m && K.HecsPosition in m && K.SectorStats in m
    ensures m[K.Name] == Name(name, None) && m[K.HecsPosition] == HecsPosition(hex)
    ensures m[K.SectorStats] == NewSectorStats()
  {
    var a, b, c, d := HecsPosition(hex), Name(name, None), NewSectorStats(), RenderGraphics("sector", None);
    var m0: map<K.ComponentKind, Component> := map[];
    assert SectorBase(hex, name) == [a] + ([b] + ([c] + ([d] + [])));
    ApplyCons(m0, a, [b] + ([c] + ([d] + [])));
    ApplyCons(m0[K.HecsPosition := a], b, [c] + ([d] + []));
    ApplyCons(m0[K.HecsPosition := a][K.Name := b], c, [d] + []);
    ApplyCons(m0[K.HecsPosition := a][K.Name := b][K.SectorStats := c], d, []);
    Apply(map[], SectorBase(hex, name))
  }

  /** `createSector(sim, {position, name})`: a new entity with the hex
      position, the name, fresh statistics and the sector graphics, tagged
      `sector` and `selection`; every other entity is left as it was. */
  function CreateSector(s: CS.Sim, hex: (real, real, real), name: string): (r: (CS.Sim, Entity))
    ensures r.1.id == s.entityIdCounter && r.1.id in r.0.entities && r.0.entities[r.1.id] == r.1
    ensures r.0.entityIdCounter == s.entityIdCounter + 1
    ensures r.1.tags == {"sector", "selection"}
    ensures r.1.components == SectorBag(hex, name)
    ensures forall o :: o in s.entities && o != r.1.id ==> o in r.0.entities && r.0.entities[o] == s.entities[o]
  {
    NewTaggedEntity(s, SectorBase(hex, name), "sector", "selection")
  }

  /** Register a new entity, add the components `cs` in order, then give
      it two tags. */
  function NewTaggedEntity(s: CS.Sim, cs: seq<Component>, first: string, second: string): (r: (CS.Sim, Entity))
    ensures r.1.id == s.entityIdCounter && r.1.id in r.0.entities && r.0.entities[r.1.id] == r.1
    ensures r.0.entityIdCounter == s.entityIdCounter + 1
    ensures r.1.tags == {first, second}
    ensures r.1.components == Apply(map[], cs)
    ensures forall o :: o in s.entities && o != r.1.id ==> o in r.0.entities && r.0.entities[o] == s.entities[o]
  {
    var (s1, e) := CS.NewEntity(s);
    var s2 := CS.AddComponentsTo(s1, e.id, cs).value;
    var s3 := Tagged(s2, e.id, first, second);
    (s3, s3.entities[e.id])
  }

  /** A created sector passes `sector(entity)`. */
  lemma NewSectorIsSector(s: CS.Sim, hex: (real, real, real), name: string)
    ensures AsSector(CreateSector(s, hex, name).1) == Success(CreateSector(s, hex, name).1)
  {
  }

  /** A facility placed in a new sector without an owner is created, and is
      named after the sector. */
  lemma FacilityInNewSector(s: CS.Sim, hex: (real, real, real), name: string, position: Coord)
    ensures var (s', sec) := CreateSector(s, hex, name);
      var r := CreateFacility(s', FacilityInput(position, None, sec.id));
      r.Success? && K.Name in r.value.1.components && r.value.1.components[K.Name] == Name(name + " Facility", None)
  {
    var (s', sec) := CreateSector(s, hex, name);
    var input := FacilityInput(position, None, sec.id);
    assert SectorUsable(s', sec.id);
    CreatedFacility(s', input);
  }
}
