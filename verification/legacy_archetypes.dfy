/** Entity templates of the older engine: factions
    (src/archetypes/faction.ts) and facility modules with their recipe table
    (src/archetypes/facilityModule.ts). The component classes they construct
    (`Parent`, `Name`, `Production`, `StorageBonus`, `Teleport`) are not part
    of this model: `new Production(time, pac)` is taken to fill the
    commodities the partial recipe leaves out with zero, and `new Teleport()`
    to start with no destination. */
module LegacyArchetypes {
  import opened Wrappers
  import opened Commodities
  import opened Components
  import opened Entities
  import LS = LegacySim
  import K = Kinds

  /** The components that make an entity a faction. */
  const FactionComponents: seq<K.ComponentKind> := [K.Color, K.Budget, K.Name]

  /** `faction(entity)`: the entity narrowed to a faction, or
      `MissingComponentError`. */
  function AsFaction(e: Entity): (r: Result<Entity>)
    ensures r.Success? <==> (K.Color in e.components && K.Budget in e.components && K.Name in e.components)
    ensures r.Success? ==> r.value == e
    ensures r.Failure? ==> r.error == MissingComponentError(e.id)
  {
    var r := RequireComponents(e, FactionComponents);
    assert FactionComponents[0] == K.Color && FactionComponents[1] == K.Budget && FactionComponents[2] == K.Name;
    r
  }

  /** The colour of the faction created while the module counter is `n`:
      rgb(151, 255, 125) with its hue rotated by `n * 360 / 8` degrees. */
  function FactionColor(n: nat): ColorValue {
    RotatedRgb(151, 255, 125, (n * 360) as real / 8.0)
  }

  /** `createFaction(name, sim)`, with the module-level `factionCounter`
      passed in and returned: a new entity with the rotated colour, a fresh
      budget and the given name, in that order; the counter grows by one. */
  function CreateFaction(name: string, s: LS.Sim, counter: nat): (r: (LS.Sim, Entity, nat))
    ensures r.2 == counter + 1
    ensures r.1.id == s.entityIdCounter && r.0.entityIdCounter == s.entityIdCounter + 1
    ensures |r.0.entities| == |s.entities| + 1 && r.0.entities[|s.entities|] == r.1
    ensures r.0.entities[..|s.entities|] == s.entities
    ensures AsFaction(r.1) == Success(r.1)
    ensures r.1.components[K.Color] == Color(FactionColor(counter))
    ensures r.1.components[K.Budget] == NewBudget
    ensures r.1.components[K.Name] == Name(name, None)
    ensures r.1.components.Keys == {K.Color, K.Budget, K.Name}
    ensures r.0.events == s.events + [LS.ComponentAdded(r.1.id, K.Color),
      LS.ComponentAdded(r.1.id, K.Budget), LS.ComponentAdded(r.1.id, K.Name)]
  {
    var (s1, e) := LS.NewEntity(s);
    var i := |s.entities|;
    var s2 := LS.AddComponentTo(s1, i, Color(FactionColor(counter)));
    var s3 := LS.AddComponentTo(s2, i, NewBudget);
    var s4 := LS.AddComponentTo(s3, i, Name(name, None));
    assert s4.entities[..i] == s.entities by {
      assert forall j :: 0 <= j < i ==> s4.entities[j] == s.entities[j];
    }
    (s4, s4.entities[i], counter + 1)
  }

  /** Factions created one after the other receive consecutive ids and
      colours a 45-degree turn apart. */
  lemma ConsecutiveFactions(a: string, b: string, s: LS.Sim, counter: nat)
    ensures var (s1, f1, c1) := CreateFaction(a, s, counter);
      var (s2, f2, c2) := CreateFaction(b, s1, c1);
      && f2.id == f1.id + 1 && c2 == counter + 2
      && f2.components[K.Color].color.degrees == f1.components[K.Color].color.degrees + 45.0
  {
  }

  /** What a module template is built from; the source's optional fields
      are `None` when absent. */
  datatype ModuleInput = ModuleInput(
    name: string,
    pac: Option<map<Commodity, Pac>>,
    storage: Option<int>,
    time: Option<real>)

  /** JavaScript truthiness of an optional number: present and non-zero. */
  predicate TruthyReal(x: Option<real>) {
    x.Some? && x.value != 0.0
  }

  predicate TruthyInt(x: Option<int>) {
    x.Some? && x.value != 0
  }

  /** The full recipe a partial one stands for: every commodity it leaves
      out neither consumed nor produced. */
  function FullPac(partial: map<Commodity, Pac>): (r: map<Commodity, Pac>)
    ensures Total(r)
    ensures forall c :: r[c] == (if c in partial then partial[c] else ZeroPac)
  {
    PerCommodity(c => if c in partial then partial[c] else ZeroPac)
  }

  /** The bag a new module's components make: parent and name always,
      production exactly when both `pac` and `time` are truthy, and a storage
      bonus exactly when `storage` is truthy. */
  function ModuleBag(input: ModuleInput, parentId: int): (m: map<K.ComponentKind, Component>)
    ensures K.Parent in m && m[K.Parent] == Parent(parentId)
    ensures K.Name in m && m[K.Name] == Name(input.name, None)
    ensures K.Production in m <==> input.pac.Some? && TruthyReal(input.time)
    ensures K.Production in m ==> m[K.Production] == Production(Recipe(input.time.value, FullPac(input.pac.value)))
    ensures K.StorageBonus in m <==> TruthyInt(input.storage)
    ensures K.StorageBonus in m ==> m[K.StorageBonus] == StorageBonus(input.storage.value)
    ensures m.Keys <= {K.Parent, K.Name, K.Production, K.StorageBonus}
  {
    WithOptional(map[K.Parent := Parent(parentId), K.Name := Name(input.name, None)], input)
  }

  /** A bag with the optional module components added. */
  function WithOptional(m: map<K.ComponentKind, Component>, input: ModuleInput): map<K.ComponentKind, Component> {
    var producing :=
      if input.pac.Some? && TruthyReal(input.time)
      then m[K.Production := Production(Recipe(input.time.value, FullPac(input.pac.value)))]
      else m;
    if TruthyInt(input.storage) then producing[K.StorageBonus := StorageBonus(input.storage.value)] else producing
  }

  /** The optional stage of `createFacilityModule` on entity `i`. */
  function AddOptional(s: LS.Sim, i: nat, input: ModuleInput): (r: LS.Sim)
    requires i < |s.entities|
    ensures r.entities == s.entities[i := s.entities[i].(components := WithOptional(s.entities[i].components, input))]
    ensures r.entityIdCounter == s.entityIdCounter && r.systems == s.systems && r.factions == s.factions
  {
    var s1 := if input.pac.Some? && TruthyReal(input.time)
      then LS.AddComponentTo(s, i, Production(Recipe(input.time.value, FullPac(input.pac.value))))
      else s;
    if TruthyInt(input.storage) then LS.AddComponentTo(s1, i, StorageBonus(input.storage.value)) else s1
  }

  /** `createFacilityModule(sim, input)` with `input.parent` given by id: a
      new entity, then `parent` and `name`, then `production` when both `pac`
      and `time` are truthy, then `storageBonus` when `storage` is truthy. */
  function CreateFacilityModule(s: LS.Sim, input: ModuleInput, parentId: int): (r: (LS.Sim, Entity))
    ensures r.1.id == s.entityIdCounter && r.0.entityIdCounter == s.entityIdCounter + 1
    ensures |r.0.entities| == |s.entities| + 1 && r.0.entities[|s.entities|] == r.1
    ensures r.0.entities[..|s.entities|] == s.entities
    ensures r.1.components == ModuleBag(input, parentId)
    ensures r.0.systems == s.systems && r.0.factions == s.factions
  {
    var i := |s.entities|;
    var (s1, e) := LS.NewEntity(s);
    var s2 := LS.AddComponentTo(s1, i, Parent(parentId));
    var s3 := LS.AddComponentTo(s2, i, Name(input.name, None));
    var s5 := AddOptional(s3, i, input);
    assert s3.entities[i].components == map[K.Parent := Parent(parentId), K.Name := Name(input.name, None)];
    assert s5.entities[..i] == s.entities by {
      assert s5.entities[..i] == s3.entities[..i] == s1.entities[..i];
    }
    (s5, s5.entities[i])
  }

  /** A module template: `createFacilityModuleTemplate(input)`, or the
      hand-written teleport constructor. */
  datatype Template = FromInput(input: ModuleInput) | TeleportTemplate

  /** `template(sim, parent)`. A template made from an input creates the
      module `createFacilityModule` creates from that input and the parent;
      the teleport template adds `parent`, the name "Hyperspace Generator"
      and `teleport`, and nothing else. */
  function Instantiate(t: Template, s: LS.Sim, parentId: int): (r: (LS.Sim, Entity))
    ensures r.1.id == s.entityIdCounter && r.0.entityIdCounter == s.entityIdCounter + 1
    ensures |r.0.entities| == |s.entities| + 1 && r.0.entities[|s.entities|] == r.1
    ensures r.0.entities[..|s.entities|] == s.entities
    ensures K.Parent in r.1.components && r.1.components[K.Parent] == Parent(parentId)
    ensures K.Name in r.1.components
    ensures t.FromInput? ==> r.1.components == ModuleBag(t.input, parentId)
    ensures t.TeleportTemplate? ==> r.1.components == map[K.Parent := Parent(parentId),
      K.Name := Name("Hyperspace Generator", None), K.Teleport := Teleport(None)]
  {
    match t
    case FromInput(input) => CreateFacilityModule(s, input, parentId)
    case TeleportTemplate =>
      var i := |s.entities|;
      var (s1, e) := LS.NewEntity(s);
      var s2 := LS.AddComponentTo(s1, i, Parent(parentId));
      var s3 := LS.AddComponentTo(s2, i, Name("Hyperspace Generator", None));
      var s4 := LS.AddComponentTo(s3, i, Teleport(None));
      assert s4.entities[..i] == s.entities by {
        assert s4.entities[..i] == s3.entities[..i] == s2.entities[..i] == s1.entities[..i];
      }
      (s4, s4.entities[i])
  }

  /** A recipe with fixed time and no storage. */
  function RecipeInput(name: string, pac: map<Commodity, Pac>, time: real): ModuleInput {
    ModuleInput(name, Some(pac), None, Some(time))
  }

  const WaterModule: ModuleInput :=
    RecipeInput("Water Production", map[Ice := Pac(20.0, 0.0), Water := Pac(0.0, 10.0)], 15.0)
  const FarmModule: ModuleInput :=
    RecipeInput("Farm", map[Food := Pac(0.0, 15.0), Fuel := Pac(1.0, 0.0), Water := Pac(30.0, 0.0)], 15.0)
  const RefineryModule: ModuleInput :=
    RecipeInput("Refinery", map[Food := Pac(2.0, 0.0), Ore := Pac(20.0, 0.0), Metals := Pac(0.0, 15.0),
      Fuel := Pac(2.0, 0.0)], 15.0)
  const FuelFabricationModule: ModuleInput :=
    RecipeInput("Fuel Fabrication", map[Fuelium := Pac(20.0, 0.0), Fuel := Pac(0.0, 10.0)], 15.0)
  const HabitatModule: ModuleInput :=
    RecipeInput("Habitation Zone", map[Food := Pac(5.0, 0.0)], 15.0)
  const HullPlatesModule: ModuleInput :=
    RecipeInput("Hull Plates Production", map[Food := Pac(2.0, 0.0), Fuel := Pac(7.0, 0.0),
      Metals := Pac(25.0, 0.0), HullPlates := Pac(0.0, 70.0)], 55.0)
  const ShipyardModule: ModuleInput :=
    RecipeInput("Shipyard", map[Electronics := Pac(590.0, 0.0), Food := Pac(10.0, 0.0), Fuel := Pac(15.0, 0.0),
      HullPlates := Pac(400.0, 0.0)], 60.0)
  /** The gold refinery as the table writes it: gold is consumed, and
      nothing is produced. */
  const GoldModuleAsWritten: ModuleInput :=
    RecipeInput("Gold Refinery", map[GoldOre := Pac(300.0, 0.0), Food := Pac(35.0, 0.0), Fuel := Pac(90.0, 0.0),
      Gold := Pac(400.0, 0.0)], 230.0)
  /** The gold refinery with its gold line read as output. */
  const GoldModule: ModuleInput :=
    RecipeInput("Gold Refinery", map[GoldOre := Pac(300.0, 0.0), Food := Pac(35.0, 0.0), Fuel := Pac(90.0, 0.0),
      Gold := Pac(0.0, 400.0)], 230.0)
  const SiliconModule: ModuleInput :=
    RecipeInput("Silicon Purification", map[Food := Pac(5.0, 0.0), Silica := Pac(20.0, 0.0),
      Silicon := Pac(0.0, 35.0), Fuel := Pac(3.0, 0.0)], 20.0)
  const ElectronicsModule: ModuleInput :=
    RecipeInput("Electronics Production", map[Food := Pac(15.0, 0.0), Silicon := Pac(10.0, 0.0),
      Gold := Pac(8.0, 0.0), Electronics := Pac(0.0, 40.0), Fuel := Pac(5.0, 0.0)], 120.0)
  const ContainerSmallModule: ModuleInput := ModuleInput("Small Container", None, Some(4000), None)

  /** `facilityModules`, in declaration order, with the given gold refinery. */
  function Table(gold: ModuleInput): seq<(string, Template)> {
    [ ("water", FromInput(WaterModule)),
      ("farm", FromInput(FarmModule)),
      ("refinery", FromInput(RefineryModule)),
      ("fuelFabrication", FromInput(FuelFabricationModule)),
      ("habitat", FromInput(HabitatModule)),
      ("hullPlates", FromInput(HullPlatesModule)),
      ("shipyard", FromInput(ShipyardModule)),
      ("gold", FromInput(gold)),
      ("silicon", FromInput(SiliconModule)),
      ("electronics", FromInput(ElectronicsModule)),
      ("containerSmall", FromInput(ContainerSmallModule)),
      ("teleport", TeleportTemplate) ]
  }

  const FacilityModulesAsWritten: seq<(string, Template)> := Table(GoldModuleAsWritten)
  const FacilityModules: seq<(string, Template)> := Table(GoldModule)

  predicate Consumes(input: ModuleInput, c: Commodity) {
    input.pac.Some? && c in input.pac.value && input.pac.value[c].consumes > 0.0
  }

  predicate Produces(input: ModuleInput, c: Commodity) {
    input.pac.Some? && c in input.pac.value && input.pac.value[c].produces > 0.0
  }

  /** Some source of `c` exists: it is mined, or some template produces it. */
  predicate Supplied(table: seq<(string, Template)>, c: Commodity) {
    IsMineable(c) || exists i :: 0 <= i < |table| && table[i].1.FromInput? && Produces(table[i].1.input, c)
  }

  /** Every commodity some template consumes has a source. */
  predicate SupplyClosed(table: seq<(string, Template)>) {
    forall i, c :: 0 <= i < |table| && table[i].1.FromInput? && Consumes(table[i].1.input, c) ==> Supplied(table, c)
  }

  /** As written, electronics production consumes gold, gold is not mined,
      and no template produces it. */
  lemma GoldUnsuppliedAsWritten()
    ensures FacilityModulesAsWritten[9].1 == FromInput(ElectronicsModule) && Consumes(ElectronicsModule, Gold)
    ensures !Supplied(FacilityModulesAsWritten, Gold)
    ensures !SupplyClosed(FacilityModulesAsWritten)
  {
    var t := FacilityModulesAsWritten;
    forall i | 0 <= i < |t| && t[i].1.FromInput? ensures !Produces(t[i].1.input, Gold) {
      assert i in {0, 1, 2, 3, 4, 5, 6, 7, 8, 9, 10};
    }
    assert Gold !in Mineable;
  }

  /** In the corrected table every commodity has a source, so every input a
      template needs can be obtained. */
  lemma EveryCommoditySupplied(c: Commodity)
    ensures Supplied(FacilityModules, c)
  {
    var t := FacilityModules;
    match c
    case Electronics => assert Produces(t[9].1.input, c);
    case Food => assert Produces(t[1].1.input, c);
    case Fuel => assert Produces(t[3].1.input, c);
    case Gold => assert Produces(t[7].1.input, c);
    case HullPlates => assert Produces(t[5].1.input, c);
    case Metals => assert Produces(t[2].1.input, c);
    case Silicon => assert Produces(t[8].1.input, c);
    case Water => assert Produces(t[0].1.input, c);
    case _ => assert c in Mineable;
  }

  lemma CorrectedTableSupplyClosed()
    ensures SupplyClosed(FacilityModules)
  {
    forall i, c | 0 <= i < |FacilityModules| && FacilityModules[i].1.FromInput? && Consumes(FacilityModules[i].1.input, c)
      ensures Supplied(FacilityModules, c)
    {
      EveryCommoditySupplied(c);
    }
  }

  /** The water module consumes 20 ice and produces 10 water every 15 time
      units, and touches no other commodity. */
  lemma WaterModuleRecipe(parentId: int)
    ensures FacilityModules[0].1 == FromInput(WaterModule)
    ensures var m := ModuleBag(WaterModule, parentId);
      && K.Production in m && K.StorageBonus !in m
      && m[K.Production] == Production(Recipe(15.0, FullPac(WaterModule.pac.value)))
  {
  }

  lemma WaterRecipePac()
    ensures var pac := FullPac(WaterModule.pac.value);
      && pac[Ice] == Pac(20.0, 0.0) && pac[Water] == Pac(0.0, 10.0)
      && (forall c :: c != Ice && c != Water ==> pac[c] == ZeroPac)
  {
  }

  /** The small container yields a storage bonus of 4000 and no production. */
  lemma ContainerSmallBonus(parentId: int)
    ensures FacilityModules[10].1 == FromInput(ContainerSmallModule)
    ensures var m := ModuleBag(ContainerSmallModule, parentId);
      K.StorageBonus in m && m[K.StorageBonus] == StorageBonus(4000) && K.Production !in m
  {
  }
}
