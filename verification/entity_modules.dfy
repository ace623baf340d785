/** Attaching a facility module to a facility in the older engine
    (src/utils/entityModules.ts). `addEntity` (src/components/utils/entityId.ts)
    is not part of this model: it is taken to append the module's id to the
    facility's `modules` list. A thrown `TypeError` (a component the code
    reads is missing) is reported as a failure with no change; the source
    would keep the writes made before the throw. */
module EntityModules {
  import opened Wrappers
  import opened Commodities
  import opened Components
  import opened Entities
  import CD = Cooldowns
  import K = Kinds

  /** The facility's compound recipe, when it has a complete one. */
  predicate HasCompound(e: Entity) {
    K.CompoundProduction in e.components && e.components[K.CompoundProduction].CompoundProduction?
    && Complete(e.components[K.CompoundProduction].pac)
  }

  /** The module's recipe, when it has a complete one. */
  predicate HasRecipe(e: Entity) {
    K.Production in e.components && e.components[K.Production].Production?
    && Complete(e.components[K.Production].recipe.pac)
  }

  predicate HasModules(e: Entity) {
    K.Modules in e.components && e.components[K.Modules].Modules?
  }

  predicate HasStorage(e: Entity) {
    K.Storage in e.components && e.components[K.Storage].Storage?
  }

  /** Two recipes added line by line. */
  function AddPacs(a: map<Commodity, Pac>, b: map<Commodity, Pac>): (r: map<Commodity, Pac>)
    requires Total(a) && Total(b)
    ensures Total(r)
    ensures forall c :: r[c] == Pac(a[c].consumes + b[c].consumes, a[c].produces + b[c].produces)
  {
    map c: Commodity | c in a :: Pac(a[c].consumes + b[c].consumes, a[c].produces + b[c].produces)
  }

  /** `addFacilityModule(facility, module)`: the module's id is appended to
      the facility's modules; a module with `production` gets a `production`
      cooldown and adds its recipe to the facility's compound production,
      commodity by commodity; a module with `storageBonus` raises the
      facility's storage capacity by the bonus. */
  function AddFacilityModule(facility: Entity, mdl: Entity): (r: Result<(Entity, Entity)>)
    ensures r.Success? <==>
      (&& HasModules(facility)
       && (K.Production in mdl.components ==> HasRecipe(mdl) && HasCompound(facility))
       && (K.StorageBonus in mdl.components ==>
             mdl.components[K.StorageBonus].StorageBonus? && HasStorage(facility)))
    ensures r.Failure? ==> r.error == TypeError
    ensures r.Success? ==>
      var (f, m) := r.value;
      && f.id == facility.id && f.tags == facility.tags && m.components == mdl.components
      && HasModules(f)
      && f.components[K.Modules].ids == facility.components[K.Modules].ids + [mdl.id]
      && (K.Production in mdl.components ==>
            && HasCompound(f)
            && Total(facility.components[K.CompoundProduction].pac)
            && Total(mdl.components[K.Production].recipe.pac)
            && Total(f.components[K.CompoundProduction].pac)
            && (forall c :: f.components[K.CompoundProduction].pac[c] == Pac(
                  facility.components[K.CompoundProduction].pac[c].consumes
                    + mdl.components[K.Production].recipe.pac[c].consumes,
                  facility.components[K.CompoundProduction].pac[c].produces
                    + mdl.components[K.Production].recipe.pac[c].produces))
            && CD.CanUse(m.cooldowns, "production") && "production" in m.cooldowns.timers)
      && (K.Production !in mdl.components ==>
            m == mdl
            && (K.CompoundProduction in facility.components <==> K.CompoundProduction in f.components)
            && (K.CompoundProduction in facility.components ==>
                  f.components[K.CompoundProduction] == facility.components[K.CompoundProduction]))
      && (K.StorageBonus in mdl.components ==>
            HasStorage(f)
            && f.components[K.Storage].storage == facility.components[K.Storage].storage.(
                 max := facility.components[K.Storage].storage.max + mdl.components[K.StorageBonus].bonus))
      && (K.StorageBonus !in mdl.components ==>
            (K.Storage in facility.components <==> K.Storage in f.components)
            && (K.Storage in facility.components ==> f.components[K.Storage] == facility.components[K.Storage]))
  {
    if !HasModules(facility) then Failure(TypeError)
    else
      var withModule := facility.components[K.Modules := Modules(facility.components[K.Modules].ids + [mdl.id])];
      var produced :-
        if K.Production in mdl.components then
          if HasRecipe(mdl) && HasCompound(facility) then
            CompleteIsTotal(facility.components[K.CompoundProduction].pac);
            CompleteIsTotal(mdl.components[K.Production].recipe.pac);
            var pac := AddPacs(facility.components[K.CompoundProduction].pac,
                               mdl.components[K.Production].recipe.pac);
            Success((withModule[K.CompoundProduction := CompoundProduction(pac)],
                     mdl.(cooldowns := CD.Add(mdl.cooldowns, "production"))))
          else Failure(TypeError)
        else Success((withModule, mdl));
      var (cs, m) := produced;
      if K.StorageBonus in mdl.components then
        if mdl.components[K.StorageBonus].StorageBonus? && HasStorage(facility) then
          var st := facility.components[K.Storage].storage;
          var bonus := mdl.components[K.StorageBonus].bonus;
          Success((facility.(components := cs[K.Storage := Storage(st.(max := st.max + bonus))]), m))
        else Failure(TypeError)
      else Success((facility.(components := cs), m))
  }

  /** `addFacilityModule` for each of `mdls` in turn; the facility that
      results. */
  function AddModules(facility: Entity, mdls: seq<Entity>): Result<Entity>
    decreases |mdls|
  {
    if |mdls| == 0 then Success(facility)
    else
      var (f, _) :- AddFacilityModule(facility, mdls[0]);
      AddModules(f, mdls[1..])
  }

  /** What a module's recipe produces and consumes of `c`; nothing for a
      module without one. */
  function RecipeOf(m: Entity, c: Commodity): Pac {
    if K.Production in m.components && m.components[K.Production].Production?
       && c in m.components[K.Production].recipe.pac
    then m.components[K.Production].recipe.pac[c]
    else ZeroPac
  }

  /** A module's storage bonus; none for a module without one. */
  function BonusOf(m: Entity): int {
    if K.StorageBonus in m.components && m.components[K.StorageBonus].StorageBonus?
    then m.components[K.StorageBonus].bonus else 0
  }

  /** What the modules of `mdls` produce and consume of `c`, in total. */
  function RecipeTotal(mdls: seq<Entity>, c: Commodity): Pac
    decreases |mdls|
  {
    if |mdls| == 0 then ZeroPac else Plus(RecipeOf(mdls[0], c), RecipeTotal(mdls[1..], c))
  }

  /** The storage bonuses of `mdls`, in total. */
  function BonusTotal(mdls: seq<Entity>): int
    decreases |mdls|
  {
    if |mdls| == 0 then 0 else BonusOf(mdls[0]) + BonusTotal(mdls[1..])
  }

  function Ids(mdls: seq<Entity>): (r: seq<int>)
    ensures |r| == |mdls| && forall i :: 0 <= i < |mdls| ==> r[i] == mdls[i].id
  {
    seq(|mdls|, i requires 0 <= i < |mdls| => mdls[i].id)
  }

  function ModuleIds(e: Entity): seq<int>
    requires HasModules(e)
  {
    e.components[K.Modules].ids
  }

  function Line(e: Entity, c: Commodity): Pac
    requires HasCompound(e)
  {
    CompleteIsTotal(e.components[K.CompoundProduction].pac);
    e.components[K.CompoundProduction].pac[c]
  }

  function Capacity(e: Entity): int
    requires HasStorage(e)
  {
    e.components[K.Storage].storage.max
  }

  function Plus(a: Pac, b: Pac): Pac {
    Pac(a.consumes + b.consumes, a.produces + b.produces)
  }

  lemma PlusAssoc(a: Pac, b: Pac, c: Pac)
    ensures Plus(Plus(a, b), c) == Plus(a, Plus(b, c))
  {
  }

  /** One attachment keeps the facility's modules, compound production
      and storage in place. */
  lemma StepShape(facility: Entity, mdl: Entity)
    requires AddFacilityModule(facility, mdl).Success?
    requires HasCompound(facility) && HasStorage(facility)
    ensures var f := AddFacilityModule(facility, mdl).value.0;
      HasModules(facility) && HasModules(f) && HasCompound(f) && HasStorage(f)
  {
    if K.Production in mdl.components {
      CompleteIsTotal(facility.components[K.CompoundProduction].pac);
      CompleteIsTotal(mdl.components[K.Production].recipe.pac);
      CompleteIsTotal(AddFacilityModule(facility, mdl).value.0.components[K.CompoundProduction].pac);
    }
  }

  lemma StepLine(facility: Entity, mdl: Entity, c: Commodity)
    requires AddFacilityModule(facility, mdl).Success?
    requires HasCompound(facility) && HasStorage(facility)
    ensures var f := AddFacilityModule(facility, mdl).value.0;
      HasCompound(f) && Line(f, c) == Plus(Line(facility, c), RecipeOf(mdl, c))
  {
    StepShape(facility, mdl);
    if K.Production in mdl.components {
      StepLineProduced(facility, mdl, c);
    } else {
      StepLineUnproduced(facility, mdl, c);
    }
  }

  lemma StepLineProduced(facility: Entity, mdl: Entity, c: Commodity)
    requires AddFacilityModule(facility, mdl).Success?
    requires HasCompound(facility) && K.Production in mdl.components
    ensures var f := AddFacilityModule(facility, mdl).value.0;
      HasCompound(f) && Line(f, c) == Plus(Line(facility, c), RecipeOf(mdl, c))
  {
    var f := AddFacilityModule(facility, mdl).value.0;
    CompleteIsTotal(f.components[K.CompoundProduction].pac);
  }

  lemma StepLineUnproduced(facility: Entity, mdl: Entity, c: Commodity)
    requires AddFacilityModule(facility, mdl).Success?
    requires HasCompound(facility) && K.Production !in mdl.components
    ensures var f := AddFacilityModule(facility, mdl).value.0;
      HasCompound(f) && Line(f, c) == Plus(Line(facility, c), RecipeOf(mdl, c))
  {
  }

  lemma StepIds(facility: Entity, mdl: Entity)
    requires AddFacilityModule(facility, mdl).Success?
    requires HasCompound(facility) && HasStorage(facility)
    ensures var f := AddFacilityModule(facility, mdl).value.0;
      HasModules(facility) && HasModules(f) && ModuleIds(f) == ModuleIds(facility) + [mdl.id]
  {
    StepShape(facility, mdl);
  }

  lemma StepCapacity(facility: Entity, mdl: Entity)
    requires AddFacilityModule(facility, mdl).Success?
    requires HasCompound(facility) && HasStorage(facility)
    ensures var f := AddFacilityModule(facility, mdl).value.0;
      HasStorage(f) && Capacity(f) == Capacity(facility) + BonusOf(mdl)
  {
    StepShape(facility, mdl);
  }

  /** The first attachment of a successful fold, and the fold that
      continues from it. */
  lemma AddModulesCons(facility: Entity, mdls: seq<Entity>)
    requires |mdls| > 0 && AddModules(facility, mdls).Success?
    ensures AddFacilityModule(facility, mdls[0]).Success?
    ensures AddModules(facility, mdls) == AddModules(AddFacilityModule(facility, mdls[0]).value.0, mdls[1..])
  {
  }

  /** Attaching modules one after the other keeps the facility's modules,
      compound production and storage in place, and lists the modules' ids
      after the former ones, in order. */
  lemma {:induction false} ModulesListed(facility: Entity, mdls: seq<Entity>)
    requires AddModules(facility, mdls).Success?
    requires HasModules(facility) && HasCompound(facility) && HasStorage(facility)
    ensures var f := AddModules(facility, mdls).value;
      && HasModules(f) && HasCompound(f) && HasStorage(f)
      && ModuleIds(f) == ModuleIds(facility) + Ids(mdls)
    decreases |mdls|
  {
    if |mdls| == 0 {
      assert ModuleIds(facility) + Ids(mdls) == ModuleIds(facility);
    } else {
      var f1 := AddFacilityModule(facility, mdls[0]).value.0;
      var f := AddModules(facility, mdls).value;
      assert f == AddModules(f1, mdls[1..]).value by {
        AddModulesCons(facility, mdls);
      }
      assert HasModules(f1) && HasCompound(f1) && HasStorage(f1) && ModuleIds(f1) == ModuleIds(facility) + [mdls[0].id] by {
        StepShape(facility, mdls[0]);
        StepIds(facility, mdls[0]);
      }
      ModulesListed(f1, mdls[1..]);
      IdsCons(ModuleIds(facility), mdls);
    }
  }

  /** Listing the first module's id after `before`, then the others' ids,
      is listing all of their ids after `before`. */
  lemma IdsCons(before: seq<int>, mdls: seq<Entity>)
    requires |mdls| > 0
    ensures (before + [mdls[0].id]) + Ids(mdls[1..]) == before + Ids(mdls)
  {
    assert Ids(mdls) == [mdls[0].id] + Ids(mdls[1..]);
  }

  /** The compound production after attaching modules is the former one
      plus the sum of the module recipes. */
  lemma {:induction false} RecipesAccumulate(facility: Entity, mdls: seq<Entity>, c: Commodity)
    requires AddModules(facility, mdls).Success?
    requires HasModules(facility) && HasCompound(facility) && HasStorage(facility)
    ensures var f := AddModules(facility, mdls).value;
      HasCompound(f) && Line(f, c) == Plus(Line(facility, c), RecipeTotal(mdls, c))
    decreases |mdls|
  {
    if |mdls| > 0 {
      var f1 := AddFacilityModule(facility, mdls[0]).value.0;
      assert AddModules(facility, mdls) == AddModules(f1, mdls[1..]) by {
        AddModulesCons(facility, mdls);
      }
      assert HasModules(f1) && HasCompound(f1) && HasStorage(f1)
        && Line(f1, c) == Plus(Line(facility, c), RecipeOf(mdls[0], c)) by {
        StepShape(facility, mdls[0]);
        StepLine(facility, mdls[0], c);
      }
      RecipesAccumulate(f1, mdls[1..], c);
      PlusAssoc(Line(facility, c), RecipeOf(mdls[0], c), RecipeTotal(mdls[1..], c));
    }
  }

  /** The storage capacity after attaching modules is the former one plus
      the sum of their storage bonuses. */
  lemma {:induction false} BonusesAccumulate(facility: Entity, mdls: seq<Entity>)
    requires AddModules(facility, mdls).Success?
    requires HasModules(facility) && HasCompound(facility) && HasStorage(facility)
    ensures var f := AddModules(facility, mdls).value;
      HasStorage(f) && Capacity(f) == Capacity(facility) + BonusTotal(mdls)
    decreases |mdls|
  {
    if |mdls| > 0 {
      var f1 := AddFacilityModule(facility, mdls[0]).value.0;
      assert AddModules(facility, mdls) == AddModules(f1, mdls[1..]) by {
        AddModulesCons(facility, mdls);
      }
      assert HasModules(f1) && HasCompound(f1) && HasStorage(f1)
        && Capacity(f1) == Capacity(facility) + BonusOf(mdls[0]) by {
        StepShape(facility, mdls[0]);
        StepCapacity(facility, mdls[0]);
      }
      BonusesAccumulate(f1, mdls[1..]);
    }
  }
}
