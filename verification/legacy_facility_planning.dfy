/** The facility planner of the older engine
    (src/systems/facilityPlanning.ts). At the very start of a game it
    founds, for every computer faction, a mining complex per minable
    commodity of each owned sector and, for territorial factions, a habitat
    per owned sector and factories packed with the modules a greedy pass
    picks from the whole module table.

    The planner reads `pac`, `time` and `create` off the entries of the
    `facilityModules` table, but those entries are the closures
    `createFacilityModuleTemplate` returns, which carry no such property.
    The model reads each entry through a view: `EntriesAsWritten` gives
    what the code reads (nothing), `Entries` the recipe the template is
    made from, which is what the planner evidently means to read. As in
    the current planner, sector resources, usage and production totals and
    every random draw are parameters. */
module LegacyFacilityPlanning {
  import opened Wrappers
  import opened JsNum
  import opened Commodities
  import opened Components
  import LA = LegacyArchetypes
  import FP = FacilityPlanning
  import CD = Cooldowns

  /** A table entry as the planner reads it: its key, its `pac` and
      `time` properties (`None` when absent), and whether it has a `create`
      method to call. */
  datatype Entry = Entry(slug: string, pac: Option<map<Commodity, Pac>>, time: Option<real>, create: bool)

  /** The properties of the record a template is made from, with the
      template itself as its `create`; the teleport template has no
      recipe. */
  function EntryOf(e: (string, LA.Template)): Entry {
    match e.1
    case FromInput(input) => Entry(e.0, input.pac, input.time, true)
    case TeleportTemplate => Entry(e.0, None, None, true)
  }

  /** The table read through the templates' records. */
  function Entries(table: seq<(string, LA.Template)>): (r: seq<Entry>)
    ensures |r| == |table| && forall i :: 0 <= i < |table| ==> r[i] == EntryOf(table[i])
  {
    seq(|table|, i requires 0 <= i < |table| => EntryOf(table[i]))
  }

  /** The table as the code reads it: every entry is a closure, whose
      `pac`, `time` and `create` are `undefined`. */
  function EntriesAsWritten(table: seq<(string, LA.Template)>): (r: seq<Entry>)
    ensures |r| == |table| && forall i :: 0 <= i < |table| ==> r[i] == Entry(table[i].0, None, None, false)
  {
    seq(|table|, i requires 0 <= i < |table| => Entry(table[i].0, None, None, false))
  }

  /** `facilityModules[slug].create(...)` can be called: the table has an
      entry under that key, and it has a `create`. */
  predicate CanCreate(es: seq<Entry>, slug: string) {
    exists i :: 0 <= i < |es| && es[i].slug == slug && es[i].create
  }

  /** Read through the records, the small container and the habitat can
      be created; as written, nothing can. */
  lemma CreatableEntries(slug: string)
    ensures CanCreate(Entries(LA.FacilityModules), "containerSmall") && CanCreate(Entries(LA.FacilityModules), "habitat")
    ensures !CanCreate(EntriesAsWritten(LA.FacilityModulesAsWritten), slug)
  {
    var es := Entries(LA.FacilityModules);
    assert es[10].slug == "containerSmall" && es[10].create;
    assert es[4].slug == "habitat" && es[4].create;
  }

  /** An entry with a recipe has a non-zero time. */
  predicate Timed(e: Entry) {
    e.pac.Some? ==> e.time.Some? && e.time.value != 0.0
  }

  predicate AllTimed(es: seq<Entry>) {
    forall i :: 0 <= i < |es| ==> Timed(es[i])
  }

  /** Every entry of the module table, read either way, is timed. */
  lemma TableTimed(table: seq<(string, LA.Template)>)
    requires table == LA.FacilityModules
    ensures AllTimed(Entries(table)) && AllTimed(EntriesAsWritten(table))
  {
    forall i | 0 <= i < |table| ensures Timed(Entries(table)[i]) {
      assert i in {0, 1, 2, 3, 4, 5, 6, 7, 8, 9, 10, 11};
    }
  }

  // ---------------------------------------------------------------------
  // Mining complexes (lines 29-83)
  // ---------------------------------------------------------------------

  /** An entry whose recipe consumes a (truthy) amount of `c`. */
  predicate Mines(e: Entry, c: Commodity) {
    e.pac.Some? && c in e.pac.value && e.pac.value[c].consumes != 0.0
  }

  /** The search of lines 65-67 from position `j` on. */
  function MinerFrom(es: seq<Entry>, c: Commodity, j: nat): (r: Option<nat>)
    requires j <= |es|
    ensures r.Some? ==> j <= r.value < |es| && Mines(es[r.value], c)
    ensures r.Some? ==> forall i :: j <= i < r.value ==> !Mines(es[i], c)
    ensures r.None? ==> forall i :: j <= i < |es| ==> !Mines(es[i], c)
    decreases |es| - j
  {
    if j == |es| then None
    else if Mines(es[j], c) then Some(j)
    else MinerFrom(es, c, j + 1)
  }

  /** The module a mining complex for `c` is built from: the first entry
      of the whole table that consumes `c`. */
  function Miner(es: seq<Entry>, c: Commodity): (r: Option<nat>)
    ensures r.Some? ==> r.value < |es| && Mines(es[r.value], c)
    ensures r.Some? ==> forall i :: 0 <= i < r.value ==> !Mines(es[i], c)
    ensures r.None? ==> forall i :: 0 <= i < |es| ==> !Mines(es[i], c)
  {
    MinerFrom(es, c, 0)
  }

  /** `canBeMined`: the sector holds some of `c` and the faction does not
      mine it there yet. Unlike the current planner, whether a module can
      mine it is not asked. */
  predicate CanBeMined(s: FP.SectorCtx, c: Commodity)
    requires FP.SectorValid(s)
  {
    s.resourceMax[c] > 0.0 && s.usage[c] == 0.0
  }

  /** An absent `time` reads as `undefined`, which arithmetic turns into
      NaN. */
  function TimeNum(t: Option<real>): Num {
    if t.Some? then Fin(t.value) else NaN
  }

  /** The loop bound of lines 70-73: the resource's maximum over ten
      thousand cycles' consumption per unit of recipe time. A zero time
      makes the divisor infinite and the bound 0; an absent one makes it
      NaN. */
  function MiningRatio(max: real, consumes: real, time: Option<real>): (r: Num)
    requires consumes != 0.0
    ensures r.Fin? || r.NaN?
    ensures time.Some? && time.value != 0.0 ==> r == Fin(max / ((10000.0 * consumes) / time.value))
    ensures time.None? ==> r.NaN?
  {
    Div(Fin(max), Div(Fin(10000.0 * consumes), TimeNum(time)))
  }

  /** The iterations of `for (i = 0; i < ratio; i++)` from `i` on; the
      loop has no cap. */
  function CountFrom(ratio: real, i: nat): nat
    decreases if (i as real) < ratio then CeilReal(ratio) - i else 0
  {
    if (i as real) < ratio then 1 + CountFrom(ratio, i + 1) else 0
  }

  /** The iterations for a bound that is a JavaScript number: a NaN bound
      admits none. */
  function Iterations(ratio: Num): nat {
    if ratio.Fin? then CountFrom(ratio.r, 0) else 0
  }

  lemma {:induction false} CountFromStops(ratio: real, i: nat)
    ensures i + CountFrom(ratio, i) == if (i as real) >= ratio then i else CeilReal(ratio)
    decreases if (i as real) < ratio then CeilReal(ratio) - i else 0
  {
    if (i as real) < ratio {
      CountFromStops(ratio, i + 1);
    }
  }

  /** The iteration count in closed form: the bound rounded up, and none
      for a bound that is not positive or not a number. */
  lemma IterationsClosedForm(ratio: Num)
    ensures Iterations(ratio) == if ratio.Fin? && ratio.r > 0.0 then CeilReal(ratio.r) else 0
  {
    if ratio.Fin? {
      CountFromStops(ratio.r, 0);
    }
  }

  /** The complex's module list: a small container before each mining
      module, and nothing else. */
  function MiningModules(p: FP.MiningPlan): (r: seq<string>)
    ensures |r| == 2 * p.pairs
    ensures forall i :: 0 <= i < p.pairs ==> r[2 * i] == "containerSmall" && r[2 * i + 1] == p.extractor
  {
    FP.Paired("containerSmall", seq(p.pairs, _ => p.extractor))
  }

  /** The complex planned for a minable commodity some entry mines. */
  function MiningPlanFor(s: FP.SectorCtx, es: seq<Entry>, c: Commodity): FP.MiningPlan
    requires FP.SectorValid(s) && Miner(es, c).Some?
  {
    var e := es[Miner(es, c).value];
    FP.MiningPlan(s.id, c, e.slug, Iterations(MiningRatio(s.resourceMax[c], e.pac.value[c].consumes, e.time)))
  }

  /** Planning a complex for `c` throws: `c` can be mined and either no
      entry mines it, so that `facilityModule` is undefined and reading its
      `pac` throws, or the loop runs and the small container or the miner
      has no `create` to call. */
  predicate MiningThrows(s: FP.SectorCtx, es: seq<Entry>, c: Commodity)
    requires FP.SectorValid(s)
  {
    CanBeMined(s, c) &&
      (Miner(es, c).None? ||
       (MiningPlanFor(s, es, c).pairs > 0 && !(CanCreate(es, "containerSmall") && es[Miner(es, c).value].create)))
  }

  /** `perCommodity(...)` over the commodities `cs`, in order; the first
      commodity whose complex throws stops the pass. */
  function MiningPlansOver(s: FP.SectorCtx, es: seq<Entry>, cs: seq<Commodity>): (r: Result<seq<FP.MiningPlan>>)
    requires FP.SectorValid(s)
    ensures r.Failure? <==> exists c :: c in cs && MiningThrows(s, es, c)
    ensures r.Failure? ==> r.error == TypeError
  {
    if |cs| == 0 then Success([])
    else if !CanBeMined(s, cs[0]) then
      var r := MiningPlansOver(s, es, cs[1..]);
      assert forall c :: c in cs && c != cs[0] ==> c in cs[1..];
      r
    else if MiningThrows(s, es, cs[0]) then Failure(TypeError)
    else
      var rest := MiningPlansOver(s, es, cs[1..]);
      assert forall c :: c in cs && c != cs[0] ==> c in cs[1..];
      if rest.Failure? then rest else Success([MiningPlanFor(s, es, cs[0])] + rest.value)
  }

  /** `planMiningFacilities(sector, faction)`. */
  function PlanMining(s: FP.SectorCtx, es: seq<Entry>): (r: Result<seq<FP.MiningPlan>>)
    requires FP.SectorValid(s)
    ensures r.Failure? <==> exists c :: MiningThrows(s, es, c)
    ensures r.Failure? ==> r.error == TypeError
  {
    AllListsEveryCommodityOnce();
    MiningPlansOver(s, es, All)
  }

  /** Every complex planned over `cs` is for a commodity of `cs` that can
      be mined, as `MiningPlanFor` describes. */
  lemma {:induction false} MiningPlansOverSound(s: FP.SectorCtx, es: seq<Entry>, cs: seq<Commodity>)
    requires FP.SectorValid(s) && MiningPlansOver(s, es, cs).Success?
    ensures forall p :: p in MiningPlansOver(s, es, cs).value ==>
      p.commodity in cs && CanBeMined(s, p.commodity) && Miner(es, p.commodity).Some? && p == MiningPlanFor(s, es, p.commodity)
  {
    if |cs| > 0 {
      MiningPlansOverSound(s, es, cs[1..]);
    }
  }

  /** Every commodity of `cs` that can be mined gets a complex. */
  lemma {:induction false} MiningPlansOverComplete(s: FP.SectorCtx, es: seq<Entry>, cs: seq<Commodity>, c: Commodity)
    requires FP.SectorValid(s) && MiningPlansOver(s, es, cs).Success?
    requires c in cs && CanBeMined(s, c)
    ensures exists p :: p in MiningPlansOver(s, es, cs).value && p.commodity == c
  {
    if c == cs[0] {
      assert MiningPlansOver(s, es, cs).value[0].commodity == c;
    } else {
      MiningPlansOverComplete(s, es, cs[1..], c);
    }
  }

  /** Over distinct commodities, no commodity gets two complexes. */
  lemma {:induction false} MiningPlansOverDistinct(s: FP.SectorCtx, es: seq<Entry>, cs: seq<Commodity>)
    requires FP.SectorValid(s) && MiningPlansOver(s, es, cs).Success?
    requires forall i, j :: 0 <= i < j < |cs| ==> cs[i] != cs[j]
    ensures FP.Distinct(MiningPlansOver(s, es, cs).value)
  {
    if |cs| > 0 {
      MiningPlansOverDistinct(s, es, cs[1..]);
      if CanBeMined(s, cs[0]) {
        MiningPlansOverSound(s, es, cs[1..]);
        assert cs[0] !in cs[1..] by {
          forall k | 0 <= k < |cs| - 1 ensures cs[1..][k] != cs[0] {
            assert cs[1..][k] == cs[k + 1];
          }
        }
        FP.DistinctCons(MiningPlanFor(s, es, cs[0]), MiningPlansOver(s, es, cs[1..]).value);
      }
    }
  }

  /** When the pass does not throw, each owned sector gets one mining
      complex for every commodity it holds that the faction does not mine
      there yet, and no other complex. */
  lemma MiningComplexPerCommodity(s: FP.SectorCtx, es: seq<Entry>)
    requires FP.SectorValid(s) && PlanMining(s, es).Success?
    ensures var r := PlanMining(s, es).value;
      && (forall p :: p in r ==> p.sectorId == s.id && CanBeMined(s, p.commodity) && Miner(es, p.commodity).Some? && p == MiningPlanFor(s, es, p.commodity))
      && (forall c :: CanBeMined(s, c) <==> exists p :: p in r && p.commodity == c)
      && FP.Distinct(r)
  {
    AllListsEveryCommodityOnce();
    MiningPlansOverSound(s, es, All);
    MiningPlansOverDistinct(s, es, All);
    forall c | CanBeMined(s, c) ensures exists p :: p in PlanMining(s, es).value && p.commodity == c {
      MiningPlansOverComplete(s, es, All, c);
    }
  }

  /** As written, the pass throws for any sector holding a commodity the
      faction does not mine there yet: no entry has a recipe, so no miner
      is found. */
  lemma MiningThrowsAsWritten(s: FP.SectorCtx, c: Commodity)
    requires FP.SectorValid(s) && CanBeMined(s, c)
    ensures PlanMining(s, EntriesAsWritten(LA.FacilityModulesAsWritten)) == Failure(TypeError)
  {
    assert MiningThrows(s, EntriesAsWritten(LA.FacilityModulesAsWritten), c);
  }

  /** The sector holds some commodity the faction does not mine there
      yet. */
  predicate HoldsUnmined(s: FP.SectorCtx)
    requires FP.SectorValid(s)
  {
    exists c :: CanBeMined(s, c)
  }

  /** As written, the pass throws exactly for a sector holding a
      commodity the faction does not mine there yet. */
  lemma MiningAsWritten(s: FP.SectorCtx)
    requires FP.SectorValid(s)
    ensures PlanMining(s, EntriesAsWritten(LA.FacilityModulesAsWritten)).Failure? <==> HoldsUnmined(s)
  {
    var es := EntriesAsWritten(LA.FacilityModulesAsWritten);
    forall c | CanBeMined(s, c) ensures MiningThrows(s, es, c) {
      assert Miner(es, c).None?;
    }
  }

  /** Read through the templates' records, every mineable commodity has a
      miner: water production for ice, the refinery for ore, fuel
      fabrication for fuelium, the gold refinery for gold ore and silicon
      purification for silica. */
  lemma EveryOreHasAMiner(c: Commodity)
    requires IsMineable(c)
    ensures Miner(Entries(LA.FacilityModules), c).Some?
  {
    var es := Entries(LA.FacilityModules);
    assert c in {Fuelium, GoldOre, Ice, Ore, Silica};
    if c == Ice { assert Mines(es[0], c); }
    else if c == Ore { assert Mines(es[2], c); }
    else if c == Fuelium { assert Mines(es[3], c); }
    else if c == GoldOre { assert Mines(es[7], c); }
    else { assert Mines(es[8], c); }
  }

  /** Read through the templates' records, the pass never throws for a
      sector whose resources are all mineable commodities. */
  lemma MiningSucceedsOnOres(s: FP.SectorCtx)
    requires FP.SectorValid(s) && forall c :: s.resourceMax[c] > 0.0 ==> IsMineable(c)
    ensures PlanMining(s, Entries(LA.FacilityModules)).Success?
  {
    var es := Entries(LA.FacilityModules);
    CreatableEntries("habitat");
    forall c | CanBeMined(s, c) ensures !MiningThrows(s, es, c) {
      EveryOreHasAMiner(c);
      assert es[Miner(es, c).value].create;
    }
  }

  // ---------------------------------------------------------------------
  // Habitats (lines 85-116)
  // ---------------------------------------------------------------------

  /** A habitat's modules: a small container and the habitat. */
  const HabitatModules: seq<string> := ["containerSmall", "habitat"]

  /** `planHabitats(faction)`: a habitat in every owned sector, in query
      order. The first sector's facility already calls
      `containerSmall.create` and `habitat.create`, which throws when
      either is missing. */
  function PlanHabitats(sectorIds: seq<int>, es: seq<Entry>): (r: Result<seq<int>>)
    ensures r.Failure? <==> |sectorIds| > 0 && !(CanCreate(es, "containerSmall") && CanCreate(es, "habitat"))
    ensures r.Failure? ==> r.error == TypeError
    ensures r.Success? ==> r.value == sectorIds
  {
    if |sectorIds| > 0 && !(CanCreate(es, "containerSmall") && CanCreate(es, "habitat")) then Failure(TypeError)
    else Success(sectorIds)
  }

  // ---------------------------------------------------------------------
  // The greedy pass of planFactories (lines 118-162)
  // ---------------------------------------------------------------------

  /** `factoryModules`: every entry of the table but the habitat. */
  function Candidates(es: seq<Entry>): (r: seq<Entry>)
    ensures forall e :: e in r <==> e in es && e.slug != "habitat"
    ensures AllTimed(es) ==> AllTimed(r)
  {
    if |es| == 0 then []
    else (if es[0].slug != "habitat" then [es[0]] else []) + Candidates(es[1..])
  }

  /** The test of lines 139-146 for one line `[c, {consumes, produces}]`
      of a recipe with time `time`: an output must not be mineable, and for
      an input the usage it would bring, over what is produced, must stay
      below the stockpiling factor. */
  predicate EntryPasses(c: Commodity, p: Pac, time: real, t: FP.Totals, stockpiling: real)
    requires FP.TotalsValid(t) && time != 0.0
  {
    if p.produces != 0.0 then !IsMineable(c)
    else Lt(Div(Fin(p.consumes / time + t.usage[c]), Fin(t.produced[c])), Fin(stockpiling))
  }

  /** What the test means on the real numbers: with `x` the usage after
      the pick, an input passes when it is produced and `x` over the
      production is below the factor, or when nothing produces it and `x`
      is negative (the quotient is then minus infinity). */
  lemma RatioTest(c: Commodity, p: Pac, time: real, t: FP.Totals, stockpiling: real)
    requires FP.TotalsValid(t) && time != 0.0 && p.produces == 0.0
    ensures var x := p.consumes / time + t.usage[c];
      EntryPasses(c, p, time, t, stockpiling) <==>
        (t.produced[c] != 0.0 && x / t.produced[c] < stockpiling) || (t.produced[c] == 0.0 && x < 0.0)
  {
  }

  /** A pickable entry: it has a recipe, and every line of it passes. */
  predicate Buildable(e: Entry, t: FP.Totals, stockpiling: real)
    requires FP.TotalsValid(t) && Timed(e)
  {
    e.pac.Some? && forall c :: c in e.pac.value ==> EntryPasses(c, e.pac.value[c], e.time.value, t, stockpiling)
  }

  /** With nothing produced and no negative consumption, no recipe with an
      input is pickable: its first quotient is infinite or NaN. */
  lemma UnproducedInputBlocks(e: Entry, t: FP.Totals, stockpiling: real, c: Commodity)
    requires FP.TotalsValid(t) && Timed(e) && e.pac.Some? && c in e.pac.value
    requires e.pac.value[c].produces == 0.0 && e.pac.value[c].consumes / e.time.value >= 0.0 && t.usage[c] >= 0.0
    requires t.produced[c] == 0.0
    ensures !Buildable(e, t, stockpiling)
  {
    RatioTest(c, e.pac.value[c], e.time.value, t, stockpiling);
  }

  /** `factoryModules.find(...)` from position `j` on. */
  function FirstBuildableFrom(es: seq<Entry>, t: FP.Totals, stockpiling: real, j: nat): (r: Option<nat>)
    requires FP.TotalsValid(t) && AllTimed(es) && j <= |es|
    ensures r.Some? ==> j <= r.value < |es| && Buildable(es[r.value], t, stockpiling)
    ensures r.Some? ==> forall i :: j <= i < r.value ==> !Buildable(es[i], t, stockpiling)
    ensures r.None? ==> forall i :: j <= i < |es| ==> !Buildable(es[i], t, stockpiling)
    decreases |es| - j
  {
    if j == |es| then None
    else if Buildable(es[j], t, stockpiling) then Some(j)
    else FirstBuildableFrom(es, t, stockpiling, j + 1)
  }

  /** The recipe's contribution per unit of time: lines 151-161 add
      `consumes / time` and `produces / time` where they are truthy, which
      is adding them everywhere. */
  function Accumulate(t: FP.Totals, pac: map<Commodity, Pac>, time: real): (r: FP.Totals)
    requires FP.TotalsValid(t) && time != 0.0
    ensures FP.TotalsValid(r)
    ensures forall c :: r.usage[c] == t.usage[c] + (if c in pac then pac[c].consumes / time else 0.0)
    ensures forall c :: r.produced[c] == t.produced[c] + (if c in pac then pac[c].produces / time else 0.0)
  {
    FP.Totals(
      map c | c in t.usage :: t.usage[c] + (if c in pac then pac[c].consumes / time else 0.0),
      map c | c in t.produced :: t.produced[c] + (if c in pac then pac[c].produces / time else 0.0))
  }

  /** The `while (true)` loop of lines 133-162, bounded by `fuel`: pick
      the first buildable entry, account for it, and repeat until none is
      buildable. The result is the pick list and the final totals. */
  function Greedy(es: seq<Entry>, t: FP.Totals, stockpiling: real, fuel: nat): (r: Result<(seq<Entry>, FP.Totals)>)
    requires FP.TotalsValid(t) && AllTimed(es)
    ensures r.Failure? ==> r.error == OutOfFuel
    ensures r.Success? ==> FP.TotalsValid(r.value.1) && |r.value.0| < fuel
    decreases fuel
  {
    if fuel == 0 then Failure(OutOfFuel)
    else
      var first := FirstBuildableFrom(es, t, stockpiling, 0);
      if first.None? then Success(([], t))
      else
        var e := es[first.value];
        var rest := Greedy(es, Accumulate(t, e.pac.value, e.time.value), stockpiling, fuel - 1);
        if rest.Failure? then rest
        else Success(([e] + rest.value.0, rest.value.1))
  }

  /** Every pick is an entry of the list, was buildable when it was
      picked, and when the pass ends no entry is buildable against the
      final totals. */
  lemma {:induction false} GreedyStops(es: seq<Entry>, t: FP.Totals, stockpiling: real, fuel: nat)
    requires FP.TotalsValid(t) && AllTimed(es) && Greedy(es, t, stockpiling, fuel).Success?
    ensures var r := Greedy(es, t, stockpiling, fuel).value;
      && (forall e :: e in r.0 ==> e in es && e.pac.Some?)
      && (|r.0| > 0 ==> Buildable(r.0[0], t, stockpiling))
      && forall j :: 0 <= j < |es| ==> !Buildable(es[j], r.1, stockpiling)
    decreases fuel
  {
    var first := FirstBuildableFrom(es, t, stockpiling, 0);
    if first.Some? {
      var e := es[first.value];
      var t1 := Accumulate(t, e.pac.value, e.time.value);
      GreedyStops(es, t1, stockpiling, fuel - 1);
      var rest := Greedy(es, t1, stockpiling, fuel - 1).value;
      assert Greedy(es, t, stockpiling, fuel).value == ([e] + rest.0, rest.1);
    }
  }

  /** As written, no entry has a recipe, so the pass picks nothing. */
  lemma NothingPickedAsWritten(t: FP.Totals, stockpiling: real, fuel: nat)
    requires FP.TotalsValid(t) && fuel > 0
    ensures AllTimed(Candidates(EntriesAsWritten(LA.FacilityModulesAsWritten)))
    ensures Greedy(Candidates(EntriesAsWritten(LA.FacilityModulesAsWritten)), t, stockpiling, fuel) == Success(([], t))
  {
    var es := Candidates(EntriesAsWritten(LA.FacilityModulesAsWritten));
    assert forall e :: e in es ==> e.pac.None?;
    assert FirstBuildableFrom(es, t, stockpiling, 0).None?;
  }

  // ---------------------------------------------------------------------
  // Packing the picks into factories (lines 164-199)
  // ---------------------------------------------------------------------

  /** A planned factory: its sector and the modules placed in it, in
      order. */
  datatype Factory = Factory(sectorId: int, placed: seq<string>)

  /** The factory's module list: a small container before each module. */
  function FactoryModules(f: Factory): (r: seq<string>)
    ensures |r| == 2 * |f.placed|
  {
    FP.Paired("containerSmall", f.placed)
  }

  /** The modules placed in a list of factories, in order. */
  function Placed(fs: seq<Factory>): seq<string> {
    if |fs| == 0 then [] else fs[0].placed + Placed(fs[1..])
  }

  lemma {:induction false} PlacedAppend(a: seq<Factory>, b: seq<Factory>)
    ensures Placed(a + b) == Placed(a) + Placed(b)
  {
    if |a| == 0 {
      assert a + b == b;
    } else {
      var ab := a + b;
      assert ab[0] == a[0] && ab[1..] == a[1..] + b;
      calc {
        Placed(ab);
        a[0].placed + Placed(a[1..] + b);
        { PlacedAppend(a[1..], b); }
        a[0].placed + (Placed(a[1..]) + Placed(b));
        { FP.AppendAssoc(a[0].placed, Placed(a[1..]), Placed(b)); }
        Placed(a) + Placed(b);
      }
    }
  }

  /** The loop of lines 167-199 over the modules still to pop, the k-th
      pop being module `popped[0]`: a new factory starts when there is none
      or the k-th draw `split(k)` exceeds 0.6, in the owned sector
      `sectors[picks(k)]`; `pickRandom` of no sector gives `undefined`,
      whose `cp` throws. */
  function PackFrom(popped: seq<string>, k: nat, current: Option<Factory>, split: nat -> real, picks: nat -> nat,
                    sectors: seq<int>): (r: Result<seq<Factory>>)
    requires |sectors| > 0 ==> forall i :: picks(i) < |sectors|
    ensures r.Failure? ==> |sectors| == 0 && |popped| > 0 && r.error == TypeError
    ensures current.None? && |sectors| == 0 && |popped| > 0 ==> r.Failure?
    decreases |popped|
  {
    if |popped| == 0 then Success(if current.Some? then [current.value] else [])
    else
      var begin := current.None? || split(k) > 0.6;
      if begin && |sectors| == 0 then Failure(TypeError)
      else
        var base := if begin then Factory(sectors[picks(k)], []) else current.value;
        var rest := PackFrom(popped[1..], k + 1, Some(base.(placed := base.placed + [popped[0]])), split, picks, sectors);
        if rest.Failure? then rest
        else Success((if begin && current.Some? then [current.value] else []) + rest.value)
  }

  /** The factories hold the modules of the open factory, then the popped
      modules, in order. */
  lemma {:induction false} PackFromPlaced(popped: seq<string>, k: nat, current: Option<Factory>, split: nat -> real,
                                          picks: nat -> nat, sectors: seq<int>)
    requires |sectors| > 0 && forall i :: picks(i) < |sectors|
    ensures PackFrom(popped, k, current, split, picks, sectors).Success?
    ensures Placed(PackFrom(popped, k, current, split, picks, sectors).value) ==
      (if current.Some? then current.value.placed else []) + popped
    decreases |popped|
  {
    var held := if current.Some? then current.value.placed else [];
    if |popped| == 0 {
      if current.Some? {
        assert [current.value][1..] == [];
      }
    } else {
      var begin := current.None? || split(k) > 0.6;
      var base := if begin then Factory(sectors[picks(k)], []) else current.value;
      var next := Some(base.(placed := base.placed + [popped[0]]));
      PackFromPlaced(popped[1..], k + 1, next, split, picks, sectors);
      var rest := PackFrom(popped[1..], k + 1, next, split, picks, sectors).value;
      var closed := if begin && current.Some? then [current.value] else [];
      PlacedAppend(closed, rest);
      assert Placed(closed) == (if begin then held else []) by {
        if begin && current.Some? { assert [current.value][1..] == []; }
      }
      FP.AppendAssoc(base.placed, [popped[0]], popped[1..]);
      assert [popped[0]] + popped[1..] == popped;
      if begin {
        FP.AppendAssoc(held, [], popped);
      }
    }
  }

  /** Every factory holds at least one module and sits in an owned sector,
      given that the open factory does. */
  lemma {:induction false} PackFromShape(popped: seq<string>, k: nat, current: Option<Factory>, split: nat -> real,
                                         picks: nat -> nat, sectors: seq<int>)
    requires |sectors| > 0 && forall i :: picks(i) < |sectors|
    requires current.Some? ==> |current.value.placed| > 0 && current.value.sectorId in sectors
    ensures var r := PackFrom(popped, k, current, split, picks, sectors);
      r.Success? && forall i :: 0 <= i < |r.value| ==> |r.value[i].placed| > 0 && r.value[i].sectorId in sectors
    decreases |popped|
  {
    if |popped| > 0 {
      var begin := current.None? || split(k) > 0.6;
      var base := if begin then Factory(sectors[picks(k)], []) else current.value;
      PackFromShape(popped[1..], k + 1, Some(base.(placed := base.placed + [popped[0]])), split, picks, sectors);
    }
  }

  /** `planFactories`' packing: the queue is emptied from its end, and no
      factory is open at the start. */
  function Pack(queue: seq<string>, split: nat -> real, picks: nat -> nat, sectors: seq<int>): (r: Result<seq<Factory>>)
    requires |sectors| > 0 ==> forall i :: picks(i) < |sectors|
    ensures r.Failure? <==> |queue| > 0 && |sectors| == 0
    ensures r.Failure? ==> r.error == TypeError
  {
    PackFrom(FP.Reverse(queue), 0, None, split, picks, sectors)
  }

  /** Packing places every queued module exactly once, in the order the
      queue is popped, into non-empty factories in owned sectors. */
  lemma PackPlacesEveryModule(queue: seq<string>, split: nat -> real, picks: nat -> nat, sectors: seq<int>)
    requires |sectors| > 0 && forall i :: picks(i) < |sectors|
    ensures var fs := Pack(queue, split, picks, sectors).value;
      && Placed(fs) == FP.Reverse(queue) && multiset(Placed(fs)) == multiset(queue)
      && forall i :: 0 <= i < |fs| ==> |fs[i].placed| > 0 && fs[i].sectorId in sectors
  {
    PackFromPlaced(FP.Reverse(queue), 0, None, split, picks, sectors);
    PackFromShape(FP.Reverse(queue), 0, None, split, picks, sectors);
  }

  // ---------------------------------------------------------------------
  // exec (lines 202-221)
  // ---------------------------------------------------------------------

  /** The slugs of the picked entries. */
  function Slugs(es: seq<Entry>): (r: seq<string>)
    ensures |r| == |es|
  {
    seq(|es|, i requires 0 <= i < |es| => es[i].slug)
  }

  /** Everything the planner reads about one computer faction: whether its
      AI is "territorial", its stockpiling factor, the sectors it owns in
      query order, its usage and production when `planFactories` starts,
      and the draws for the shuffle and the packing. */
  datatype FactionCtx = FactionCtx(
    id: int,
    territorial: bool,
    stockpiling: real,
    owned: seq<FP.SectorCtx>,
    totals: FP.Totals,
    shuffle: seq<string> -> seq<string>,
    split: nat -> real,
    picks: nat -> nat)

  ghost predicate FactionValid(f: FactionCtx) {
    && FP.TotalsValid(f.totals)
    && (forall i :: 0 <= i < |f.owned| ==> FP.SectorValid(f.owned[i]))
    && (|f.owned| > 0 ==> forall i :: f.picks(i) < |f.owned|)
  }

  /** Everything planned for one faction: its mining complexes, the
      sectors that get a habitat, and its factories. */
  datatype FactionPlan = FactionPlan(faction: int, mining: seq<FP.MiningPlan>, habitats: seq<int>, factories: seq<Factory>)

  /** The mining pass over every owned sector; the first that throws stops
      it. */
  function MiningForSectors(owned: seq<FP.SectorCtx>, es: seq<Entry>): (r: Result<seq<FP.MiningPlan>>)
    requires forall i :: 0 <= i < |owned| ==> FP.SectorValid(owned[i])
    ensures r.Success? <==> forall i :: 0 <= i < |owned| ==> PlanMining(owned[i], es).Success?
    ensures r.Failure? ==> r.error == TypeError
  {
    if |owned| == 0 then Success([])
    else
      assert forall i :: 1 <= i < |owned| ==> owned[1..][i - 1] == owned[i];
      var first :- PlanMining(owned[0], es);
      var rest :- MiningForSectors(owned[1..], es);
      Success(first + rest)
  }

  /** Every module popped from a non-empty queue is created after a small
      container, both through `create`. */
  predicate QueueCreatable(es: seq<Entry>, queue: seq<string>) {
    |queue| == 0 || (CanCreate(es, "containerSmall") && forall i :: 0 <= i < |queue| ==> CanCreate(es, queue[i]))
  }

  /** The per-faction part of `exec()`: mining for each owned sector, and
      for a territorial faction habitats and factories too. Any step can
      throw `TypeError`; the greedy pass can also run out of fuel. */
  function PlanFaction(f: FactionCtx, es: seq<Entry>, fuel: nat): (r: Result<FactionPlan>)
    requires FactionValid(f) && AllTimed(es)
    ensures r.Failure? ==> r.error == TypeError || r.error == OutOfFuel
    ensures r.Success? ==> r.value.faction == f.id
    ensures r.Success? && !f.territorial ==> r.value.habitats == [] && r.value.factories == []
    ensures r.Success? && f.territorial ==> r.value.habitats == FP.SectorIds(f.owned)
    ensures r.Success? ==> forall i :: 0 <= i < |f.owned| ==> PlanMining(f.owned[i], es).Success?
  {
    var mining :- MiningForSectors(f.owned, es);
    if !f.territorial then Success(FactionPlan(f.id, mining, [], []))
    else
      var habitats :- PlanHabitats(FP.SectorIds(f.owned), es);
      var g :- Greedy(Candidates(es), f.totals, f.stockpiling, fuel);
      var queue := f.shuffle(Slugs(g.0));
      var factories :- Pack(queue, f.split, f.picks, FP.SectorIds(f.owned));
      if !QueueCreatable(es, queue) then Failure(TypeError)
      else Success(FactionPlan(f.id, mining, habitats, factories))
  }

  /** Every faction in query order; the first that throws stops the pass. */
  function PlanAll(fs: seq<FactionCtx>, es: seq<Entry>, fuel: nat): (r: Result<seq<FactionPlan>>)
    requires AllTimed(es) && forall i :: 0 <= i < |fs| ==> FactionValid(fs[i])
    ensures r.Success? <==> forall i :: 0 <= i < |fs| ==> PlanFaction(fs[i], es, fuel).Success?
    ensures r.Success? ==> |r.value| == |fs| && forall i :: 0 <= i < |fs| ==> r.value[i] == PlanFaction(fs[i], es, fuel).value
    ensures r.Failure? ==> exists i :: 0 <= i < |fs| && PlanFaction(fs[i], es, fuel) == Failure(r.error)
  {
    var rs := seq(|fs|, i requires 0 <= i < |fs| && FactionValid(fs[i]) => PlanFaction(fs[i], es, fuel));
    assert forall i :: 0 <= i < |fs| ==> rs[i] == PlanFaction(fs[i], es, fuel);
    Collect(rs)
  }

  /** The system creates its `plan` cooldown ready to use. */
  const InitialCooldowns: CD.Cooldowns := CD.Add(CD.Empty, "plan")

  /** Whether `exec()` plans: the cooldown is ready and the game has just
      begun. This `exec` takes no `delta` and never counts the cooldown
      down. */
  predicate Plans(cooldowns: CD.Cooldowns, time: real) {
    CD.CanUse(cooldowns, "plan") && time == 0.0
  }

  /** `exec()` at game time `time`, with the table read as `es`. The
      cooldown is started before the factions are planned, so a tick whose
      planning throws still spends it. */
  function Exec(cooldowns: CD.Cooldowns, time: real, es: seq<Entry>, fs: seq<FactionCtx>, fuel: nat)
    : (r: CD.Tick<seq<FactionPlan>>)
    requires AllTimed(es) && forall i :: 0 <= i < |fs| ==> FactionValid(fs[i])
    ensures !Plans(cooldowns, time) ==> r == CD.Tick(cooldowns, Success([]))
    ensures Plans(cooldowns, time) ==>
      && r.cooldowns == CD.Use(cooldowns, "plan", 500.0)
      && !CD.CanUse(r.cooldowns, "plan")
      && r.outcome == PlanAll(fs, es, fuel)
    ensures r.outcome.Failure? ==> PlanAll(fs, es, fuel).Failure? && r.outcome.error == PlanAll(fs, es, fuel).error
  {
    if !Plans(cooldowns, time) then CD.Tick(cooldowns, Success([]))
    else CD.Tick(CD.Use(cooldowns, "plan", 500.0), PlanAll(fs, es, fuel))
  }

  /** Planning happens only at game time 0, and after a tick that plans,
      whether its planning threw or not, no tick ever plans again: the next
      one plans nothing and leaves the cooldown as it is, so every later one
      does the same. */
  lemma PlansOnceAtStart(cooldowns: CD.Cooldowns, time: real, es: seq<Entry>, fs: seq<FactionCtx>, fuel: nat,
                         time2: real, fs2: seq<FactionCtx>, fuel2: nat)
    requires AllTimed(es) && forall i :: 0 <= i < |fs| ==> FactionValid(fs[i])
    requires forall i :: 0 <= i < |fs2| ==> FactionValid(fs2[i])
    ensures time != 0.0 ==> Exec(cooldowns, time, es, fs, fuel).outcome == Success([])
    ensures Plans(cooldowns, time) ==>
      var cd := Exec(cooldowns, time, es, fs, fuel).cooldowns;
      !Plans(cd, time2) && Exec(cd, time2, es, fs2, fuel2) == CD.Tick(cd, Success([]))
  {
  }

  /** What makes a faction's plan throw as written: an owned sector holds
      a commodity the faction does not mine there yet, or the faction is
      territorial and owns a sector. */
  predicate ThrowsAsWritten(f: FactionCtx) {
    || (exists j :: 0 <= j < |f.owned| && FP.SectorValid(f.owned[j]) && HoldsUnmined(f.owned[j]))
    || (f.territorial && |f.owned| > 0)
  }

  /** As written a faction's plan fails exactly when `ThrowsAsWritten`
      says, and then with `TypeError`: mining finds no miner, the habitats
      find no `create`, and the greedy pass picks nothing, so the packing
      has nothing to place. */
  lemma PlanFactionAsWritten(f: FactionCtx, fuel: nat)
    requires FactionValid(f) && FP.Reorders(f.shuffle) && fuel > 0
    ensures AllTimed(EntriesAsWritten(LA.FacilityModulesAsWritten))
    ensures var r := PlanFaction(f, EntriesAsWritten(LA.FacilityModulesAsWritten), fuel);
      && (r.Failure? <==> ThrowsAsWritten(f))
      && (r.Failure? ==> r.error == TypeError)
  {
    var es := EntriesAsWritten(LA.FacilityModulesAsWritten);
    var mining := MiningForSectors(f.owned, es);
    MiningForSectorsAsWritten(f.owned);
    if mining.Success? && f.territorial {
      CreatableEntries("containerSmall");
      if |f.owned| == 0 {
        NothingPickedAsWritten(f.totals, f.stockpiling, fuel);
        assert |multiset(f.shuffle(Slugs([])))| == 0;
      }
    }
  }

  /** As written, the mining pass over the owned sectors throws exactly
      when one of them holds a commodity not mined there yet. */
  lemma MiningForSectorsAsWritten(owned: seq<FP.SectorCtx>)
    requires forall i :: 0 <= i < |owned| ==> FP.SectorValid(owned[i])
    ensures MiningForSectors(owned, EntriesAsWritten(LA.FacilityModulesAsWritten)).Failure? <==>
      exists j :: 0 <= j < |owned| && FP.SectorValid(owned[j]) && HoldsUnmined(owned[j])
  {
    forall i | 0 <= i < |owned|
      ensures PlanMining(owned[i], EntriesAsWritten(LA.FacilityModulesAsWritten)).Failure? <==> HoldsUnmined(owned[i])
    {
      MiningAsWritten(owned[i]);
    }
  }

  /** As written, the first planning tick throws `TypeError` exactly when
      some computer faction owns a sector holding a commodity it does not
      mine there yet, or is territorial and owns a sector; otherwise it
      succeeds. */
  lemma ExecThrowsAsWritten(cooldowns: CD.Cooldowns, time: real, fs: seq<FactionCtx>, fuel: nat)
    requires forall i :: 0 <= i < |fs| ==> FactionValid(fs[i]) && FP.Reorders(fs[i].shuffle)
    requires fuel > 0
    ensures AllTimed(EntriesAsWritten(LA.FacilityModulesAsWritten))
    ensures var r := Exec(cooldowns, time, EntriesAsWritten(LA.FacilityModulesAsWritten), fs, fuel).outcome;
      && (r.Failure? <==> Plans(cooldowns, time) && exists k :: 0 <= k < |fs| && ThrowsAsWritten(fs[k]))
      && (r.Failure? ==> r.error == TypeError)
  {
    var es := EntriesAsWritten(LA.FacilityModulesAsWritten);
    forall k | 0 <= k < |fs|
      ensures (PlanFaction(fs[k], es, fuel).Failure? <==> ThrowsAsWritten(fs[k]))
      ensures PlanFaction(fs[k], es, fuel).Failure? ==> PlanFaction(fs[k], es, fuel).error == TypeError
    {
      PlanFactionAsWritten(fs[k], fuel);
    }
  }

  /** As written a faction's plan can only fail by throwing: the pass picks
      nothing, so any fuel at all is enough. */
  lemma NoFuelFailureAsWritten(f: FactionCtx, fuel: nat)
    requires FactionValid(f) && fuel > 0
    ensures AllTimed(EntriesAsWritten(LA.FacilityModulesAsWritten))
    ensures var r := PlanFaction(f, EntriesAsWritten(LA.FacilityModulesAsWritten), fuel);
      r.Success? || r == Failure(TypeError)
  {
    NothingPickedAsWritten(f.totals, f.stockpiling, fuel);
  }
}
