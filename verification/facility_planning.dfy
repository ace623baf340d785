/** The facility planner of the current engine
    (core/systems/ai/facilityPlanning.ts). At the very start of a game it
    decides, for every computer faction, which facilities to found: a mining
    complex per minable commodity of each owned sector, a habitat per owned
    sector, and factories packed with the production modules a greedy pass
    picks until the faction's economy would run short.

    The model stops at the plan: which facility goes to which sector with
    which modules, in which order, and whether it receives starting
    commodities. Building the plan (`createFacility`, `addFacilityModule`,
    naming and placement) is modelled elsewhere or left out. The faction's
    blueprints, the sector resources (`getSectorResources`), the totals of
    `getResourceUsage` / `getResourceProduction` and every random draw are
    parameters. */
module FacilityPlanning {
  import opened Wrappers
  import opened JsNum
  import opened Commodities
  import opened Components
  import opened Stores
  import CD = Cooldowns

  /** A facility-module blueprint as the planner reads it: its slug,
      whether its `type` is "production", and its recipe, if it has one. */
  datatype Blueprint = Blueprint(slug: string, production: bool, pac: Option<map<Commodity, Pac>>)

  /** The running totals of the greedy pass: `resourceUsageInFacilities`
      and `resourcesProducedByFacilities`. */
  datatype Totals = Totals(usage: map<Commodity, real>, produced: map<Commodity, real>)

  predicate TotalsValid(t: Totals) {
    Total(t.usage) && Total(t.produced)
  }

  // ---------------------------------------------------------------------
  // isAbleToBuild (lines 31-44)
  // ---------------------------------------------------------------------

  /** The test one recipe entry must pass: an output must not be minable;
      an entry that produces nothing needs the faction's production of the
      commodity, divided by its usage including this module, to exceed the
      stockpiling ratio. The division is JavaScript's. */
  predicate EntryPasses(c: Commodity, p: Pac, t: Totals, stockpiling: real)
    requires TotalsValid(t)
  {
    if p.produces != 0.0 then !IsMineable(c)
    else Gt(Div(Fin(t.produced[c]), Fin(p.consumes + t.usage[c])), Fin(stockpiling))
  }

  /** An entry's test in plain arithmetic: an output must not be minable;
      an input needs the faction's production over its usage including
      this module, `d`, to exceed the stockpiling ratio, where `d == 0`
      passes exactly when something is produced. */
  predicate PlainPasses(c: Commodity, p: Pac, t: Totals, stockpiling: real)
    requires TotalsValid(t)
  {
    if p.produces != 0.0 then !IsMineable(c)
    else
      var d := p.consumes + t.usage[c];
      (d != 0.0 && t.produced[c] / d > stockpiling) || (d == 0.0 && t.produced[c] > 0.0)
  }

  /** `isAbleToBuild(pac, produced, usage, stockpiling)`: every entry of
      the recipe passes, which in plain arithmetic means no minable output
      and every input's ratio above the stockpiling threshold. */
  predicate IsAbleToBuild(pac: map<Commodity, Pac>, t: Totals, stockpiling: real): (r: bool)
    requires TotalsValid(t)
    ensures r <==> forall c :: c in pac ==> PlainPasses(c, pac[c], t, stockpiling)
  {
    assert forall c :: c in pac ==> (EntryPasses(c, pac[c], t, stockpiling) <==> PlainPasses(c, pac[c], t, stockpiling)) by {
      forall c | c in pac
        ensures EntryPasses(c, pac[c], t, stockpiling) <==> PlainPasses(c, pac[c], t, stockpiling)
      {
        if pac[c].produces == 0.0 {
          RatioTest(c, pac[c], t, stockpiling);
        }
      }
    }
    forall c :: c in pac ==> EntryPasses(c, pac[c], t, stockpiling)
  }

  /** A recipe with a minable output is never buildable. */
  lemma MineableOutputBlocks(pac: map<Commodity, Pac>, t: Totals, stockpiling: real, c: Commodity)
    requires TotalsValid(t)
    requires c in pac && pac[c].produces != 0.0 && IsMineable(c)
    ensures !IsAbleToBuild(pac, t, stockpiling)
  {
    assert !EntryPasses(c, pac[c], t, stockpiling);
  }

  /** The ratio test in plain arithmetic. With `d` the usage including the
      module: for `d != 0` it is the quotient against the threshold; for
      `d == 0` the quotient is an infinity or NaN, so the test passes
      exactly when something is produced. */
  lemma RatioTest(c: Commodity, p: Pac, t: Totals, stockpiling: real)
    requires TotalsValid(t) && p.produces == 0.0
    ensures var d := p.consumes + t.usage[c];
      EntryPasses(c, p, t, stockpiling) <==>
        (d != 0.0 && t.produced[c] / d > stockpiling) || (d == 0.0 && t.produced[c] > 0.0)
  {
    var d := p.consumes + t.usage[c];
    var q := Div(Fin(t.produced[c]), Fin(d));
    if d == 0.0 {
      if t.produced[c] < 0.0 {
        assert q == NegInf;
      }
    }
  }

  /** An input nothing produces blocks the recipe whenever the stockpiling
      ratio is not negative: the quotient is 0, or NaN when the usage is 0
      too. */
  lemma UnproducedInputBlocks(pac: map<Commodity, Pac>, t: Totals, stockpiling: real, c: Commodity)
    requires TotalsValid(t) && stockpiling >= 0.0
    requires c in pac && pac[c].produces == 0.0 && t.produced[c] == 0.0
    ensures !IsAbleToBuild(pac, t, stockpiling)
  {
    RatioTest(c, pac[c], t, stockpiling);
    var d := pac[c].consumes + t.usage[c];
    if d != 0.0 {
      assert t.produced[c] / d == 0.0;
    }
  }

  // ---------------------------------------------------------------------
  // The greedy pass of planFactories (lines 194-236)
  // ---------------------------------------------------------------------

  /** A blueprint the pass may pick: it has a recipe, and the recipe is
      buildable against the running totals. */
  predicate Buildable(b: Blueprint, t: Totals, stockpiling: real)
    requires TotalsValid(t)
  {
    b.pac.Some? && IsAbleToBuild(b.pac.value, t, stockpiling)
  }

  /** `factoryModules.find(...)`: the position of the first pickable
      blueprint. */
  function FirstBuildable(mods: seq<Blueprint>, t: Totals, stockpiling: real): (r: Option<nat>)
    requires TotalsValid(t)
    ensures r.Some? ==> r.value < |mods| && Buildable(mods[r.value], t, stockpiling)
    ensures r.Some? ==> forall j :: 0 <= j < r.value ==> !Buildable(mods[j], t, stockpiling)
    ensures r.None? ==> forall j :: 0 <= j < |mods| ==> !Buildable(mods[j], t, stockpiling)
  {
    FirstBuildableFrom(mods, t, stockpiling, 0)
  }

  /** The search from position `j` on. */
  function FirstBuildableFrom(mods: seq<Blueprint>, t: Totals, stockpiling: real, j: nat): (r: Option<nat>)
    requires TotalsValid(t) && j <= |mods|
    ensures r.Some? ==> j <= r.value < |mods| && Buildable(mods[r.value], t, stockpiling)
    ensures r.Some? ==> forall i :: j <= i < r.value ==> !Buildable(mods[i], t, stockpiling)
    ensures r.None? ==> forall i :: j <= i < |mods| ==> !Buildable(mods[i], t, stockpiling)
    decreases |mods| - j
  {
    if j == |mods| then None
    else if Buildable(mods[j], t, stockpiling) then Some(j)
    else FirstBuildableFrom(mods, t, stockpiling, j + 1)
  }

  /** What a recipe consumes and produces of `c` (nothing when it has no
      entry). */
  function ConsumesOf(pac: map<Commodity, Pac>, c: Commodity): real {
    if c in pac then pac[c].consumes else 0.0
  }

  function ProducesOf(pac: map<Commodity, Pac>, c: Commodity): real {
    if c in pac then pac[c].produces else 0.0
  }

  /** One half of the `forEach` of lines 225-235 over `cs`: add `f(c)` to
      the entry of each listed commodity for which it is truthy. */
  function AddOver(cs: seq<Commodity>, m: map<Commodity, real>, f: Commodity -> real): (r: map<Commodity, real>)
    requires Total(m)
    ensures Total(r)
  {
    if |cs| == 0 then m
    else AddOver(cs[1..], if f(cs[0]) != 0.0 then m[cs[0] := m[cs[0]] + f(cs[0])] else m, f)
  }

  /** Over a list without repeats, each listed commodity gains exactly
      `f(c)` and every other one is left alone. */
  lemma {:induction false} AddOverEffect(cs: seq<Commodity>, m: map<Commodity, real>, f: Commodity -> real, c: Commodity)
    requires Total(m)
    requires forall i, j :: 0 <= i < j < |cs| ==> cs[i] != cs[j]
    ensures AddOver(cs, m, f)[c] == m[c] + (if c in cs then f(c) else 0.0)
    decreases |cs|
  {
    if |cs| > 0 {
      var m1 := if f(cs[0]) != 0.0 then m[cs[0] := m[cs[0]] + f(cs[0])] else m;
      assert forall i, j :: 0 <= i < j < |cs[1..]| ==> cs[1..][i] == cs[i + 1] && cs[1..][j] == cs[j + 1];
      AddOverEffect(cs[1..], m1, f, c);
      if c == cs[0] {
        assert c !in cs[1..];
      } else {
        assert (c in cs) == (c in cs[1..]);
      }
    }
  }

  /** Picking a module adds its consumption to the usage and its
      production to the production, commodity by commodity. */
  function Accumulate(t: Totals, pac: map<Commodity, Pac>): (r: Totals)
    requires TotalsValid(t)
    ensures TotalsValid(r)
  {
    Totals(map c | c in t.usage :: t.usage[c] + ConsumesOf(pac, c), map c | c in t.produced :: t.produced[c] + ProducesOf(pac, c))
  }

  /** The `forEach` over every commodity adds up to the same totals. */
  lemma AccumulateIsForEach(t: Totals, pac: map<Commodity, Pac>)
    requires TotalsValid(t)
    ensures AddOver(All, t.usage, c => ConsumesOf(pac, c)) == Accumulate(t, pac).usage
    ensures AddOver(All, t.produced, c => ProducesOf(pac, c)) == Accumulate(t, pac).produced
  {
    AllListsEveryCommodityOnce();
    forall c ensures AddOver(All, t.usage, c => ConsumesOf(pac, c))[c] == t.usage[c] + ConsumesOf(pac, c)
      && AddOver(All, t.produced, c => ProducesOf(pac, c))[c] == t.produced[c] + ProducesOf(pac, c)
    {
      AddOverEffect(All, t.usage, c => ConsumesOf(pac, c), c);
      AddOverEffect(All, t.produced, c => ProducesOf(pac, c), c);
    }
  }

  /** Every blueprint in the list has a recipe. */
  predicate AllWithRecipes(ms: seq<Blueprint>) {
    forall i :: 0 <= i < |ms| ==> ms[i].pac.Some?
  }

  /** The totals after picking `ms` in order, starting from `t`. */
  function TotalsAfter(t: Totals, ms: seq<Blueprint>): (r: Totals)
    requires TotalsValid(t) && AllWithRecipes(ms)
    ensures TotalsValid(r)
    decreases |ms|
  {
    if |ms| == 0 then t else TotalsAfter(Accumulate(t, ms[0].pac.value), ms[1..])
  }

  /** The totals after a pick list are the starting totals plus what every
      picked recipe consumes and produces. */
  lemma {:induction false} TotalsAfterSums(t: Totals, ms: seq<Blueprint>, c: Commodity)
    requires TotalsValid(t) && AllWithRecipes(ms)
    ensures TotalsAfter(t, ms).usage[c] == t.usage[c] + SumConsumes(ms, c)
    ensures TotalsAfter(t, ms).produced[c] == t.produced[c] + SumProduces(ms, c)
    decreases |ms|
  {
    if |ms| > 0 {
      TotalsAfterSums(Accumulate(t, ms[0].pac.value), ms[1..], c);
    }
  }

  function SumConsumes(ms: seq<Blueprint>, c: Commodity): real
    requires AllWithRecipes(ms)
    decreases |ms|
  {
    if |ms| == 0 then 0.0 else ConsumesOf(ms[0].pac.value, c) + SumConsumes(ms[1..], c)
  }

  function SumProduces(ms: seq<Blueprint>, c: Commodity): real
    requires AllWithRecipes(ms)
    decreases |ms|
  {
    if |ms| == 0 then 0.0 else ProducesOf(ms[0].pac.value, c) + SumProduces(ms[1..], c)
  }

  /** The `while (true)` loop of lines 212-236: pick the first buildable
      blueprint, account for it, and repeat until none is buildable. The
      source's loop has no bound; the model gives up with `OutOfFuel`
      after `fuel` picks. The result is the pick list and the final
      totals. */
  function Greedy(mods: seq<Blueprint>, t: Totals, stockpiling: real, fuel: nat): (r: Result<(seq<Blueprint>, Totals)>)
    requires TotalsValid(t)
    ensures r.Failure? ==> r.error == OutOfFuel
    ensures r.Success? ==> AllWithRecipes(r.value.0) && |r.value.0| < fuel && TotalsValid(r.value.1)
    decreases fuel
  {
    if fuel == 0 then Failure(OutOfFuel)
    else
      var first := FirstBuildable(mods, t, stockpiling);
      if first.None? then Success(([], t))
      else
        var rest := Greedy(mods, Accumulate(t, mods[first.value].pac.value), stockpiling, fuel - 1);
        if rest.Failure? then rest
        else Success(([mods[first.value]] + rest.value.0, rest.value.1))
  }

  /** When the pass ends no blueprint is buildable against the final
      totals, and those are the starting totals with every pick accounted
      for. */
  lemma {:induction false} GreedyStops(mods: seq<Blueprint>, t: Totals, stockpiling: real, fuel: nat)
    requires TotalsValid(t) && Greedy(mods, t, stockpiling, fuel).Success?
    ensures var r := Greedy(mods, t, stockpiling, fuel).value;
      && r.1 == TotalsAfter(t, r.0)
      && forall j :: 0 <= j < |mods| ==> !Buildable(mods[j], r.1, stockpiling)
    decreases fuel
  {
    var r := Greedy(mods, t, stockpiling, fuel).value;
    var first := FirstBuildable(mods, t, stockpiling);
    if first.Some? {
      var t1 := Accumulate(t, mods[first.value].pac.value);
      GreedyStops(mods, t1, stockpiling, fuel - 1);
      assert r.0[1..] == Greedy(mods, t1, stockpiling, fuel - 1).value.0;
    }
  }

  /** The pass as a trace, independently of fuel: `picks` is what the loop
      picks from `t` when each pick is the first buildable blueprint against
      the totals so far, and the list ends exactly when none is left. */
  predicate IsGreedyTrace(mods: seq<Blueprint>, t: Totals, stockpiling: real, picks: seq<Blueprint>)
    requires TotalsValid(t)
    decreases |picks|
  {
    match FirstBuildable(mods, t, stockpiling)
    case None => |picks| == 0
    case Some(i) =>
      && |picks| > 0 && picks[0] == mods[i]
      && IsGreedyTrace(mods, Accumulate(t, mods[i].pac.value), stockpiling, picks[1..])
  }

  /** What the pass returns is the greedy trace. */
  lemma {:induction false} GreedyFollowsTrace(mods: seq<Blueprint>, t: Totals, stockpiling: real, fuel: nat)
    requires TotalsValid(t) && Greedy(mods, t, stockpiling, fuel).Success?
    ensures IsGreedyTrace(mods, t, stockpiling, Greedy(mods, t, stockpiling, fuel).value.0)
    decreases fuel
  {
    var picks := Greedy(mods, t, stockpiling, fuel).value.0;
    match FirstBuildable(mods, t, stockpiling)
    case None =>
    case Some(i) =>
      var t1 := Accumulate(t, mods[i].pac.value);
      GreedyFollowsTrace(mods, t1, stockpiling, fuel - 1);
      var rest := Greedy(mods, t1, stockpiling, fuel - 1).value;
      assert Greedy(mods, t, stockpiling, fuel) == Success(([mods[i]] + rest.0, rest.1));
      assert picks[1..] == rest.0;
  }

  /** The trace is determined by the blueprints and the starting totals:
      two traces from the same start are the same list. */
  lemma {:induction false} GreedyTraceUnique(mods: seq<Blueprint>, t: Totals, stockpiling: real, a: seq<Blueprint>, b: seq<Blueprint>)
    requires TotalsValid(t)
    requires IsGreedyTrace(mods, t, stockpiling, a) && IsGreedyTrace(mods, t, stockpiling, b)
    ensures a == b
    decreases |a|
  {
    match FirstBuildable(mods, t, stockpiling)
    case None =>
    case Some(i) =>
      GreedyTraceUnique(mods, Accumulate(t, mods[i].pac.value), stockpiling, a[1..], b[1..]);
      assert a == [a[0]] + a[1..] && b == [b[0]] + b[1..];
  }

  /** With more fuel than the trace is long, the pass succeeds and returns
      the trace: the fuel bound is the only way the model and the loop
      part. */
  lemma {:induction false} TraceWithinFuel(mods: seq<Blueprint>, t: Totals, stockpiling: real, picks: seq<Blueprint>, fuel: nat)
    requires TotalsValid(t) && IsGreedyTrace(mods, t, stockpiling, picks) && |picks| < fuel
    ensures Greedy(mods, t, stockpiling, fuel).Success?
    ensures Greedy(mods, t, stockpiling, fuel).value.0 == picks
    decreases fuel
  {
    match FirstBuildable(mods, t, stockpiling)
    case None =>
    case Some(i) =>
      var t1 := Accumulate(t, mods[i].pac.value);
      TraceWithinFuel(mods, t1, stockpiling, picks[1..], fuel - 1);
      var rest := Greedy(mods, t1, stockpiling, fuel - 1).value;
      assert Greedy(mods, t, stockpiling, fuel) == Success(([mods[i]] + rest.0, rest.1));
      assert picks == [picks[0]] + picks[1..];
  }

  /** When the pass ends, the faction's final usage and production are the
      starting totals plus the sums over every picked module. */
  lemma GreedyAccounts(mods: seq<Blueprint>, t: Totals, stockpiling: real, fuel: nat, c: Commodity)
    requires TotalsValid(t) && Greedy(mods, t, stockpiling, fuel).Success?
    ensures var r := Greedy(mods, t, stockpiling, fuel).value;
      && r.1.usage[c] == t.usage[c] + SumConsumes(r.0, c)
      && r.1.produced[c] == t.produced[c] + SumProduces(r.0, c)
  {
    GreedyStops(mods, t, stockpiling, fuel);
    TotalsAfterSums(t, Greedy(mods, t, stockpiling, fuel).value.0, c);
  }

  // ---------------------------------------------------------------------
  // Packing the picks into factories (lines 238-284)
  // ---------------------------------------------------------------------

  /** A planned factory: its sector, the production modules placed in it in
      order, and whether it received starting commodities. */
  datatype FactoryPlan = FactoryPlan(sectorId: int, placed: seq<string>, stocked: bool)

  /** `[container, s1, container, s2, ...]`: each module preceded by a
      container. */
  function Paired(container: string, slugs: seq<string>): (r: seq<string>)
    ensures |r| == 2 * |slugs|
    ensures forall i :: 0 <= i < |slugs| ==> r[2 * i] == container && r[2 * i + 1] == slugs[i]
  {
    seq(2 * |slugs|, k requires 0 <= k < 2 * |slugs| => if k % 2 == 0 then container else slugs[k / 2])
  }

  /** The module list of a factory: a small defense, then a small
      container before each production module. */
  function FactoryModules(p: FactoryPlan): (r: seq<string>)
    ensures |r| == 1 + 2 * |p.placed|
  {
    ["smallDefense"] + Paired("containerSmall", p.placed)
  }

  /** The production modules of a list of factories, in order. */
  function Placed(ps: seq<FactoryPlan>): seq<string> {
    if |ps| == 0 then [] else ps[0].placed + Placed(ps[1..])
  }

  lemma {:induction false} PlacedAppend(a: seq<FactoryPlan>, b: seq<FactoryPlan>)
    ensures Placed(a + b) == Placed(a) + Placed(b)
  {
    if |a| == 0 {
      assert a + b == b;
    } else {
      assert (a + b)[0] == a[0];
      assert (a + b)[1..] == a[1..] + b;
      PlacedAppend(a[1..], b);
    }
  }

  /** Whether the next module opens a new factory: there is none yet, the
      draw exceeds 0.7, or the current one already holds more than six
      modules. */
  predicate Begins(current: Option<FactoryPlan>, draw: real) {
    current.None? || draw > 0.7 || ModuleCount(current.value) > 6
  }

  /** `facility.cp.modules.ids.length`: the defense, and a container with
      each production module. */
  function ModuleCount(p: FactoryPlan): (n: nat)
    ensures n == |FactoryModules(p)|
  {
    1 + 2 * |p.placed|
  }

  /** The factory being left behind, if any, with its stocking decided. */
  function Close(current: Option<FactoryPlan>, stocked: bool): (r: seq<FactoryPlan>)
    ensures |r| <= 1
  {
    if current.Some? then [current.value.(stocked := stocked)] else []
  }

  /** The factory the next module goes into. */
  function Target(current: Option<FactoryPlan>, begin: bool, sectorId: int): FactoryPlan
    requires !begin ==> current.Some?
  {
    if begin then FactoryPlan(sectorId, [], false) else current.value
  }

  /** The random numbers one turn of the packing loop draws: the
      `Math.random()` compared with 0.7, and the position `pickRandom`
      chooses among the owned sectors. */
  datatype Draw = Draw(split: real, pick: nat)

  predicate PicksInRange(draws: seq<Draw>, n: nat) {
    forall i :: 0 <= i < |draws| ==> draws[i].pick < n
  }

  /** The draws of a whole packing, one per queued module. */
  function Draws(split: nat -> real, picks: nat -> nat, n: nat): (ds: seq<Draw>)
    ensures |ds| == n
    ensures forall i :: 0 <= i < n ==> ds[i] == Draw(split(i), picks(i))
  {
    seq(n, i requires 0 <= i => Draw(split(i), picks(i)))
  }

  /** The loop over the build queue, with `popped` the modules in the order
      `pop()` returns them and `k` the number popped so far; `draws[k]`
      holds the random numbers of the `k`-th turn. When a new
      factory begins, the one left behind receives starting commodities if
      the game is at time 0. The sector of a new factory is the owned
      sector at `draws[k].pick`; with no owned sector `pickRandom` yields
      `undefined`. `stockLast` says whether the factory still open at the
      end is stocked too. */
  function PackFrom(popped: seq<string>, k: nat, current: Option<FactoryPlan>, draws: seq<Draw>,
                    sectors: seq<int>, time: real, stockLast: bool): (r: Result<seq<FactoryPlan>>)
    requires k + |popped| <= |draws| && (|sectors| > 0 ==> PicksInRange(draws, |sectors|))
    requires current.Some? ==> current.value.sectorId in sectors
    ensures r.Failure? <==> |popped| > 0 && |sectors| == 0
    ensures r.Failure? ==> r.error == TypeError
    decreases |popped|
  {
    if |popped| == 0 then Success(Close(current, stockLast && time == 0.0))
    else
      var begin := Begins(current, draws[k].split);
      if |sectors| == 0 then Failure(TypeError)
      else
        var base := Target(current, begin, sectors[draws[k].pick]);
        var rest := PackFrom(popped[1..], k + 1, Some(base.(placed := base.placed + [popped[0]])), draws, sectors, time, stockLast);
        Success((if begin then Close(current, time == 0.0) else []) + rest.value)
  }

  /** One turn of the loop, with a sector to pick from: the factory left
      behind, if a new one begins, then what the rest of the queue makes. */
  lemma PackFromStep(popped: seq<string>, k: nat, current: Option<FactoryPlan>, draws: seq<Draw>,
                     sectors: seq<int>, time: real, stockLast: bool)
    requires k + |popped| <= |draws| && |sectors| > 0 && PicksInRange(draws, |sectors|)
    requires current.Some? ==> current.value.sectorId in sectors
    requires |popped| > 0
    ensures var begin := Begins(current, draws[k].split);
      var base := Target(current, begin, sectors[draws[k].pick]);
      var rest := PackFrom(popped[1..], k + 1, Some(base.(placed := base.placed + [popped[0]])), draws, sectors, time, stockLast);
      PackFrom(popped, k, current, draws, sectors, time, stockLast).value
        == (if begin then Close(current, time == 0.0) else []) + rest.value
  {
  }

  /** Packing keeps the order of the modules: the factories, in order, hold
      the open factory's modules and then the popped ones. */
  lemma {:induction false} PackFromPlaced(popped: seq<string>, k: nat, current: Option<FactoryPlan>, draws: seq<Draw>,
                                          sectors: seq<int>, time: real, stockLast: bool)
    requires k + |popped| <= |draws| && |sectors| > 0 && PicksInRange(draws, |sectors|)
    requires current.Some? ==> current.value.sectorId in sectors
    ensures Placed(PackFrom(popped, k, current, draws, sectors, time, stockLast).value)
      == (if current.Some? then current.value.placed else []) + popped
    decreases |popped|
  {
    if |popped| > 0 {
      var begin := Begins(current, draws[k].split);
      var base := Target(current, begin, sectors[draws[k].pick]);
      var next := Some(base.(placed := base.placed + [popped[0]]));
      PackFromStep(popped, k, current, draws, sectors, time, stockLast);
      PackFromPlaced(popped[1..], k + 1, next, draws, sectors, time, stockLast);
      var rest := PackFrom(popped[1..], k + 1, next, draws, sectors, time, stockLast).value;
      var left := if begin then Close(current, time == 0.0) else [];
      var held := if current.Some? then current.value.placed else [];
      assert Placed(left) + next.value.placed == held + [popped[0]] by {
        PlacedClose(current, time == 0.0);
      }
      PlacedAppend(left, rest);
      AppendAssoc(Placed(left), next.value.placed, popped[1..]);
      AppendAssoc(held, [popped[0]], popped[1..]);
      assert [popped[0]] + popped[1..] == popped;
    }
  }

  lemma AppendAssoc<T>(a: seq<T>, b: seq<T>, c: seq<T>)
    ensures (a + b) + c == a + (b + c)
  {
  }


  lemma PlacedClose(current: Option<FactoryPlan>, stocked: bool)
    ensures Placed(Close(current, stocked)) == if current.Some? then current.value.placed else []
  {
    if current.Some? {
      assert Close(current, stocked)[1..] == [];
    }
  }


  /** Every factory holds one to three production modules (a fourth would
      make more than six modules in all) and sits in an owned sector. */
  lemma {:induction false} PackFromShape(popped: seq<string>, k: nat, current: Option<FactoryPlan>, draws: seq<Draw>,
                                         sectors: seq<int>, time: real, stockLast: bool)
    requires k + |popped| <= |draws| && |sectors| > 0 && PicksInRange(draws, |sectors|)
    requires current.Some? ==> current.value.sectorId in sectors && 1 <= |current.value.placed| <= 3
    ensures var r := PackFrom(popped, k, current, draws, sectors, time, stockLast).value;
      forall i :: 0 <= i < |r| ==> 1 <= |r[i].placed| <= 3 && r[i].sectorId in sectors
    decreases |popped|
  {
    if |popped| > 0 {
      var begin := Begins(current, draws[k].split);
      var base := Target(current, begin, sectors[draws[k].pick]);
      var next := Some(base.(placed := base.placed + [popped[0]]));
      PackFromStep(popped, k, current, draws, sectors, time, stockLast);
      PackFromShape(popped[1..], k + 1, next, draws, sectors, time, stockLast);
      assert !begin ==> |current.value.placed| <= 2;
    }
  }

  /** The loop makes at least one factory unless it has nothing to do. */
  lemma {:induction false} PackFromNonEmpty(popped: seq<string>, k: nat, current: Option<FactoryPlan>, draws: seq<Draw>,
                                            sectors: seq<int>, time: real, stockLast: bool)
    requires k + |popped| <= |draws| && |sectors| > 0 && PicksInRange(draws, |sectors|)
    requires current.Some? ==> current.value.sectorId in sectors
    ensures |PackFrom(popped, k, current, draws, sectors, time, stockLast).value| == 0 <==> current.None? && |popped| == 0
    decreases |popped|
  {
    if |popped| > 0 {
      var begin := Begins(current, draws[k].split);
      var base := Target(current, begin, sectors[draws[k].pick]);
      var next := Some(base.(placed := base.placed + [popped[0]]));
      PackFromStep(popped, k, current, draws, sectors, time, stockLast);
      PackFromNonEmpty(popped[1..], k + 1, next, draws, sectors, time, stockLast);
    }
  }

  /** Every factory but the last is stocked exactly when the game is at
      time 0; the last one also needs `stockLast`. */
  lemma {:induction false} PackFromStocked(popped: seq<string>, k: nat, current: Option<FactoryPlan>, draws: seq<Draw>,
                                           sectors: seq<int>, time: real, stockLast: bool)
    requires k + |popped| <= |draws| && |sectors| > 0 && PicksInRange(draws, |sectors|)
    requires current.Some? ==> current.value.sectorId in sectors
    ensures StockedAs(PackFrom(popped, k, current, draws, sectors, time, stockLast).value, time == 0.0, stockLast && time == 0.0)
    decreases |popped|
  {
    if |popped| > 0 {
      var begin := Begins(current, draws[k].split);
      var base := Target(current, begin, sectors[draws[k].pick]);
      var next := Some(base.(placed := base.placed + [popped[0]]));
      PackFromStep(popped, k, current, draws, sectors, time, stockLast);
      PackFromStocked(popped[1..], k + 1, next, draws, sectors, time, stockLast);
      PackFromNonEmpty(popped[1..], k + 1, next, draws, sectors, time, stockLast);
      var rest := PackFrom(popped[1..], k + 1, next, draws, sectors, time, stockLast).value;
      StockedAppend(if begin then Close(current, time == 0.0) else [], rest, time == 0.0, stockLast && time == 0.0);
    }
  }

  /** Every factory but the last is stocked as `most` says, the last as
      `last` says. */
  predicate StockedAs(ps: seq<FactoryPlan>, most: bool, last: bool) {
    && (forall i :: 0 <= i < |ps| - 1 ==> ps[i].stocked == most)
    && (|ps| > 0 ==> ps[|ps| - 1].stocked == last)
  }

  lemma StockedAppend(left: seq<FactoryPlan>, rest: seq<FactoryPlan>, most: bool, last: bool)
    requires forall i :: 0 <= i < |left| ==> left[i].stocked == most
    requires |rest| > 0 && StockedAs(rest, most, last)
    ensures StockedAs(left + rest, most, last)
  {
  }

  /** The build queue is emptied from its end. */
  function Reverse(xs: seq<string>): (r: seq<string>)
    ensures |r| == |xs| && forall i :: 0 <= i < |xs| ==> r[i] == xs[|xs| - 1 - i]
    ensures multiset(r) == multiset(xs)
  {
    if |xs| == 0 then [] else
      assert xs == xs[..|xs| - 1] + [xs[|xs| - 1]];
      [xs[|xs| - 1]] + Reverse(xs[..|xs| - 1])
  }

  /** The packing as written (lines 238-284): the factory still open when
      the queue runs out is never stocked. */
  function PackAsWritten(queue: seq<string>, split: nat -> real, picks: nat -> nat, sectors: seq<int>, time: real): (r: Result<seq<FactoryPlan>>)
    requires |sectors| > 0 ==> forall i :: picks(i) < |sectors|
    ensures r.Failure? <==> |queue| > 0 && |sectors| == 0
    ensures r.Failure? ==> r.error == TypeError
  {
    PackFrom(Reverse(queue), 0, None, Draws(split, picks, |queue|), sectors, time, false)
  }

  /** The packing with every factory stocked, as the mining complexes and
      habitats are. */
  function Pack(queue: seq<string>, split: nat -> real, picks: nat -> nat, sectors: seq<int>, time: real): (r: Result<seq<FactoryPlan>>)
    requires |sectors| > 0 ==> forall i :: picks(i) < |sectors|
    ensures r.Failure? <==> |queue| > 0 && |sectors| == 0
    ensures r.Failure? ==> r.error == TypeError
  {
    PackFrom(Reverse(queue), 0, None, Draws(split, picks, |queue|), sectors, time, true)
  }

  /** As written, at the start of a game the last factory gets no starting
      commodities, although every other planned facility does: a single
      picked module gives a single factory, unstocked. */
  lemma LastFactoryUnstocked(slug: string, split: nat -> real, picks: nat -> nat, sectors: seq<int>)
    requires |sectors| > 0 && forall i :: picks(i) < |sectors|
    ensures PackAsWritten([slug], split, picks, sectors, 0.0).Success?
    ensures var ps := PackAsWritten([slug], split, picks, sectors, 0.0).value;
      |ps| == 1 && !ps[0].stocked
  {
    assert PicksInRange(Draws(split, picks, 1), |sectors|);
    PackFromPlaced(Reverse([slug]), 0, None, Draws(split, picks, 1), sectors, 0.0, false);
    PackFromNonEmpty(Reverse([slug]), 0, None, Draws(split, picks, 1), sectors, 0.0, false);
    PackFromStocked(Reverse([slug]), 0, None, Draws(split, picks, 1), sectors, 0.0, false);
    var ps := PackAsWritten([slug], split, picks, sectors, 0.0).value;
    assert Placed(ps) == [slug];
  }

  /** With the stocking corrected, at the start of a game every factory
      receives starting commodities; later, none does. */
  lemma PackStocksEveryFactory(queue: seq<string>, split: nat -> real, picks: nat -> nat, sectors: seq<int>, time: real)
    requires |sectors| > 0 && forall i :: picks(i) < |sectors|
    ensures var ps := Pack(queue, split, picks, sectors, time).value;
      forall i :: 0 <= i < |ps| ==> ps[i].stocked == (time == 0.0)
  {
    assert PicksInRange(Draws(split, picks, |queue|), |sectors|);
    PackFromStocked(Reverse(queue), 0, None, Draws(split, picks, |queue|), sectors, time, true);
  }

  /** As written, every factory planned at time 0 is stocked except the
      last, which never is; later, none is. */
  lemma PackAsWrittenStocks(queue: seq<string>, split: nat -> real, picks: nat -> nat, sectors: seq<int>, time: real)
    requires |sectors| > 0 && forall i :: picks(i) < |sectors|
    ensures var ps := PackAsWritten(queue, split, picks, sectors, time).value;
      forall i :: 0 <= i < |ps| ==> ps[i].stocked == (time == 0.0 && i < |ps| - 1)
  {
    assert PicksInRange(Draws(split, picks, |queue|), |sectors|);
    PackFromStocked(Reverse(queue), 0, None, Draws(split, picks, |queue|), sectors, time, false);
  }

  /** Each factory holds one to three production modules, so at most
      seven modules in all, and sits in one of the faction's sectors. */
  lemma FactoriesHoldAtMostThree(queue: seq<string>, split: nat -> real, picks: nat -> nat, sectors: seq<int>, time: real)
    requires |sectors| > 0 && forall i :: picks(i) < |sectors|
    ensures var ps := PackAsWritten(queue, split, picks, sectors, time).value;
      forall i :: 0 <= i < |ps| ==> 1 <= |ps[i].placed| <= 3 && |FactoryModules(ps[i])| <= 7 && ps[i].sectorId in sectors
  {
    assert PicksInRange(Draws(split, picks, |queue|), |sectors|);
    PackFromShape(Reverse(queue), 0, None, Draws(split, picks, |queue|), sectors, time, false);
    var ps := PackAsWritten(queue, split, picks, sectors, time).value;
    assert ps == PackFrom(Reverse(queue), 0, None, Draws(split, picks, |queue|), sectors, time, false).value;
    assert forall i :: 0 <= i < |ps| ==> 1 <= |ps[i].placed| <= 3;
    assert forall i :: 0 <= i < |ps| ==> ps[i].sectorId in sectors;
    assert forall i :: 0 <= i < |ps| ==> |FactoryModules(ps[i])| == 1 + 2 * |ps[i].placed|;
  }

  /** Packing places every queued module exactly once, in the order the
      queue is popped: the factories hold the queue's modules, no more and
      no fewer. */
  lemma PackPlacesEveryModule(queue: seq<string>, split: nat -> real, picks: nat -> nat, sectors: seq<int>, time: real)
    requires |sectors| > 0 && forall i :: picks(i) < |sectors|
    ensures Placed(PackAsWritten(queue, split, picks, sectors, time).value) == Reverse(queue)
    ensures multiset(Placed(PackAsWritten(queue, split, picks, sectors, time).value)) == multiset(queue)
  {
    assert PicksInRange(Draws(split, picks, |queue|), |sectors|);
    PackFromPlaced(Reverse(queue), 0, None, Draws(split, picks, |queue|), sectors, time, false);
  }

  // ---------------------------------------------------------------------
  // Mining complexes (lines 90-147)
  // ---------------------------------------------------------------------

  /** One owned sector as the mining planner sees it: the largest amount
      of each commodity its fields hold (`getSectorResources(sector, 1)`),
      and how much of each the faction's facilities in it already consume. */
  datatype SectorCtx = SectorCtx(id: int, resourceMax: map<Commodity, real>, usage: map<Commodity, real>)

  predicate SectorValid(s: SectorCtx) {
    Total(s.resourceMax) && Total(s.usage)
  }

  /** A production blueprint whose recipe consumes a (truthy) amount of
      `c`. */
  predicate Extracts(b: Blueprint, c: Commodity) {
    b.production && b.pac.Some? && c in b.pac.value && b.pac.value[c].consumes != 0.0
  }

  /** The search of lines 102-104 from position `j` on. */
  function ExtractorFrom(bps: seq<Blueprint>, c: Commodity, j: nat): (r: Option<nat>)
    requires j <= |bps|
    ensures r.Some? ==> j <= r.value < |bps| && Extracts(bps[r.value], c)
    ensures r.Some? ==> forall i :: j <= i < r.value ==> !Extracts(bps[i], c)
    ensures r.None? ==> forall i :: j <= i < |bps| ==> !Extracts(bps[i], c)
    decreases |bps| - j
  {
    if j == |bps| then None
    else if Extracts(bps[j], c) then Some(j)
    else ExtractorFrom(bps, c, j + 1)
  }

  /** The module a mining complex for `c` is built from: the first of the
      faction's production blueprints that consumes `c`. */
  function Extractor(bps: seq<Blueprint>, c: Commodity): (r: Option<nat>)
    ensures r.Some? ==> r.value < |bps| && Extracts(bps[r.value], c)
    ensures r.Some? ==> forall i :: 0 <= i < r.value ==> !Extracts(bps[i], c)
    ensures r.None? ==> forall i :: 0 <= i < |bps| ==> !Extracts(bps[i], c)
  {
    ExtractorFrom(bps, c, 0)
  }

  /** `canBeMined`: the sector holds some of `c`, the faction does not mine
      it there yet, and it has a blueprint that can. */
  predicate CanBeMined(s: SectorCtx, bps: seq<Blueprint>, c: Commodity)
    requires SectorValid(s)
  {
    s.resourceMax[c] > 0.0 && s.usage[c] == 0.0 && Extractor(bps, c).Some?
  }

  /** The loop bound of line 127: the resource's maximum over what one
      module consumes in an hour (3600 time units, ten thousand cycles of
      its recipe's consumption). */
  function MiningRatio(max: real, consumes: real): real
    requires consumes != 0.0
  {
    max / ((10000.0 * consumes) / 3600.0)
  }

  /** The loop of lines 125-136 from `i` on: one more pair while `i` is
      below the ratio and below 8. */
  function PairsFrom(ratio: real, i: nat): (n: nat)
    requires i <= 8
    ensures i + n <= 8
    decreases 8 - i
  {
    if i < 8 && (i as real) < ratio then 1 + PairsFrom(ratio, i + 1) else 0
  }

  /** How many container-and-module pairs the complex gets. */
  function Pairs(ratio: real): (n: nat)
    ensures n <= 8
  {
    PairsFrom(ratio, 0)
  }

  /** The loop from `i` on stops at the first count that reaches the ratio
      or 8. */
  lemma {:induction false} PairsFromStops(ratio: real, i: nat)
    requires i <= 8
    ensures i + PairsFrom(ratio, i) ==
      if (i as real) >= ratio then i else if CeilReal(ratio) < 8 then CeilReal(ratio) else 8
    decreases 8 - i
  {
    if i < 8 && (i as real) < ratio {
      PairsFromStops(ratio, i + 1);
    }
  }

  /** The pair count in closed form: the ratio rounded up, at least 0 and
      at most 8. */
  lemma PairsClosedForm(ratio: real)
    ensures Pairs(ratio) == if ratio <= 0.0 then 0 else if CeilReal(ratio) < 8 then CeilReal(ratio) else 8
  {
    PairsFromStops(ratio, 0);
  }

  /** The pair count covers the ratio with nothing to spare, up to the cap
      of 8: it is the least count that reaches the ratio, or 8. */
  lemma PairsCoverRatio(ratio: real)
    ensures Pairs(ratio) == 8 || (Pairs(ratio) as real) >= ratio
    ensures Pairs(ratio) == 0 || ((Pairs(ratio) - 1) as real) < ratio
  {
    PairsClosedForm(ratio);
  }

  /** A planned mining complex: its sector, the commodity, the slug of the
      module that mines it, and the number of pairs. */
  datatype MiningPlan = MiningPlan(sectorId: int, commodity: Commodity, extractor: string, pairs: nat)

  /** The complex's module list: a medium container before each mining
      module, then a small defense. It is stocked after the defense. */
  function MiningModules(p: MiningPlan): (r: seq<string>)
    ensures |r| == 2 * p.pairs + 1 && r[|r| - 1] == "smallDefense"
    ensures forall i :: 0 <= i < p.pairs ==> r[2 * i] == "containerMedium" && r[2 * i + 1] == p.extractor
  {
    Paired("containerMedium", seq(p.pairs, _ => p.extractor)) + ["smallDefense"]
  }

  /** The complex planned for a minable commodity. */
  function MiningPlanFor(s: SectorCtx, bps: seq<Blueprint>, c: Commodity): (p: MiningPlan)
    requires SectorValid(s) && CanBeMined(s, bps, c)
  {
    var b := bps[Extractor(bps, c).value];
    MiningPlan(s.id, c, b.slug, Pairs(MiningRatio(s.resourceMax[c], b.pac.value[c].consumes)))
  }

  /** `perCommodity(...)` over the commodities `cs`, in order. */
  function MiningPlansOver(s: SectorCtx, bps: seq<Blueprint>, cs: seq<Commodity>): (r: seq<MiningPlan>)
    requires SectorValid(s)
    ensures |r| <= |cs|
  {
    if |cs| == 0 then []
    else (if CanBeMined(s, bps, cs[0]) then [MiningPlanFor(s, bps, cs[0])] else []) + MiningPlansOver(s, bps, cs[1..])
  }

  /** `planMiningFacilities(sector, faction)`: at most one complex per
      commodity, each standing in the sector, for a commodity that can be
      mined there. */
  function PlanMining(s: SectorCtx, bps: seq<Blueprint>): (r: seq<MiningPlan>)
    requires SectorValid(s)
    ensures |r| <= |All|
    ensures forall i :: 0 <= i < |r| ==>
      r[i].sectorId == s.id && CanBeMined(s, bps, r[i].commodity) && r[i] == MiningPlanFor(s, bps, r[i].commodity)
  {
    MiningPlansOverSound(s, bps, All);
    MiningPlansOver(s, bps, All)
  }

  /** Every complex planned over `cs` is for a commodity of `cs` that can
      be mined, as `MiningPlanFor` describes. */
  lemma {:induction false} MiningPlansOverSound(s: SectorCtx, bps: seq<Blueprint>, cs: seq<Commodity>)
    requires SectorValid(s)
    ensures forall p :: p in MiningPlansOver(s, bps, cs) ==>
      p.commodity in cs && CanBeMined(s, bps, p.commodity) && p == MiningPlanFor(s, bps, p.commodity)
  {
    if |cs| > 0 {
      MiningPlansOverSound(s, bps, cs[1..]);
    }
  }

  /** Every commodity of `cs` that can be mined gets a complex. */
  lemma {:induction false} MiningPlansOverComplete(s: SectorCtx, bps: seq<Blueprint>, cs: seq<Commodity>, c: Commodity)
    requires SectorValid(s) && c in cs && CanBeMined(s, bps, c)
    ensures exists p :: p in MiningPlansOver(s, bps, cs) && p.commodity == c
  {
    var head := if CanBeMined(s, bps, cs[0]) then [MiningPlanFor(s, bps, cs[0])] else [];
    assert MiningPlansOver(s, bps, cs) == head + MiningPlansOver(s, bps, cs[1..]);
    if c == cs[0] {
      assert head[0] in MiningPlansOver(s, bps, cs);
    } else {
      MiningPlansOverComplete(s, bps, cs[1..], c);
    }
  }

  /** No two plans are for the same commodity. */
  predicate Distinct(r: seq<MiningPlan>) {
    forall i, j :: 0 <= i < j < |r| ==> r[i].commodity != r[j].commodity
  }

  /** Over distinct commodities, no commodity gets two complexes. */
  lemma {:induction false} MiningPlansOverDistinct(s: SectorCtx, bps: seq<Blueprint>, cs: seq<Commodity>)
    requires SectorValid(s)
    requires forall i, j :: 0 <= i < j < |cs| ==> cs[i] != cs[j]
    ensures Distinct(MiningPlansOver(s, bps, cs))
  {
    if |cs| > 0 {
      MiningPlansOverDistinct(s, bps, cs[1..]);
      MiningPlansOverSound(s, bps, cs[1..]);
      if CanBeMined(s, bps, cs[0]) {
        assert cs[0] !in cs[1..] by {
          forall k | 0 <= k < |cs| - 1 ensures cs[1..][k] != cs[0] {
            assert cs[1..][k] == cs[k + 1];
          }
        }
        DistinctCons(MiningPlanFor(s, bps, cs[0]), MiningPlansOver(s, bps, cs[1..]));
      }
    }
  }

  lemma DistinctCons(p: MiningPlan, rest: seq<MiningPlan>)
    requires Distinct(rest) && forall q :: q in rest ==> q.commodity != p.commodity
    ensures Distinct([p] + rest)
  {
    var r := [p] + rest;
    forall i, j | 0 <= i < j < |r| ensures r[i].commodity != r[j].commodity {
      assert r[j] == rest[j - 1] && r[j] in rest;
      if i > 0 {
        assert r[i] == rest[i - 1];
      }
    }
  }

  /** In each owned sector the planner founds one mining complex for every
      commodity the sector holds, the faction does not mine there yet and
      one of its blueprints can mine, and no other complex. */
  lemma MiningComplexPerCommodity(s: SectorCtx, bps: seq<Blueprint>)
    requires SectorValid(s)
    ensures var r := PlanMining(s, bps);
      && (forall i :: 0 <= i < |r| ==>
            r[i].sectorId == s.id && CanBeMined(s, bps, r[i].commodity) && r[i] == MiningPlanFor(s, bps, r[i].commodity))
      && (forall c :: CanBeMined(s, bps, c) <==> exists i :: 0 <= i < |r| && r[i].commodity == c)
      && (forall i, j :: 0 <= i < j < |r| ==> r[i].commodity != r[j].commodity)
  {
    AllListsEveryCommodityOnce();
    MiningPlansOverSound(s, bps, All);
    MiningPlansOverDistinct(s, bps, All);
    forall c | CanBeMined(s, bps, c) ensures exists p :: p in PlanMining(s, bps) && p.commodity == c {
      MiningPlansOverComplete(s, bps, All, c);
    }
  }

  /** A complex's extractor is the faction's first blueprint that mines its
      commodity, and the complex has as many of it as the sector's reserve
      supports, up to 8, so at most 17 modules. */
  lemma MiningComplexShape(s: SectorCtx, bps: seq<Blueprint>, c: Commodity)
    requires SectorValid(s) && CanBeMined(s, bps, c)
    ensures var p := MiningPlanFor(s, bps, c);
      var k := Extractor(bps, c).value;
      && p.extractor == bps[k].slug && Extracts(bps[k], c)
      && (forall i :: 0 <= i < k ==> !Extracts(bps[i], c))
      && |MiningModules(p)| <= 17
      && (p.pairs == 8 || (p.pairs as real) >= MiningRatio(s.resourceMax[c], bps[k].pac.value[c].consumes))
  {
    var k := Extractor(bps, c).value;
    PairsCoverRatio(MiningRatio(s.resourceMax[c], bps[k].pac.value[c].consumes));
  }

  // ---------------------------------------------------------------------
  // Starting commodities (lines 46-57)
  // ---------------------------------------------------------------------

  /** `Math.floor(quota * random(0.4, 0.7))` for a truthy quota, nothing
      otherwise; `share` is the random draw. */
  function StartingAmount(quota: int, share: real): (r: int)
    ensures quota == 0 ==> r == 0
    ensures 0 <= quota && 0.0 <= share <= 1.0 ==> 0 <= r <= quota
  {
    if quota != 0 then ((quota as real) * share).Floor else 0
  }

  /** The loop of lines 48-56 over the commodities `cs`. */
  function StockOver(cs: seq<Commodity>, s: CommodityStorage, share: Commodity -> real): (r: CommodityStorage)
    requires Holds(s)
    ensures Holds(r) && r.max == s.max && r.quota == s.quota
  {
    if |cs| == 0 then s
    else StockOver(cs[1..], AddStorage(s, cs[0], StartingAmount(s.quota[cs[0]], share(cs[0]))), share)
  }

  /** Over distinct commodities, each listed commodity gains its starting
      amount, on hand and for sale, and the others are untouched. */
  lemma {:induction false} StockOverEffect(cs: seq<Commodity>, s: CommodityStorage, share: Commodity -> real, c: Commodity)
    requires Holds(s)
    requires forall i, j :: 0 <= i < j < |cs| ==> cs[i] != cs[j]
    ensures var r := StockOver(cs, s, share);
      var gain := if c in cs then StartingAmount(s.quota[c], share(c)) else 0;
      r.stored[c] == s.stored[c] + gain && r.availableWares[c] == s.availableWares[c] + gain
  {
    if |cs| > 0 {
      var s1 := AddStorage(s, cs[0], StartingAmount(s.quota[cs[0]], share(cs[0])));
      StockOverEffect(cs[1..], s1, share, c);
      if c == cs[0] {
        assert c !in cs[1..];
      } else {
        assert c in cs <==> c in cs[1..];
      }
    }
  }

  /** `addStartingCommodities(facility)` on the storage as its quotas were
      settled. */
  function StartingCommodities(s: CommodityStorage, share: Commodity -> real): (r: CommodityStorage)
    requires Holds(s)
    ensures Holds(r) && r.max == s.max && r.quota == s.quota
  {
    StockOver(All, s, share)
  }

  /** Every commodity with a quota gains its starting amount, on hand and
      for sale; nothing else changes. */
  lemma StartingStock(s: CommodityStorage, share: Commodity -> real, c: Commodity)
    requires Holds(s)
    ensures StartingCommodities(s, share).stored[c] == s.stored[c] + StartingAmount(s.quota[c], share(c))
    ensures StartingCommodities(s, share).availableWares[c] == s.availableWares[c] + StartingAmount(s.quota[c], share(c))
  {
    AllListsEveryCommodityOnce();
    StockOverEffect(All, s, share, c);
  }

  /** With a draw in [0.4, 0.7), a positive quota yields a starting amount
      between 40% of it (rounded down) and less than the quota. */
  lemma StartingWithinQuota(quota: int, share: real)
    requires 0.4 <= share < 0.7 && quota > 0
    ensures 0 <= StartingAmount(quota, share) < quota
    ensures (StartingAmount(quota, share) as real) > 0.4 * (quota as real) - 1.0
  {
    var x := (quota as real) * share;
    assert 0.4 * (quota as real) <= x < 0.7 * (quota as real);
  }

  /** A freshly built facility (nothing stored) with non-negative quotas
      ends up below every positive quota and empty where there is none. */
  lemma NewFacilityStocksBelowQuota(s: CommodityStorage, share: Commodity -> real, c: Commodity)
    requires Holds(s) && s.stored[c] == 0 && s.quota[c] >= 0
    requires 0.4 <= share(c) < 0.7
    ensures var r := StartingCommodities(s, share);
      (s.quota[c] == 0 ==> r.stored[c] == 0) && (s.quota[c] > 0 ==> 0 <= r.stored[c] < s.quota[c])
  {
    StartingStock(s, share, c);
    if s.quota[c] > 0 {
      StartingWithinQuota(s.quota[c], share(c));
    }
  }

  // ---------------------------------------------------------------------
  // Habitats (lines 149-192)
  // ---------------------------------------------------------------------

  /** A planned habitat: its sector, and whether the draw below 0.2 gave it
      a second defense. */
  datatype HabitatPlan = HabitatPlan(sectorId: int, extraDefense: bool)

  /** The habitat's modules as they are added: a small container, the
      habitat, maybe a defense, and (after stocking) a defense. */
  function HabitatModules(h: HabitatPlan): seq<string> {
    ["containerSmall", "habitat"] + (if h.extraDefense then ["smallDefense"] else []) + ["smallDefense"]
  }

  /** `planHabitats(faction)`: one habitat per owned sector, in query
      order; `roll(i)` is the `Math.random()` draw for the i-th. */
  function PlanHabitats(sectorIds: seq<int>, roll: nat -> real): (r: seq<HabitatPlan>)
    ensures |r| == |sectorIds|
    ensures forall i :: 0 <= i < |r| ==> r[i].sectorId == sectorIds[i] && r[i].extraDefense == (roll(i) < 0.2)
  {
    seq(|sectorIds|, i requires 0 <= i < |sectorIds| => HabitatPlan(sectorIds[i], roll(i) < 0.2))
  }

  /** A habitat has one habitat module, one small container, and one
      defense, or two when it drew the extra one. */
  lemma HabitatModuleCounts(h: HabitatPlan)
    ensures var m := multiset(HabitatModules(h));
      && m["habitat"] == 1 && m["containerSmall"] == 1
      && m["smallDefense"] == (if h.extraDefense then 2 else 1)
      && |m| == |HabitatModules(h)|
  {
    if h.extraDefense {
      assert HabitatModules(h) == ["containerSmall", "habitat"] + ["smallDefense"] + ["smallDefense"];
    } else {
      assert HabitatModules(h) == ["containerSmall", "habitat"] + ["smallDefense"];
    }
  }

  // ---------------------------------------------------------------------
  // planFactories and exec (lines 194-300, 302-319)
  // ---------------------------------------------------------------------

  /** `factionBlueprints.filter(discriminate("type", "production"))`. */
  function ProductionOnly(bps: seq<Blueprint>): (r: seq<Blueprint>)
    ensures forall b :: b in r <==> b in bps && b.production
  {
    if |bps| == 0 then []
    else (if bps[0].production then [bps[0]] else []) + ProductionOnly(bps[1..])
  }

  /** The slugs of the picked modules, which the packing places. */
  function Slugs(ps: seq<Blueprint>): (r: seq<string>)
    ensures |r| == |ps|
  {
    seq(|ps|, i requires 0 <= i < |ps| => ps[i].slug)
  }

  /** Everything the planner reads about one computer faction. The sectors
      it owns come in query order, each with its resources and the usage
      of the faction's facilities there; `totals` are the faction-wide
      usage and production when `planFactories` starts, assumed to count
      the mining complexes and habitats the same tick has just created for
      the faction (the source resets the production query for this at
      core/systems/ai/facilityPlanning.ts:198); nothing in the model ties
      them together. The draws: `roll`
      for the habitats' second defense, `shuffle` for the build queue,
      `split` and `picks` for the packing. */
  datatype FactionCtx = FactionCtx(
    id: int,
    blueprints: seq<Blueprint>,
    stockpiling: real,
    owned: seq<SectorCtx>,
    totals: Totals,
    roll: nat -> real,
    shuffle: seq<string> -> seq<string>,
    split: nat -> real,
    picks: nat -> nat)

  /** The maps are complete and every sector pick names an owned sector. */
  ghost predicate FactionValid(f: FactionCtx) {
    && TotalsValid(f.totals)
    && (forall i :: 0 <= i < |f.owned| ==> SectorValid(f.owned[i]))
    && (|f.owned| > 0 ==> forall i :: f.picks(i) < |f.owned|)
  }

  /** `shuffle` only reorders its input. */
  ghost predicate Reorders(shuffle: seq<string> -> seq<string>) {
    forall xs :: multiset(shuffle(xs)) == multiset(xs)
  }

  function SectorIds(owned: seq<SectorCtx>): (r: seq<int>)
    ensures |r| == |owned| && forall i :: 0 <= i < |owned| ==> r[i] == owned[i].id
  {
    seq(|owned|, i requires 0 <= i < |owned| => owned[i].id)
  }

  /** `planFactories(faction)` as written: the greedy pass over the
      faction's production blueprints, a shuffle, and the packing, which
      leaves the last factory unstocked. `fuel` bounds the pass, which the source runs until nothing
      is buildable. */
  function PlanFactories(f: FactionCtx, time: real, fuel: nat): (r: Result<seq<FactoryPlan>>)
    requires FactionValid(f)
    ensures r.Failure? <==>
      var g := Greedy(ProductionOnly(f.blueprints), f.totals, f.stockpiling, fuel);
      g.Failure? || (|f.shuffle(Slugs(g.value.0))| > 0 && |f.owned| == 0)
  {
    var g :- Greedy(ProductionOnly(f.blueprints), f.totals, f.stockpiling, fuel);
    PackAsWritten(f.shuffle(Slugs(g.0)), f.split, f.picks, SectorIds(f.owned), time)
  }

  /** The factories hold exactly the modules the greedy pass picked, each
      once, and every one sits in an owned sector; a faction with no
      sector gets no factory. */
  lemma FactoriesHoldThePicks(f: FactionCtx, time: real, fuel: nat)
    requires FactionValid(f) && Reorders(f.shuffle) && PlanFactories(f, time, fuel).Success?
    ensures var picks := Greedy(ProductionOnly(f.blueprints), f.totals, f.stockpiling, fuel).value.0;
      var ps := PlanFactories(f, time, fuel).value;
      && multiset(Placed(ps)) == multiset(Slugs(picks))
      && forall i :: 0 <= i < |ps| ==> ps[i].sectorId in SectorIds(f.owned)
  {
    var picks := Greedy(ProductionOnly(f.blueprints), f.totals, f.stockpiling, fuel).value.0;
    var queue := f.shuffle(Slugs(picks));
    assert multiset(queue) == multiset(Slugs(picks));
    if |f.owned| > 0 {
      PackPlacesEveryModule(queue, f.split, f.picks, SectorIds(f.owned), time);
      FactoriesHoldAtMostThree(queue, f.split, f.picks, SectorIds(f.owned), time);
    } else {
      assert |queue| == 0;
    }
  }

  /** The factory pass throws only when the greedy pass runs out of fuel,
      or when it picked modules for a faction that owns no sector. */
  lemma FactoriesNeedASector(f: FactionCtx, time: real, fuel: nat)
    requires FactionValid(f) && Reorders(f.shuffle)
    ensures PlanFactories(f, time, fuel).Failure? <==>
      var g := Greedy(ProductionOnly(f.blueprints), f.totals, f.stockpiling, fuel);
      g.Failure? || (|g.value.0| > 0 && |f.owned| == 0)
  {
    var g := Greedy(ProductionOnly(f.blueprints), f.totals, f.stockpiling, fuel);
    if g.Success? {
      assert |multiset(f.shuffle(Slugs(g.value.0)))| == |multiset(Slugs(g.value.0))|;
    }
  }

  /** Everything planned for one faction, in the order it is built. */
  datatype FactionPlan = FactionPlan(faction: int, mining: seq<MiningPlan>, habitats: seq<HabitatPlan>, factories: seq<FactoryPlan>)

  /** The mining complexes of every owned sector, sector by sector. */
  function MiningForSectors(owned: seq<SectorCtx>, bps: seq<Blueprint>): (r: seq<MiningPlan>)
    requires forall i :: 0 <= i < |owned| ==> SectorValid(owned[i])
    ensures |r| <= |All| * |owned|
  {
    if |owned| == 0 then [] else PlanMining(owned[0], bps) + MiningForSectors(owned[1..], bps)
  }

  /** Each complex is one `PlanMining` gave for an owned sector: in that
      sector, for a commodity that can be mined there. */
  lemma {:induction false} MiningForSectorsFrom(owned: seq<SectorCtx>, bps: seq<Blueprint>, p: MiningPlan)
    requires forall i :: 0 <= i < |owned| ==> SectorValid(owned[i])
    requires p in MiningForSectors(owned, bps)
    ensures exists i :: 0 <= i < |owned| && p.sectorId == owned[i].id && CanBeMined(owned[i], bps, p.commodity)
  {
    if p in PlanMining(owned[0], bps) {
      MiningComplexPerCommodity(owned[0], bps);
    } else {
      MiningForSectorsFrom(owned[1..], bps, p);
      var i :| 0 <= i < |owned| - 1 && p.sectorId == owned[1..][i].id && CanBeMined(owned[1..][i], bps, p.commodity);
      assert owned[1..][i] == owned[i + 1];
    }
  }

  /** The per-faction part of `exec()`: mining complexes for each owned
      sector, then habitats, then factories. A factory pass that throws
      ends the plan. */
  function PlanFaction(f: FactionCtx, time: real, fuel: nat): (r: Result<FactionPlan>)
    requires FactionValid(f)
    ensures r.Success? <==> PlanFactories(f, time, fuel).Success?
    ensures r.Failure? ==> r.error == PlanFactories(f, time, fuel).error
    ensures r.Success? ==> r.value.faction == f.id && |r.value.habitats| == |f.owned|
  {
    var factories :- PlanFactories(f, time, fuel);
    Success(FactionPlan(f.id, MiningForSectors(f.owned, f.blueprints), PlanHabitats(SectorIds(f.owned), f.roll), factories))
  }

  /** `this.sim.queries.ai.get().forEach(...)`: every faction in query
      order; the first that throws stops the pass. */
  function PlanAll(fs: seq<FactionCtx>, time: real, fuel: nat): (r: Result<seq<FactionPlan>>)
    requires forall i :: 0 <= i < |fs| ==> FactionValid(fs[i])
    ensures r.Success? <==> forall i :: 0 <= i < |fs| ==> PlanFaction(fs[i], time, fuel).Success?
    ensures r.Success? ==> |r.value| == |fs| && forall i :: 0 <= i < |fs| ==> r.value[i] == PlanFaction(fs[i], time, fuel).value
    ensures r.Failure? ==> exists i :: 0 <= i < |fs| && PlanFaction(fs[i], time, fuel) == Failure(r.error)
  {
    var rs := seq(|fs|, i requires 0 <= i < |fs| && FactionValid(fs[i]) => PlanFaction(fs[i], time, fuel));
    assert forall i :: 0 <= i < |fs| ==> rs[i] == PlanFaction(fs[i], time, fuel);
    Collect(rs)
  }

  /** The system registers the `plan` cooldown when it starts. */
  const InitialCooldowns: CD.Cooldowns := CD.Add(CD.Empty, "plan")

  /** Whether `exec()` plans on this tick: the cooldown is ready and the
      game has just begun. */
  predicate Plans(cooldowns: CD.Cooldowns, delta: real, time: real) {
    CD.CanUse(CD.Update(cooldowns, delta), "plan") && time == 0.0
  }

  /** `exec()` on a tick of `delta` time units at game time `time`: when
      it plans, it starts the cooldown at 500 and plans every computer
      faction. The cooldown is started before the factions are planned, so
      a tick whose planning throws still spends it. */
  function Exec(cooldowns: CD.Cooldowns, delta: real, time: real, fs: seq<FactionCtx>, fuel: nat): (r: CD.Tick<seq<FactionPlan>>)
    requires forall i :: 0 <= i < |fs| ==> FactionValid(fs[i])
    ensures !Plans(cooldowns, delta, time) ==> r == CD.Tick(CD.Update(cooldowns, delta), Success([]))
    ensures Plans(cooldowns, delta, time) ==>
      && r.cooldowns == CD.Use(CD.Update(cooldowns, delta), "plan", 500.0)
      && !CD.CanUse(r.cooldowns, "plan")
      && r.outcome == PlanAll(fs, time, fuel)
  {
    var cd := CD.Update(cooldowns, delta);
    if !Plans(cooldowns, delta, time) then CD.Tick(cd, Success([]))
    else CD.Tick(CD.Use(cd, "plan", 500.0), PlanAll(fs, time, fuel))
  }

  /** Planning happens only at game time 0, and right after a planning
      tick, whether its planning threw or not, the next tick plans only
      when 500 time units have passed and the clock is still at 0. */
  lemma PlansOnceAtStart(cooldowns: CD.Cooldowns, delta: real, time: real, fs: seq<FactionCtx>, fuel: nat,
                         delta2: real, time2: real)
    requires forall i :: 0 <= i < |fs| ==> FactionValid(fs[i])
    ensures time != 0.0 ==> Exec(cooldowns, delta, time, fs, fuel).outcome == Success([])
    ensures Plans(cooldowns, delta, time) ==>
      (Plans(Exec(cooldowns, delta, time, fs, fuel).cooldowns, delta2, time2) <==> delta2 >= 500.0 && time2 == 0.0)
  {
    if Plans(cooldowns, delta, time) {
      CD.UsableAfterDuration(CD.Update(cooldowns, delta), "plan", 500.0, delta2);
    }
  }

  /** Every facility of a faction's plan sits in a sector the faction
      owns, one habitat per sector; at game time 0 every factory but the
      last is stocked, and the last never is. */
  lemma PlanFactionPlacement(f: FactionCtx, time: real, fuel: nat, i: nat)
    requires FactionValid(f) && Reorders(f.shuffle) && PlanFaction(f, time, fuel).Success?
    ensures var plan := PlanFaction(f, time, fuel).value;
      && plan.faction == f.id && |plan.habitats| == |f.owned|
      && (i < |plan.factories| ==>
            plan.factories[i].stocked == (time == 0.0 && i < |plan.factories| - 1)
            && plan.factories[i].sectorId in SectorIds(f.owned))
      && (i < |plan.habitats| ==> plan.habitats[i].sectorId == f.owned[i].id)
      && (i < |plan.mining| ==> exists j :: 0 <= j < |f.owned| && plan.mining[i].sectorId == f.owned[j].id)
  {
    var plan := PlanFaction(f, time, fuel).value;
    if i < |plan.factories| {
      FactoriesHoldThePicks(f, time, fuel);
      var picks := Greedy(ProductionOnly(f.blueprints), f.totals, f.stockpiling, fuel).value.0;
      PackAsWrittenStocks(f.shuffle(Slugs(picks)), f.split, f.picks, SectorIds(f.owned), time);
    }
    if i < |plan.mining| {
      MiningForSectorsFrom(f.owned, f.blueprints, plan.mining[i]);
    }
  }

  /** In a plan `exec()` makes, each entry belongs to the faction in the
      same position, every factory but the last is stocked, and every
      facility sits in a sector its faction owns. */
  lemma ExecPlansStockedAndOwned(cooldowns: CD.Cooldowns, delta: real, time: real, fs: seq<FactionCtx>, fuel: nat,
                                 k: nat, i: nat)
    requires forall j :: 0 <= j < |fs| ==> FactionValid(fs[j]) && Reorders(fs[j].shuffle)
    requires Exec(cooldowns, delta, time, fs, fuel).outcome.Success?
    requires k < |Exec(cooldowns, delta, time, fs, fuel).outcome.value|
    ensures var plan := Exec(cooldowns, delta, time, fs, fuel).outcome.value[k];
      && k < |fs| && plan.faction == fs[k].id
      && (i < |plan.factories| ==>
            plan.factories[i].stocked == (i < |plan.factories| - 1) && plan.factories[i].sectorId in SectorIds(fs[k].owned))
      && (i < |plan.habitats| ==> plan.habitats[i].sectorId == fs[k].owned[i].id)
      && (i < |plan.mining| ==> exists j :: 0 <= j < |fs[k].owned| && plan.mining[i].sectorId == fs[k].owned[j].id)
  {
    assert Plans(cooldowns, delta, time);
    assert Exec(cooldowns, delta, time, fs, fuel).outcome.value[k] == PlanFaction(fs[k], time, fuel).value;
    PlanFactionPlacement(fs[k], time, fuel, i);
  }
}
