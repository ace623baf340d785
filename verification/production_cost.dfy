/** `getProductionCost` (core/systems/trading.ts): the cost of a commodity is
    the price of its offer when no module of the facility produces it, and
    otherwise the rounded-up sum, over the first producing module's inputs,
    of each input's own cost scaled by how much of it one unit of output
    takes. The source recurses with no guard against a recipe that consumes
    what it produces; the model recurses on an explicit `fuel`, and running
    out of it stands for the unbounded recursion. */
module ProductionCost {
  import opened Wrappers
  import opened JsNum
  import opened Commodities
  import opened Components
  import opened Entities
  import K = Kinds

  /** The entity carries a `production` component. */
  predicate HasRecipe(m: Entity) {
    K.Production in m.components && m.components[K.Production].Production?
  }

  function RecipeOf(m: Entity): map<Commodity, Pac>
    requires HasRecipe(m)
  {
    m.components[K.Production].recipe.pac
  }

  /** Every production module's recipe names every commodity. */
  predicate RecipesTotal(ms: seq<Entity>) {
    forall i :: 0 <= i < |ms| && HasRecipe(ms[i]) ==> Total(RecipeOf(ms[i]))
  }

  /** `m.cp.production?.pac[c].produces` is truthy. */
  predicate Produces(m: Entity, c: Commodity) {
    HasRecipe(m) && c in RecipeOf(m) && RecipeOf(m)[c].produces != 0.0
  }

  /** `modules.ids.map(sim.getOrThrow)`: every module id resolved, or the
      error for the first id with no entity. */
  function Resolve(es: map<int, Entity>, ids: seq<int>): (r: Result<seq<Entity>>)
    ensures r.Success? <==> forall i :: 0 <= i < |ids| ==> ids[i] in es
    ensures r.Success? ==> |r.value| == |ids| && forall i :: 0 <= i < |ids| ==> r.value[i] == es[ids[i]]
    ensures r.Failure? ==> r.error.MissingEntityError? && r.error.id in ids && r.error.id !in es
    decreases |ids|
  {
    if |ids| == 0 then Success([])
    else if ids[0] !in es then Failure(MissingEntityError(ids[0]))
    else
      var rest :- Resolve(es, ids[1..]);
      Success([es[ids[0]]] + rest)
  }

  /** `.find(m => m.cp.production?.pac[c].produces)`: the position of the
      first module producing `c`. */
  function FirstProducer(ms: seq<Entity>, c: Commodity): (r: Option<nat>)
    ensures r.None? <==> forall i :: 0 <= i < |ms| ==> !Produces(ms[i], c)
    ensures r.Some? ==> r.value < |ms| && Produces(ms[r.value], c)
    ensures r.Some? ==> forall j :: 0 <= j < r.value ==> !Produces(ms[j], c)
    decreases |ms|
  {
    if |ms| == 0 then None
    else if Produces(ms[0], c) then Some(0)
    else match FirstProducer(ms[1..], c)
      case None => None
      case Some(i) => Some(i + 1)
  }

  /** The cost of `c`, with at most `fuel` nested calls. */
  function Cost(ms: seq<Entity>, offers: map<Commodity, Offer>, c: Commodity, fuel: nat): (r: Result<Num>)
    requires RecipesTotal(ms)
    ensures fuel == 0 ==> r == Failure(OutOfFuel)
    ensures r.Success? && FirstProducer(ms, c).Some? && r.value.Fin? ==> r.value.r.Floor as real == r.value.r
    decreases fuel, 0, 0
  {
    if fuel == 0 then Failure(OutOfFuel)
    else match FirstProducer(ms, c)
      case None => if c in offers then Success(offers[c].price) else Failure(TypeError)
      case Some(i) =>
        var pac := RecipeOf(ms[i]);
        var s :- InputCost(ms, offers, pac, pac[c].produces, All, fuel - 1);
        Success(Ceil(s))
  }

  /** The summed cost of the inputs `cs` of a recipe whose output amount is
      `produces`: an input with a zero `consumes` adds 0, any other adds its
      cost times `consumes / produces`. */
  function InputCost(ms: seq<Entity>, offers: map<Commodity, Offer>, pac: map<Commodity, Pac>, produces: real,
                     cs: seq<Commodity>, fuel: nat): (r: Result<Num>)
    requires RecipesTotal(ms) && Total(pac)
    ensures |cs| == 0 ==> r == Success(Fin(0.0))
    decreases fuel, 1, |cs|
  {
    if |cs| == 0 then Success(Fin(0.0))
    else
      var term :- InputTerm(ms, offers, pac, produces, cs[0], fuel);
      var rest :- InputCost(ms, offers, pac, produces, cs[1..], fuel);
      Success(Add(term, rest))
  }

  /** One input's share of the cost. */
  function InputTerm(ms: seq<Entity>, offers: map<Commodity, Offer>, pac: map<Commodity, Pac>, produces: real,
                     c: Commodity, fuel: nat): (r: Result<Num>)
    requires RecipesTotal(ms) && Total(pac)
    ensures pac[c].consumes == 0.0 ==> r == Success(Fin(0.0))
    decreases fuel, 1, 0
  {
    if pac[c].consumes == 0.0 then Success(Fin(0.0))
    else
      var k :- Cost(ms, offers, c, fuel);
      Success(Div(Mul(k, Fin(pac[c].consumes)), Fin(produces)))
  }

  /** A commodity nobody produces costs exactly its offer price. */
  lemma UnproducedCostsOfferPrice(ms: seq<Entity>, offers: map<Commodity, Offer>, c: Commodity, fuel: nat)
    requires RecipesTotal(ms) && fuel > 0
    requires forall i :: 0 <= i < |ms| ==> !Produces(ms[i], c)
    ensures c in offers ==> Cost(ms, offers, c, fuel) == Success(offers[c].price)
    ensures c !in offers ==> Cost(ms, offers, c, fuel) == Failure(TypeError)
  {
  }

  /** More fuel never changes an answer that did not run out of fuel. */
  lemma {:induction false} CostFuelStable(ms: seq<Entity>, offers: map<Commodity, Offer>, c: Commodity, f: nat, g: nat)
    requires RecipesTotal(ms)
    requires f <= g && Cost(ms, offers, c, f) != Failure(OutOfFuel)
    ensures Cost(ms, offers, c, g) == Cost(ms, offers, c, f)
    decreases f, 0, 0
  {
    match FirstProducer(ms, c)
    case None =>
    case Some(i) =>
      var pac := RecipeOf(ms[i]);
      InputCostFuelStable(ms, offers, pac, pac[c].produces, All, f - 1, g - 1);
  }

  lemma {:induction false} InputCostFuelStable(ms: seq<Entity>, offers: map<Commodity, Offer>, pac: map<Commodity, Pac>,
                                               produces: real, cs: seq<Commodity>, f: nat, g: nat)
    requires RecipesTotal(ms) && Total(pac)
    requires f <= g && InputCost(ms, offers, pac, produces, cs, f) != Failure(OutOfFuel)
    ensures InputCost(ms, offers, pac, produces, cs, g) == InputCost(ms, offers, pac, produces, cs, f)
    decreases f, 1, |cs|
  {
    if |cs| > 0 {
      var c := cs[0];
      if pac[c].consumes != 0.0 {
        CostFuelStable(ms, offers, c, f, g);
      }
      if InputTerm(ms, offers, pac, produces, c, f).Success? {
        InputCostFuelStable(ms, offers, pac, produces, cs[1..], f, g);
      }
    }
  }

  /** `d` is an input of the first module producing `c`. */
  predicate Feeds(ms: seq<Entity>, d: Commodity, c: Commodity)
    requires RecipesTotal(ms)
  {
    FirstProducer(ms, c).Some? && RecipeOf(ms[FirstProducer(ms, c).value])[d].consumes != 0.0
  }

  /** `rank` orders the recipe graph: whatever the first producer of a
      commodity consumes ranks strictly lower than the commodity. */
  predicate Ranked(ms: seq<Entity>, rank: Commodity -> nat)
    requires RecipesTotal(ms)
  {
    forall c, d :: Feeds(ms, d, c) ==> rank(d) < rank(c)
  }

  /** On an acyclic recipe graph, fuel above the commodity's rank is enough:
      the cost never runs out of fuel. */
  lemma {:induction false} RankedCostTerminates(ms: seq<Entity>, offers: map<Commodity, Offer>, rank: Commodity -> nat,
                                                c: Commodity, fuel: nat)
    requires RecipesTotal(ms) && Ranked(ms, rank)
    requires fuel > rank(c)
    ensures Cost(ms, offers, c, fuel) != Failure(OutOfFuel)
    decreases fuel, 0, 0
  {
    if FirstProducer(ms, c).Some? {
      var pac := RecipeOf(ms[FirstProducer(ms, c).value]);
      InputsRankLower(ms, rank, c);
      RankedInputsTerminate(ms, offers, rank, pac, pac[c].produces, All, fuel - 1, rank(c));
      FuelFailureFromInputs(ms, offers, c, fuel);
    }
  }

  /** A produced commodity runs out of fuel only when its inputs do. */
  lemma FuelFailureFromInputs(ms: seq<Entity>, offers: map<Commodity, Offer>, c: Commodity, fuel: nat)
    requires RecipesTotal(ms) && fuel > 0 && FirstProducer(ms, c).Some?
    ensures var pac := RecipeOf(ms[FirstProducer(ms, c).value]);
      InputCost(ms, offers, pac, pac[c].produces, All, fuel - 1) != Failure(OutOfFuel) ==>
      Cost(ms, offers, c, fuel) != Failure(OutOfFuel)
  {
  }

  lemma InputsRankLower(ms: seq<Entity>, rank: Commodity -> nat, c: Commodity)
    requires RecipesTotal(ms) && Ranked(ms, rank) && FirstProducer(ms, c).Some?
    ensures forall d :: RecipeOf(ms[FirstProducer(ms, c).value])[d].consumes != 0.0 ==> rank(d) < rank(c)
  {
    forall d | RecipeOf(ms[FirstProducer(ms, c).value])[d].consumes != 0.0 ensures rank(d) < rank(c) {
      assert Feeds(ms, d, c);
    }
  }

  lemma {:induction false} RankedInputsTerminate(ms: seq<Entity>, offers: map<Commodity, Offer>, rank: Commodity -> nat,
                                                 pac: map<Commodity, Pac>, produces: real, cs: seq<Commodity>,
                                                 fuel: nat, bound: nat)
    requires RecipesTotal(ms) && Ranked(ms, rank) && Total(pac)
    requires forall d :: pac[d].consumes != 0.0 ==> rank(d) < bound
    requires fuel >= bound
    ensures InputCost(ms, offers, pac, produces, cs, fuel) != Failure(OutOfFuel)
    decreases fuel, 1, |cs|
  {
    if |cs| > 0 {
      var d := cs[0];
      if pac[d].consumes != 0.0 {
        RankedCostTerminates(ms, offers, rank, d, fuel);
      }
      RankedInputsTerminate(ms, offers, rank, pac, produces, cs[1..], fuel, bound);
    }
  }

  /** A commodity whose first producer also consumes it never gets a cost:
      every call fails, as the unguarded recursion of the source never
      returns. */
  lemma {:induction false} SelfConsumingNeverCosts(ms: seq<Entity>, offers: map<Commodity, Offer>, c: Commodity, fuel: nat)
    requires RecipesTotal(ms)
    requires Feeds(ms, c, c)
    ensures Cost(ms, offers, c, fuel).Failure?
    decreases fuel
  {
    if fuel > 0 {
      var pac := RecipeOf(ms[FirstProducer(ms, c).value]);
      SelfConsumingNeverCosts(ms, offers, c, fuel - 1);
      assert All[PositionOf(c)] == c;
      FailingInputFails(ms, offers, pac, pac[c].produces, All, c, fuel - 1);
    }
  }

  /** A failing input makes the whole sum fail. */
  lemma {:induction false} FailingInputFails(ms: seq<Entity>, offers: map<Commodity, Offer>, pac: map<Commodity, Pac>,
                                             produces: real, cs: seq<Commodity>, c: Commodity, fuel: nat)
    requires RecipesTotal(ms) && Total(pac)
    requires c in cs && pac[c].consumes != 0.0 && Cost(ms, offers, c, fuel).Failure?
    ensures InputCost(ms, offers, pac, produces, cs, fuel).Failure?
    decreases |cs|
  {
    if cs[0] != c {
      FailingInputFails(ms, offers, pac, produces, cs[1..], c, fuel);
    }
  }

  /** The recipe of each module, in order, and `None` for one without. */
  function Recipes(ms: seq<Entity>): (r: seq<Option<map<Commodity, Pac>>>)
    ensures |r| == |ms|
    ensures forall i :: 0 <= i < |ms| ==> r[i] == if HasRecipe(ms[i]) then Some(RecipeOf(ms[i])) else None
  {
    seq(|ms|, i requires 0 <= i < |ms| => if HasRecipe(ms[i]) then Some(RecipeOf(ms[i])) else None)
  }

  /** Modules with the same recipes, position by position, agree on whether
      the first produces `c`, and have the same recipes after the first. */
  lemma SameRecipesTail(ms: seq<Entity>, ms2: seq<Entity>, c: Commodity)
    requires Recipes(ms) == Recipes(ms2) && |ms| > 0
    ensures Produces(ms2[0], c) == Produces(ms[0], c)
    ensures Recipes(ms[1..]) == Recipes(ms2[1..])
  {
    assert Recipes(ms)[0] == Recipes(ms2)[0];
    var r, r2 := Recipes(ms[1..]), Recipes(ms2[1..]);
    forall i | 0 <= i < |r| ensures r[i] == r2[i] {
      assert ms[1..][i] == ms[i + 1] && ms2[1..][i] == ms2[i + 1];
      assert Recipes(ms)[i + 1] == Recipes(ms2)[i + 1];
    }
  }

  lemma SameRecipesTotal(ms: seq<Entity>, ms2: seq<Entity>)
    requires RecipesTotal(ms) && Recipes(ms) == Recipes(ms2)
    ensures RecipesTotal(ms2)
  {
    forall i | 0 <= i < |ms2| && HasRecipe(ms2[i]) ensures Total(RecipeOf(ms2[i])) {
      assert Recipes(ms)[i] == Recipes(ms2)[i];
    }
  }

  /** The first producer is found from the recipes alone. */
  lemma {:induction false} FirstProducerSameRecipes(ms: seq<Entity>, ms2: seq<Entity>, c: Commodity)
    requires Recipes(ms) == Recipes(ms2)
    ensures FirstProducer(ms2, c) == FirstProducer(ms, c)
    decreases |ms|
  {
    if |ms| > 0 {
      SameRecipesTail(ms, ms2, c);
      FirstProducerSameRecipes(ms[1..], ms2[1..], c);
    }
  }

  /** A commodity's cost depends on the modules' recipes only: entities with
      the same recipes give the same cost or the same failure. */
  lemma {:induction false} CostSameRecipes(ms: seq<Entity>, ms2: seq<Entity>, offers: map<Commodity, Offer>,
                                           c: Commodity, fuel: nat)
    requires RecipesTotal(ms) && Recipes(ms) == Recipes(ms2)
    ensures RecipesTotal(ms2) && Cost(ms2, offers, c, fuel) == Cost(ms, offers, c, fuel)
    decreases fuel, 0, 1
  {
    SameRecipesTotal(ms, ms2);
    FirstProducerSameRecipes(ms, ms2, c);
    if fuel > 0 && FirstProducer(ms, c).Some? {
      SameRecipeAt(ms, ms2, FirstProducer(ms, c).value);
      CostFromInputs(ms, ms2, offers, c, fuel);
    }
  }

  /** Modules with the same recipes hold, at each position, the same
      recipe. */
  lemma SameRecipeAt(ms: seq<Entity>, ms2: seq<Entity>, i: nat)
    requires Recipes(ms) == Recipes(ms2) && i < |ms| && HasRecipe(ms[i])
    ensures i < |ms2| && HasRecipe(ms2[i]) && RecipeOf(ms2[i]) == RecipeOf(ms[i])
  {
    assert Recipes(ms)[i] == Recipes(ms2)[i];
  }

  /** Two module lists with the same recipes and the same first producer
      of `c` give `c` the same cost: its inputs cost the same. */
  lemma {:induction false} CostFromInputs(ms: seq<Entity>, ms2: seq<Entity>, offers: map<Commodity, Offer>,
                                          c: Commodity, fuel: nat)
    requires RecipesTotal(ms) && RecipesTotal(ms2) && Recipes(ms) == Recipes(ms2) && fuel > 0
    requires FirstProducer(ms, c).Some? && FirstProducer(ms2, c) == FirstProducer(ms, c)
    requires RecipeOf(ms2[FirstProducer(ms, c).value]) == RecipeOf(ms[FirstProducer(ms, c).value])
    ensures Cost(ms2, offers, c, fuel) == Cost(ms, offers, c, fuel)
    decreases fuel, 0, 0
  {
    var pac := RecipeOf(ms[FirstProducer(ms, c).value]);
    var cs, f, p := All, fuel - 1, pac[c].produces;
    InputCostSameRecipes(ms, ms2, offers, pac, p, cs, f);
  }

  /** The same for the summed cost of a recipe's inputs. */
  lemma {:induction false} InputCostSameRecipes(ms: seq<Entity>, ms2: seq<Entity>, offers: map<Commodity, Offer>,
                                                pac: map<Commodity, Pac>, produces: real, cs: seq<Commodity>, fuel: nat)
    requires RecipesTotal(ms) && RecipesTotal(ms2) && Recipes(ms) == Recipes(ms2) && Total(pac)
    ensures InputCost(ms2, offers, pac, produces, cs, fuel) == InputCost(ms, offers, pac, produces, cs, fuel)
    decreases fuel, 1, |cs|
  {
    if |cs| > 0 {
      if pac[cs[0]].consumes != 0.0 {
        CostSameRecipes(ms, ms2, offers, cs[0], fuel);
      }
      assert InputTerm(ms2, offers, pac, produces, cs[0], fuel) == InputTerm(ms, offers, pac, produces, cs[0], fuel);
      InputCostSameRecipes(ms, ms2, offers, pac, produces, cs[1..], fuel);
    }
  }

  /** Two stores with the same entity ids whose entities hold the same
      recipes. */
  predicate StoresAgree(es: map<int, Entity>, es2: map<int, Entity>) {
    && es2.Keys == es.Keys
    && forall id :: id in es ==>
         HasRecipe(es2[id]) == HasRecipe(es[id]) && (HasRecipe(es[id]) ==> RecipeOf(es2[id]) == RecipeOf(es[id]))
  }

  /** Resolving the same ids in such stores fails alike, or gives modules
      with the same recipes. */
  lemma {:induction false} ResolveSameRecipes(es: map<int, Entity>, es2: map<int, Entity>, ids: seq<int>)
    requires StoresAgree(es, es2)
    ensures Resolve(es2, ids).Failure? == Resolve(es, ids).Failure?
    ensures Resolve(es, ids).Failure? ==> Resolve(es2, ids).error == Resolve(es, ids).error
    ensures Resolve(es, ids).Success? ==> Recipes(Resolve(es2, ids).value) == Recipes(Resolve(es, ids).value)
    decreases |ids|
  {
    if |ids| > 0 && ids[0] in es {
      ResolveSameRecipes(es, es2, ids[1..]);
      if Resolve(es, ids).Success? {
        var ms, ms2 := Resolve(es, ids).value, Resolve(es2, ids).value;
        forall i | 0 <= i < |ms| ensures Recipes(ms2)[i] == Recipes(ms)[i] {
          var id := ids[i];
          assert id in es && ms[i] == es[id] && ms2[i] == es2[id];
        }
      }
    }
  }
}
