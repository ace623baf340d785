/** The trading system (core/systems/trading.ts): per-commodity price
    beliefs that each trading entity revises from its stock, its recent
    trades and the regional average, and the offers it derives from its
    stock, quota, budget and production.

    What the source computes from parts of the program this model does not
    hold comes in as parameters: the regional average price
    (`getAveragePrice`, which needs the unshown `getSectorsInTeleportRange`)
    as `average`, the planned budget (`getPlannedBudget`, economy/utils.ts
    is not part of this model) as `planned`, the uniform draw behind
    `randomInt` as `u`, the values of `settings.global` (settings.ts is not
    part of this model) as a `Settings` record, and the sim time as
    `time`. */
module Trading {
  import opened Wrappers
  import opened JsNum
  import opened Commodities
  import opened Components
  import opened Entities
  import opened Stores
  import opened Pricing
  import PC = ProductionCost
  import CD = Cooldowns
  import K = Kinds

  /** `settings.global.minPrice`, `.maxPrice` and `.maxMineablePrice`. */
  datatype Settings = Settings(minPrice: real, maxPrice: real, maxMineablePrice: real)

  /** The upper clamp of a commodity's belief. */
  function Cap(cfg: Settings, c: Commodity): real {
    if IsMineable(c) then cfg.maxMineablePrice else cfg.maxPrice
  }


  /** The parts of an entity the trading system reads. `production` is the
      compound recipe when the entity has one, `modules` the module ids
      when it has a `modules` component, `productionParts` whether every
      component of `ProductionParts` is present. */
  datatype Trader = Trader(
    id: int,
    trade: TradeState,
    storage: CommodityStorage,
    journal: seq<JournalEntry>,
    budget: real,
    production: Option<map<Commodity, Pac>>,
    modules: Option<seq<int>>,
    shipyard: bool,
    productionParts: bool)

  /** A storage record and a belief for every commodity, and a compound
      recipe entry for every commodity when there is a recipe. */
  predicate Valid(tr: Trader) {
    Holds(tr.storage) && Total(tr.trade.pricing) && (tr.production.Some? ==> Total(tr.production.value))
  }

  /** The production branch of `getOfferedQuantity` narrows the entity to
      these components first. */
  const ProductionParts: seq<K.ComponentKind> :=
    [K.CompoundProduction, K.Budget, K.Docks, K.Position, K.Storage, K.Owner, K.Trade]

  /** A `WithTrade` entity: trade, storage, journal and budget components
      whose contents make a valid trader. */
  predicate IsTrader(e: Entity) {
    && K.Trade in e.components && e.components[K.Trade].Trade?
    && K.Storage in e.components && e.components[K.Storage].Storage?
    && K.Journal in e.components && e.components[K.Journal].Journal?
    && K.Budget in e.components && e.components[K.Budget].Budget?
    && Holds(e.components[K.Storage].storage)
    && Total(e.components[K.Trade].trade.pricing)
    && (K.CompoundProduction in e.components && e.components[K.CompoundProduction].CompoundProduction? ==>
          Total(e.components[K.CompoundProduction].pac))
  }

  function TradeOf(e: Entity): TradeState
    requires IsTrader(e)
  {
    e.components[K.Trade].trade
  }

  /** The compound recipe among the components, if any. */
  function ProductionIn(cs: map<K.ComponentKind, Component>): Option<map<Commodity, Pac>> {
    if K.CompoundProduction in cs && cs[K.CompoundProduction].CompoundProduction?
    then Some(cs[K.CompoundProduction].pac) else None
  }

  /** The module ids among the components, if any. */
  function ModulesIn(cs: map<K.ComponentKind, Component>): Option<seq<int>> {
    if K.Modules in cs && cs[K.Modules].Modules? then Some(cs[K.Modules].ids) else None
  }

  /** Every one of `ProductionParts` is among the components. */
  predicate PartsIn(cs: map<K.ComponentKind, Component>) {
    forall k :: k in ProductionParts ==> k in cs
  }

  /** What the trading system sees of a trader entity. */
  function ViewOf(e: Entity): (tr: Trader)
    requires IsTrader(e)
    ensures Valid(tr) && tr.id == e.id && tr.trade == TradeOf(e)
  {
    var cs := e.components;
    Trader(e.id, TradeOf(e), cs[K.Storage].storage, cs[K.Journal].entries, cs[K.Budget].available,
           ProductionIn(cs), ModulesIn(cs), K.Shipyard in cs, PartsIn(cs))
  }

  /** The entity with its trade component replaced by `t`. */
  function WithTrade(e: Entity, t: TradeState): (r: Entity)
    requires IsTrader(e) && Total(t.pricing)
    ensures IsTrader(r) && TradeOf(r) == t
    ensures r.id == e.id && r.components.Keys == e.components.Keys
    ensures forall k :: k in e.components && k != K.Trade ==> r.components[k] == e.components[k]
  {
    e.(components := e.components[K.Trade := Trade(t)])
  }

  /** `e2` is `e` with at most its trade component replaced. */
  predicate TradeOnlyChange(e: Entity, e2: Entity) {
    && e2 == e.(components := e2.components)
    && e2.components.Keys == e.components.Keys
    && forall k :: k in e.components && k != K.Trade ==> e2.components[k] == e.components[k]
  }

  /** Replacing the trade component changes nothing else the trading
      system sees. */
  lemma ViewWithTrade(e: Entity, t: TradeState)
    requires IsTrader(e) && Total(t.pricing)
    ensures ViewOf(WithTrade(e, t)) == ViewOf(e).(trade := t)
  {
    ComponentsWithTrade(e.components, Trade(t));
  }

  /** Storing a trade component leaves the other parts as they were. */
  lemma ComponentsWithTrade(cs: map<K.ComponentKind, Component>, x: Component)
    ensures var cs' := cs[K.Trade := x];
      && (forall k :: k in cs && k != K.Trade ==> k in cs' && cs'[k] == cs[k])
      && ProductionIn(cs') == ProductionIn(cs) && ModulesIn(cs') == ModulesIn(cs)
      && (K.Shipyard in cs') == (K.Shipyard in cs)
      && (K.Trade in cs ==> PartsIn(cs') == PartsIn(cs))
  {
  }

  /** Writing back the trade component an entity already has gives the
      entity back. */
  lemma WithOwnTrade(e: Entity)
    requires IsTrader(e)
    ensures WithTrade(e, TradeOf(e)) == e
  {
    assert e.components[K.Trade := Trade(TradeOf(e))] == e.components;
  }

  /** Replacing the trade component keeps any production module's recipe. */
  lemma RecipeWithTrade(e: Entity, t: TradeState)
    requires IsTrader(e) && Total(t.pricing)
    ensures PC.HasRecipe(WithTrade(e, t)) == PC.HasRecipe(e)
    ensures PC.HasRecipe(e) ==> PC.RecipeOf(WithTrade(e, t)) == PC.RecipeOf(e)
  {
    var cs := e.components;
    assert WithTrade(e, t).components == cs[K.Trade := Trade(t)];
    assert (K.Production in cs) ==> cs[K.Trade := Trade(t)][K.Production] == cs[K.Production];
  }

  /** Every production module in the store has a recipe for every
      commodity. */
  predicate ModulesTotal(es: map<int, Entity>) {
    forall id :: id in es && PC.HasRecipe(es[id]) ==> Total(PC.RecipeOf(es[id]))
  }

  lemma ResolvedRecipesTotal(es: map<int, Entity>, ids: seq<int>)
    requires ModulesTotal(es) && PC.Resolve(es, ids).Success?
    ensures PC.RecipesTotal(PC.Resolve(es, ids).value)
  {
    var ms := PC.Resolve(es, ids).value;
    forall i | 0 <= i < |ms| && PC.HasRecipe(ms[i]) ensures Total(PC.RecipeOf(ms[i])) {
      var id := ids[i];
      assert id in es && ms[i] == es[id];
      assert PC.HasRecipe(es[id]);
      assert Total(PC.RecipeOf(es[id]));
    }
  }

  /** The sell side's lower clamp: the production cost for an entity with
      compound production (which then also needs its `modules`), else
      `settings.global.minPrice`. */
  function MinPrice(es: map<int, Entity>, tr: Trader, c: Commodity, cfg: Settings, fuel: nat): (r: Result<Num>)
    requires ModulesTotal(es)
    ensures tr.production.None? ==> r == Success(Fin(cfg.minPrice))
    ensures tr.production.Some? && tr.modules.None? ==> r == Failure(MissingComponentError(tr.id))
    ensures tr.production.Some? && tr.modules.Some? ==>
      var res := PC.Resolve(es, tr.modules.value);
      && (res.Failure? ==> r == Failure(res.error))
      && (res.Success? ==> PC.RecipesTotal(res.value) && r == PC.Cost(res.value, tr.trade.offers, c, fuel))
  {
    if tr.production.None? then Success(Fin(cfg.minPrice))
    else if tr.modules.None? then Failure(MissingComponentError(tr.id))
    else
      var ms :- PC.Resolve(es, tr.modules.value);
      ResolvedRecipesTotal(es, tr.modules.value);
      PC.Cost(ms, tr.trade.offers, c, fuel)
  }

  /** The sell side's `weight`: stock over the quota less twice the
      consumption of the compound recipe. */
  function Weight(tr: Trader, c: Commodity): Num
    requires Valid(tr)
  {
    var reserve := if tr.production.Some? then tr.production.value[c].consumes * 2.0 else 0.0;
    Div(Fin(tr.storage.stored[c] as real), Fin(tr.storage.quota[c] as real - reserve))
  }

  /** The buy side's `filled`: stock over quota. */
  function Filled(tr: Trader, c: Commodity): Num
    requires Valid(tr)
  {
    Div(Fin(tr.storage.stored[c] as real), Fin(tr.storage.quota[c] as real))
  }

  /** A journal entry the adjusters count: a trade of `c` after `since`
      whose action differs from the offer's type. */
  predicate Counts(entry: JournalEntry, c: Commodity, since: real, kind: OfferType) {
    entry.TradeEntry? && entry.commodity == c && entry.time > since && entry.action != kind
  }

  /** `hadAnySale`. */
  predicate HadAnySale(journal: seq<JournalEntry>, c: Commodity, since: real, kind: OfferType) {
    exists i :: 0 <= i < |journal| && Counts(journal[i], c, since, kind)
  }

  /** The summed quantity of the counted entries: 0 when no entry counts,
      and never negative when no trade records a negative quantity. */
  function TradedQuantity(journal: seq<JournalEntry>, c: Commodity, since: real, kind: OfferType): (r: real)
    ensures !HadAnySale(journal, c, since, kind) ==> r == 0.0
    ensures (forall i :: 0 <= i < |journal| && journal[i].TradeEntry? ==> journal[i].quantity >= 0.0) ==> r >= 0.0
    decreases |journal|
  {
    if |journal| == 0 then 0.0
    else
      assert forall i :: 0 <= i < |journal[1..]| ==> journal[1..][i] == journal[i + 1];
      (if Counts(journal[0], c, since, kind) then journal[0].quantity else 0.0)
        + TradedQuantity(journal[1..], c, since, kind)
  }

  /** The offer type and the "had any sale" flag of `c`. */
  function SaleSince(tr: Trader, c: Commodity): bool
    requires c in tr.trade.offers
  {
    HadAnySale(tr.journal, c, tr.trade.lastPriceAdjust.time, tr.trade.offers[c].kind)
  }

  /** `adjustSellPrice(entity, c)`: the price to offer and the revised
      belief. An inactive offer keeps its price and belief; a missing offer
      is a property read of `undefined`. */
  function AdjustSell(es: map<int, Entity>, tr: Trader, c: Commodity, average: Num, u: real,
                      cfg: Settings, fuel: nat): (r: Result<(Num, Belief)>)
    requires Valid(tr) && ModulesTotal(es)
    ensures c !in tr.trade.offers ==> r == Failure(TypeError)
    ensures c in tr.trade.offers && !tr.trade.offers[c].active ==>
      r == Success((tr.trade.offers[c].price, tr.trade.pricing[c]))
    ensures c in tr.trade.offers && tr.trade.offers[c].active ==>
      (r.Success? <==> MinPrice(es, tr, c, cfg, fuel).Success?)
  {
    if c !in tr.trade.offers then Failure(TypeError)
    else
      var o := tr.trade.offers[c];
      if !o.active then Success((o.price, tr.trade.pricing[c]))
      else
        var minPrice :- MinPrice(es, tr, c, cfg, fuel);
        var settled := Settle(SellShifted(tr.trade.pricing[c], Weight(tr, c), SaleSince(tr, c), o.price, average),
                              minPrice, Fin(Cap(cfg, c)));
        Success((RandomInt(settled, u), settled))
  }

  /** `adjustBuyPrice(entity, c)`. */
  function AdjustBuy(tr: Trader, c: Commodity, average: Num, u: real, cfg: Settings): (r: Result<(Num, Belief)>)
    requires Valid(tr)
    ensures r.Failure? <==> c !in tr.trade.offers
    ensures r.Failure? ==> r.error == TypeError
    ensures c in tr.trade.offers && !tr.trade.offers[c].active ==>
      r == Success((tr.trade.offers[c].price, tr.trade.pricing[c]))
  {
    if c !in tr.trade.offers then Failure(TypeError)
    else
      var o := tr.trade.offers[c];
      if !o.active then Success((o.price, tr.trade.pricing[c]))
      else
        var settled := Settle(BuyShifted(tr.trade.pricing[c], Filled(tr, c), SaleSince(tr, c), o.price, average),
                              Fin(cfg.minPrice), Fin(Cap(cfg, c)));
        Success((RandomInt(settled, u), settled))
  }

  /** With finite inputs every sell-side move is finite. */
  lemma SellShiftFinite(b: Belief, weight: Num, hadSale: bool, current: Num, average: Num)
    requires Finite(b) && weight.Fin? && current.Fin? && average.Fin?
    ensures Finite(SellShifted(b, weight, hadSale, current, average))
  {
    assert Mean(b).Fin?;
  }

  /** A finite ordered belief of an active sell offer, revised with a finite
      weight, price and average and a finite lower clamp no greater than
      the cap, becomes a proper interval whose lower end lies between the
      clamp bounds, and the drawn price is a whole number inside it. */
  lemma SellAdjustBounds(es: map<int, Entity>, tr: Trader, c: Commodity, average: real, u: real,
                         cfg: Settings, fuel: nat)
    requires Valid(tr) && ModulesTotal(es)
    requires c in tr.trade.offers && tr.trade.offers[c].active && tr.trade.offers[c].price.Fin?
    requires Finite(tr.trade.pricing[c]) && tr.trade.pricing[c].low.r <= tr.trade.pricing[c].high.r
    requires Weight(tr, c).Fin? && 0.0 <= u < 1.0
    requires MinPrice(es, tr, c, cfg, fuel).Success?
    requires MinPrice(es, tr, c, cfg, fuel).value.Fin? && MinPrice(es, tr, c, cfg, fuel).value.r <= Cap(cfg, c)
    ensures AdjustSell(es, tr, c, Fin(average), u, cfg, fuel).Success?
    ensures var (price, b) := AdjustSell(es, tr, c, Fin(average), u, cfg, fuel).value;
      && Finite(b) && b.low.r < b.high.r
      && MinPrice(es, tr, c, cfg, fuel).value.r <= b.low.r <= Cap(cfg, c)
      && price.Fin? && b.low.r.Floor as real <= price.r < b.high.r
  {
    var o := tr.trade.offers[c];
    var lo := MinPrice(es, tr, c, cfg, fuel).value.r;
    var b := tr.trade.pricing[c];
    var shifted := SellShifted(b, Weight(tr, c), SaleSince(tr, c), o.price, Fin(average));
    SellShiftFinite(b, Weight(tr, c), SaleSince(tr, c), o.price, Fin(average));
    SettleOrdered(shifted, lo, Cap(cfg, c));
    RandomIntInRange(Settle(shifted, Fin(lo), Fin(Cap(cfg, c))), u);
  }

  /** The buy-side counterpart of `SellAdjustBounds`, with
      `settings.global.minPrice` as the lower clamp. */
  lemma BuyAdjustBounds(tr: Trader, c: Commodity, average: real, u: real, cfg: Settings)
    requires Valid(tr)
    requires c in tr.trade.offers && tr.trade.offers[c].active && tr.trade.offers[c].price.Fin?
    requires Finite(tr.trade.pricing[c]) && tr.trade.pricing[c].low.r <= tr.trade.pricing[c].high.r
    requires 0.0 <= u < 1.0 && cfg.minPrice <= Cap(cfg, c)
    ensures AdjustBuy(tr, c, Fin(average), u, cfg).Success?
    ensures var (price, b) := AdjustBuy(tr, c, Fin(average), u, cfg).value;
      && Finite(b) && b.low.r < b.high.r
      && cfg.minPrice <= b.low.r <= Cap(cfg, c)
      && price.Fin? && b.low.r.Floor as real <= price.r < b.high.r
  {
    var o := tr.trade.offers[c];
    var b := tr.trade.pricing[c];
    var shifted := BuyShifted(b, Filled(tr, c), SaleSince(tr, c), o.price, Fin(average));
    if SaleSince(tr, c) {
      BuyAfterSaleKeepsOrder(b, Filled(tr, c), o.price, Fin(average));
    }
    SettleOrdered(shifted, cfg.minPrice, Cap(cfg, c));
    RandomIntInRange(Settle(shifted, Fin(cfg.minPrice), Fin(Cap(cfg, c))), u);
  }

  /** The adjuster `adjustPrices` calls for `c`: by the offer's type. */
  function Step(es: map<int, Entity>, tr: Trader, c: Commodity, average: Commodity -> Num, u: Commodity -> real,
                cfg: Settings, fuel: nat): (r: Result<(Num, Belief)>)
    requires Valid(tr) && ModulesTotal(es) && c in tr.trade.offers
    ensures !tr.trade.offers[c].active ==> r == Success((tr.trade.offers[c].price, tr.trade.pricing[c]))
  {
    if tr.trade.offers[c].kind == Sell then AdjustSell(es, tr, c, average(c), u(c), cfg, fuel)
    else AdjustBuy(tr, c, average(c), u(c), cfg)
  }

  /** The trader once `c`'s offer carries the price `adjusted.0` and its
      belief is `adjusted.1`. */
  function Record(tr: Trader, c: Commodity, adjusted: (Num, Belief)): (r: Trader)
    requires Valid(tr) && c in tr.trade.offers
    ensures Valid(r) && r.trade.offers.Keys == tr.trade.offers.Keys
    ensures r.trade.lastPriceAdjust == tr.trade.lastPriceAdjust
    ensures r.trade.offers[c] == tr.trade.offers[c].(price := adjusted.0) && r.trade.pricing[c] == adjusted.1
    ensures forall d :: d != c && d in tr.trade.offers ==>
      r.trade.offers[d] == tr.trade.offers[d] && r.trade.pricing[d] == tr.trade.pricing[d]
  {
    tr.(trade := tr.trade.(offers := tr.trade.offers[c := tr.trade.offers[c].(price := adjusted.0)],
                           pricing := tr.trade.pricing[c := adjusted.1]))
  }

  /** The `commoditiesArray.forEach` of `adjustPrices` over `cs`: each
      offer's price is replaced by its adjuster's draw and its belief by the
      revised one, each adjuster seeing the updates made before it. */
  function AdjustEach(es: map<int, Entity>, tr: Trader, cs: seq<Commodity>, average: Commodity -> Num,
                      u: Commodity -> real, cfg: Settings, fuel: nat): (r: Result<TradeState>)
    requires Valid(tr) && ModulesTotal(es) && Total(tr.trade.offers)
    ensures r.Success? ==> Total(r.value.offers) && Total(r.value.pricing)
    ensures r.Success? ==> r.value.lastPriceAdjust == tr.trade.lastPriceAdjust
    decreases |cs|
  {
    if |cs| == 0 then Success(tr.trade)
    else
      var adjusted :- Step(es, tr, cs[0], average, u, cfg, fuel);
      AdjustEach(es, Record(tr, cs[0], adjusted), cs[1..], average, u, cfg, fuel)
  }

  /** The pass changes offer prices only. */
  lemma {:induction false} AdjustEachKeepsTerms(es: map<int, Entity>, tr: Trader, cs: seq<Commodity>,
                                                average: Commodity -> Num, u: Commodity -> real, cfg: Settings,
                                                fuel: nat, c: Commodity)
    requires Valid(tr) && ModulesTotal(es) && Total(tr.trade.offers)
    requires AdjustEach(es, tr, cs, average, u, cfg, fuel).Success?
    ensures var r := AdjustEach(es, tr, cs, average, u, cfg, fuel).value;
      r.offers[c] == tr.trade.offers[c].(price := r.offers[c].price)
    decreases |cs|
  {
    if |cs| > 0 {
      var adjusted := Step(es, tr, cs[0], average, u, cfg, fuel).value;
      AdjustEachKeepsTerms(es, Record(tr, cs[0], adjusted), cs[1..], average, u, cfg, fuel, c);
    }
  }

  /** The pass leaves an inactive offer and its belief as they were, and
      so too every commodity it does not visit. */
  lemma {:induction false} AdjustEachSkips(es: map<int, Entity>, tr: Trader, cs: seq<Commodity>,
                                           average: Commodity -> Num, u: Commodity -> real, cfg: Settings,
                                           fuel: nat, c: Commodity)
    requires Valid(tr) && ModulesTotal(es) && Total(tr.trade.offers)
    requires !tr.trade.offers[c].active || c !in cs
    ensures AdjustEach(es, tr, cs, average, u, cfg, fuel).Success? ==>
      var r := AdjustEach(es, tr, cs, average, u, cfg, fuel).value;
      r.offers[c] == tr.trade.offers[c] && r.pricing[c] == tr.trade.pricing[c]
    decreases |cs|
  {
    if |cs| > 0 && Step(es, tr, cs[0], average, u, cfg, fuel).Success? {
      var adjusted := Step(es, tr, cs[0], average, u, cfg, fuel).value;
      var tr' := Record(tr, cs[0], adjusted);
      assert tr'.trade.offers[c] == tr.trade.offers[c] && tr'.trade.pricing[c] == tr.trade.pricing[c];
      AdjustEachSkips(es, tr', cs[1..], average, u, cfg, fuel, c);
    }
  }

  /** With an offer for every commodity the pass never throws a
      `TypeError`. */
  lemma {:induction false} AdjustEachTyped(es: map<int, Entity>, tr: Trader, cs: seq<Commodity>,
                                           average: Commodity -> Num, u: Commodity -> real, cfg: Settings, fuel: nat)
    requires Valid(tr) && ModulesTotal(es) && Total(tr.trade.offers)
    ensures AdjustEach(es, tr, cs, average, u, cfg, fuel) != Failure(TypeError)
    decreases |cs|
  {
    if |cs| > 0 {
      MinPriceTyped(es, tr, cs[0], cfg, fuel);
      var step := Step(es, tr, cs[0], average, u, cfg, fuel);
      if step.Success? {
        AdjustEachTyped(es, Record(tr, cs[0], step.value), cs[1..], average, u, cfg, fuel);
      }
    }
  }

  /** With an offer for every commodity the lower clamp never throws a
      `TypeError`. */
  lemma MinPriceTyped(es: map<int, Entity>, tr: Trader, c: Commodity, cfg: Settings, fuel: nat)
    requires ModulesTotal(es) && Total(tr.trade.offers)
    ensures MinPrice(es, tr, c, cfg, fuel) != Failure(TypeError)
  {
    if tr.production.Some? && tr.modules.Some? && PC.Resolve(es, tr.modules.value).Success? {
      ResolvedRecipesTotal(es, tr.modules.value);
      CostTyped(PC.Resolve(es, tr.modules.value).value, tr.trade.offers, c, fuel);
    }
  }

  /** With an offer for every commodity the production cost never throws a
      `TypeError`. */
  lemma {:induction false} CostTyped(ms: seq<Entity>, offers: map<Commodity, Offer>, c: Commodity, fuel: nat)
    requires PC.RecipesTotal(ms) && Total(offers)
    ensures PC.Cost(ms, offers, c, fuel) != Failure(TypeError)
    decreases fuel, 0, 0
  {
    if fuel > 0 && PC.FirstProducer(ms, c).Some? {
      var pac := PC.RecipeOf(ms[PC.FirstProducer(ms, c).value]);
      InputCostTyped(ms, offers, pac, pac[c].produces, All, fuel - 1);
    }
  }

  lemma {:induction false} InputCostTyped(ms: seq<Entity>, offers: map<Commodity, Offer>, pac: map<Commodity, Pac>,
                                          produces: real, cs: seq<Commodity>, fuel: nat)
    requires PC.RecipesTotal(ms) && Total(offers) && Total(pac)
    ensures PC.InputCost(ms, offers, pac, produces, cs, fuel) != Failure(TypeError)
    decreases fuel, 1, |cs|
  {
    if |cs| > 0 {
      if pac[cs[0]].consumes != 0.0 {
        CostTyped(ms, offers, cs[0], fuel);
      }
      InputCostTyped(ms, offers, pac, produces, cs[1..], fuel);
    }
  }

  /** The per-commodity traded quantities `adjustPrices` records. */
  function TradedQuantities(tr: Trader): (q: map<Commodity, real>)
    requires Total(tr.trade.offers)
    ensures Total(q)
    ensures forall c :: q[c] == TradedQuantity(tr.journal, c, tr.trade.lastPriceAdjust.time, tr.trade.offers[c].kind)
  {
    var t := tr.trade;
    PerCommodity(c => TradedQuantity(tr.journal, c, t.lastPriceAdjust.time, if c in t.offers then t.offers[c].kind else Buy))
  }

  /** The trade state `adjustPrices` leaves at sim time `time`: every
      commodity's price and belief revised in the order of
      `commoditiesArray`, and the adjustment recorded. Offers missing for
      some commodity make the revision loop read the `type` of an
      `undefined` offer; the journal filter before it reads an offer only
      for a trade entry of that commodity, so it does not throw on its own. */
  function AdjustTrade(es: map<int, Entity>, tr: Trader, time: real, average: Commodity -> Num, u: Commodity -> real,
                       cfg: Settings, fuel: nat): (r: Result<TradeState>)
    requires Valid(tr) && ModulesTotal(es)
    ensures !Total(tr.trade.offers) ==> r == Failure(TypeError)
    ensures r.Success? ==> Total(r.value.offers) && Total(r.value.pricing)
    ensures r.Success? ==> Total(tr.trade.offers) && r.value.lastPriceAdjust == PriceAdjust(time, TradedQuantities(tr))
  {
    if !Total(tr.trade.offers) then Failure(TypeError)
    else
      var t :- AdjustEach(es, tr, All, average, u, cfg, fuel);
      Success(t.(lastPriceAdjust := PriceAdjust(time, TradedQuantities(tr))))
  }

  /** An adjustment keeps every offer's activity, quantity and type, and
      leaves an inactive offer's price and belief untouched. */
  lemma AdjustTradeKeepsOffers(es: map<int, Entity>, tr: Trader, time: real, average: Commodity -> Num,
                               u: Commodity -> real, cfg: Settings, fuel: nat, c: Commodity)
    requires Valid(tr) && ModulesTotal(es)
    ensures AdjustTrade(es, tr, time, average, u, cfg, fuel).Success? ==>
      var t := AdjustTrade(es, tr, time, average, u, cfg, fuel).value;
      && t.offers[c] == tr.trade.offers[c].(price := t.offers[c].price)
      && (!tr.trade.offers[c].active ==> t.offers[c] == tr.trade.offers[c] && t.pricing[c] == tr.trade.pricing[c])
  {
    if AdjustTrade(es, tr, time, average, u, cfg, fuel).Success? {
      AdjustEachKeepsTerms(es, tr, All, average, u, cfg, fuel, c);
      if !tr.trade.offers[c].active {
        AdjustEachSkips(es, tr, All, average, u, cfg, fuel, c);
      }
    }
  }

  /** `adjustPrices(entity)`: a deployable entity is left alone; otherwise
      only its trade component changes. */
  function AdjustPrices(es: map<int, Entity>, e: Entity, time: real, average: Commodity -> Num, u: Commodity -> real,
                        cfg: Settings, fuel: nat): (r: Result<Entity>)
    requires IsTrader(e) && ModulesTotal(es)
    ensures K.Deployable in e.components ==> r == Success(e)
    ensures r.Success? ==> IsTrader(r.value) && TradeOnlyChange(e, r.value)
    ensures K.Deployable !in e.components ==>
      && (r.Success? <==> AdjustTrade(es, ViewOf(e), time, average, u, cfg, fuel).Success?)
      && (r.Failure? ==> r.error == AdjustTrade(es, ViewOf(e), time, average, u, cfg, fuel).error)
      && (r.Success? ==> r.value == WithTrade(e, AdjustTrade(es, ViewOf(e), time, average, u, cfg, fuel).value))
  {
    if K.Deployable in e.components then Success(e)
    else
      var t :- AdjustTrade(es, ViewOf(e), time, average, u, cfg, fuel);
      Success(WithTrade(e, t))
  }

  /** `getProductionSurplus(entity, c)`. */
  function ProductionSurplus(pac: map<Commodity, Pac>, c: Commodity): real
    requires c in pac
  {
    pac[c].produces - pac[c].consumes
  }

  /** The surplus `createOffers` uses: 0 without compound production. */
  function Net(tr: Trader, c: Commodity): real
    requires Valid(tr)
  {
    if tr.production.Some? then ProductionSurplus(tr.production.value, c) else 0.0
  }

  /** The budget multiplier: `available / required` when the planned budget
      exceeds what is available, else 1. */
  function Multiplier(planned: real, available: real): Num {
    if planned > available then Div(Fin(available), Fin(planned)) else Fin(1.0)
  }

  /** With a non-negative balance the multiplier lies in `[0, 1]`. */
  lemma MultiplierRange(planned: real, available: real)
    requires available >= 0.0
    ensures Multiplier(planned, available).Fin?
    ensures 0.0 <= Multiplier(planned, available).r <= 1.0
  {
    if planned > available {
      assert available / planned * planned == available;
    }
  }

  /** The quantity wanted up to the quota, scaled by the multiplier: 0 when
      stock already exceeds the quota. */
  function Shortfall(stored: int, quota: int, multiplier: Num): Num {
    if stored > quota then Fin(0.0) else Floor(Mul(multiplier, Fin((stored - quota) as real)))
  }

  /** With a multiplier in `[0, 1]` the shortfall is a whole number between
      `stored - quota` and 0: a buy offer never asks for more than the room
      left under the quota. */
  lemma ShortfallWithinRoom(stored: int, quota: int, m: real)
    requires 0.0 <= m <= 1.0
    ensures Shortfall(stored, quota, Fin(m)).Fin?
    ensures stored <= quota ==> (stored - quota) as real <= Shortfall(stored, quota, Fin(m)).r <= 0.0
    ensures stored > quota ==> Shortfall(stored, quota, Fin(m)) == Fin(0.0)
  {
    var d := (stored - quota) as real;
    if stored < quota {
      RoomBounds(m, d);
      FloorBetween(d, m * d, 1.0);
      assert d.Floor == stored - quota;
      assert Mul(Fin(m), Fin(d)) == Fin(m * d);
      assert Floor(Fin(m * d)) == Fin((m * d).Floor as real);
      assert Shortfall(stored, quota, Fin(m)) == Fin((m * d).Floor as real);
    } else if stored == quota {
      assert m * d == 0.0;
    }
  }

  /** Scaling a non-positive amount by a factor in `[0, 1]` keeps it
      between the amount and 0. */
  lemma RoomBounds(m: real, d: real)
    requires 0.0 <= m <= 1.0 && d < 0.0
    ensures d <= m * d <= 0.0
  {
    ProductSigns(1.0 - m, -d);
    ProductSigns(m, -d);
    assert (1.0 - m) * -d == m * d - d;
  }

  /** The quantity `getOfferedQuantity` returns when it does not throw. A
      shipyard, or an entity whose compound recipe is short of `c`, offers
      its shortfall; an entity without compound production offers its whole
      stock, as does one whose recipe neither consumes nor produces `c`; a
      surplus offers the stock less twice the consumption, and a recipe that
      consumes as much of `c` as it produces, and some, offers its
      shortfall. */
  function Offered(tr: Trader, c: Commodity, planned: real): (r: Num)
    requires Valid(tr)
    ensures !tr.shipyard && tr.production.None? ==> r == Fin(tr.storage.availableWares[c] as real)
    ensures !tr.shipyard && tr.production.Some? && ProductionSurplus(tr.production.value, c) > 0.0 ==>
      r == Fin(tr.storage.availableWares[c] as real - tr.production.value[c].consumes * 2.0)
    ensures (tr.shipyard || (tr.production.Some? && ProductionSurplus(tr.production.value, c) < 0.0)) ==>
      r == Shortfall(tr.storage.availableWares[c], tr.storage.quota[c], Multiplier(planned, tr.budget))
    ensures !tr.shipyard && tr.production.Some? && tr.production.value[c].consumes == tr.production.value[c].produces ==>
      r == (if tr.production.value[c].consumes == 0.0 then Fin(tr.storage.availableWares[c] as real)
            else Shortfall(tr.storage.availableWares[c], tr.storage.quota[c], Multiplier(planned, tr.budget)))
  {
    var stored, quota := tr.storage.availableWares[c], tr.storage.quota[c];
    var multiplier := Multiplier(planned, tr.budget);
    if tr.shipyard then Shortfall(stored, quota, multiplier)
    else if tr.production.None? then Fin(stored as real)
    else
      var p := tr.production.value[c];
      if p.consumes == p.produces && p.consumes == 0.0 then Fin(tr.storage.availableWares[c] as real)
      else if ProductionSurplus(tr.production.value, c) > 0.0 then Fin(stored as real - p.consumes * 2.0)
      else Shortfall(stored, quota, multiplier)
  }

  /** A buyer with a non-negative balance never asks for more than the room
      under its quota: the offered quantity of a shipyard or of a short
      recipe lies between `stored - quota` and 0. */
  lemma OfferedWithinRoom(tr: Trader, c: Commodity, planned: real)
    requires Valid(tr) && tr.budget >= 0.0
    requires tr.shipyard || (tr.production.Some? && ProductionSurplus(tr.production.value, c) < 0.0)
    ensures Offered(tr, c, planned).Fin?
    ensures var room := (tr.storage.quota[c] - tr.storage.availableWares[c]) as real;
      room >= 0.0 ==> -room <= Offered(tr, c, planned).r <= 0.0
    ensures tr.storage.availableWares[c] > tr.storage.quota[c] ==> Offered(tr, c, planned) == Fin(0.0)
  {
    MultiplierRange(planned, tr.budget);
    ShortfallWithinRoom(tr.storage.availableWares[c], tr.storage.quota[c], Multiplier(planned, tr.budget).r);
  }

  /** `getOfferedQuantity` throws `MissingComponentError` when it reaches
      the production branch for an entity lacking one of `ProductionParts`. */
  predicate MissesProductionParts(tr: Trader) {
    !tr.shipyard && tr.production.Some? && !tr.productionParts
  }

  /** `getOfferedQuantity(entity, c)`. */
  function OfferedQuantity(tr: Trader, c: Commodity, planned: real): (r: Result<Num>)
    requires Valid(tr)
    ensures r.Failure? <==> MissesProductionParts(tr)
    ensures r.Failure? ==> r.error == MissingComponentError(tr.id)
    ensures r.Success? ==> r.value == Offered(tr, c, planned)
  {
    if MissesProductionParts(tr) then Failure(MissingComponentError(tr.id)) else Success(Offered(tr, c, planned))
  }

  /** The offer `createOffers` builds for `c`: active unless nothing is
      offered and nothing is produced net, for the absolute quantity, a
      sell offer exactly when the recipe is in surplus, at the price carried
      over (100 when there were no offers yet). */
  function NewOffer(tr: Trader, c: Commodity, planned: real): (o: Offer)
    requires Valid(tr) && (tr.trade.offers == map[] || Total(tr.trade.offers))
    ensures o.active <==> !(StrictEq(Offered(tr, c, planned), Fin(0.0)) && Net(tr, c) == 0.0)
    ensures o.quantity == Abs(Offered(tr, c, planned))
    ensures o.kind == Sell <==> Net(tr, c) > 0.0
    ensures tr.trade.offers == map[] ==> o.price == Fin(100.0)
    ensures tr.trade.offers != map[] ==> o.price == tr.trade.offers[c].price
  {
    var q := Offered(tr, c, planned);
    var net := Net(tr, c);
    Offer(!(StrictEq(q, Fin(0.0)) && net == 0.0),
          if tr.trade.offers == map[] then Fin(100.0) else tr.trade.offers[c].price,
          Abs(q),
          if net > 0.0 then Sell else Buy)
  }

  /** The trade state `createOffers` leaves: a fresh offer for every
      commodity, beliefs and the last adjustment untouched. Offers missing
      for some commodities but not all make the price lookup throw. */
  function OfferTrade(tr: Trader, planned: real): (r: Result<TradeState>)
    requires Valid(tr)
    ensures r.Failure? <==> MissesProductionParts(tr) || (tr.trade.offers != map[] && !Total(tr.trade.offers))
    ensures MissesProductionParts(tr) ==> r == Failure(MissingComponentError(tr.id))
    ensures r.Success? ==>
      && Total(r.value.offers)
      && r.value.pricing == tr.trade.pricing
      && r.value.lastPriceAdjust == tr.trade.lastPriceAdjust
      && forall c :: r.value.offers[c] == NewOffer(tr, c, planned)
  {
    if MissesProductionParts(tr) then Failure(MissingComponentError(tr.id))
    else if tr.trade.offers != map[] && !Total(tr.trade.offers) then Failure(TypeError)
    else Success(tr.trade.(offers := PerCommodity(c => NewOffer(tr, c, planned))))
  }

  /** Creating offers again from the offers just created recreates them:
      the prices carry over and the quantities do not depend on the trade
      state. */
  lemma OfferTradeIdempotent(tr: Trader, planned: real)
    requires Valid(tr) && OfferTrade(tr, planned).Success?
    ensures OfferTrade(tr.(trade := OfferTrade(tr, planned).value), planned) == OfferTrade(tr, planned)
  {
    var t1 := OfferTrade(tr, planned).value;
    var tr1 := tr.(trade := t1);
    var again := PerCommodity(c => NewOffer(tr1, c, planned));
    assert again == t1.offers;
  }

  /** `createOffers(entity)`: a deployable entity is left alone; otherwise
      only its trade component changes. */
  function CreateOffers(e: Entity, planned: real): (r: Result<Entity>)
    requires IsTrader(e)
    ensures K.Deployable in e.components ==> r == Success(e)
    ensures r.Success? ==> IsTrader(r.value) && TradeOnlyChange(e, r.value)
    ensures K.Deployable !in e.components ==>
      && (r.Success? <==> OfferTrade(ViewOf(e), planned).Success?)
      && (r.Failure? ==> r.error == OfferTrade(ViewOf(e), planned).error)
      && (r.Success? ==> r.value == WithTrade(e, OfferTrade(ViewOf(e), planned).value))
  {
    if K.Deployable in e.components then Success(e)
    else
      var t :- OfferTrade(ViewOf(e), planned);
      Success(WithTrade(e, t))
  }

  /** Creating offers twice in a row gives what creating them once gave. */
  lemma CreateOffersIdempotent(e: Entity, planned: real)
    requires IsTrader(e) && CreateOffers(e, planned).Success?
    ensures CreateOffers(CreateOffers(e, planned).value, planned) == CreateOffers(e, planned)
  {
    if K.Deployable !in e.components {
      var t1 := OfferTrade(ViewOf(e), planned).value;
      var e1 := WithTrade(e, t1);
      ViewWithTrade(e, t1);
      OfferTradeIdempotent(ViewOf(e), planned);
      WithOwnTrade(e1);
    }
  }

  /** An entity with an offer for every commodity adjusts its prices
      without a `TypeError`. */
  lemma AdjustPricesTyped(es: map<int, Entity>, e: Entity, time: real, average: Commodity -> Num,
                          u: Commodity -> real, cfg: Settings, fuel: nat)
    requires IsTrader(e) && ModulesTotal(es) && Total(TradeOf(e).offers)
    ensures AdjustPrices(es, e, time, average, u, cfg, fuel) != Failure(TypeError)
  {
    AdjustEachTyped(es, ViewOf(e), All, average, u, cfg, fuel);
  }

  /** Offers just created make the next adjustment free of `TypeError`. */
  lemma OffersMakeAdjustmentTyped(es: map<int, Entity>, e: Entity, planned: real, time: real,
                                  average: Commodity -> Num, u: Commodity -> real, cfg: Settings, fuel: nat)
    requires IsTrader(e) && ModulesTotal(es)
    requires CreateOffers(e, planned).Success?
    ensures AdjustPrices(es, CreateOffers(e, planned).value, time, average, u, cfg, fuel) != Failure(TypeError)
  {
    if K.Deployable !in e.components {
      assert Total(TradeOf(CreateOffers(e, planned).value).offers);
      AdjustPricesTyped(es, CreateOffers(e, planned).value, time, average, u, cfg, fuel);
    }
  }

  /** Stores whose modules hold the same recipes give every trader the
      same lower clamp: the production cost reads nothing else of them. */
  lemma MinPriceSameRecipes(es: map<int, Entity>, es2: map<int, Entity>, tr: Trader, c: Commodity,
                            cfg: Settings, fuel: nat)
    requires ModulesTotal(es) && ModulesTotal(es2) && PC.StoresAgree(es, es2)
    ensures MinPrice(es2, tr, c, cfg, fuel) == MinPrice(es, tr, c, cfg, fuel)
  {
    if tr.production.Some? && tr.modules.Some? {
      var ids := tr.modules.value;
      PC.ResolveSameRecipes(es, es2, ids);
      if PC.Resolve(es, ids).Success? {
        ResolvedRecipesTotal(es, ids);
        PC.CostSameRecipes(PC.Resolve(es, ids).value, PC.Resolve(es2, ids).value, tr.trade.offers, c, fuel);
      }
    }
  }

  /** The same for the revision of every commodity's price. */
  lemma {:induction false} AdjustEachSameRecipes(es: map<int, Entity>, es2: map<int, Entity>, tr: Trader,
                                                 cs: seq<Commodity>, average: Commodity -> Num, u: Commodity -> real,
                                                 cfg: Settings, fuel: nat)
    requires Valid(tr) && ModulesTotal(es) && ModulesTotal(es2) && PC.StoresAgree(es, es2) && Total(tr.trade.offers)
    ensures AdjustEach(es2, tr, cs, average, u, cfg, fuel) == AdjustEach(es, tr, cs, average, u, cfg, fuel)
    decreases |cs|
  {
    if |cs| > 0 {
      MinPriceSameRecipes(es, es2, tr, cs[0], cfg, fuel);
      var step := Step(es, tr, cs[0], average, u, cfg, fuel);
      assert Step(es2, tr, cs[0], average, u, cfg, fuel) == step;
      if step.Success? {
        AdjustEachSameRecipes(es, es2, Record(tr, cs[0], step.value), cs[1..], average, u, cfg, fuel);
      }
    }
  }

  /** `adjustPrices` reads the store only for the module recipes. */
  lemma AdjustPricesSameRecipes(es: map<int, Entity>, es2: map<int, Entity>, e: Entity, time: real,
                                average: Commodity -> Num, u: Commodity -> real, cfg: Settings, fuel: nat)
    requires IsTrader(e) && ModulesTotal(es) && ModulesTotal(es2) && PC.StoresAgree(es, es2)
    ensures AdjustPrices(es2, e, time, average, u, cfg, fuel) == AdjustPrices(es, e, time, average, u, cfg, fuel)
  {
    if K.Deployable !in e.components && Total(TradeOf(e).offers) {
      AdjustEachSameRecipes(es, es2, ViewOf(e), All, average, u, cfg, fuel);
    }
  }

  /** The entities the `trading` query lists, all present and trading. */
  predicate TradersIn(es: map<int, Entity>, ids: seq<int>) {
    forall i :: 0 <= i < |ids| ==> ids[i] in es && IsTrader(es[ids[i]])
  }

  /** Replacing a trader by one that differs only in its trade component
      keeps the store's recipes. */
  lemma StoreRecipes(es: map<int, Entity>, id: int, e2: Entity)
    requires ModulesTotal(es) && id in es && TradeOnlyChange(es[id], e2)
    ensures ModulesTotal(es[id := e2]) && PC.StoresAgree(es, es[id := e2])
  {
    var e := es[id];
    assert PC.HasRecipe(e2) == PC.HasRecipe(e);
    assert PC.HasRecipe(e) ==> PC.RecipeOf(e2) == PC.RecipeOf(e);
  }

  /** Replacing the first listed trader by another trader keeps the rest of
      the list trading. */
  lemma StoreTraders(es: map<int, Entity>, ids: seq<int>, e2: Entity)
    requires TradersIn(es, ids) && |ids| > 0 && IsTrader(e2)
    ensures TradersIn(es[ids[0] := e2], ids[1..])
  {
    var es' := es[ids[0] := e2];
    forall i | 0 <= i < |ids[1..]| ensures ids[1..][i] in es' && IsTrader(es'[ids[1..][i]]) {
      assert ids[1..][i] == ids[i + 1];
    }
  }

  /** `adjustPrices` for the trader stored under `id`, with that entity's
      regional averages and draws. */
  function AdjustOne(es: map<int, Entity>, id: int, time: real, average: int -> Commodity -> Num,
                     u: int -> Commodity -> real, cfg: Settings, fuel: nat): Result<Entity>
    requires ModulesTotal(es) && id in es && IsTrader(es[id])
  {
    AdjustPrices(es, es[id], time, average(id), u(id), cfg, fuel)
  }

  /** `sim.queries.trading.get().forEach(adjustPrices)`. The regional
      average and the draw of each entity and commodity are parameters. */
  function AdjustAll(es: map<int, Entity>, ids: seq<int>, time: real, average: int -> Commodity -> Num,
                     u: int -> Commodity -> real, cfg: Settings, fuel: nat): (r: Result<map<int, Entity>>)
    requires ModulesTotal(es) && TradersIn(es, ids)
    ensures r.Success? ==> r.value.Keys == es.Keys
    decreases |ids|
  {
    if |ids| == 0 then Success(es)
    else
      var e2 :- AdjustOne(es, ids[0], time, average, u, cfg, fuel);
      StoreRecipes(es, ids[0], e2);
      StoreTraders(es, ids, e2);
      AdjustAll(es[ids[0] := e2], ids[1..], time, average, u, cfg, fuel)
  }

  /** `sim.queries.trading.get().forEach(createOffers)`, with each entity's
      planned budget as a parameter. */
  function OfferAll(es: map<int, Entity>, ids: seq<int>, planned: int -> real): (r: Result<map<int, Entity>>)
    requires ModulesTotal(es) && TradersIn(es, ids)
    ensures r.Success? ==> r.value.Keys == es.Keys
    decreases |ids|
  {
    if |ids| == 0 then Success(es)
    else
      var e2 :- CreateOffers(es[ids[0]], planned(ids[0]));
      StoreRecipes(es, ids[0], e2);
      StoreTraders(es, ids, e2);
      OfferAll(es[ids[0] := e2], ids[1..], planned)
  }

  /** After the adjusting pass the store's recipes are intact and every
      trader is still one. */
  lemma {:induction false} AdjustAllKeepsTraders(es: map<int, Entity>, ids: seq<int>, time: real,
                                                 average: int -> Commodity -> Num, u: int -> Commodity -> real,
                                                 cfg: Settings, fuel: nat)
    requires ModulesTotal(es) && TradersIn(es, ids)
    requires AdjustAll(es, ids, time, average, u, cfg, fuel).Success?
    ensures var r := AdjustAll(es, ids, time, average, u, cfg, fuel).value;
      ModulesTotal(r) && forall id :: id in es && IsTrader(es[id]) ==> IsTrader(r[id])
    decreases |ids|
  {
    if |ids| > 0 {
      var e2 := AdjustOne(es, ids[0], time, average, u, cfg, fuel).value;
      StoreRecipes(es, ids[0], e2);
      StoreTraders(es, ids, e2);
      AdjustAllKeepsTraders(es[ids[0] := e2], ids[1..], time, average, u, cfg, fuel);
    }
  }

  /** With no trader listed twice, the adjusting pass succeeds exactly when
      adjusting each listed trader on its own would, and leaves each one as
      adjusting it alone leaves it: a trader's revision reads only the trader
      and the module recipes, and the pass changes no recipe. */
  lemma {:induction false} AdjustAllAdjustsEach(es: map<int, Entity>, ids: seq<int>, time: real,
                                                average: int -> Commodity -> Num, u: int -> Commodity -> real,
                                                cfg: Settings, fuel: nat)
    requires ModulesTotal(es) && TradersIn(es, ids) && ListedOnce(ids)
    ensures var r := AdjustAll(es, ids, time, average, u, cfg, fuel);
      && (r.Success? <==> forall i :: 0 <= i < |ids| ==> AdjustOne(es, ids[i], time, average, u, cfg, fuel).Success?)
      && (r.Success? ==>
            forall i :: 0 <= i < |ids| ==> r.value[ids[i]] == AdjustOne(es, ids[i], time, average, u, cfg, fuel).value)
    decreases |ids|
  {
    if |ids| > 0 && AdjustOne(es, ids[0], time, average, u, cfg, fuel).Success? {
      var e2 := AdjustOne(es, ids[0], time, average, u, cfg, fuel).value;
      var es' := es[ids[0] := e2];
      StoreRecipes(es, ids[0], e2);
      StoreTraders(es, ids, e2);
      ListedOnceTail(ids);
      AdjustAllAdjustsEach(es', ids[1..], time, average, u, cfg, fuel);
      if AdjustAll(es', ids[1..], time, average, u, cfg, fuel).Success? {
        AdjustAllLeavesOthers(es', ids[1..], time, average, u, cfg, fuel, ids[0]);
      }
      var r := AdjustAll(es', ids[1..], time, average, u, cfg, fuel);
      AdjustRestAgrees(es, ids, e2, r, time, average, u, cfg, fuel);
      AdjustStep(es, ids, e2, r, time, average, u, cfg, fuel);
      assert AdjustAll(es, ids, time, average, u, cfg, fuel) == r;
    }
  }

  /** The facts about the rest of the pass, moved from the store with the
      first trader revised back to the original store. */
  lemma AdjustRestAgrees(es: map<int, Entity>, ids: seq<int>, e2: Entity, r: Result<map<int, Entity>>, time: real,
                         average: int -> Commodity -> Num, u: int -> Commodity -> real, cfg: Settings, fuel: nat)
    requires ModulesTotal(es) && TradersIn(es, ids) && |ids| > 0 && ids[0] !in ids[1..]
    requires ModulesTotal(es[ids[0] := e2]) && PC.StoresAgree(es, es[ids[0] := e2])
    requires TradersIn(es[ids[0] := e2], ids[1..])
    requires var es' := es[ids[0] := e2];
      && (r.Success? ==> r.value.Keys == es.Keys)
      && (r.Success? <==> forall j :: 0 <= j < |ids[1..]| ==> AdjustOne(es', ids[1..][j], time, average, u, cfg, fuel).Success?)
      && (r.Success? ==>
            forall j :: 0 <= j < |ids[1..]| ==> r.value[ids[1..][j]] == AdjustOne(es', ids[1..][j], time, average, u, cfg, fuel).value)
    ensures r.Success? <==> forall i :: 1 <= i < |ids| ==> AdjustOne(es, ids[i], time, average, u, cfg, fuel).Success?
    ensures r.Success? ==>
      forall i :: 1 <= i < |ids| ==> r.value[ids[i]] == AdjustOne(es, ids[i], time, average, u, cfg, fuel).value
  {
    var es' := es[ids[0] := e2];
    forall i | 1 <= i < |ids|
      ensures ids[1..][i - 1] == ids[i]
      ensures AdjustOne(es', ids[i], time, average, u, cfg, fuel) == AdjustOne(es, ids[i], time, average, u, cfg, fuel)
    {
      assert ids[i] in ids[1..];
      AdjustPricesSameRecipes(es, es', es[ids[i]], time, average(ids[i]), u(ids[i]), cfg, fuel);
    }
  }

  /** The first trader's revision joined to the rest of the pass. */
  lemma AdjustStep(es: map<int, Entity>, ids: seq<int>, e2: Entity, r: Result<map<int, Entity>>, time: real,
                   average: int -> Commodity -> Num, u: int -> Commodity -> real, cfg: Settings, fuel: nat)
    requires ModulesTotal(es) && TradersIn(es, ids) && |ids| > 0
    requires AdjustOne(es, ids[0], time, average, u, cfg, fuel) == Success(e2)
    requires r.Success? ==> r.value.Keys == es.Keys && r.value[ids[0]] == e2
    requires r.Success? <==> forall i :: 1 <= i < |ids| ==> AdjustOne(es, ids[i], time, average, u, cfg, fuel).Success?
    requires r.Success? ==>
      forall i :: 1 <= i < |ids| ==> r.value[ids[i]] == AdjustOne(es, ids[i], time, average, u, cfg, fuel).value
    ensures r.Success? <==> forall i :: 0 <= i < |ids| ==> AdjustOne(es, ids[i], time, average, u, cfg, fuel).Success?
    ensures r.Success? ==>
      forall i :: 0 <= i < |ids| ==> r.value[ids[i]] == AdjustOne(es, ids[i], time, average, u, cfg, fuel).value
  {
    var g := id => if id in es && IsTrader(es[id]) then AdjustOne(es, id, time, average, u, cfg, fuel) else Failure(MissingEntityError(id));
    PassJoin(ids, g, r);
  }

  /** A store whose traders stayed traders still lists traders. */
  lemma TradersKept(es: map<int, Entity>, es2: map<int, Entity>, ids: seq<int>)
    requires TradersIn(es, ids) && es2.Keys == es.Keys
    requires forall id :: id in es && IsTrader(es[id]) ==> IsTrader(es2[id])
    ensures TradersIn(es2, ids)
  {
    forall i | 0 <= i < |ids| ensures ids[i] in es2 && IsTrader(es2[ids[i]]) {
      var id := ids[i];
      assert id in es && IsTrader(es[id]);
      assert IsTrader(es2[id]);
    }
  }

  /** A trader the adjusting pass does not list comes out as it went in. */
  lemma {:induction false} AdjustAllLeavesOthers(es: map<int, Entity>, ids: seq<int>, time: real,
                                                 average: int -> Commodity -> Num, u: int -> Commodity -> real,
                                                 cfg: Settings, fuel: nat, id: int)
    requires ModulesTotal(es) && TradersIn(es, ids) && id in es && id !in ids
    requires AdjustAll(es, ids, time, average, u, cfg, fuel).Success?
    ensures AdjustAll(es, ids, time, average, u, cfg, fuel).value[id] == es[id]
    decreases |ids|
  {
    if |ids| > 0 {
      var e2 := AdjustOne(es, ids[0], time, average, u, cfg, fuel).value;
      StoreRecipes(es, ids[0], e2);
      StoreTraders(es, ids, e2);
      assert id !in ids[1..];
      AdjustAllLeavesOthers(es[ids[0] := e2], ids[1..], time, average, u, cfg, fuel, id);
    }
  }

  /** A trader the offering pass does not list comes out as it went in. */
  lemma {:induction false} OfferAllLeavesOthers(es: map<int, Entity>, ids: seq<int>, planned: int -> real, id: int)
    requires ModulesTotal(es) && TradersIn(es, ids) && id in es && id !in ids
    requires OfferAll(es, ids, planned).Success?
    ensures OfferAll(es, ids, planned).value[id] == es[id]
    decreases |ids|
  {
    if |ids| > 0 {
      var e2 := CreateOffers(es[ids[0]], planned(ids[0])).value;
      StoreRecipes(es, ids[0], e2);
      StoreTraders(es, ids, e2);
      assert id !in ids[1..];
      OfferAllLeavesOthers(es[ids[0] := e2], ids[1..], planned, id);
    }
  }

  /** With no trader listed twice, the offering pass succeeds exactly when
      every listed trader makes its offers on its own, and leaves each one as
      making its offers alone leaves it. */
  lemma {:induction false} OfferAllOffersEach(es: map<int, Entity>, ids: seq<int>, planned: int -> real)
    requires ModulesTotal(es) && TradersIn(es, ids) && ListedOnce(ids)
    ensures var r := OfferAll(es, ids, planned);
      && (r.Success? <==> forall i :: 0 <= i < |ids| ==> CreateOffers(es[ids[i]], planned(ids[i])).Success?)
      && (r.Success? ==> forall i :: 0 <= i < |ids| ==> r.value[ids[i]] == CreateOffers(es[ids[i]], planned(ids[i])).value)
    decreases |ids|
  {
    if |ids| > 0 && CreateOffers(es[ids[0]], planned(ids[0])).Success? {
      var e2 := CreateOffers(es[ids[0]], planned(ids[0])).value;
      var es' := es[ids[0] := e2];
      StoreRecipes(es, ids[0], e2);
      StoreTraders(es, ids, e2);
      ListedOnceTail(ids);
      OfferAllOffersEach(es', ids[1..], planned);
      if OfferAll(es', ids[1..], planned).Success? {
        OfferAllLeavesOthers(es', ids[1..], planned, ids[0]);
      }
      var r := OfferAll(es', ids[1..], planned);
      OfferStep(es, ids, e2, r, planned);
      assert OfferAll(es, ids, planned) == r;
    }
  }

  /** The first trader's offers joined to the rest of the offering pass, run
      on the store with that trader already replaced. */
  lemma OfferStep(es: map<int, Entity>, ids: seq<int>, e2: Entity, r: Result<map<int, Entity>>, planned: int -> real)
    requires TradersIn(es, ids) && |ids| > 0 && ids[0] !in ids[1..]
    requires CreateOffers(es[ids[0]], planned(ids[0])) == Success(e2)
    requires TradersIn(es[ids[0] := e2], ids[1..])
    requires var es' := es[ids[0] := e2];
      && (r.Success? ==> r.value.Keys == es.Keys && r.value[ids[0]] == e2)
      && (r.Success? <==> forall j :: 0 <= j < |ids[1..]| ==> CreateOffers(es'[ids[1..][j]], planned(ids[1..][j])).Success?)
      && (r.Success? ==>
            forall j :: 0 <= j < |ids[1..]| ==> r.value[ids[1..][j]] == CreateOffers(es'[ids[1..][j]], planned(ids[1..][j])).value)
    ensures r.Success? <==> forall i :: 0 <= i < |ids| ==> CreateOffers(es[ids[i]], planned(ids[i])).Success?
    ensures r.Success? ==> forall i :: 0 <= i < |ids| ==> r.value[ids[i]] == CreateOffers(es[ids[i]], planned(ids[i])).value
  {
    var es' := es[ids[0] := e2];
    var g := id => if id in es && IsTrader(es[id]) then CreateOffers(es[id], planned(id)) else Failure(MissingEntityError(id));
    forall i | 1 <= i < |ids|
      ensures ids[1..][i - 1] == ids[i] && es'[ids[i]] == es[ids[i]]
    {
      assert ids[i] in ids[1..];
    }
    PassJoin(ids, g, r);
  }

  /** `new Cooldowns("adjustPrices", "createOffers")`. */
  const InitialCooldowns: CD.Cooldowns := CD.Add(CD.Add(CD.Empty, "adjustPrices"), "createOffers")

  /** The offering half of a tick, from the cooldowns `cd` the adjusting
      half left: `createOffers` is restarted before the pass, so a throwing
      pass still leaves it spent. */
  function OfferPhase(cd: CD.Cooldowns, es: map<int, Entity>, ids: seq<int>, planned: int -> real)
    : (r: CD.Tick<map<int, Entity>>)
    requires ModulesTotal(es) && TradersIn(es, ids)
    ensures !CD.CanUse(cd, "createOffers") ==> r == CD.Tick(cd, Success(es))
    ensures CD.CanUse(cd, "createOffers") ==>
      r.cooldowns == CD.Use(cd, "createOffers", 1.0) && r.outcome == OfferAll(es, ids, planned)
    ensures !CD.CanUse(r.cooldowns, "createOffers")
    ensures r.outcome.Success? ==> r.outcome.value.Keys == es.Keys
  {
    if CD.CanUse(cd, "createOffers") then CD.Tick(CD.Use(cd, "createOffers", 1.0), OfferAll(es, ids, planned))
    else CD.Tick(cd, Success(es))
  }

  /** `TradingSystem.exec(delta)`: count the cooldowns down; when
      `adjustPrices` has run out, restart it at 900 and adjust every
      trader's prices; then, when `createOffers` has run out, restart it at
      1 and create every trader's offers. A throw in the adjusting pass ends
      the tick with `adjustPrices` spent and `createOffers` untouched. */
  function Exec(cooldowns: CD.Cooldowns, delta: real, es: map<int, Entity>, ids: seq<int>, time: real,
                average: int -> Commodity -> Num, u: int -> Commodity -> real, planned: int -> real,
                cfg: Settings, fuel: nat): (r: CD.Tick<map<int, Entity>>)
    requires ModulesTotal(es) && TradersIn(es, ids)
    ensures var cd := CD.Update(cooldowns, delta);
      !CD.CanUse(cd, "adjustPrices") && !CD.CanUse(cd, "createOffers") ==> r == CD.Tick(cd, Success(es))
    ensures var cd := CD.Update(cooldowns, delta);
      !CD.CanUse(cd, "adjustPrices") && CD.CanUse(cd, "createOffers") ==> r.outcome == OfferAll(es, ids, planned)
    ensures var cd := CD.Update(cooldowns, delta);
      CD.CanUse(cd, "adjustPrices") && AdjustAll(es, ids, time, average, u, cfg, fuel).Failure? ==>
        r == CD.Tick(CD.Use(cd, "adjustPrices", 900.0), AdjustAll(es, ids, time, average, u, cfg, fuel))
    ensures r.outcome.Success? ==> r.outcome.value.Keys == es.Keys
    ensures !CD.CanUse(r.cooldowns, "adjustPrices")
    ensures r.outcome.Success? ==> !CD.CanUse(r.cooldowns, "createOffers")
    ensures var cd := CD.Update(cooldowns, delta);
      CD.CanUse(cd, "adjustPrices") ==> "adjustPrices" in r.cooldowns.timers && r.cooldowns.timers["adjustPrices"] == 900.0
    ensures var cd := CD.Update(cooldowns, delta);
      CD.CanUse(cd, "createOffers") && (CD.CanUse(cd, "adjustPrices") ==> AdjustAll(es, ids, time, average, u, cfg, fuel).Success?) ==>
        "createOffers" in r.cooldowns.timers && r.cooldowns.timers["createOffers"] == 1.0
  {
    var cd := CD.Update(cooldowns, delta);
    if CD.CanUse(cd, "adjustPrices") then
      var cd1 := CD.Use(cd, "adjustPrices", 900.0);
      match AdjustAll(es, ids, time, average, u, cfg, fuel)
      case Failure(e) => CD.Tick(cd1, Failure(e))
      case Success(es1) =>
        AdjustAllKeepsTraders(es, ids, time, average, u, cfg, fuel);
        TradersKept(es, es1, ids);
        OfferPhase(cd1, es1, ids, planned)
    else OfferPhase(cd, es, ids, planned)
  }

  /** Both passes run on the first tick. */
  lemma FirstTickRunsBoth(delta: real)
    requires delta >= 0.0
    ensures CD.CanUse(CD.Update(InitialCooldowns, delta), "adjustPrices")
    ensures CD.CanUse(CD.Update(InitialCooldowns, delta), "createOffers")
  {
    var cd := CD.Update(InitialCooldowns, delta);
    assert InitialCooldowns.timers == map["adjustPrices" := 0.0, "createOffers" := 0.0];
    assert "adjustPrices" in cd.timers && cd.timers["adjustPrices"] == 0.0 - delta;
    assert "createOffers" in cd.timers && cd.timers["createOffers"] == 0.0 - delta;
  }

  /** After a tick that adjusted prices, thrown or not, no tick within the
      next 900 time units adjusts them again, while, once the adjusting pass
      went through, offers are recreated on every tick at least one time
      unit later. */
  lemma AdjustAtMostOncePerCooldown(cooldowns: CD.Cooldowns, delta: real, delta2: real, es: map<int, Entity>,
                                    ids: seq<int>, time: real, average: int -> Commodity -> Num,
                                    u: int -> Commodity -> real, planned: int -> real, cfg: Settings, fuel: nat)
    requires ModulesTotal(es) && TradersIn(es, ids)
    requires CD.CanUse(CD.Update(cooldowns, delta), "adjustPrices")
    requires CD.CanUse(CD.Update(cooldowns, delta), "createOffers")
    ensures var cd := Exec(cooldowns, delta, es, ids, time, average, u, planned, cfg, fuel).cooldowns;
      && (CD.CanUse(CD.Update(cd, delta2), "adjustPrices") <==> delta2 >= 900.0)
      && (AdjustAll(es, ids, time, average, u, cfg, fuel).Success? ==>
            (CD.CanUse(CD.Update(cd, delta2), "createOffers") <==> delta2 >= 1.0))
  {
  }
}
