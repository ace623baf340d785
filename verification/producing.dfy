/** The core production system (core/systems/producing.ts). The scaling
    ratio `gameDay / gameMonth` (core/utils/misc.ts is not part of this
    model) is the parameter `m`; `gameDay` itself, used as the cooldown
    length, is the parameter `day`. The storage helpers are those of module
    Stores. */
module Producing {
  import opened Wrappers
  import opened Commodities
  import opened Components
  import opened Entities
  import opened Stores
  import CD = Cooldowns
  import CS = CoreSim
  import K = Kinds

  /** What `produce` removes of one commodity. */
  function Consumed(p: Pac, m: real): int {
    if p.consumes > 0.0 then (p.consumes * m).Floor else 0
  }

  /** `limitMax(value, max)`: the smaller of the two. */
  function LimitMax(value: real, max: real): (r: real)
    ensures r <= value && r <= max && (r == value || r == max)
  {
    if value > max then max else value
  }

  /** What `produce` adds of one commodity: capped by the quota minus the
      scaled production, not by the room left under the quota. */
  function Produced(p: Pac, quota: int, m: real): int {
    if p.produces > 0.0 then LimitMax(quota as real - p.produces * m, p.produces * m).Floor else 0
  }

  /** The first `perCommodity` pass of `produce`, over `cs`. */
  function ConsumePass(cs: seq<Commodity>, pac: map<Commodity, Pac>, s: CommodityStorage, m: real): (r: CommodityStorage)
    requires Total(pac) && Total(s.stored) && Total(s.availableWares)
    ensures r.max == s.max && r.quota == s.quota
    ensures r.stored.Keys == s.stored.Keys && r.availableWares.Keys == s.availableWares.Keys
    decreases |cs|
  {
    if |cs| == 0 then s
    else
      var c := cs[0];
      var s' := if pac[c].consumes > 0.0 then RemoveStorage(s, c, Consumed(pac[c], m)) else s;
      ConsumePass(cs[1..], pac, s', m)
  }

  /** The second `perCommodity` pass of `produce`, over `cs`. */
  function ProducePass(cs: seq<Commodity>, pac: map<Commodity, Pac>, s: CommodityStorage, m: real): (r: CommodityStorage)
    requires Total(pac) && Total(s.stored) && Total(s.availableWares) && Total(s.quota)
    ensures r.max == s.max && r.quota == s.quota
    ensures r.stored.Keys == s.stored.Keys && r.availableWares.Keys == s.availableWares.Keys
    decreases |cs|
  {
    if |cs| == 0 then s
    else
      var c := cs[0];
      var s' :=
        if pac[c].produces > 0.0 then AddStorage(s, c, Produced(pac[c], s.quota[c], m))
        else s;
      ProducePass(cs[1..], pac, s', m)
  }

  /** The consumption pass lowers a commodity listed once by its scaled
      consumption and leaves an unlisted one alone. */
  lemma {:induction false} ConsumePassEffect(cs: seq<Commodity>, pac: map<Commodity, Pac>, s: CommodityStorage, m: real, c: Commodity)
    requires Total(pac) && Total(s.stored) && Total(s.availableWares) && Occurs(cs, c) <= 1
    ensures var r := ConsumePass(cs, pac, s, m);
      && r.stored[c] == s.stored[c] - (if Occurs(cs, c) == 1 then Consumed(pac[c], m) else 0)
      && r.availableWares[c] == s.availableWares[c] - (if Occurs(cs, c) == 1 then Consumed(pac[c], m) else 0)
    decreases |cs|
  {
    if |cs| > 0 {
      var d := cs[0];
      var s' := if pac[d].consumes > 0.0 then RemoveStorage(s, d, Consumed(pac[d], m)) else s;
      assert ConsumePass(cs, pac, s, m) == ConsumePass(cs[1..], pac, s', m);
      ConsumePassEffect(cs[1..], pac, s', m, c);
    }
  }

  /** The production pass raises a commodity listed once by its capped
      production and leaves an unlisted one alone. */
  lemma {:induction false} ProducePassEffect(cs: seq<Commodity>, pac: map<Commodity, Pac>, s: CommodityStorage, m: real, c: Commodity)
    requires Total(pac) && Total(s.stored) && Total(s.availableWares) && Total(s.quota) && Occurs(cs, c) <= 1
    ensures var r := ProducePass(cs, pac, s, m);
      && r.stored[c] == s.stored[c] + (if Occurs(cs, c) == 1 then Produced(pac[c], s.quota[c], m) else 0)
      && r.availableWares[c] == s.availableWares[c] + (if Occurs(cs, c) == 1 then Produced(pac[c], s.quota[c], m) else 0)
    decreases |cs|
  {
    if |cs| > 0 {
      var d := cs[0];
      var s' := if pac[d].produces > 0.0 then AddStorage(s, d, Produced(pac[d], s.quota[d], m)) else s;
      assert ProducePass(cs, pac, s, m) == ProducePass(cs[1..], pac, s', m);
      ProducePassEffect(cs[1..], pac, s', m, c);
    }
  }

  /** What `produce(production, storage)` leaves: every commodity loses its
      scaled consumption and gains its capped production; capacity and
      quota are untouched. */
  function Produce(pac: map<Commodity, Pac>, s: CommodityStorage, m: real): (r: CommodityStorage)
    requires Total(pac) && Total(s.stored) && Total(s.availableWares) && Total(s.quota)
    ensures r.max == s.max && r.quota == s.quota
    ensures Total(r.stored) && Total(r.availableWares)
  {
    s.(stored := map c | c in s.stored :: s.stored[c] - Consumed(pac[c], m) + Produced(pac[c], s.quota[c], m),
       availableWares := map c | c in s.availableWares ::
         s.availableWares[c] - Consumed(pac[c], m) + Produced(pac[c], s.quota[c], m))
  }

  /** The two `perCommodity` passes of `produce`, run over any list that
      names every commodity once (`commoditiesArray` is one, by
      `OccursOnceInAll`), compute `Produce`: the order in which commodities
      are visited does not show in the result. */
  lemma PassesComputeProduce(cs: seq<Commodity>, pac: map<Commodity, Pac>, s: CommodityStorage, m: real)
    requires Total(pac) && Total(s.stored) && Total(s.availableWares) && Total(s.quota)
    requires forall c :: Occurs(cs, c) == 1
    ensures ProducePass(cs, pac, ConsumePass(cs, pac, s, m), m) == Produce(pac, s, m)
  {
    var r := ProducePass(cs, pac, ConsumePass(cs, pac, s, m), m);
    var p := Produce(pac, s, m);
    StoredMatches(cs, pac, s, m);
    WaresMatch(cs, pac, s, m);
    SameStorage(r, p);
  }

  lemma StoredMatches(cs: seq<Commodity>, pac: map<Commodity, Pac>, s: CommodityStorage, m: real)
    requires Total(pac) && Total(s.stored) && Total(s.availableWares) && Total(s.quota)
    requires forall c :: Occurs(cs, c) == 1
    ensures forall c :: ProducePass(cs, pac, ConsumePass(cs, pac, s, m), m).stored[c] == Produce(pac, s, m).stored[c]
  {
    var r := ProducePass(cs, pac, ConsumePass(cs, pac, s, m), m);
    var p := Produce(pac, s, m);
    forall c ensures r.stored[c] == p.stored[c] {
      PassesAt(cs, pac, s, m, c);
    }
  }

  lemma WaresMatch(cs: seq<Commodity>, pac: map<Commodity, Pac>, s: CommodityStorage, m: real)
    requires Total(pac) && Total(s.stored) && Total(s.availableWares) && Total(s.quota)
    requires forall c :: Occurs(cs, c) == 1
    ensures forall c :: ProducePass(cs, pac, ConsumePass(cs, pac, s, m), m).availableWares[c] == Produce(pac, s, m).availableWares[c]
  {
    var r := ProducePass(cs, pac, ConsumePass(cs, pac, s, m), m);
    var p := Produce(pac, s, m);
    forall c ensures r.availableWares[c] == p.availableWares[c] {
      PassesAt(cs, pac, s, m, c);
    }
  }

  /** Two storages that agree on capacity, quota and every commodity's
      quantities are the same storage. */
  lemma SameStorage(r: CommodityStorage, p: CommodityStorage)
    requires r.max == p.max && r.quota == p.quota
    requires Total(r.stored) && Total(r.availableWares) && Total(p.stored) && Total(p.availableWares)
    requires forall c :: r.stored[c] == p.stored[c] && r.availableWares[c] == p.availableWares[c]
    ensures r == p
  {
    assert r.stored == p.stored;
    assert r.availableWares == p.availableWares;
  }

  /** One commodity listed once goes through both passes. */
  lemma PassesAt(cs: seq<Commodity>, pac: map<Commodity, Pac>, s: CommodityStorage, m: real, c: Commodity)
    requires Total(pac) && Total(s.stored) && Total(s.availableWares) && Total(s.quota)
    requires Occurs(cs, c) == 1
    ensures var r := ProducePass(cs, pac, ConsumePass(cs, pac, s, m), m);
      && r.stored[c] == s.stored[c] - Consumed(pac[c], m) + Produced(pac[c], s.quota[c], m)
      && r.availableWares[c] == s.availableWares[c] - Consumed(pac[c], m) + Produced(pac[c], s.quota[c], m)
  {
    var after := ConsumePass(cs, pac, s, m);
    ConsumePassEffect(cs, pac, s, m, c);
    ProducePassEffect(cs, pac, after, m, c);
  }

  /** A commodity the recipe neither consumes nor produces is untouched, and
      one with a positive consumption and no production loses exactly
      `floor(consumes·m)`. */
  lemma ProduceLeavesIdle(pac: map<Commodity, Pac>, s: CommodityStorage, m: real, c: Commodity)
    requires Total(pac) && Total(s.stored) && Total(s.availableWares) && Total(s.quota)
    ensures pac[c].consumes <= 0.0 && pac[c].produces <= 0.0 ==>
      Produce(pac, s, m).stored[c] == s.stored[c]
    ensures pac[c].consumes > 0.0 && pac[c].produces <= 0.0 ==>
      Produce(pac, s, m).stored[c] == s.stored[c] - (pac[c].consumes * m).Floor
  {
    if pac[c].produces <= 0.0 {
      assert Produced(pac[c], s.quota[c], m) == 0;
    }
  }

  /** The production cap is measured from the quota, not from what is
      stored: with nothing consumed, a commodity already at its quota still
      gains when `quota − produces·m ≥ 1`. */
  lemma ProduceCanExceedQuota()
    ensures var pac := PerCommodity(c => if c == Water then Pac(0.0, 10.0) else ZeroPac);
      var s := CommodityStorage(1000, PerCommodity(c => 100), PerCommodity(c => 100), PerCommodity(c => 100));
      Produce(pac, s, 1.0).stored[Water] == 110 > s.quota[Water]
  {
    var pac := PerCommodity(c => if c == Water then Pac(0.0, 10.0) else ZeroPac);
    var s := CommodityStorage(1000, PerCommodity(c => 100), PerCommodity(c => 100), PerCommodity(c => 100));
    assert Produced(pac[Water], 100, 1.0) == 10;
  }

  /** One commodity's part of the `isAbleToProduce` test. A commodity that
      passes holds at least what `produce` will take of it, and one it
      produces is still below its quota. */
  predicate Ready(pac: map<Commodity, Pac>, s: CommodityStorage, m: real, c: Commodity): (r: bool)
    requires c in pac && c in s.availableWares && c in s.quota
    ensures r && m >= 0.0 && pac[c].consumes >= 0.0 ==> s.availableWares[c] >= Consumed(pac[c], m)
    ensures r && m > 0.0 && pac[c].produces > 0.0 ==> s.availableWares[c] < s.quota[c]
  {
    && HasSufficientStorage(s, c, pac[c].consumes * m)
    && (pac[c].produces * m != 0.0 ==> s.availableWares[c] < s.quota[c])
  }

  /** `every(test, commodities)`. */
  function Every(cs: seq<Commodity>, pac: map<Commodity, Pac>, s: CommodityStorage, m: real): bool
    requires Total(pac) && Total(s.availableWares) && Total(s.quota)
    decreases |cs|
  {
    |cs| == 0 || (Ready(pac, s, m, cs[0]) && Every(cs[1..], pac, s, m))
  }

  lemma {:induction false} EveryIff(cs: seq<Commodity>, pac: map<Commodity, Pac>, s: CommodityStorage, m: real)
    requires Total(pac) && Total(s.availableWares) && Total(s.quota)
    ensures Every(cs, pac, s, m) <==> forall c :: Occurs(cs, c) > 0 ==> Ready(pac, s, m, c)
    decreases |cs|
  {
    if |cs| > 0 {
      EveryIff(cs[1..], pac, s, m);
    }
  }

  /** `isAbleToProduce(module, storage)`: never while the module's
      `production` cooldown runs; otherwise exactly when every commodity's
      scaled consumption is available and every commodity it produces is
      below its quota. */
  function IsAbleToProduce(cooldowns: CD.Cooldowns, pac: map<Commodity, Pac>, s: CommodityStorage, m: real): (r: bool)
    requires Total(pac) && Total(s.availableWares) && Total(s.quota)
    ensures !CD.CanUse(cooldowns, "production") ==> !r
    ensures CD.CanUse(cooldowns, "production") ==> (r <==> forall c :: Ready(pac, s, m, c))
  {
    EveryIff(All, pac, s, m);
    OccursOnceInAll();
    CD.CanUse(cooldowns, "production") && Every(All, pac, s, m)
  }

  /** The recipe of a module with a complete one. */
  predicate HasRecipe(e: Entity) {
    K.Production in e.components && e.components[K.Production].Production?
    && Total(e.components[K.Production].recipe.pac)
  }

  /** A storage with a complete record for every commodity. */
  predicate HasStorage(e: Entity) {
    K.Storage in e.components && e.components[K.Storage].Storage?
    && Holds(e.components[K.Storage].storage)
  }

  /** The gate and, when it passes, the cooldown and the production, for a
      module `mdl` producing into `storage`. */
  function Step(mdl: Entity, storage: CommodityStorage, m: real, day: real): (r: (Entity, CommodityStorage))
    requires HasRecipe(mdl) && Holds(storage)
    ensures var pac := mdl.components[K.Production].recipe.pac;
      if IsAbleToProduce(mdl.cooldowns, pac, storage, m) then
        r.0 == mdl.(cooldowns := CD.Use(mdl.cooldowns, "production", day)) && r.1 == Produce(pac, storage, m)
      else r == (mdl, storage)
    ensures Holds(r.1)
  {
    var pac := mdl.components[K.Production].recipe.pac;
    if IsAbleToProduce(mdl.cooldowns, pac, storage, m) then
      var st := Produce(pac, storage, m);
      (mdl.(cooldowns := CD.Use(mdl.cooldowns, "production", day)), st)
    else (mdl, storage)
  }

  /** The first loop's work on one standalone producer `e`: the gate and,
      when it passes, the cooldown and the production into its own storage.
      A missing recipe or storage is a property read of `undefined`. */
  function Standalone(e: Entity, m: real, day: real): (r: Result<Entity>)
    ensures r.Success? <==> HasRecipe(e) && HasStorage(e)
    ensures r.Failure? ==> r.error == TypeError
    ensures r.Success? ==>
      var st := Step(e, e.components[K.Storage].storage, m, day);
      r.value == e.(cooldowns := st.0.cooldowns, components := e.components[K.Storage := Storage(st.1)])
  {
    if !(HasRecipe(e) && HasStorage(e)) then Failure(TypeError)
    else
      var (e', st) := Step(e, e.components[K.Storage].storage, m, day);
      Success(e'.(components := e'.components[K.Storage := Storage(st)]))
  }

  /** The first loop of `exec`, for one entity of the standalone-production
      query: it produces into its own storage. */
  function StandaloneStep(es: map<int, Entity>, id: int, m: real, day: real): (r: Result<map<int, Entity>>)
    ensures r.Success? <==> id in es && HasRecipe(es[id]) && HasStorage(es[id])
    ensures r.Failure? ==> r.error == (if id in es then TypeError else MissingEntityError(id))
    ensures r.Success? ==> r.value == es[id := Standalone(es[id], m, day).value]
    ensures r.Success? ==> r.value.Keys == es.Keys
  {
    if id !in es then Failure(MissingEntityError(id))
    else
      var e' :- Standalone(es[id], m, day);
      Success(es[id := e'])
  }

  /** `findInAncestors(entity, "storage")` (src/utils/findInAncestors.ts is
      not part of this model): the entity itself when it has a storage,
      otherwise its parent's ancestor; `fuel` bounds the walk. */
  function FindStorageHolder(es: map<int, Entity>, e: Entity, fuel: nat): (r: Result<int>)
    ensures r.Success? ==> r.value in es && K.Storage in es[r.value].components
    decreases fuel
  {
    if K.Storage in e.components && e.id in es && es[e.id] == e then Success(e.id)
    else if K.Parent !in e.components || !e.components[K.Parent].Parent? then Failure(TypeError)
    else
      var pid := e.components[K.Parent].parentId;
      if pid !in es then Failure(MissingEntityError(pid))
      else if fuel == 0 then Failure(OutOfFuel)
      else FindStorageHolder(es, es[pid], fuel - 1)
  }

  /** The second loop of `exec`, for one facility module: it produces into
      the storage of its nearest ancestor that has one. */
  function ModuleStep(es: map<int, Entity>, id: int, m: real, day: real): (r: Result<map<int, Entity>>)
    ensures id !in es ==> r == Failure(MissingEntityError(id))
    ensures id in es ==>
      var h := FindStorageHolder(es, es[id], |es|);
      && (h.Failure? ==> r == Failure(h.error))
      && (h.Success? ==> (r.Success? <==> HasRecipe(es[id]) && HasStorage(es[h.value])))
      && (h.Success? && r.Failure? ==> r.error == TypeError)
    ensures r.Success? ==> r.value.Keys == es.Keys
  {
    if id !in es then Failure(MissingEntityError(id))
    else
      var mdl := es[id];
      var hid :- FindStorageHolder(es, mdl, |es|);
      var holder := es[hid];
      if !(HasRecipe(mdl) && HasStorage(holder)) then Failure(TypeError)
      else
        var (mdl', st) := Step(mdl, holder.components[K.Storage].storage, m, day);
        var es' := es[id := mdl'];
        var h := es'[hid];
        Success(es'[hid := h.(components := h.components[K.Storage := Storage(st)])])
  }

  /** What a module step writes: the module takes the cooldown `Step` gives
      it, the holder's storage becomes the one `Step` produces, and every
      other entity stays as it was; a module that holds a storage itself is
      its own holder. */
  lemma ModuleStepWrites(es: map<int, Entity>, id: int, m: real, day: real)
    requires ModuleStep(es, id, m, day).Success?
    ensures var r := ModuleStep(es, id, m, day).value;
      var hid := FindStorageHolder(es, es[id], |es|).value;
      var st := Step(es[id], es[hid].components[K.Storage].storage, m, day);
      && (hid != id ==>
            && r[id] == es[id].(cooldowns := st.0.cooldowns)
            && r[hid] == es[hid].(components := es[hid].components[K.Storage := Storage(st.1)]))
      && (hid == id ==>
            r[id] == es[id].(cooldowns := st.0.cooldowns, components := es[id].components[K.Storage := Storage(st.1)]))
      && forall j :: j in es && j != id && j != hid ==> r[j] == es[j]
  {
  }

  function RunStandalone(es: map<int, Entity>, ids: seq<int>, m: real, day: real): (r: Result<map<int, Entity>>)
    ensures r.Success? ==> r.value.Keys == es.Keys
    decreases |ids|
  {
    if |ids| == 0 then Success(es)
    else
      var es' :- StandaloneStep(es, ids[0], m, day);
      RunStandalone(es', ids[1..], m, day)
  }

  /** The first loop leaves every entity it does not list as it was. */
  lemma {:induction false} RunStandaloneLeavesOthers(es: map<int, Entity>, ids: seq<int>, m: real, day: real, id: int)
    requires id in es && id !in ids && RunStandalone(es, ids, m, day).Success?
    ensures RunStandalone(es, ids, m, day).value[id] == es[id]
    decreases |ids|
  {
    if |ids| > 0 {
      assert id !in ids[1..];
      RunStandaloneLeavesOthers(StandaloneStep(es, ids[0], m, day).value, ids[1..], m, day, id);
    }
  }

  /** With no entity listed twice, the first loop succeeds exactly when
      every listed entity exists and passes `Standalone` on its own, and
      leaves each one as `Standalone` alone would: a standalone producer
      touches nothing but itself. */
  lemma {:induction false} RunStandaloneStepsEach(es: map<int, Entity>, ids: seq<int>, m: real, day: real)
    requires ListedOnce(ids)
    ensures RunStandalone(es, ids, m, day).Success? <==>
      forall i :: 0 <= i < |ids| ==> ids[i] in es && Standalone(es[ids[i]], m, day).Success?
    ensures RunStandalone(es, ids, m, day).Success? ==>
      forall i :: 0 <= i < |ids| ==> RunStandalone(es, ids, m, day).value[ids[i]] == Standalone(es[ids[i]], m, day).value
    decreases |ids|
  {
    if |ids| > 0 && ids[0] in es && Standalone(es[ids[0]], m, day).Success? {
      var e := Standalone(es[ids[0]], m, day).value;
      var es' := es[ids[0] := e];
      ListedOnceTail(ids);
      RunStandaloneStepsEach(es', ids[1..], m, day);
      if RunStandalone(es', ids[1..], m, day).Success? {
        RunStandaloneLeavesOthers(es', ids[1..], m, day, ids[0]);
      }
      PassStep(es, ids, x => Standalone(x, m, day), e, RunStandalone(es', ids[1..], m, day));
      assert RunStandalone(es, ids, m, day) == RunStandalone(es', ids[1..], m, day);
    }
  }

  function RunModules(es: map<int, Entity>, ids: seq<int>, m: real, day: real): (r: Result<map<int, Entity>>)
    ensures r.Success? ==> r.value.Keys == es.Keys
    decreases |ids|
  {
    if |ids| == 0 then Success(es)
    else
      var es' :- ModuleStep(es, ids[0], m, day);
      RunModules(es', ids[1..], m, day)
  }

  /** What production may change of an entity: its storage and, for a
      listed producer, its `production` cooldown, started at `day`. */
  predicate ProducedOnly(e: Entity, e2: Entity, listed: bool, day: real) {
    && e2.id == e.id && e2.tags == e.tags && e2.deleted == e.deleted && e2.componentsMask == e.componentsMask
    && e2.components.Keys == e.components.Keys
    && e2.components - {K.Storage} == e.components - {K.Storage}
    && (e2.cooldowns == e.cooldowns || (listed && e2.cooldowns == CD.Use(e.cooldowns, "production", day)))
  }

  /** Every entity of `es` changed by production only, the listed ones
      possibly with their cooldown started. */
  predicate StoreProducedOnly(es: map<int, Entity>, es2: map<int, Entity>, ids: seq<int>, day: real) {
    es2.Keys == es.Keys && forall j :: j in es ==> ProducedOnly(es[j], es2[j], j in ids, day)
  }

  /** Nothing at all is production only. */
  lemma ProducedOnlyRefl(es: map<int, Entity>, ids: seq<int>, day: real)
    ensures StoreProducedOnly(es, es, ids, day)
  {
  }

  /** Production after production is still production only: restarting a
      started cooldown at the same length changes nothing. */
  lemma ProducedOnlyTrans(es: map<int, Entity>, es2: map<int, Entity>, es3: map<int, Entity>,
                          ids: seq<int>, ids2: seq<int>, day: real)
    requires StoreProducedOnly(es, es2, ids, day) && StoreProducedOnly(es2, es3, ids2, day)
    ensures StoreProducedOnly(es, es3, ids + ids2, day)
  {
    forall j | j in es ensures ProducedOnly(es[j], es3[j], j in ids + ids2, day) {
      var c := es[j].cooldowns;
      assert CD.Use(CD.Use(c, "production", day), "production", day) == CD.Use(c, "production", day) by {
        assert c.timers["production" := day]["production" := day] == c.timers["production" := day];
      }
    }
  }

  /** The cooldown `Step` leaves a module: as it was, or started at `day`. */
  lemma StepCooldown(mdl: Entity, storage: CommodityStorage, m: real, day: real)
    requires HasRecipe(mdl) && Holds(storage)
    ensures var c := Step(mdl, storage, m, day).0.cooldowns;
      c == mdl.cooldowns || c == CD.Use(mdl.cooldowns, "production", day)
  {
  }

  /** An entity with a new storage and, if it is listed, possibly a
      started cooldown, is changed by production only. */
  lemma EntityProducedOnly(e: Entity, c: CD.Cooldowns, s: Component, listed: bool, day: real)
    requires c == e.cooldowns || (listed && c == CD.Use(e.cooldowns, "production", day))
    ensures ProducedOnly(e, e.(cooldowns := c), listed, day)
    ensures K.Storage in e.components ==>
      ProducedOnly(e, e.(components := e.components[K.Storage := s]), listed, day)
    ensures K.Storage in e.components ==>
      ProducedOnly(e, e.(cooldowns := c, components := e.components[K.Storage := s]), listed, day)
  {
  }

  /** A module step changes the store by production only, starting the
      cooldown of the module alone. */
  lemma ModuleStepProducesOnly(es: map<int, Entity>, id: int, m: real, day: real)
    requires ModuleStep(es, id, m, day).Success?
    ensures StoreProducedOnly(es, ModuleStep(es, id, m, day).value, [id], day)
  {
    var r := ModuleStep(es, id, m, day).value;
    var hid := FindStorageHolder(es, es[id], |es|).value;
    ModuleStepWrites(es, id, m, day);
    var st := Step(es[id], es[hid].components[K.Storage].storage, m, day);
    StepCooldown(es[id], es[hid].components[K.Storage].storage, m, day);
    if hid == id {
      EntityProducedOnly(es[id], st.0.cooldowns, Storage(st.1), true, day);
    } else {
      EntityProducedOnly(es[id], st.0.cooldowns, Storage(st.1), true, day);
      EntityProducedOnly(es[hid], es[hid].cooldowns, Storage(st.1), false, day);
    }
    forall j | j in es ensures ProducedOnly(es[j], r[j], j in [id], day) {
      if j != id && j != hid {
        assert r[j] == es[j];
      }
    }
  }

  /** The second loop changes the store by production only, starting no
      cooldown but those of the listed modules. */
  lemma {:induction false} RunModulesProducesOnly(es: map<int, Entity>, ids: seq<int>, m: real, day: real)
    requires RunModules(es, ids, m, day).Success?
    ensures StoreProducedOnly(es, RunModules(es, ids, m, day).value, ids, day)
    decreases |ids|
  {
    if |ids| == 0 {
      ProducedOnlyRefl(es, ids, day);
    } else {
      var es' := ModuleStep(es, ids[0], m, day).value;
      ModuleStepProducesOnly(es, ids[0], m, day);
      RunModulesProducesOnly(es', ids[1..], m, day);
      ProducedOnlyTrans(es, es', RunModules(es', ids[1..], m, day).value, [ids[0]], ids[1..], day);
      assert [ids[0]] + ids[1..] == ids;
    }
  }

  /** `ProducingSystem.exec`: nothing while the system's `exec` cooldown
      runs; otherwise the standalone producers, then the modules, then the
      cooldown is set to a game day. The query results are the id lists. */
  function Exec(cooldowns: CD.Cooldowns, es: map<int, Entity>, standalone: seq<int>, byModules: seq<int>,
                m: real, day: real): (r: Result<(CD.Cooldowns, map<int, Entity>)>)
    ensures !CD.CanUse(cooldowns, "exec") ==> r == Success((cooldowns, es))
    ensures CD.CanUse(cooldowns, "exec") ==>
      (r.Success? <==> RunStandalone(es, standalone, m, day).Success?
                       && RunModules(RunStandalone(es, standalone, m, day).value, byModules, m, day).Success?)
    ensures CD.CanUse(cooldowns, "exec") && r.Success? ==>
      && r.value.0 == CD.Use(cooldowns, "exec", day) && r.value.1.Keys == es.Keys
      && r.value.1 == RunModules(RunStandalone(es, standalone, m, day).value, byModules, m, day).value
  {
    if !CD.CanUse(cooldowns, "exec") then Success((cooldowns, es))
    else
      var es1 :- RunStandalone(es, standalone, m, day);
      var es2 :- RunModules(es1, byModules, m, day);
      Success((CD.Use(cooldowns, "exec", day), es2))
  }

  /** A tick changes the store by production only: each entity keeps all
      but its storage, and only a listed producer's cooldown is started. */
  lemma ExecProducesOnly(cooldowns: CD.Cooldowns, es: map<int, Entity>, standalone: seq<int>, byModules: seq<int>,
                         m: real, day: real)
    requires Exec(cooldowns, es, standalone, byModules, m, day).Success?
    ensures StoreProducedOnly(es, Exec(cooldowns, es, standalone, byModules, m, day).value.1, standalone + byModules, day)
  {
    if CD.CanUse(cooldowns, "exec") {
      var es1 := RunStandalone(es, standalone, m, day).value;
      RunStandaloneProducesOnly(es, standalone, m, day);
      RunModulesProducesOnly(es1, byModules, m, day);
      ProducedOnlyTrans(es, es1, RunModules(es1, byModules, m, day).value, standalone, byModules, day);
    } else {
      ProducedOnlyRefl(es, standalone + byModules, day);
    }
  }

  /** A standalone step changes the store by production only, starting the
      cooldown of the producer alone. */
  lemma StandaloneStepProducesOnly(es: map<int, Entity>, id: int, m: real, day: real)
    requires StandaloneStep(es, id, m, day).Success?
    ensures StoreProducedOnly(es, StandaloneStep(es, id, m, day).value, [id], day)
  {
    var st := Step(es[id], es[id].components[K.Storage].storage, m, day);
    StepCooldown(es[id], es[id].components[K.Storage].storage, m, day);
    EntityProducedOnly(es[id], st.0.cooldowns, Storage(st.1), true, day);
  }

  /** The first loop changes the store by production only. */
  lemma {:induction false} RunStandaloneProducesOnly(es: map<int, Entity>, ids: seq<int>, m: real, day: real)
    requires RunStandalone(es, ids, m, day).Success?
    ensures StoreProducedOnly(es, RunStandalone(es, ids, m, day).value, ids, day)
    decreases |ids|
  {
    if |ids| == 0 {
      ProducedOnlyRefl(es, ids, day);
    } else {
      var es' := StandaloneStep(es, ids[0], m, day).value;
      StandaloneStepProducesOnly(es, ids[0], m, day);
      RunStandaloneProducesOnly(es', ids[1..], m, day);
      assert RunStandalone(es, ids, m, day) == RunStandalone(es', ids[1..], m, day);
      ProducedOnlyTrans(es, es', RunStandalone(es', ids[1..], m, day).value, [ids[0]], ids[1..], day);
      assert [ids[0]] + ids[1..] == ids;
    }
  }

  /** An entity that fails the gate is left exactly as it was. */
  lemma GateFailureSkips(es: map<int, Entity>, id: int, m: real, day: real)
    requires id in es && HasRecipe(es[id]) && HasStorage(es[id])
    requires var pac := es[id].components[K.Production].recipe.pac;
      var st := es[id].components[K.Storage].storage;
      !IsAbleToProduce(es[id].cooldowns, pac, st, m)
    ensures StandaloneStep(es, id, m, day) == Success(es)
  {
    var e := es[id];
    assert e.components[K.Storage := Storage(e.components[K.Storage].storage)] == e.components;
    assert e.(components := e.components) == e;
    assert es[id := e] == es;
  }

  /** Every entity of `es` sits under its own id, as the sim keeps them. */
  predicate KeyedById(es: map<int, Entity>) {
    forall id :: id in es ==> es[id].id == id
  }

  /** The `removeEntity` handler: every module id of the removed entity is
      looked up and unregistered, in list order. */
  function UnregisterModules(s: CS.Sim, ids: seq<int>): (r: Result<CS.Sim>)
    ensures r.Success? ==> forall id :: id in r.value.entities ==> id in s.entities && r.value.entities[id] == s.entities[id]
    ensures r.Success? && KeyedById(s.entities) ==> r.value.entities.Keys == s.entities.Keys - (set x | x in ids)
    ensures r.Failure? ==> exists i :: 0 <= i < |ids| && r.error == MissingEntityError(ids[i])
    decreases |ids|
  {
    if |ids| == 0 then Success(s)
    else
      var e :- CS.GetOrThrow(s, ids[0]);
      var s1 := CS.Unregister(s, e);
      var r := UnregisterModules(s1, ids[1..]);
      assert s1 == CS.UnregisterEntity(s, MarkDeleted(e));
      assert r.Failure? ==> exists i :: 0 <= i < |ids| && r.error == MissingEntityError(ids[i]) by {
        if r.Failure? {
          var i :| 0 <= i < |ids[1..]| && r.error == MissingEntityError(ids[1..][i]);
          assert ids[1..][i] == ids[i + 1];
        }
      }
      assert (set x | x in ids) == {ids[0]} + (set x | x in ids[1..]);
      r
  }

  /** With distinct, registered module ids the cascade always succeeds. */
  lemma {:induction false} UnregisterModulesSucceeds(s: CS.Sim, ids: seq<int>)
    requires KeyedById(s.entities)
    requires forall i :: 0 <= i < |ids| ==> ids[i] in s.entities
    requires forall i, j :: 0 <= i < j < |ids| ==> ids[i] != ids[j]
    ensures UnregisterModules(s, ids).Success?
    decreases |ids|
  {
    if |ids| > 0 {
      var e := s.entities[ids[0]];
      var s1 := CS.Unregister(s, e);
      assert s1 == CS.UnregisterEntity(s, MarkDeleted(e));
      assert e.id == ids[0];
      forall i | 0 <= i < |ids[1..]| ensures ids[1..][i] in s1.entities {
        assert ids[1..][i] == ids[i + 1];
      }
      forall i, j | 0 <= i < j < |ids[1..]| ensures ids[1..][i] != ids[1..][j] {
        assert ids[1..][i] == ids[i + 1] && ids[1..][j] == ids[j + 1];
      }
      UnregisterModulesSucceeds(s1, ids[1..]);
    }
  }

  /** `entity.unregister()` with the production system attached: the hook
      sees the entity, then its modules go, then the entity itself. */
  function UnregisterWithModules(s: CS.Sim, e: Entity): (r: Result<CS.Sim>)
    ensures r.Success? ==> e.id !in r.value.entities
    ensures r.Success? && KeyedById(s.entities) && K.Modules in e.components && e.components[K.Modules].Modules? ==>
      forall i :: 0 <= i < |e.components[K.Modules].ids| ==> e.components[K.Modules].ids[i] !in r.value.entities
    ensures r.Success? ==> forall id :: id in r.value.entities ==> id in s.entities && r.value.entities[id] == s.entities[id]
  {
    var e' := MarkDeleted(e);
    var s1 := s.(log := s.log + [CS.EntityHook(RemoveEntityHook(e'))]);
    var s2 :-
      if K.Modules in e.components && e.components[K.Modules].Modules?
      then UnregisterModules(s1, e.components[K.Modules].ids)
      else Success(s1);
    Success(s2.(entities := s2.entities - {e.id}, order := CS.Without(s2.order, e.id)))
  }
}
