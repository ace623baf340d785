/** Storage-quota settlement of the older engine
    (src/systems/storageQuotaPlanning.ts). Every commodity's quota is
    rewritten from one of three rules: the compound recipe's share of the
    capacity, an equal share for each commodity a shipyard's owner needs for
    its ship blueprints, or zero.

    The owner's blueprints are read through `sim.getOrThrow(owner.id)`; the
    model receives them as `blueprints`, which maps a faction id to the cost
    keys (`Object.keys(blueprint.build.cost)`) of each of its ship
    blueprints, in order. An owner id missing from it is a missing entity. */
module StorageQuota {
  import opened Wrappers
  import opened Commodities
  import opened Components
  import opened Entities
  import opened Stores
  import CD = Cooldowns
  import K = Kinds

  /** `flat`: the lists concatenated in order. */
  function Flat(xss: seq<seq<Commodity>>): (r: seq<Commodity>)
    ensures forall c :: c in r <==> exists i :: 0 <= i < |xss| && c in xss[i]
  {
    if |xss| == 0 then []
    else
      assert forall i :: 1 <= i < |xss| ==> xss[i] == xss[1..][i - 1];
      xss[0] + Flat(xss[1..])
  }

  /** `uniq`: the first occurrence of every element, in order. */
  function Uniq(xs: seq<Commodity>, seen: set<Commodity>): (r: seq<Commodity>)
    ensures forall c :: c in r <==> c in xs && c !in seen
    ensures forall i, j :: 0 <= i < j < |r| ==> r[i] != r[j]
    decreases |xs|
  {
    if |xs| == 0 then []
    else if xs[0] in seen then Uniq(xs[1..], seen)
    else [xs[0]] + Uniq(xs[1..], seen + {xs[0]})
  }

  /** The commodities a faction needs for its ship blueprints, each once. */
  function Needed(costKeys: seq<seq<Commodity>>): (r: seq<Commodity>)
    ensures forall c :: c in r <==> exists i :: 0 <= i < |costKeys| && c in costKeys[i]
    ensures forall i, j :: 0 <= i < j < |r| ==> r[i] != r[j]
  {
    Uniq(Flat(costKeys), {})
  }

  /** Which of the three branches of `settleStorageQuota` applies. */
  datatype QuotaRule =
    | ByProduction(pac: map<Commodity, Pac>)
    | ByShipyard(needed: seq<Commodity>)
    | Zero

  /** `getShipyardQuota`: an equal share of the capacity for a needed
      commodity, nothing for the others. `Math.floor(max / n)` is Dafny's
      division, which rounds down for a positive divisor. */
  function ShipyardQuota(max: int, needed: seq<Commodity>, c: Commodity): (q: int)
    ensures c !in needed ==> q == 0
    ensures c in needed ==> |needed| > 0 && q * |needed| <= max < (q + 1) * |needed|
  {
    if c !in needed then 0 else max / |needed|
  }

  /** A commodity's share of the capacity under compound production:
      `floor(max·(produces + consumes) / getRequiredStorage)`. An empty
      recipe, where that division is `0 / 0`, gives 0 here. */
  function ProductionShare(max: int, pac: map<Commodity, Pac>, c: Commodity): (r: int)
    requires Total(pac)
    ensures 0 <= max && NonNegative(pac) ==> 0 <= r <= max
  {
    var required := RequiredStorage(pac);
    if required == 0.0 then 0
    else
      var part := pac[c].produces + pac[c].consumes;
      if 0 <= max && NonNegative(pac) then
        AllListsEveryCommodityOnce();
        ThroughputCovers(pac, All, c);
        ShareOfWhole(max, part, required);
        ((max as real) * part / required).Floor
      else ((max as real) * part / required).Floor
  }

  /** `floor(m · part / whole)` lies in `[0, m]` when `0 <= part <= whole`. */
  lemma ShareOfWhole(m: int, part: real, whole: real)
    requires 0 <= m && 0.0 <= part <= whole && whole != 0.0
    ensures 0 <= ((m as real) * part / whole).Floor <= m
  {
    var mr := m as real;
    var x := mr * part / whole;
    assert x * whole == mr * part;
    assert (mr - x) * whole == mr * (whole - part);
    assert mr * (whole - part) >= 0.0 && mr * part >= 0.0;
    assert x < 0.0 ==> x * whole < 0.0;
    assert mr - x < 0.0 ==> (mr - x) * whole < 0.0;
  }

  /** The quota one commodity gets under a rule. */
  function QuotaFor(rule: QuotaRule, max: int, c: Commodity): int
    requires rule.ByProduction? ==> Total(rule.pac)
  {
    match rule
    case ByProduction(pac) => ProductionShare(max, pac, c)
    case ByShipyard(needed) => ShipyardQuota(max, needed, c)
    case Zero => 0
  }

  /** The branch `settleStorageQuota` takes for an entity: compound
      production first, then a shipyard with an owner, else zero. A
      component stored under the wrong kind, or a recipe that is not a full
      record, is a type error; an owner that cannot be found is a missing
      entity. */
  function RuleOf(e: Entity, blueprints: map<int, seq<seq<Commodity>>>): (r: Result<QuotaRule>)
    ensures r.Success? && r.value.ByProduction? ==> Total(r.value.pac)
    ensures K.CompoundProduction in e.components ==>
      var cp := e.components[K.CompoundProduction];
      if cp.CompoundProduction? && Total(cp.pac) then r == Success(ByProduction(cp.pac))
      else r == Failure(TypeError)
    ensures K.CompoundProduction !in e.components && !(K.Shipyard in e.components && K.Owner in e.components) ==>
      r == Success(Zero)
    ensures K.CompoundProduction !in e.components && K.Shipyard in e.components && K.Owner in e.components ==>
      match e.components[K.Owner]
      case Owner(id) =>
        if id in blueprints then r == Success(ByShipyard(Needed(blueprints[id])))
        else r == Failure(MissingEntityError(id))
      case _ => r == Failure(TypeError)
  {
    if K.CompoundProduction in e.components then
      var cp := e.components[K.CompoundProduction];
      if cp.CompoundProduction? && Total(cp.pac) then Success(ByProduction(cp.pac))
      else Failure(TypeError)
    else if K.Shipyard in e.components && K.Owner in e.components then
      match e.components[K.Owner]
      case Owner(id) =>
        if id in blueprints then Success(ByShipyard(Needed(blueprints[id])))
        else Failure(MissingEntityError(id))
      case _ => Failure(TypeError)
    else Success(Zero)
  }

  /** The `commoditiesArray.forEach` pass: write each listed commodity's
      quota in turn. */
  function WriteQuotas(cs: seq<Commodity>, quota: map<Commodity, int>, rule: QuotaRule, max: int): (r: map<Commodity, int>)
    requires rule.ByProduction? ==> Total(rule.pac)
    decreases |cs|
  {
    if |cs| == 0 then quota
    else WriteQuotas(cs[1..], quota[cs[0] := QuotaFor(rule, max, cs[0])], rule, max)
  }

  /** A written commodity holds its rule's quota; the others keep theirs. */
  lemma {:induction false} WriteQuotasEffect(cs: seq<Commodity>, quota: map<Commodity, int>, rule: QuotaRule, max: int, c: Commodity)
    requires rule.ByProduction? ==> Total(rule.pac)
    ensures var r := WriteQuotas(cs, quota, rule, max);
      && (c in r <==> c in quota || c in cs)
      && (c in cs ==> r[c] == QuotaFor(rule, max, c))
      && (c !in cs && c in quota ==> r[c] == quota[c])
    decreases |cs|
  {
    if |cs| > 0 {
      WriteQuotasEffect(cs[1..], quota[cs[0] := QuotaFor(rule, max, cs[0])], rule, max, c);
    }
  }

  /** The storage of an entity that can be settled. */
  predicate HasStorage(e: Entity) {
    K.Storage in e.components && e.components[K.Storage].Storage?
  }

  /** `settleStorageQuota(entity)`: the storage's quota is rewritten for
      every commodity; nothing else changes. */
  function Settle(e: Entity, blueprints: map<int, seq<seq<Commodity>>>): (r: Result<Entity>)
    ensures !HasStorage(e) ==> r == Failure(TypeError)
    ensures r.Success? <==> HasStorage(e) && RuleOf(e, blueprints).Success?
    ensures r.Success? ==> HasStorage(r.value)
    ensures r.Success? ==>
      var st := e.components[K.Storage].storage;
      && r.value == e.(components := e.components[K.Storage := Storage(r.value.components[K.Storage].storage)])
      && r.value.components[K.Storage].storage == st.(quota := r.value.components[K.Storage].storage.quota)
  {
    if !HasStorage(e) then Failure(TypeError)
    else
      var rule :- RuleOf(e, blueprints);
      var st := e.components[K.Storage].storage;
      var q := WriteQuotas(All, st.quota, rule, st.max);
      Success(e.(components := e.components[K.Storage := Storage(st.(quota := q))]))
  }

  /** The settled quota of each commodity is the one its rule gives. */
  lemma SettledQuota(e: Entity, blueprints: map<int, seq<seq<Commodity>>>, c: Commodity)
    requires HasStorage(e) && RuleOf(e, blueprints).Success?
    ensures var rule := RuleOf(e, blueprints).value;
      var q := Settle(e, blueprints).value.components[K.Storage].storage.quota;
      c in q && q[c] == QuotaFor(rule, e.components[K.Storage].storage.max, c)
  {
    var rule := RuleOf(e, blueprints).value;
    var st := e.components[K.Storage].storage;
    assert All[PositionOf(c)] == c;
    WriteQuotasEffect(All, st.quota, rule, st.max, c);
  }

  /** Compound production sets `quota[c]` to the commodity's share of the
      capacity, and takes precedence over a shipyard. */
  lemma ProductionQuota(e: Entity, blueprints: map<int, seq<seq<Commodity>>>, c: Commodity)
    requires HasStorage(e) && K.CompoundProduction in e.components
    requires e.components[K.CompoundProduction].CompoundProduction?
    requires Total(e.components[K.CompoundProduction].pac)
    ensures Settle(e, blueprints).Success?
    ensures var pac := e.components[K.CompoundProduction].pac;
      var max := e.components[K.Storage].storage.max;
      var q := Settle(e, blueprints).value.components[K.Storage].storage.quota;
      && c in q
      && q[c] == ProductionShare(max, pac, c)
  {
    assert RuleOf(e, blueprints) == Success(ByProduction(e.components[K.CompoundProduction].pac));
    SettledQuota(e, blueprints, c);
  }

  /** A shipyard with an owner (and no compound production) gives each
      needed commodity `floor(max / n)` and every other commodity 0. */
  lemma ShipyardQuotas(e: Entity, blueprints: map<int, seq<seq<Commodity>>>, c: Commodity)
    requires HasStorage(e) && K.CompoundProduction !in e.components
    requires K.Shipyard in e.components && K.Owner in e.components
    requires e.components[K.Owner].Owner? && e.components[K.Owner].ownerId in blueprints
    ensures Settle(e, blueprints).Success?
    ensures var needed := Needed(blueprints[e.components[K.Owner].ownerId]);
      var max := e.components[K.Storage].storage.max;
      var q := Settle(e, blueprints).value.components[K.Storage].storage.quota;
      && c in q
      && q[c] == ShipyardQuota(max, needed, c)
  {
    var needed := Needed(blueprints[e.components[K.Owner].ownerId]);
    assert RuleOf(e, blueprints) == Success(ByShipyard(needed));
    SettledQuota(e, blueprints, c);
  }

  /** Neither compound production nor a shipyard with an owner: every quota
      is 0. */
  lemma ZeroQuotas(e: Entity, blueprints: map<int, seq<seq<Commodity>>>, c: Commodity)
    requires HasStorage(e) && K.CompoundProduction !in e.components
    requires !(K.Shipyard in e.components && K.Owner in e.components)
    ensures Settle(e, blueprints).Success?
    ensures var q := Settle(e, blueprints).value.components[K.Storage].storage.quota;
      c in q && q[c] == 0
  {
    SettledQuota(e, blueprints, c);
  }

  /** Settling twice is settling once: every quota is overwritten from
      inputs the first pass does not change. */
  lemma SettleIdempotent(e: Entity, blueprints: map<int, seq<seq<Commodity>>>)
    requires HasStorage(e) && RuleOf(e, blueprints).Success?
    ensures Settle(Settle(e, blueprints).value, blueprints) == Settle(e, blueprints)
  {
    var st := e.components[K.Storage].storage;
    var rule := RuleOf(e, blueprints).value;
    var q1 := WriteQuotas(All, st.quota, rule, st.max);
    SettleIs(e, blueprints);
    var e1 := WithQuota(e, q1);
    RuleOfIgnoresStorage(e, st.(quota := q1), blueprints);
    SettleIs(e1, blueprints);
    WriteAllForgetsInput(q1, st.quota, rule, st.max);
    WithOwnQuota(e1);
  }

  /** `e` with its storage quota replaced by `q`. */
  function WithQuota(e: Entity, q: map<Commodity, int>): (r: Entity)
    requires HasStorage(e)
    ensures HasStorage(r) && r.components[K.Storage].storage == e.components[K.Storage].storage.(quota := q)
  {
    e.(components := e.components[K.Storage := Storage(e.components[K.Storage].storage.(quota := q))])
  }

  /** Writing back the quota an entity already has changes nothing. */
  lemma WithOwnQuota(e: Entity)
    requires HasStorage(e)
    ensures WithQuota(e, e.components[K.Storage].storage.quota) == e
  {
    var m := e.components;
    assert m[K.Storage := Storage(m[K.Storage].storage.(quota := m[K.Storage].storage.quota))] == m;
  }

  lemma SettleIs(e: Entity, blueprints: map<int, seq<seq<Commodity>>>)
    requires HasStorage(e) && RuleOf(e, blueprints).Success?
    ensures var st := e.components[K.Storage].storage;
      Settle(e, blueprints) == Success(WithQuota(e, WriteQuotas(All, st.quota, RuleOf(e, blueprints).value, st.max)))
  {
  }

  /** The rule does not depend on the storage record. */
  lemma RuleOfIgnoresStorage(e: Entity, s: CommodityStorage, blueprints: map<int, seq<seq<Commodity>>>)
    ensures RuleOf(e.(components := e.components[K.Storage := Storage(s)]), blueprints) == RuleOf(e, blueprints)
  {
    var m := e.components[K.Storage := Storage(s)];
    assert (K.CompoundProduction in m) == (K.CompoundProduction in e.components);
    assert (K.Shipyard in m) == (K.Shipyard in e.components);
    assert (K.Owner in m) == (K.Owner in e.components);
  }

  /** The pass over every commodity leaves nothing of the record it
      started from. */
  lemma WriteAllForgetsInput(q1: map<Commodity, int>, q2: map<Commodity, int>, rule: QuotaRule, max: int)
    requires rule.ByProduction? ==> Total(rule.pac)
    ensures WriteQuotas(All, q1, rule, max) == WriteQuotas(All, q2, rule, max)
  {
    AllListsEveryCommodityOnce();
    WriteCoverForgetsInput(All, q1, q2, rule, max);
  }

  lemma WriteCoverForgetsInput(cs: seq<Commodity>, q1: map<Commodity, int>, q2: map<Commodity, int>, rule: QuotaRule, max: int)
    requires rule.ByProduction? ==> Total(rule.pac)
    requires forall c :: c in cs
    ensures WriteQuotas(cs, q1, rule, max) == WriteQuotas(cs, q2, rule, max)
  {
    var r1, r2 := WriteQuotas(cs, q1, rule, max), WriteQuotas(cs, q2, rule, max);
    forall c ensures c in r1 && c in r2 && r1[c] == r2[c] {
      WriteQuotasEffect(cs, q1, rule, max, c);
      WriteQuotasEffect(cs, q2, rule, max, c);
    }
    assert r1 == r2;
  }

  /** The pass adds the listed commodities to the record's keys. */
  lemma WriteQuotasKeys(cs: seq<Commodity>, quota: map<Commodity, int>, rule: QuotaRule, max: int)
    requires rule.ByProduction? ==> Total(rule.pac)
    ensures WriteQuotas(cs, quota, rule, max).Keys == quota.Keys + set c | c in cs
  {
    var r := WriteQuotas(cs, quota, rule, max);
    forall c ensures c in r <==> c in quota || c in cs {
      WriteQuotasEffect(cs, quota, rule, max, c);
    }
  }

  /** How many of `cs` are in `needed`. */
  function CountNeeded(cs: seq<Commodity>, needed: seq<Commodity>): nat
    decreases |cs|
  {
    if |cs| == 0 then 0 else (if cs[0] in needed then 1 else 0) + CountNeeded(cs[1..], needed)
  }

  /** Summed over `cs`, the shipyard quotas. */
  function ShipyardSum(cs: seq<Commodity>, max: int, needed: seq<Commodity>): int
    decreases |cs|
  {
    if |cs| == 0 then 0 else ShipyardQuota(max, needed, cs[0]) + ShipyardSum(cs[1..], max, needed)
  }

  lemma {:induction false} ShipyardSumIsShare(cs: seq<Commodity>, max: int, needed: seq<Commodity>)
    requires |needed| > 0
    ensures ShipyardSum(cs, max, needed) == CountNeeded(cs, needed) * (max / |needed|)
    decreases |cs|
  {
    if |cs| > 0 {
      var q := max / |needed|;
      var k := CountNeeded(cs[1..], needed);
      ShipyardSumIsShare(cs[1..], max, needed);
      if cs[0] in needed {
        assert ShipyardQuota(max, needed, cs[0]) == q;
        assert CountNeeded(cs, needed) == k + 1;
        assert (k + 1) * q == k * q + q;
      } else {
        assert ShipyardQuota(max, needed, cs[0]) == 0;
        assert CountNeeded(cs, needed) == k;
      }
    }
  }

  /** Each of `ns` occurring in `cs`, counted. */
  function OccurrencesOf(ns: seq<Commodity>, cs: seq<Commodity>): nat
    decreases |ns|
  {
    if |ns| == 0 then 0 else Occurs(cs, ns[0]) + OccurrencesOf(ns[1..], cs)
  }

  lemma {:induction false} OccurrencesOfCons(ns: seq<Commodity>, c: Commodity, cs: seq<Commodity>)
    ensures OccurrencesOf(ns, [c] + cs) == OccurrencesOf(ns, cs) + Occurs(ns, c)
    decreases |ns|
  {
    if |ns| > 0 {
      assert ([c] + cs)[1..] == cs;
      OccurrencesOfCons(ns[1..], c, cs);
    }
  }

  /** Counting the members of `cs` that are needed is counting, for each
      needed commodity, its occurrences in `cs`. */
  lemma {:induction false} CountIsOccurrences(cs: seq<Commodity>, needed: seq<Commodity>)
    requires forall i, j :: 0 <= i < j < |needed| ==> needed[i] != needed[j]
    ensures CountNeeded(cs, needed) == OccurrencesOf(needed, cs)
    decreases |cs|
  {
    if |cs| == 0 {
      OccurrencesNone(needed);
    } else {
      CountIsOccurrences(cs[1..], needed);
      assert cs == [cs[0]] + cs[1..];
      OccurrencesOfCons(needed, cs[0], cs[1..]);
      OccursDistinct(needed, cs[0]);
    }
  }

  lemma {:induction false} OccurrencesNone(ns: seq<Commodity>)
    ensures OccurrencesOf(ns, []) == 0
    decreases |ns|
  {
    if |ns| > 0 {
      OccurrencesNone(ns[1..]);
    }
  }

  lemma {:induction false} OccurrencesOnce(ns: seq<Commodity>, cs: seq<Commodity>)
    requires forall c :: Occurs(cs, c) == 1
    ensures OccurrencesOf(ns, cs) == |ns|
    decreases |ns|
  {
    if |ns| > 0 {
      OccurrencesOnce(ns[1..], cs);
    }
  }

  /** A shipyard's quotas, summed over every commodity, never exceed the
      storage capacity: `n` needed commodities get `floor(max / n)` each. */
  lemma ShipyardQuotasFit(max: int, needed: seq<Commodity>)
    requires max >= 0
    requires forall i, j :: 0 <= i < j < |needed| ==> needed[i] != needed[j]
    ensures ShipyardSum(All, max, needed) <= max
  {
    if |needed| > 0 {
      var n, q := |needed|, max / |needed|;
      ShipyardSumIsShare(All, max, needed);
      CountIsOccurrences(All, needed);
      OccursOnceInAll();
      OccurrencesOnce(needed, All);
      assert CountNeeded(All, needed) == n;
      FloorShare(max, n);
    } else {
      ShipyardSumZero(All, max, needed);
    }
  }

  lemma FloorShare(a: int, b: int)
    requires b > 0
    ensures (a / b) * b <= a
  {
  }

  lemma {:induction false} ShipyardSumZero(cs: seq<Commodity>, max: int, needed: seq<Commodity>)
    requires |needed| == 0
    ensures ShipyardSum(cs, max, needed) == 0
    decreases |cs|
  {
    if |cs| > 0 {
      ShipyardSumZero(cs[1..], max, needed);
    }
  }

  /** Settle each listed entity in turn; the first failure stops the pass. */
  function SettleAll(es: map<int, Entity>, ids: seq<int>, blueprints: map<int, seq<seq<Commodity>>>): (r: Result<map<int, Entity>>)
    ensures r.Success? ==> r.value.Keys == es.Keys
    decreases |ids|
  {
    if |ids| == 0 then Success(es)
    else if ids[0] !in es then Failure(MissingEntityError(ids[0]))
    else
      var e :- Settle(es[ids[0]], blueprints);
      SettleAll(es[ids[0] := e], ids[1..], blueprints)
  }

  /** An entity the pass does not list comes out as it went in. */
  lemma {:induction false} SettleAllLeavesOthers(es: map<int, Entity>, ids: seq<int>,
                                                 blueprints: map<int, seq<seq<Commodity>>>, id: int)
    requires id in es && id !in ids
    ensures SettleAll(es, ids, blueprints).Success? ==> SettleAll(es, ids, blueprints).value[id] == es[id]
    decreases |ids|
  {
    if |ids| > 0 && ids[0] in es && Settle(es[ids[0]], blueprints).Success? {
      var e := Settle(es[ids[0]], blueprints).value;
      assert id !in ids[1..];
      SettleAllLeavesOthers(es[ids[0] := e], ids[1..], blueprints, id);
    }
  }

  /** With no id listed twice, the pass succeeds exactly when every listed
      entity exists and settles on its own, and then leaves each one as
      settling it alone would. */
  lemma {:induction false} SettleAllSettlesEach(es: map<int, Entity>, ids: seq<int>,
                                                blueprints: map<int, seq<seq<Commodity>>>)
    requires ListedOnce(ids)
    ensures SettleAll(es, ids, blueprints).Success? <==>
      forall i :: 0 <= i < |ids| ==> ids[i] in es && Settle(es[ids[i]], blueprints).Success?
    ensures SettleAll(es, ids, blueprints).Success? ==>
      forall i :: 0 <= i < |ids| ==> SettleAll(es, ids, blueprints).value[ids[i]] == Settle(es[ids[i]], blueprints).value
    decreases |ids|
  {
    if |ids| > 0 && ids[0] in es && Settle(es[ids[0]], blueprints).Success? {
      var e := Settle(es[ids[0]], blueprints).value;
      var es' := es[ids[0] := e];
      ListedOnceTail(ids);
      SettleAllSettlesEach(es', ids[1..], blueprints);
      SettleAllLeavesOthers(es', ids[1..], blueprints, ids[0]);
      PassStep(es, ids, x => Settle(x, blueprints), e, SettleAll(es', ids[1..], blueprints));
    }
  }

  /** `StorageQuotaPlanningSystem.exec(delta)`: count the cooldown down; when
      it has run out, restart it at 20 and settle every storage-and-trading
      entity (`ids`, the query's result). The cooldown is restarted before
      the pass, so it runs even after a pass that throws. */
  function Exec(cooldowns: CD.Cooldowns, delta: real, es: map<int, Entity>, ids: seq<int>,
                blueprints: map<int, seq<seq<Commodity>>>): (r: CD.Tick<map<int, Entity>>)
    ensures !CD.CanUse(CD.Update(cooldowns, delta), "settle") ==> r == CD.Tick(CD.Update(cooldowns, delta), Success(es))
    ensures CD.CanUse(CD.Update(cooldowns, delta), "settle") ==>
      && r.cooldowns == CD.Use(CD.Update(cooldowns, delta), "settle", 20.0)
      && r.outcome == SettleAll(es, ids, blueprints)
    ensures !CD.CanUse(r.cooldowns, "settle")
  {
    var cd := CD.Update(cooldowns, delta);
    if !CD.CanUse(cd, "settle") then CD.Tick(cd, Success(es))
    else CD.Tick(CD.Use(cd, "settle", 20.0), SettleAll(es, ids, blueprints))
  }

  /** Right after a tick that started a settling pass, whether or not the
      pass threw, a tick with a delta below 20 settles nothing, whatever the
      entities are by then. */
  lemma SettleAtMostOncePerCooldown(cooldowns: CD.Cooldowns, delta: real, delta2: real, es: map<int, Entity>,
                                    es2: map<int, Entity>, ids: seq<int>, blueprints: map<int, seq<seq<Commodity>>>)
    requires CD.CanUse(CD.Update(cooldowns, delta), "settle")
    requires delta2 < 20.0
    ensures var cd := Exec(cooldowns, delta, es, ids, blueprints).cooldowns;
      Exec(cd, delta2, es2, ids, blueprints) == CD.Tick(CD.Update(cd, delta2), Success(es2))
  {
    CD.UsableAfterDuration(CD.Update(cooldowns, delta), "settle", 20.0, delta2);
  }
}
