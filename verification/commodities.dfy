/** Commodities and the per-commodity record builder (src/utils/perCommodity.ts).
    The commodity table itself (economy/commodity.ts) is not part of this
    model: the list below holds every commodity the recipe table names, and the
    mineable ones are those with an asteroid-field colour. */
module Commodities {

  datatype Commodity =
    | Electronics | Food | Fuel | Fuelium | Gold | GoldOre | HullPlates
    | Ice | Metals | Ore | Silica | Silicon | Water

  /** `commoditiesArray`: every commodity once, in a fixed order. */
  const All: seq<Commodity> :=
    [Electronics, Food, Fuel, Fuelium, Gold, GoldOre, HullPlates,
     Ice, Metals, Ore, Silica, Silicon, Water]

  const Mineable: seq<Commodity> := [Fuelium, GoldOre, Ice, Ore, Silica]

  predicate IsMineable(c: Commodity) {
    c in Mineable
  }

  /** A `Record<Commodity, T>`: a value for every commodity. */
  predicate Total<T>(m: map<Commodity, T>) {
    forall c: Commodity :: c in m
  }

  /** The executable form of `Total`: every entry of `commoditiesArray` is
      a key. */
  predicate Complete<T>(m: map<Commodity, T>) {
    forall i :: 0 <= i < |All| ==> All[i] in m
  }

  lemma CompleteIsTotal<T>(m: map<Commodity, T>)
    ensures Complete(m) <==> Total(m)
  {
    AllListsEveryCommodityOnce();
    if Complete(m) {
      forall c: Commodity ensures c in m {
        assert All[PositionOf(c)] in m;
      }
    }
  }

  /** Where `c` sits in `commoditiesArray`. */
  function PositionOf(c: Commodity): (i: nat)
    ensures i < |All| && All[i] == c
  {
    match c
    case Electronics => 0
    case Food => 1
    case Fuel => 2
    case Fuelium => 3
    case Gold => 4
    case GoldOre => 5
    case HullPlates => 6
    case Ice => 7
    case Metals => 8
    case Ore => 9
    case Silica => 10
    case Silicon => 11
    case Water => 12
  }

  lemma AllListsEveryCommodityOnce()
    ensures forall c: Commodity :: c in All
    ensures forall i, j :: 0 <= i < j < |All| ==> All[i] != All[j]
  {
    forall c: Commodity ensures c in All {
      match c
      case Electronics => assert All[0] == c;
      case Food => assert All[1] == c;
      case Fuel => assert All[2] == c;
      case Fuelium => assert All[3] == c;
      case Gold => assert All[4] == c;
      case GoldOre => assert All[5] == c;
      case HullPlates => assert All[6] == c;
      case Ice => assert All[7] == c;
      case Metals => assert All[8] == c;
      case Ore => assert All[9] == c;
      case Silica => assert All[10] == c;
      case Silicon => assert All[11] == c;
      case Water => assert All[12] == c;
    }
  }

  /** How many times `c` occurs in `cs`. */
  function Occurs(cs: seq<Commodity>, c: Commodity): nat
    decreases |cs|
  {
    if |cs| == 0 then 0 else (if cs[0] == c then 1 else 0) + Occurs(cs[1..], c)
  }

  /** `commoditiesArray` lists every commodity exactly once. */
  lemma OccursOnceInAll()
    ensures forall c :: Occurs(All, c) == 1
  {
    AllListsEveryCommodityOnce();
    forall c ensures Occurs(All, c) == 1 {
      OccursDistinct(All, c);
    }
  }

  lemma {:induction false} OccursDistinct(cs: seq<Commodity>, c: Commodity)
    requires forall i, j :: 0 <= i < j < |cs| ==> cs[i] != cs[j]
    ensures Occurs(cs, c) == if c in cs then 1 else 0
    decreases |cs|
  {
    if |cs| > 0 {
      assert forall i, j :: 0 <= i < j < |cs[1..]| ==> cs[1..][i] == cs[i + 1] && cs[1..][j] == cs[j + 1];
      OccursDistinct(cs[1..], c);
      if cs[0] == c {
        assert c !in cs[1..];
      } else {
        assert (c in cs) == (c in cs[1..]);
      }
    }
  }

  /** The `map` step of `perCommodity`: `cb` applied to each commodity of
      `cs`, in order, paired with its commodity. */
  function Entries<T>(cs: seq<Commodity>, cb: Commodity -> T): (es: seq<(Commodity, T)>)
    ensures |es| == |cs|
    ensures forall i :: 0 <= i < |cs| ==> es[i] == (cs[i], cb(cs[i]))
  {
    seq(|cs|, i requires 0 <= i < |cs| => (cs[i], cb(cs[i])))
  }

  /** The `reduce` step: spread each entry into the accumulator in turn. */
  function Spread<T>(es: seq<(Commodity, T)>, acc: map<Commodity, T>): map<Commodity, T>
  {
    if |es| == 0 then acc else Spread(es[1..], acc[es[0].0 := es[0].1])
  }

  /** Spreading entries with distinct keys keeps exactly the accumulator's keys
      plus the entries' keys, and each entry's value under its own key. */
  lemma {:induction false} SpreadContents<T>(es: seq<(Commodity, T)>, acc: map<Commodity, T>)
    requires forall i, j :: 0 <= i < j < |es| ==> es[i].0 != es[j].0
    ensures Spread(es, acc).Keys == acc.Keys + set i | 0 <= i < |es| :: es[i].0
    ensures forall i :: 0 <= i < |es| ==> Spread(es, acc)[es[i].0] == es[i].1
    ensures forall c :: c in acc && (forall i :: 0 <= i < |es| ==> es[i].0 != c) ==> Spread(es, acc)[c] == acc[c]
  {
    if |es| > 0 {
      var acc' := acc[es[0].0 := es[0].1];
      SpreadContents(es[1..], acc');
      var rest := set i | 0 <= i < |es[1..]| :: es[1..][i].0;
      var all := set i | 0 <= i < |es| :: es[i].0;
      assert all == {es[0].0} + rest by {
        forall c | c in all ensures c in {es[0].0} + rest {
          var i :| 0 <= i < |es| && es[i].0 == c;
          if i > 0 { assert es[1..][i - 1].0 == c; }
        }
        forall c | c in rest ensures c in all {
          var i :| 0 <= i < |es[1..]| && es[1..][i].0 == c;
          assert es[i + 1].0 == c;
        }
      }
      forall i | 0 <= i < |es| ensures Spread(es, acc)[es[i].0] == es[i].1 {
        if i > 0 { assert es[1..][i - 1] == es[i]; }
      }
      forall c | c in acc && (forall i :: 0 <= i < |es| ==> es[i].0 != c)
        ensures Spread(es, acc)[c] == acc[c]
      {
        assert forall i :: 0 <= i < |es[1..]| ==> es[1..][i] == es[i + 1];
      }
    }
  }

  lemma EntriesOfAllDistinct<T>(cb: Commodity -> T)
    ensures forall i, j :: 0 <= i < j < |Entries(All, cb)| ==> Entries(All, cb)[i].0 != Entries(All, cb)[j].0
  {
    AllListsEveryCommodityOnce();
  }

  lemma SpreadAllEntries<T>(cb: Commodity -> T)
    ensures forall c: Commodity :: c in Spread(Entries(All, cb), map[])
    ensures forall c: Commodity :: Spread(Entries(All, cb), map[])[c] == cb(c)
  {
    var es := Entries(All, cb);
    EntriesOfAllDistinct(cb);
    SpreadContents(es, map[]);
    AllListsEveryCommodityOnce();
    forall c: Commodity ensures c in Spread(es, map[]) && Spread(es, map[])[c] == cb(c) {
      assert c in All;
      var i :| 0 <= i < |All| && All[i] == c;
      assert es[i].0 == c;
    }
  }

  /** `perCommodity(cb)`: a record with an entry for every commodity and no
      other key, whose entry for `c` is `cb(c)`. */
  function PerCommodity<T>(cb: Commodity -> T): (r: map<Commodity, T>)
    ensures Total(r)
    ensures forall c :: r[c] == cb(c)
  {
    SpreadAllEntries(cb);
    Spread(Entries(All, cb), map[])
  }

  /** `cb` is invoked once per commodity, in the order of `commoditiesArray`. */
  lemma PerCommodityCallOrder<T>(cb: Commodity -> T)
    ensures |Entries(All, cb)| == |All|
    ensures forall i :: 0 <= i < |All| ==> Entries(All, cb)[i].0 == All[i]
  {
  }

  /** With a pure callback, two calls produce equal records; more generally the
      record depends only on the callback's values. */
  lemma PerCommodityExtensional<T>(cb1: Commodity -> T, cb2: Commodity -> T)
    requires forall c :: cb1(c) == cb2(c)
    ensures PerCommodity(cb1) == PerCommodity(cb2)
  {
  }
}
