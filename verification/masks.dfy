/** The component-to-bit table of core/components/masks.ts and the bitwise
    OR that rebuilds an entity's mask. Masks are natural numbers; bit `n` of
    `m` is `Bit(m, n)`. */
module Masks {
  import opened Wrappers
  import K = Kinds

  /** The table's list of names: the first entry gets bit 0, the next bit 1,
      and so on. These are the first 51 kinds in declaration order. */
  const TableSize: nat := 51

  function MaskOrder(): (ks: seq<K.ComponentKind>)
    ensures |ks| == TableSize
    ensures forall i :: 0 <= i < |ks| ==> ks[i] == K.KindAt(i)
  {
    seq(TableSize, i requires 0 <= i < TableSize => K.KindAt(i))
  }

  /** Position of a kind in the table; `None` for a kind the table omits. */
  function Index(k: K.ComponentKind): Option<nat> {
    if k == K.StorageBonus then None else Some(K.Ordinal(k))
  }

  /** The table is exactly the positions of its list. */
  lemma IndexMatchesOrder(k: K.ComponentKind)
    ensures Index(k).Some? ==> Index(k).value < |MaskOrder()| && MaskOrder()[Index(k).value] == k
    ensures Index(k).Some? <==> k in MaskOrder()
  {
    K.OrdinalInverse(k);
    if k == K.StorageBonus {
      forall i | 0 <= i < TableSize ensures MaskOrder()[i] != k {
        K.KindAtInverse(i);
      }
    } else {
      assert K.Ordinal(k) != 51;
    }
  }

  lemma OrderMatchesIndex(i: nat)
    requires i < TableSize
    ensures Index(MaskOrder()[i]) == Some(i)
  {
    K.KindAtInverse(i);
    assert K.KindAt(51) == K.StorageBonus;
  }

  /** The table lists every kind but the storage bonus, each exactly
      once. */
  lemma MaskOrderListsEachKindOnce()
    ensures forall i, j :: 0 <= i < j < |MaskOrder()| ==> MaskOrder()[i] != MaskOrder()[j]
    ensures forall k :: k in MaskOrder() <==> k != K.StorageBonus
  {
    forall i, j | 0 <= i < j < |MaskOrder()| ensures MaskOrder()[i] != MaskOrder()[j] {
      K.KindAtInverse(i);
      K.KindAtInverse(j);
    }
    forall k ensures k in MaskOrder() <==> k != K.StorageBonus {
      IndexMatchesOrder(k);
    }
  }

  function Pow2(n: nat): (p: nat)
    ensures p >= 1
  {
    if n == 0 then 1 else 2 * Pow2(n - 1)
  }

  /** Bit `n` of `m` is set. */
  predicate Bit(m: nat, n: nat) {
    if n == 0 then m % 2 == 1 else Bit(m / 2, n - 1)
  }

  /** `componentMask[k]`, or `None` when the table has no entry for `k`
      (in the source the lookup yields `undefined`). */
  function MaskOf(k: K.ComponentKind): (r: Option<nat>)
    ensures r.Some? <==> k in MaskOrder()
  {
    IndexMatchesOrder(k);
    match Index(k)
    case Some(i) => Some(Pow2(i))
    case None => None
  }

  /** `a | b` on non-negative integers. */
  function BitOr(a: nat, b: nat): nat
    decreases a + b
  {
    if a == 0 && b == 0 then 0
    else 2 * BitOr(a / 2, b / 2) + (if a % 2 == 1 || b % 2 == 1 then 1 else 0)
  }

  lemma {:induction false} Pow2Bits(j: nat, n: nat)
    ensures Bit(Pow2(j), n) <==> n == j
  {
    if n == 0 {
      if j > 0 { assert Pow2(j) == 2 * Pow2(j - 1); }
    } else if j == 0 {
      assert Pow2(0) / 2 == 0;
      ZeroHasNoBits(n - 1);
    } else {
      assert Pow2(j) / 2 == Pow2(j - 1);
      Pow2Bits(j - 1, n - 1);
    }
  }

  lemma {:induction false} ZeroHasNoBits(n: nat)
    ensures !Bit(0, n)
  {
    if n > 0 { ZeroHasNoBits(n - 1); }
  }

  /** A bit of `a | b` is set iff it is set in `a` or in `b`. */
  lemma {:induction false} BitOrBits(a: nat, b: nat, n: nat)
    ensures Bit(BitOr(a, b), n) <==> Bit(a, n) || Bit(b, n)
    decreases a + b
  {
    if a == 0 && b == 0 {
      ZeroHasNoBits(n);
    } else {
      var r := if a % 2 == 1 || b % 2 == 1 then 1 else 0;
      var c := BitOr(a / 2, b / 2);
      assert BitOr(a, b) == 2 * c + r;
      assert (2 * c + r) % 2 == r && (2 * c + r) / 2 == c;
      if n > 0 {
        BitOrBits(a / 2, b / 2, n - 1);
      }
    }
  }

  /** Each listed name maps to `2^i`, `i` its position in the list. */
  lemma MaskIsPositionPower(i: nat)
    requires i < |MaskOrder()|
    ensures MaskOf(MaskOrder()[i]) == Some(Pow2(i))
  {
    OrderMatchesIndex(i);
  }

  /** Every mask has exactly one bit set, the bit of its position; the first
      entry `ai` has mask 1 and the 51 names occupy bits 0 to 50. */
  lemma MaskSingleBit(k: K.ComponentKind, n: nat)
    requires k in MaskOrder()
    ensures MaskOf(k).value > 0
    ensures Bit(MaskOf(k).value, n) <==> n == Index(k).value
    ensures Index(k).value <= 50
  {
    IndexMatchesOrder(k);
    Pow2Bits(Index(k).value, n);
  }

  lemma FirstMaskIsOne()
    ensures |MaskOrder()| == 51
    ensures MaskOf(K.Ai) == Some(1)
  {
  }

  /** Masks of two different names have no common bit. */
  lemma MasksDisjoint(a: K.ComponentKind, b: K.ComponentKind, n: nat)
    requires a in MaskOrder() && b in MaskOrder() && a != b
    ensures !(Bit(MaskOf(a).value, n) && Bit(MaskOf(b).value, n))
  {
    IndexMatchesOrder(a);
    IndexMatchesOrder(b);
    MaskSingleBit(a, n);
    MaskSingleBit(b, n);
  }

  /** The reduction of `Sim.load`: `mask | componentMask[key]` over the keys in
      order, starting from `acc`. A key without a table entry makes the BigInt
      `|` throw a `TypeError`, modelled as `None`. */
  function FoldMask(keys: seq<K.ComponentKind>, acc: nat): Option<nat>
  {
    if |keys| == 0 then Some(acc)
    else match MaskOf(keys[0])
      case None => None
      case Some(m) => FoldMask(keys[1..], BitOr(acc, m))
  }

  /** The rebuilt mask has bit `n` set iff the accumulator had it or some key
      sits at position `n` of the table; it fails iff some key has no entry. */
  lemma {:induction false} FoldMaskBits(keys: seq<K.ComponentKind>, acc: nat, n: nat)
    ensures FoldMask(keys, acc).Some? <==> (forall i :: 0 <= i < |keys| ==> keys[i] in MaskOrder())
    ensures FoldMask(keys, acc).Some? ==>
      (Bit(FoldMask(keys, acc).value, n) <==> Bit(acc, n) || exists i :: 0 <= i < |keys| && Index(keys[i]) == Some(n))
  {
    if |keys| > 0 {
      var k := keys[0];
      if k in MaskOrder() {
        var m := MaskOf(k).value;
        FoldMaskBits(keys[1..], BitOr(acc, m), n);
        BitOrBits(acc, m, n);
        MaskSingleBit(k, n);
        assert forall i :: 0 < i < |keys| ==> keys[i] == keys[1..][i - 1];
        if FoldMask(keys, acc).Some? {
          if exists i :: 0 <= i < |keys[1..]| && Index(keys[1..][i]) == Some(n) {
            var i :| 0 <= i < |keys[1..]| && Index(keys[1..][i]) == Some(n);
            assert Index(keys[i + 1]) == Some(n);
          }
        }
      } else {
        assert !(keys[0] in MaskOrder());
      }
    }
  }
}
