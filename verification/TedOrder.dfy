/** The comparison function of the topology database (ted/ted.c) as an order for
    the AVL tree that holds the routers. */
module TedOrder {
  import opened Common
  import opened Avl

  const HALF := 0x8000_0000

  /** ted_db_default_cmp_fn: an unsigned difference returned as a signed number. */
  function Cmp(a: int, b: int): int {
    var d := (a - b) % UINT32;
    if d < HALF then d else d - UINT32
  }

  predicate Within(lo: int, hi: int, x: int) {
    lo <= x <= hi
  }

  ghost function Range(lo: int, hi: int): iset<int> {
    iset x | Within(lo, hi, x)
  }

  /** It orders the ids of a range exactly if the range spans less than half of the
      ids; beyond that two ids half the number range apart are each below the other. */
  lemma OrdersRange(lo: int, hi: int)
    requires 0 <= lo <= hi < UINT32
    ensures Ordering(Cmp, Range(lo, hi)) <==> hi - lo < HALF
  {
    if hi - lo < HALF {
      forall a, b | a in Range(lo, hi) && b in Range(lo, hi) ensures Antisymmetric(Cmp, a, b) {
        Difference(a, b);
        Difference(b, a);
      }
      forall a, b, c | a in Range(lo, hi) && b in Range(lo, hi) && c in Range(lo, hi) ensures Chained(Cmp, a, b, c) {
        Difference(a, b);
        Difference(b, c);
        Difference(a, c);
      }
    } else {
      var a, b := lo, lo + HALF;
      assert Cmp(a, b) < 0 && Cmp(b, a) < 0;
      assert a in Range(lo, hi) && b in Range(lo, hi) && !Antisymmetric(Cmp, a, b);
    }
  }

  // Within half of the ids the difference survives the conversion.
  lemma Difference(a: int, b: int)
    requires -HALF < a - b < HALF
    ensures Cmp(a, b) == a - b
  {
  }
}
