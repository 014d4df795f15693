/** Grouped-query attention: every kv head serves a run of query heads of the same length. */
module HeadGroups {
  import Arith

  predicate Grouped(qHeadNum: nat, kvHeadNum: nat) {
    0 < kvHeadNum && 0 < qHeadNum && qHeadNum % kvHeadNum == 0
  }

  /** How many query heads share a kv head. */
  function GroupSize(qHeadNum: nat, kvHeadNum: nat): (g: nat)
    requires Grouped(qHeadNum, kvHeadNum)
    ensures 0 < g && g * kvHeadNum == qHeadNum
  {
    Arith.Factors(kvHeadNum, qHeadNum / kvHeadNum);
    Arith.Swap(kvHeadNum, qHeadNum / kvHeadNum);
    qHeadNum / kvHeadNum
  }

  /** The kv head that serves query head i. */
  function KvHeadOf(qHeadNum: nat, kvHeadNum: nat, i: nat): (kv: nat)
    requires Grouped(qHeadNum, kvHeadNum) && i < qHeadNum
    ensures kv < kvHeadNum
  {
    Arith.Swap(GroupSize(qHeadNum, kvHeadNum), kvHeadNum);
    Arith.QuotientBelow(i, GroupSize(qHeadNum, kvHeadNum), kvHeadNum);
    i / GroupSize(qHeadNum, kvHeadNum)
  }
}
