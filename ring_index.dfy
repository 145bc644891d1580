/** Index arithmetic on a ring of `n` cards, as the carousels write it with
    JavaScript's `%`. */
module RingIndex {
  import opened JsBuiltins

  /** `(i + 1) % n`: one step forward. */
  function Succ(i: int, n: int): (r: int)
    requires n > 0
    ensures 0 <= i < n ==> 0 <= r < n && r == if i == n - 1 then 0 else i + 1
  {
    JsRem(i + 1, n)
  }

  /** `(i - 1 + n) % n`: one step back. */
  function Pred(i: int, n: int): (r: int)
    requires n > 0
    ensures 0 <= i < n ==> 0 <= r < n && r == if i == 0 then n - 1 else i - 1
  {
    JsRem(i - 1 + n, n)
  }

  /** `(index - current + n) % n`: how far card `index` lies ahead of `current`. */
  function Offset(index: int, current: int, n: int): (r: int)
    requires n > 0
    ensures 0 <= index < n && 0 <= current < n ==>
      0 <= r < n && r == if index >= current then index - current else index - current + n
  {
    JsRem(index - current + n, n)
  }

  /** Stepping back undoes stepping forward, and the other way round. */
  lemma SuccPredInverse(i: int, n: int)
    requires n > 0 && 0 <= i < n
    ensures Pred(Succ(i, n), n) == i
    ensures Succ(Pred(i, n), n) == i
  {
  }

  /** `k` steps forward from `i`. */
  function SuccIter(i: int, k: nat, n: int): int
    requires n > 0
  {
    if k == 0 then i else Succ(SuccIter(i, k - 1, n), n)
  }

  /** Up to `n` steps forward lands `k` places ahead, wrapping once. */
  lemma {:induction false} SuccIterAhead(i: int, k: nat, n: int)
    requires n > 0 && 0 <= i < n && k <= n
    ensures SuccIter(i, k, n) == if i + k < n then i + k else i + k - n
  {
    if k > 0 {
      SuccIterAhead(i, k - 1, n);
    }
  }

  /** `n` steps forward return to the start. */
  lemma FullTurn(i: int, n: int)
    requires n > 0 && 0 <= i < n
    ensures SuccIter(i, n, n) == i
  {
    SuccIterAhead(i, n, n);
  }

  /** The card that lies `p` places ahead of `current`. */
  function CardAt(p: int, current: int, n: int): int
    requires n > 0
  {
    JsRem(current + p, n)
  }

  /** Offsets from a fixed current card are a bijection of `[0, n)`: distinct
      cards get distinct offsets, every offset is taken, and only the current
      card has offset 0. */
  lemma OffsetBijective(current: int, n: int)
    requires n > 0 && 0 <= current < n
    ensures forall i, j | 0 <= i < n && 0 <= j < n :: Offset(i, current, n) == Offset(j, current, n) ==> i == j
    ensures forall p | 0 <= p < n :: 0 <= CardAt(p, current, n) < n && Offset(CardAt(p, current, n), current, n) == p
    ensures forall i | 0 <= i < n :: Offset(i, current, n) == 0 <==> i == current
  {
  }
}
