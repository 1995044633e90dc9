/** How the head of a pull request moves over time, counted in whole nanoseconds. */
module Heads {
  type Head = int -> string

  predicate MovesAt(head: Head, t: int) {
    head(t) != head(t - 1)
  }

  /** The head moves after `a` and up to `b`. */
  ghost predicate Moves(head: Head, a: int, b: int) {
    exists t :: a < t <= b && MovesAt(head, t)
  }

  /** Between `a` and `b` the head shows no commit again after another one. */
  ghost predicate NeverReturns(head: Head, a: int, b: int) {
    forall s, t, u | a <= s < t < u <= b && head(s) != head(t) :: head(u) != head(s)
  }

  lemma {:induction false} Still(head: Head, a: int, b: int)
    requires a <= b && !Moves(head, a, b)
    ensures head(a) == head(b)
    decreases b - a
  {
    if a < b {
      assert !MovesAt(head, b);
      Still(head, a, b - 1);
    }
  }

  /** A head that never returns is the same at two times exactly when it did not move. */
  lemma SameHeadIff(head: Head, a: int, b: int, s: int, u: int)
    requires a <= s <= u <= b && NeverReturns(head, a, b)
    ensures head(s) == head(u) <==> !Moves(head, s, u)
  {
    if t :| s < t <= u && MovesAt(head, t) {
      assert head(t - 1) != head(s) || head(t) != head(s);
      assert t < u && head(t) != head(s) ==> head(u) != head(s);
      assert s < t - 1 && head(t - 1) != head(s) ==> head(u) != head(s);
    } else {
      Still(head, s, u);
    }
  }

  /** Such a head is still there exactly when it was there in between and stayed. */
  lemma SameThrough(head: Head, a: int, look: int, b: int)
    requires a <= look <= b && NeverReturns(head, a, b)
    ensures head(a) == head(b) <==> head(a) == head(look) && !Moves(head, look, b)
  {
    SameHeadIff(head, a, b, look, b);
  }

  /** With one possible move the heads differ exactly when it happened in between. */
  lemma OneMove(head: Head, a: int, b: int, move: int)
    requires a <= b && (forall t | a < t <= b && MovesAt(head, t) :: t == move) && MovesAt(head, move)
    ensures head(a) != head(b) <==> a < move <= b
  {
    if a < move <= b {
      Still(head, a, move - 1);
      Still(head, move, b);
    } else {
      Still(head, a, b);
    }
  }

  /** A head that moves at most once does not return. */
  lemma OnceNeverReturns(head: Head, at: int, before: string, after: string, a: int, b: int)
    requires forall t :: head(t) == if t < at then before else after
    ensures NeverReturns(head, a, b)
  {
  }
}
