/** "Find a free numbered name": the searches behind `tapN`, `vmnetN` and `linkN`
    end because distinct numbers give distinct names. */
module FreeName {
  import opened Decimal

  function Numbered(prefix: string, n: nat): string {
    prefix + Format(n)
  }

  lemma NumberedInjective(prefix: string, m: nat, n: nat)
    requires Numbered(prefix, m) == Numbered(prefix, n)
    ensures m == n
  {
    assert Numbered(prefix, m)[|prefix|..] == Format(m);
    assert Numbered(prefix, n)[|prefix|..] == Format(n);
    FormatInjective(m, n);
  }

  predicate AllTaken(prefix: string, taken: set<string>, n: nat) {
    forall m: nat :: m < n ==> Numbered(prefix, m) in taken
  }

  /** n distinct names need room for n names. */
  lemma {:induction false} Pigeonhole(prefix: string, taken: set<string>, n: nat)
    requires AllTaken(prefix, taken, n)
    ensures n <= |taken|
  {
    if n > 0 {
      var last := Numbered(prefix, n - 1);
      forall m: nat | m < n - 1
        ensures Numbered(prefix, m) in taken - {last}
      {
        if Numbered(prefix, m) == last {
          NumberedInjective(prefix, m, n - 1);
        }
      }
      Pigeonhole(prefix, taken - {last}, n - 1);
    }
  }

  /** The least number whose name is not taken. */
  function LeastFree(prefix: string, taken: set<string>): (n: nat)
    ensures Numbered(prefix, n) !in taken
    ensures AllTaken(prefix, taken, n)
    ensures n <= |taken|
  {
    LeastFreeFrom(prefix, taken, 0)
  }

  function LeastFreeFrom(prefix: string, taken: set<string>, from: nat): (n: nat)
    requires AllTaken(prefix, taken, from)
    ensures Numbered(prefix, n) !in taken
    ensures AllTaken(prefix, taken, n)
    ensures n <= |taken|
    decreases |taken| - from
  {
    Pigeonhole(prefix, taken, from);
    if Numbered(prefix, from) !in taken then from
    else
      Pigeonhole(prefix, taken, from + 1);
      LeastFreeFrom(prefix, taken, from + 1)
  }

  lemma LeastFreeIsUnique(prefix: string, taken: set<string>, n: nat)
    requires Numbered(prefix, n) !in taken && AllTaken(prefix, taken, n)
    ensures n == LeastFree(prefix, taken)
  {
  }

  /** A search that overlooks some of the names taken finds a free one exactly when it finds
      the same as one that overlooks none. */
  lemma LeastFreeOfMore(prefix: string, some: set<string>, all: set<string>)
    requires some <= all
    ensures Numbered(prefix, LeastFree(prefix, some)) !in all <==>
            Numbered(prefix, LeastFree(prefix, some)) == Numbered(prefix, LeastFree(prefix, all))
  {
    if Numbered(prefix, LeastFree(prefix, some)) !in all {
      LeastFreeIsUnique(prefix, all, LeastFree(prefix, some));
    }
  }
}
