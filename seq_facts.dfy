/**
 * Regrouping of sequence concatenations, stated once so that proofs about
 * recursive string functions can rewrite with them instead of asking the
 * solver to rediscover them by extensionality.
 */
module SeqFacts {
  lemma Assoc3<T>(a: seq<T>, b: seq<T>, c: seq<T>)
    ensures a + (b + c) == a + b + c
  {
  }

  lemma Assoc4<T>(a: seq<T>, b: seq<T>, c: seq<T>, d: seq<T>)
    ensures a + (b + (c + d)) == a + b + c + d
  {
  }

  /** A non-empty sequence is its prefix followed by its last element. */
  lemma ButLast<T>(s: seq<T>)
    requires s != []
    ensures s == s[..|s| - 1] + [s[|s| - 1]]
  {
  }

  /** A sequence is its prefix of length `n` followed by the rest. */
  lemma TakeTake<T>(s: seq<T>, m: nat, n: nat)
    requires m <= n <= |s|
    ensures s[..n][..m] == s[..m]
  {
  }

  lemma TakeDrop<T>(s: seq<T>, n: nat)
    requires n <= |s|
    ensures s[..n] + s[n..] == s
  {
  }

  /** A non-empty sequence is its head followed by the rest. */
  lemma HeadRest<T>(s: seq<T>)
    requires s != []
    ensures [s[0]] + s[1..] == s
  {
  }

  /** Dropping the head of a cons leaves the rest. */
  lemma DropHead<T>(a: T, s: seq<T>)
    ensures ([a] + s)[1..] == s
  {
  }

  /** Moving the head of `s` onto the end of `a` keeps the concatenation. */
  lemma ShiftHead<T>(a: seq<T>, s: seq<T>)
    requires s != []
    ensures a + [s[0]] + s[1..] == a + s
  {
    assert s == [s[0]] + s[1..];
  }
}
