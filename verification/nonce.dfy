/** The request nonce: the first five characters of a shuffle of the alphabet
    `0-9a-z` written out five times. The shuffle itself (`str_shuffle`) is
    random and is taken as an input; all the model relies on is that it is a
    permutation of its argument. */
module Nonce {
  import opened Php

  const Alphabet: string := "0123456789abcdefghijklmnopqrstuvwxyz"
  const Copies: nat := 5
  const NonceLength: nat := 5

  /** `str_repeat(s, n)`. */
  function Repeat(s: string, n: nat): (r: string)
    ensures |r| == n * |s|
    ensures forall i :: 0 <= i < |r| ==> r[i] in s
  {
    if n == 0 then "" else s + Repeat(s, n - 1)
  }

  /** The string that is shuffled: the alphabet repeated `Copies` times. */
  function Pool(): string {
    Repeat(Alphabet, Copies)
  }

  /** What `str_shuffle(t)` may return: any rearrangement of `t`. */
  predicate IsShuffleOf(shuffled: string, t: string) {
    multiset(shuffled) == multiset(t)
  }

  /** The same condition for `t` the pool, stated by counting: every character of
      the alphabet occurs exactly `Copies` times and nothing else occurs
      (`PoolShuffleCharacterised`). */
  predicate IsPoolShuffle(shuffled: string) {
    forall c :: multiset(shuffled)[c] == if c in Alphabet then Copies else 0
  }

  /** A nonce of the shape the gateway expects: five characters of `0-9a-z`. */
  predicate WellFormedNonce(n: string) {
    |n| == NonceLength && forall i :: 0 <= i < |n| ==> n[i] in Alphabet
  }

  /** `substr(shuffled, 0, 5)`. */
  function NonceOf(shuffled: string): (n: string)
    ensures n <= shuffled
  {
    Substr(shuffled, NonceLength)
  }

  /** Every shuffle of the pool yields a well-formed nonce. */
  lemma NonceIsWellFormed(shuffled: string)
    requires IsPoolShuffle(shuffled)
    ensures WellFormedNonce(NonceOf(shuffled))
  {
    assert '0' in Alphabet;
    OccurrencesAtMostLength(shuffled, '0');
    var n := NonceOf(shuffled);
    forall i | 0 <= i < |n|
      ensures n[i] in Alphabet
    {
      assert n[i] == shuffled[i];
      assert n[i] in multiset(shuffled);
    }
  }

  /** Being a shuffle of the pool is exactly having the pool's character counts. */
  lemma PoolShuffleCharacterised(shuffled: string)
    ensures IsShuffleOf(shuffled, Pool()) <==> IsPoolShuffle(shuffled)
  {
    PoolCountsAll();
    SameCounts(multiset(Pool()), shuffled);
  }

  lemma PoolCountsAll()
    ensures forall c :: multiset(Pool())[c] == if c in Alphabet then Copies else 0
  {
    forall c
      ensures multiset(Pool())[c] == if c in Alphabet then Copies else 0
    {
      PoolCounts(c);
    }
  }

  lemma SameCounts(pool: multiset<char>, shuffled: string)
    requires forall c :: pool[c] == if c in Alphabet then Copies else 0
    ensures multiset(shuffled) == pool <==> IsPoolShuffle(shuffled)
  {
    if IsPoolShuffle(shuffled) {
      assert forall c :: multiset(shuffled)[c] == pool[c];
    }
  }

  /** Each alphabet character occurs `Copies` times in the pool, and no other character occurs. */
  lemma PoolCounts(c: char)
    ensures multiset(Pool())[c] == if c in Alphabet then Copies else 0
  {
    RepeatOccurrences(Alphabet, Copies, c);
    AlphabetIsDistinct();
    DistinctCounts(Alphabet, c);
  }

  /** No character occurs twice in the alphabet: its code points increase. */
  lemma AlphabetIsDistinct()
    ensures forall i, j :: 0 <= i < j < |Alphabet| ==> Alphabet[i] != Alphabet[j]
  {
    assert forall i :: 0 <= i < |Alphabet| ==> Alphabet[i] as int == if i < 10 then 48 + i else 87 + i;
  }

  /** In a string without repeated characters, each character occurs once or not at all. */
  lemma {:induction false} DistinctCounts(s: string, c: char)
    requires forall i, j :: 0 <= i < j < |s| ==> s[i] != s[j]
    ensures multiset(s)[c] == if c in s then 1 else 0
  {
    if s != [] {
      DistinctCounts(s[1..], c);
      assert s == [s[0]] + s[1..];
      assert multiset(s) == multiset{s[0]} + multiset(s[1..]);
      assert s[0] !in s[1..];
    }
  }

  /** Every well-formed nonce is the outcome of some shuffle of the pool: the
      five copies of the alphabet leave room for any character to occur up to
      five times. With `NonceIsWellFormed`, the nonces line 86 can produce are
      exactly the well-formed ones. */
  lemma NonceIsReachable(n: string)
    requires WellFormedNonce(n)
    ensures exists shuffled :: IsShuffleOf(shuffled, Pool()) && NonceOf(shuffled) == n
  {
    NonceFitsPool(n);
    var shuffled := ShuffleStartingWith(Pool(), n);
    assert shuffled[..NonceLength] == n;
    assert IsShuffleOf(shuffled, Pool()) && NonceOf(shuffled) == n;
  }

  /** A rearrangement of `s` that starts with `t`, when `s` holds every character of `t`. */
  function ShuffleStartingWith(s: string, t: string): (r: string)
    requires multiset(t) <= multiset(s)
    ensures IsShuffleOf(r, s)
    ensures t <= r
  {
    var rest := Without(s, t);
    assert multiset(t + rest) == multiset(t) + (multiset(s) - multiset(t));
    t + rest
  }

  /** A well-formed nonce uses no character more often than the pool holds it. */
  lemma NonceFitsPool(n: string)
    requires WellFormedNonce(n)
    ensures multiset(n) <= multiset(Pool())
  {
    forall c | c in multiset(n)
      ensures multiset(n)[c] <= multiset(Pool())[c]
    {
      OccurrencesAtMostLength(n, c);
      var i :| 0 <= i < |n| && n[i] == c;
      PoolCounts(c);
    }
  }

  /** A character occurs in `str_repeat(s, n)` exactly `n` times as often as in `s`. */
  lemma {:induction false} RepeatOccurrences(s: string, n: nat, c: char)
    ensures multiset(Repeat(s, n))[c] == n * multiset(s)[c]
  {
    if n > 0 {
      RepeatOccurrences(s, n - 1, c);
      assert multiset(Repeat(s, n)) == multiset(s) + multiset(Repeat(s, n - 1));
      assert n * multiset(s)[c] == multiset(s)[c] + (n - 1) * multiset(s)[c];
    }
  }

  lemma {:induction false} OccurrencesAtMostLength(s: string, c: char)
    ensures multiset(s)[c] <= |s|
  {
    if s != [] {
      OccurrencesAtMostLength(s[1..], c);
      assert s == [s[0]] + s[1..];
      assert multiset(s) == multiset{s[0]} + multiset(s[1..]);
    }
  }

  /** `s` with its first occurrence of `c` removed. */
  function RemoveFirst(s: string, c: char): (r: string)
    requires c in s
    ensures multiset(r) == multiset(s) - multiset{c}
  {
    if s[0] == c then
      assert s == [s[0]] + s[1..];
      s[1..]
    else
      assert s == [s[0]] + s[1..];
      [s[0]] + RemoveFirst(s[1..], c)
  }

  /** `s` with one occurrence removed for every character of `t`. */
  function Without(s: string, t: string): (r: string)
    requires multiset(t) <= multiset(s)
    ensures multiset(r) == multiset(s) - multiset(t)
    decreases t
  {
    if t == [] then s
    else
      assert t == [t[0]] + t[1..];
      assert t[0] in multiset(s);
      Without(RemoveFirst(s, t[0]), t[1..])
  }
}
