// Shared vocabulary: options, bytes, and sums over sequences that survive a one-place update.

module Common {
  datatype Option<+T> = None | Some(value: T)

  newtype byte = x: int | 0 <= x < 256

  type Bytes = seq<byte>

  function Concat<T>(parts: seq<seq<T>>): seq<T> {
    if parts == [] then [] else Concat(parts[..|parts| - 1]) + parts[|parts| - 1]
  }

  lemma {:induction false} ConcatSplits<T>(a: seq<seq<T>>, b: seq<seq<T>>)
    ensures Concat(a + b) == Concat(a) + Concat(b)
  {
    if b == [] {
      assert a + b == a;
    } else {
      assert (a + b)[..|a + b| - 1] == a + b[..|b| - 1];
      ConcatSplits(a, b[..|b| - 1]);
    }
  }

  /** Python's `word in t`. */
  predicate Contains(t: string, word: string) {
    word <= t || (t != "" && Contains(t[1..], word))
  }

  /** `word` stands in `t` from position `at` on. */
  predicate StandsAt(t: string, word: string, at: nat) {
    at + |word| <= |t| && t[at..at + |word|] == word
  }

  lemma StandsInTail(t: string, word: string, at: nat)
    requires t != ""
    ensures StandsAt(t, word, at + 1) <==> StandsAt(t[1..], word, at)
  {
    if at + 1 + |word| <= |t| {
      assert t[at + 1..at + 1 + |word|] == t[1..][at..at + |word|];
    }
  }

  lemma {:induction false} ContainsExactly(t: string, word: string)
    ensures Contains(t, word) <==> exists at: nat :: StandsAt(t, word, at)
  {
    if word <= t {
      assert StandsAt(t, word, 0);
    } else if t != "" {
      ContainsExactly(t[1..], word);
      if at: nat :| StandsAt(t[1..], word, at) {
        StandsInTail(t, word, at);
      }
      if at: nat :| StandsAt(t, word, at) {
        assert at > 0;
        StandsInTail(t, word, at - 1);
      }
    }
  }

  function Min(a: nat, b: nat): nat {
    if a <= b then a else b
  }

  function Sum<T>(f: T -> nat, xs: seq<T>): nat {
    if xs == [] then 0 else Sum(f, xs[..|xs| - 1]) + f(xs[|xs| - 1])
  }

  function Bag<T, C>(f: T -> multiset<C>, xs: seq<T>): multiset<C> {
    if xs == [] then multiset{} else Bag(f, xs[..|xs| - 1]) + f(xs[|xs| - 1])
  }

  lemma {:induction false} SumUpdate<T>(f: T -> nat, xs: seq<T>, i: nat, x: T)
    requires i < |xs|
    ensures Sum(f, xs[i := x]) + f(xs[i]) == Sum(f, xs) + f(x)
  {
    var n := |xs| - 1;
    if i < n {
      assert xs[i := x][..n] == xs[..n][i := x];
      SumUpdate(f, xs[..n], i, x);
    } else {
      assert xs[i := x][..n] == xs[..n];
    }
  }

  lemma {:induction false} BagUpdate<T, C>(f: T -> multiset<C>, xs: seq<T>, i: nat, x: T)
    requires i < |xs|
    ensures Bag(f, xs[i := x]) + f(xs[i]) == Bag(f, xs) + f(x)
  {
    var n := |xs| - 1;
    if i < n {
      assert xs[i := x][..n] == xs[..n][i := x];
      BagUpdate(f, xs[..n], i, x);
      var before, after := Bag(f, xs[..n]), Bag(f, xs[..n][i := x]);
      assert after + f(xs[n]) + f(xs[i]) == (after + f(xs[i])) + f(xs[n]);
      assert before + f(xs[n]) + f(x) == (before + f(x)) + f(xs[n]);
    } else {
      assert xs[i := x][..n] == xs[..n];
    }
  }

  lemma {:induction false} SumBounds<T>(f: T -> nat, xs: seq<T>, bound: nat)
    requires forall x :: x in xs ==> f(x) <= bound
    ensures Sum(f, xs) <= |xs| * bound
  {
    if xs != [] {
      SumBounds(f, xs[..|xs| - 1], bound);
    }
  }

  lemma {:induction false} SumBelowLength<T>(f: T -> nat, xs: seq<T>) returns (i: nat)
    requires Sum(f, xs) < |xs|
    ensures i < |xs| && f(xs[i]) == 0
  {
    var n := |xs| - 1;
    if f(xs[n]) == 0 {
      i := n;
    } else {
      i := SumBelowLength(f, xs[..n]);
    }
  }

  lemma {:induction false} SumAllOnes<T>(f: T -> nat, xs: seq<T>)
    requires forall x :: x in xs ==> f(x) == 1
    ensures Sum(f, xs) == |xs|
  {
    if xs != [] {
      SumAllOnes(f, xs[..|xs| - 1]);
    }
  }

  lemma {:induction false} BagAllEmpty<T, C>(f: T -> multiset<C>, xs: seq<T>)
    requires forall x :: x in xs ==> f(x) == multiset{}
    ensures Bag(f, xs) == multiset{}
  {
    if xs != [] {
      BagAllEmpty(f, xs[..|xs| - 1]);
    }
  }
}
