/**
 * Round-robin dealing, the pattern behind both GameConfig.dealInitialHands
 * and GameConfig.fillDecks: a list is dealt one entry at a time to receivers
 * 0, 1, ..., L - 1 in turn, round after round, so that receiver j gets entry
 * j of every round of L.
 */
module RoundRobin {

  /** What receiver j gets when s is dealt round-robin to L receivers: entry j of each round, in order. */
  function Stride<T>(s: seq<T>, L: nat, j: nat): seq<T>
    requires j < L
    decreases |s|
  {
    if |s| <= j then []
    else if |s| <= L then [s[j]]
    else [s[j]] + Stride(s[L..], L, j)
  }

  /** A last round that is cut short reaches receiver j only when it gets that far. */
  lemma StridePartial<T>(u: seq<T>, L: nat, j: nat)
    requires j < L && |u| <= L
    ensures Stride(u, L, j) == if j < |u| then [u[j]] else []
  {
  }

  /** n entries make up whole rounds of L. */
  predicate WholeRounds(n: nat, L: nat)
    requires L > 0
    decreases n
  {
    n == 0 || (n >= L && WholeRounds(n - L, L))
  }

  /** m rounds of L are whole rounds. */
  lemma {:induction false} RoundsAreWhole(m: nat, L: nat)
    requires L > 0
    ensures WholeRounds(m * L, L)
    decreases m
  {
    if m > 0 {
      OneRoundLess(m, L);
      RoundsAreWhole(m - 1, L);
    }
  }

  /** Dealing whole rounds and then more: each receiver gets its share of the rounds, then its share of the rest. */
  lemma {:induction false} StrideAppend<T>(a: seq<T>, b: seq<T>, L: nat, j: nat)
    requires j < L && WholeRounds(|a|, L)
    ensures Stride(a + b, L, j) == Stride(a, L, j) + Stride(b, L, j)
    decreases |a|
  {
    if |a| == 0 {
      assert a + b == b;
    } else {
      var rest := a[L..];
      StrideAppend(rest, b, L, j);
      assert (a + b)[L..] == rest + b;
      assert (a + b)[j] == a[j];
      if |a| == L {
        assert rest + b == b;
      }
    }
  }

  /** After whole rounds, one more round of L gives receiver j entry j of that round. */
  lemma StrideNextRound<T>(a: seq<T>, t: seq<T>, L: nat, j: nat)
    requires j < L && WholeRounds(|a|, L) && |t| == L
    ensures Stride(a + t, L, j) == Stride(a, L, j) + [t[j]]
  {
    StrideAppend(a, t, L, j);
    StridePartial(t, L, j);
  }

  /** Dealing d more entries after a whole rounds gives receiver j the entry at a + j when d reaches it. */
  lemma PrefixRound<T>(s: seq<T>, L: nat, j: nat, a: nat, d: nat)
    requires j < L && WholeRounds(a, L) && d <= L && a + d <= |s|
    ensures Stride(s[..a + d], L, j) == Stride(s[..a], L, j) + (if j < d then [s[a + j]] else [])
  {
    var t := s[a..a + d];
    StrideAppend(s[..a], t, L, j);
    StridePartial(t, L, j);
    assert s[..a] + t == s[..a + d];
  }

  /** PrefixRound seen from a receiver that already held h before the dealing began. */
  lemma PrefixRoundAfter<T>(h: seq<T>, s: seq<T>, L: nat, j: nat, a: nat, d: nat)
    requires j < L && WholeRounds(a, L) && d <= L && a + d <= |s|
    ensures h + Stride(s[..a], L, j) + (if j < d then [s[a + j]] else []) == h + Stride(s[..a + d], L, j)
  {
    PrefixRound(s, L, j, a, d);
  }

  /** m rounds are one round more than m - 1. */
  lemma OneRoundLess(m: nat, L: nat)
    requires m > 0
    ensures (m - 1) * L + L == m * L
  {
  }

  /** Dealt in m whole rounds, receiver j gets m entries: entry j of every round, that is, position r * L + j for round r. */
  lemma {:induction false} StrideRounds<T>(s: seq<T>, L: nat, j: nat, m: nat)
    requires j < L && |s| == m * L
    ensures |Stride(s, L, j)| == m
    ensures forall r :: 0 <= r < m ==> r * L + j < |s| && Stride(s, L, j)[r] == s[r * L + j]
    decreases m
  {
    if m > 0 {
      OneRoundLess(m, L);
      var rest := s[L..];
      StrideRounds(rest, L, j, m - 1);
      var st := Stride(s, L, j);
      assert st == [s[j]] + Stride(rest, L, j);
      forall r | 0 <= r < m
        ensures r * L + j < |s| && st[r] == s[r * L + j]
      {
        if r > 0 {
          OneRoundLess(r, L);
          assert st[r] == Stride(rest, L, j)[r - 1];
          assert rest[(r - 1) * L + j] == s[r * L + j];
        } else {
          assert r * L == 0;
        }
      }
    }
  }

  /** How many copies of x s holds. */
  function Count<T(==)>(s: seq<T>, x: T): nat
  {
    if |s| == 0 then 0 else Count(s[..|s| - 1], x) + (if s[|s| - 1] == x then 1 else 0)
  }

  /** Count is the multiplicity of x in the multiset of s. */
  lemma {:induction false} CountIsMultiplicity<T>(s: seq<T>, x: T)
    ensures Count(s, x) == multiset(s)[x]
    decreases |s|
  {
    if |s| > 0 {
      var init := s[..|s| - 1];
      CountIsMultiplicity(init, x);
      assert s == init + [s[|s| - 1]];
    }
  }

  /** Copies in a concatenation add up. */
  lemma {:induction false} CountAppend<T>(a: seq<T>, b: seq<T>, x: T)
    ensures Count(a + b, x) == Count(a, x) + Count(b, x)
    decreases |b|
  {
    if |b| == 0 {
      assert a + b == a;
    } else {
      var init := b[..|b| - 1];
      CountAppend(a, init, x);
      assert (a + b)[..|a + b| - 1] == a + init;
    }
  }

  /** How many copies of x the first k receivers hold together. */
  function Dealt<T(==)>(s: seq<T>, L: nat, k: nat, x: T): nat
    requires k <= L
  {
    if k == 0 then 0 else Dealt(s, L, k - 1, x) + Count(Stride(s, L, k - 1), x)
  }

  /** When more than one round is dealt, the first k receivers hold the first k entries and their share of the rest. */
  lemma {:induction false} DealtFirstRound<T>(s: seq<T>, L: nat, k: nat, x: T)
    requires k <= L < |s|
    ensures Dealt(s, L, k, x) == Count(s[..k], x) + Dealt(s[L..], L, k, x)
    decreases k
  {
    if k > 0 {
      DealtFirstRound(s, L, k - 1, x);
      CountAppend([s[k - 1]], Stride(s[L..], L, k - 1), x);
      assert s[..k - 1] == s[..k][..k - 1];
    }
  }

  /** When at most one round is dealt, the first k receivers hold the first k entries, or all of them. */
  lemma {:induction false} DealtShort<T>(s: seq<T>, L: nat, k: nat, x: T)
    requires k <= L && |s| <= L
    ensures k <= |s| ==> Dealt(s, L, k, x) == Count(s[..k], x)
    ensures |s| <= k ==> Dealt(s, L, k, x) == Count(s, x)
    decreases k
  {
    if k == 0 {
      assert s[..0] == [];
    } else {
      DealtShort(s, L, k - 1, x);
      StridePartial(s, L, k - 1);
      if k <= |s| {
        var y := s[k - 1];
        assert [y][..0] == [];
        assert Count([y], x) == if y == x then 1 else 0;
        assert s[..k - 1] == s[..k][..k - 1];
        assert Count(s[..k], x) == Count(s[..k - 1], x) + (if y == x then 1 else 0);
      } else {
        assert s[..|s|] == s;
      }
    }
  }

  /** Nothing is lost or duplicated: the L receivers together hold exactly as many copies of x as s does. */
  lemma {:induction false} DealtAll<T>(s: seq<T>, L: nat, x: T)
    requires L > 0
    ensures Dealt(s, L, L, x) == Count(s, x)
    decreases |s|
  {
    if |s| <= L {
      DealtShort(s, L, L, x);
      assert s[..|s|] == s;
    } else {
      DealtFirstRound(s, L, L, x);
      DealtAll(s[L..], L, x);
      CountAppend(s[..L], s[L..], x);
      assert s == s[..L] + s[L..];
    }
  }
}
