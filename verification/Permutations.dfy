/** Shuffles as index permutations. `SliceRandom::shuffle` may produce any of them, so every
    property below that is stated for all permutations holds for every outcome of a shuffle. */
module Permutations {
  import opened Prelude

  predicate IsPermutation(p: seq<nat>, n: nat) {
    && |p| == n
    && (forall i | 0 <= i < n :: p[i] < n)
    && (forall i, j | 0 <= i < j < n :: p[i] != p[j])
  }

  /** The slice `s` after the shuffle `p`: position `i` receives the element from `p[i]`. */
  function Permuted<T>(s: seq<T>, p: seq<nat>): (r: seq<T>)
    requires IsPermutation(p, |s|)
  {
    seq(|s|, i requires 0 <= i < |s| => s[p[i]])
  }

  // Counting through injective indexings

  /** Reading distinct elements off a set of positions loses none of them. */
  lemma {:induction false} ImageSize<T>(s: seq<T>, positions: set<nat>)
    requires forall k | k in positions :: k < |s|
    requires forall k, l | k in positions && l in positions && k != l :: s[k] != s[l]
    ensures |set k | k in positions :: s[k]| == |positions|
  {
    if positions != {} {
      var k :| k in positions;
      var rest := positions - {k};
      ImageSize(s, rest);
      assert (set l | l in positions :: s[l]) == (set l | l in rest :: s[l]) + {s[k]};
      assert s[k] !in (set l | l in rest :: s[l]);
    }
  }

  /** The positions before `n`. */
  ghost function Below(n: nat): (r: set<nat>)
    ensures |r| == n
    ensures forall i: nat {:trigger i in r} :: i in r <==> i < n
  {
    if n == 0 then {} else Below(n - 1) + {n - 1}
  }

  lemma DistinctSize<T>(s: seq<T>)
    requires Distinct(s)
    ensures |Elements(s)| == |s|
  {
    ImageSize(s, Below(|s|));
    assert Elements(s) == set k | k in Below(|s|) :: s[k];
  }

  /** Some place of `x` in `s`. */
  ghost function PositionIn<T>(s: seq<T>, x: T): (i: nat)
    requires x in s
    ensures i < |s| && s[i] == x
  {
    var i :| 0 <= i < |s| && s[i] == x; i
  }

  /** A permutation reaches every position. */
  lemma PermutationIsOnto(p: seq<nat>, n: nat, x: nat)
    requires IsPermutation(p, n) && x < n
    ensures exists i :: 0 <= i < n && p[i] == x
  {
    var image := set k | k in Below(n) :: p[k];
    ImageSize(p, Below(n));
    if x !in image {
      SubsetIsSmaller(image, Below(n) - {x});
      assert false;
    }
    var i :| i in Below(n) && p[i] == x;
  }

  /** A shuffle neither invents nor loses elements. */
  lemma PermutedElements<T>(s: seq<T>, p: seq<nat>)
    requires IsPermutation(p, |s|)
    ensures Elements(Permuted(s, p)) == Elements(s)
  {
    forall x | x in s ensures x in Permuted(s, p) {
      var i :| 0 <= i < |s| && s[i] == x;
      PermutationIsOnto(p, |s|, i);
      var k :| 0 <= k < |s| && p[k] == i;
      assert Permuted(s, p)[k] == x;
    }
  }

  lemma DisjointConcatenation<T>(s: seq<T>, t: seq<T>)
    requires Distinct(s) && Distinct(t) && forall x | x in s :: x !in t
    ensures Distinct(s + t)
  {
    forall i, j | 0 <= i < j < |s + t| ensures (s + t)[i] != (s + t)[j] {
      if i < |s| <= j { assert s[i] in s && t[j - |s|] in t; }
    }
  }

  // Building a shuffle with a prescribed beginning

  /** Any injective choice of first positions is the beginning of some permutation. */
  lemma {:induction false} ExtendToPermutation(q: seq<nat>, n: nat) returns (p: seq<nat>)
    requires Distinct(q) && forall i | 0 <= i < |q| :: q[i] < n
    ensures IsPermutation(p, n) && q <= p
    decreases n - |q|, 0
  {
    InjectiveIsShort(q, n);
    if |q| == n {
      p := q;
    } else {
      var x := FreePosition(q, n);
      p := ExtendToPermutation(q + [x], n);
      assert q <= q + [x];
    }
  }

  lemma FreePosition(q: seq<nat>, n: nat) returns (x: nat)
    requires Distinct(q) && |q| < n
    ensures x < n && x !in q
  {
    DistinctSize(q);
    if Below(n) <= Elements(q) {
      SubsetIsSmaller(Below(n), Elements(q));
      assert false;
    }
    x :| x in Below(n) && x !in Elements(q);
  }

  lemma InjectiveIsShort(q: seq<nat>, n: nat)
    requires Distinct(q) && forall i | 0 <= i < |q| :: q[i] < n
    ensures |q| <= n
  {
    ImageSize(q, Below(|q|));
    SubsetIsSmaller((set k | k in Below(|q|) :: q[k]), Below(n));
  }

  lemma {:induction false} SubsetIsSmaller<T>(a: set<T>, b: set<T>)
    requires a <= b
    ensures |a| <= |b|
  {
    assert b == a + (b - a);
  }

  // Exchanging two values of a permutation

  function Exchange(x: nat, i: nat, j: nat): nat {
    if x == i then j else if x == j then i else x
  }

  function Exchanged(p: seq<nat>, i: nat, j: nat): seq<nat> {
    seq(|p|, k requires 0 <= k < |p| => Exchange(p[k], i, j))
  }

  /** Exchanging two values is a bijection of the permutations, and undoes itself. */
  lemma ExchangeIsInvolution(p: seq<nat>, n: nat, i: nat, j: nat)
    requires IsPermutation(p, n) && i < n && j < n
    ensures IsPermutation(Exchanged(p, i, j), n)
    ensures Exchanged(Exchanged(p, i, j), i, j) == p
  {
  }

  // The finite set of all permutations

  ghost function Sequences(n: nat, length: nat): set<seq<nat>> {
    if length == 0 then {[]}
    else set p, x | p in Sequences(n, length - 1) && x in Below(n) :: p + [x]
  }

  lemma {:induction false} SequencesMember(p: seq<nat>, n: nat)
    requires forall i | 0 <= i < |p| :: p[i] < n
    ensures p in Sequences(n, |p|)
  {
    if |p| > 0 {
      var front, last := p[..|p| - 1], p[|p| - 1];
      SequencesMember(front, n);
      assert p == front + [last];
      assert last in Below(n);
    }
  }

  ghost function AllPermutations(n: nat): set<seq<nat>> {
    set p | p in Sequences(n, n) && IsPermutation(p, n)
  }

  lemma AllPermutationsMember(p: seq<nat>, n: nat)
    ensures p in AllPermutations(n) <==> IsPermutation(p, n)
  {
    if IsPermutation(p, n) {
      SequencesMember(p, n);
    }
  }

  ghost function ExchangeImage(ps: set<seq<nat>>, i: nat, j: nat): set<seq<nat>> {
    set p | p in ps :: Exchanged(p, i, j)
  }

  lemma ExchangeUndone(p: seq<nat>, i: nat, j: nat)
    ensures Exchanged(Exchanged(p, i, j), i, j) == p
  {
  }

  lemma OneMoreExchange(rest: set<seq<nat>>, p: seq<nat>, i: nat, j: nat)
    requires p !in rest
    ensures ExchangeImage(rest + {p}, i, j) == ExchangeImage(rest, i, j) + {Exchanged(p, i, j)}
    ensures Exchanged(p, i, j) !in ExchangeImage(rest, i, j)
  {
    ExchangeUndone(p, i, j);
    forall q | q in rest ensures Exchanged(q, i, j) != Exchanged(p, i, j) {
      ExchangeUndone(q, i, j);
    }
  }

  lemma {:induction false} ExchangeImageSize(ps: set<seq<nat>>, i: nat, j: nat)
    ensures |ExchangeImage(ps, i, j)| == |ps|
  {
    if ps != {} {
      var p :| p in ps;
      var rest := ps - {p};
      ExchangeImageSize(rest, i, j);
      OneMoreExchange(rest, p, i, j);
      assert ps == rest + {p};
    }
  }

  /** Two sets of shuffles that one exchange carries into each other are equally large. */
  lemma ExchangedSetsMatch(n: nat, a: set<seq<nat>>, b: set<seq<nat>>, i: nat, j: nat)
    requires i < n && j < n
    requires forall p | p in a :: IsPermutation(p, n) && Exchanged(p, i, j) in b
    requires forall p | p in b :: IsPermutation(p, n) && Exchanged(p, i, j) in a
    ensures |a| == |b|
  {
    ExchangeImageSize(a, i, j);
    var image := ExchangeImage(a, i, j);
    forall p | p in b ensures p in image {
      ExchangeIsInvolution(p, n, i, j);
      assert Exchanged(p, i, j) in a && Exchanged(Exchanged(p, i, j), i, j) == p;
    }
    assert image == b;
  }

  ghost function ShufflesBeginning(n: nat, q: seq<nat>): set<seq<nat>> {
    set p | p in AllPermutations(n) && q <= p
  }

  lemma BeginningIsExchanged(n: nat, q: seq<nat>, p: seq<nat>, i: nat, j: nat)
    requires i < n && j < n && p in ShufflesBeginning(n, q)
    ensures IsPermutation(p, n) && Exchanged(p, i, j) in ShufflesBeginning(n, Exchanged(q, i, j))
  {
    ExchangeIsInvolution(p, n, i, j);
    AllPermutationsMember(Exchanged(p, i, j), n);
    forall k | 0 <= k < |q| ensures Exchanged(q, i, j)[k] == Exchanged(p, i, j)[k] {
      assert q[k] == p[k];
    }
  }

  lemma BeginningsMatch(n: nat, q: seq<nat>, i: nat, j: nat)
    requires i < n && j < n
    ensures |ShufflesBeginning(n, q)| == |ShufflesBeginning(n, Exchanged(q, i, j))|
  {
    var a, b := ShufflesBeginning(n, q), ShufflesBeginning(n, Exchanged(q, i, j));
    forall p | p in a ensures IsPermutation(p, n) && Exchanged(p, i, j) in b {
      BeginningIsExchanged(n, q, p, i, j);
    }
    assert Exchanged(Exchanged(q, i, j), i, j) == q;
    forall p | p in b ensures IsPermutation(p, n) && Exchanged(p, i, j) in a {
      BeginningIsExchanged(n, Exchanged(q, i, j), p, i, j);
    }
    ExchangedSetsMatch(n, a, b, i, j);
  }

  ghost predicate IsBeginning(q: seq<nat>, n: nat) { Distinct(q) && forall k | 0 <= k < |q| :: q[k] < n }

  /** Equally many shuffles begin with any two lists of positions of one length: one exchange at a time
      turns the first list into the second. The lists agree on their first `m` positions. */
  lemma {:induction false} BeginningsAreFair(n: nat, q: seq<nat>, r: seq<nat>, m: nat)
    requires IsBeginning(q, n) && IsBeginning(r, n) && m <= |q| == |r| && q[..m] == r[..m]
    ensures |ShufflesBeginning(n, q)| == |ShufflesBeginning(n, r)|
    decreases |q| - m
  {
    if m == |q| {
      assert q == r;
    } else {
      var next := Exchanged(q, q[m], r[m]);
      forall k | 0 <= k < m ensures next[k] == r[k] {
        assert q[k] == q[..m][k] == r[..m][k] == r[k];
      }
      BeginningsMatch(n, q, q[m], r[m]);
      BeginningsAreFair(n, next, r, m + 1);
    }
  }
}
