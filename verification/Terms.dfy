/** Vocabulary shared by every component, and a few facts about sets and maps. */
module Terms {

  datatype Option<+T> = None | Some(value: T)

  /** A normalized address: 40 lower-case hex digits, whose text order is its numeric order. */
  type Wallet = nat

  datatype Level = L0 | L1 | L2 | L3 | L4 | L5 | L6

  function Rank(l: Level): nat {
    match l
    case L0 => 0
    case L1 => 1
    case L2 => 2
    case L3 => 3
    case L4 => 4
    case L5 => 5
    case L6 => 6
  }

  /** Levels that own planner state. */
  predicate Planned(l: Level) {
    Rank(l) >= 2
  }

  predicate DeepLevel(l: Level) {
    Rank(l) >= 3
  }

  /** Levels whose profit evidence must be current. */
  predicate PnlLevel(l: Level) {
    Rank(l) >= 4
  }

  datatype Depth = NoDepth | Light | Deep

  datatype JobStatus = Queued | Running | Done | Failed | TerminalFailed

  function Max(a: int, b: int): int {
    if a >= b then a else b
  }

  function Min(a: int, b: int): int {
    if a <= b then a else b
  }

  function MaxR(a: real, b: real): real {
    if a >= b then a else b
  }

  const RECENT_SAMPLE_TRADE_LIMIT := 10
  const RECENT_SAMPLE_VOLUME_GATE_USDC := 100.0

  function Lookup<K, V>(m: map<K, V>, k: K): Option<V> {
    if k in m then Some(m[k]) else None
  }

  /** `m` without the key `k`. */
  function Without<K(!new), V>(m: map<K, V>, k: K): (r: map<K, V>)
    ensures forall x :: x in r <==> x in m && x != k
    ensures forall x | x in r :: r[x] == m[x]
  {
    map x | x in m && x != k :: m[x]
  }

  ghost predicate IsWithout<K(!new), V>(after: map<K, V>, before: map<K, V>, gone: set<K>) {
    && (forall x :: x in after <==> x in before && x !in gone)
    && forall x | x in after :: after[x] == before[x]
  }

  ghost predicate SameOutside<K(!new), V>(after: map<K, V>, before: map<K, V>, changed: set<K>) {
    && (forall x | x !in changed :: x in after <==> x in before)
    && forall x | x in after && x !in changed :: after[x] == before[x]
  }

  lemma WithoutOneMore<K(!new), V>(after: map<K, V>, before: map<K, V>, gone: set<K>, k: K)
    requires IsWithout(after, before, gone)
    ensures IsWithout(Without(after, k), before, gone + {k})
  {
  }

  /** Maps are what their lookups say. */
  lemma SameMap<K(!new), V>(a: map<K, V>, b: map<K, V>)
    requires forall k :: Lookup(a, k) == Lookup(b, k)
    ensures a == b
  {
    forall k ensures (k in a <==> k in b) && (k in a ==> a[k] == b[k]) {
      assert Lookup(a, k) == Lookup(b, k);
    }
  }

  lemma SubsetCount<T>(a: set<T>, b: set<T>)
    requires a <= b
    ensures |a| <= |b|
  {
    if a != {} {
      var x :| x in a;
      SubsetCount(a - {x}, b - {x});
    }
  }

  function SetOf<T>(xs: seq<T>): set<T> {
    if xs == [] then {} else SetOf(xs[..|xs| - 1]) + {xs[|xs| - 1]}
  }

  lemma {:induction false} InSetOf<T>(xs: seq<T>, x: T)
    ensures x in SetOf(xs) <==> x in xs
  {
    if xs != [] {
      var init, last := xs[..|xs| - 1], xs[|xs| - 1];
      InSetOf(init, x);
      assert xs == init + [last];
    }
  }

  lemma {:induction false} SetOfIsNoLarger<T>(xs: seq<T>)
    ensures |SetOf(xs)| <= |xs|
  {
    if xs != [] {
      SetOfIsNoLarger(xs[..|xs| - 1]);
    }
  }

  lemma {:induction false} DistinctCount<T>(xs: seq<T>)
    requires forall i, j | 0 <= i < j < |xs| :: xs[i] != xs[j]
    ensures |SetOf(xs)| == |xs|
  {
    if xs != [] {
      DistinctCount(xs[..|xs| - 1]);
      InSetOf(xs[..|xs| - 1], xs[|xs| - 1]);
    }
  }

  lemma {:induction false} DistinctPrefix<T>(xs: seq<T>, i: nat)
    requires |SetOf(xs)| == |xs| && i <= |xs|
    ensures |SetOf(xs[..i])| == i && SetOf(xs[..i]) <= SetOf(xs)
    decreases |xs|
  {
    if i == |xs| {
      assert xs[..i] == xs;
    } else {
      var init := xs[..|xs| - 1];
      SetOfIsNoLarger(init);
      assert |SetOf(init)| == |init|;
      DistinctPrefix(init, i);
      assert init[..i] == xs[..i];
    }
  }

  lemma NotSeenBefore<T>(xs: seq<T>, i: nat)
    requires |SetOf(xs)| == |xs| && i < |xs|
    ensures xs[i] !in SetOf(xs[..i]) && xs[i] in SetOf(xs)
    ensures SetOf(xs[..i + 1]) == SetOf(xs[..i]) + {xs[i]}
  {
    DistinctPrefix(xs, i);
    DistinctPrefix(xs, i + 1);
    assert xs[..i + 1][..i] == xs[..i];
  }
}
