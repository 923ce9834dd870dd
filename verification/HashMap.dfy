/** The chained hash map: nodes linked in place, doubled by relinking. */
module HashMaps {
  import opened CString

  const WORD: nat := 0x1_0000_0000_0000_0000

  const INITIAL_CAPACITY: nat := 8

  /** `(unsigned char)c`. */
  function Code(c: char): nat {
    c as int % 256
  }

  /** The exact base-31 polynomial of the key. */
  ghost function Poly(key: string): nat {
    if key == "" then 0 else Poly(key[..|key| - 1]) * 31 + Code(key[|key| - 1])
  }

  ghost function Pow2(k: nat): (p: nat)
    ensures p >= 1
  {
    if k == 0 then 1 else 2 * Pow2(k - 1)
  }

  /** The bucket of a key: the polynomial, wrapped to 64 bits, modulo the capacity. */
  ghost function Bucket(key: string, capacity: nat): (b: nat)
    requires capacity > 0
    ensures b < capacity
  {
    Poly(key) % WORD % capacity
  }

  /** The polynomial by example: 31 · 'a' + 'b', and the unsigned code of a character. */
  lemma PolyOfTwo()
    ensures Poly("ab") == 31 * 97 + 98 && Poly("") == 0
  {
    assert "ab"[..1] == "a" && "a"[..0] == "";
  }

  lemma WrapStep(p: nat, c: nat)
    ensures (p % WORD * 31 + c) % WORD == (p * 31 + c) % WORD
  {
    var q := p / WORD;
    assert p == q * WORD + p % WORD;
    assert p * 31 + c == (q * 31) * WORD + (p % WORD * 31 + c);
    ModAddMultiple(p % WORD * 31 + c, q * 31, WORD);
  }

  lemma ModUnique(a: nat, q: int, r: nat, m: nat)
    requires a == q * m + r && r < m
    ensures a % m == r
  {
    var d := q - a / m;
    assert a == a / m * m + a % m;
    assert d * m == q * m - a / m * m;
    if d > 0 {
      AtLeastFactor(d, m);
    } else if d < 0 {
      AtLeastFactor(-d, m);
    }
  }

  lemma AtLeastFactor(d: nat, m: nat)
    requires d > 0
    ensures d * m >= m
  {
    assert d * m == (d - 1) * m + m;
  }

  lemma ModAddMultiple(a: nat, q: nat, m: nat)
    requires m > 0
    ensures (q * m + a) % m == a % m
  {
    assert q * m + a == (q + a / m) * m + a % m;
    ModUnique(q * m + a, q + a / m, a % m, m);
  }

  lemma ModOfMultiple(a: nat, m: nat, n: nat)
    requires m > 0 && n > 0
    ensures a % (m * n) % m == a % m
  {
    var mn := m * n;
    assert a == a / mn * mn + a % mn;
    assert a / mn * mn == (a / mn * n) * m;
    ModAddMultiple(a % mn, a / mn * n, m);
  }

  lemma Pow2Add(i: nat, j: nat)
    ensures Pow2(i + j) == Pow2(i) * Pow2(j)
  {
    if i > 0 {
      Pow2Add(i - 1, j);
    }
  }

  /** Every capacity 8 * 2^k that a 64-bit machine can address divides 2^64, so the
      wrapping of the hash is invisible in the bucket. */
  lemma WrapInvisible(key: string, k: nat)
    requires k <= 61
    ensures Bucket(key, 8 * Pow2(k)) == Poly(key) % (8 * Pow2(k))
  {
    CapacityDividesWord(k);
    ModOfMultiple(Poly(key), 8 * Pow2(k), Pow2(61 - k));
  }

  lemma CapacityDividesWord(k: nat)
    requires k <= 61
    ensures 8 * Pow2(k) * Pow2(61 - k) == WORD
  {
    Pow2Add(k, 61 - k);
    Pow2Of61();
  }

  lemma Pow2Of61()
    ensures 8 * Pow2(61) == WORD
  {
    assert Pow2(15) == 0x8000;
    Pow2Add(15, 15);
    Pow2Add(30, 30);
    assert Pow2(61) == 2 * Pow2(60);
  }

  /** Doubling the capacity sends a node of bucket `i` to bucket `i` or `i + capacity`. */
  lemma DoublingSplitsBuckets(key: string, capacity: nat)
    requires capacity > 0
    ensures Bucket(key, 2 * capacity) == Bucket(key, capacity)
         || Bucket(key, 2 * capacity) == Bucket(key, capacity) + capacity
  {
    var h := Poly(key) % WORD;
    var b := h % (2 * capacity);
    ModOfMultiple(h, capacity, 2);
    assert b % capacity == h % capacity;
    ModUnique(b, if b < capacity then 0 else 1, if b < capacity then b else b - capacity, capacity);
  }

  method Hash(key: string, capacity: nat) returns (h: nat)
    requires capacity > 0
    ensures h == Bucket(key, capacity)
  {
    h := 0;
    for i := 0 to |key|
      invariant h == Poly(key[..i]) % WORD
    {
      WrapStep(Poly(key[..i]), Code(key[i]));
      assert key[..i + 1][..i] == key[..i];
      h := (h * 31 + Code(key[i])) % WORD;
    }
    assert key[..|key|] == key;
    h := h % capacity;
  }

  class Node<V> {
    const key: string
    const value: V
    var next: Node?<V>

    constructor (key: string, value: V, next: Node?<V>)
      ensures this.key == key && this.value == value && this.next == next
    {
      this.key, this.value, this.next := key, value, next;
    }
  }

  /** The node at position `j` of a chain; past its end, the null that ends it. */
  ghost function At<V>(chain: seq<Node<V>>, j: nat): Node?<V> {
    if j < |chain| then chain[j] else null
  }

  ghost predicate InChain<V>(chain: seq<Node<V>>, key: string) {
    exists j :: 0 <= j < |chain| && chain[j].key == key
  }

  ghost predicate Linked<V>(head: Node?<V>, chain: seq<Node<V>>)
    reads chain
  {
    && head == At(chain, 0)
    && forall j :: 0 <= j < |chain| ==> chain[j].next == At(chain, j + 1)
  }

  /** The chains hold exactly the entries of `m`, each key once and in its own bucket. */
  ghost predicate Holds<V>(chains: seq<seq<Node<V>>>, m: map<string, V>)
    requires |chains| > 0
  {
    && (forall i, j :: 0 <= i < |chains| && 0 <= j < |chains[i]| ==>
          var n := chains[i][j]; Bucket(n.key, |chains|) == i && n.key in m && m[n.key] == n.value)
    && (forall i, j, k :: 0 <= i < |chains| && 0 <= j < k < |chains[i]| ==> chains[i][j].key != chains[i][k].key)
    && (forall key :: key in m ==> InChain(chains[Bucket(key, |chains|)], key))
  }

  lemma PushHolds<V>(chains: seq<seq<Node<V>>>, m: map<string, V>, n: Node<V>)
    requires |chains| > 0 && Holds(chains, m) && n.key !in m
    ensures var b := Bucket(n.key, |chains|); Holds(chains[b := [n] + chains[b]], m[n.key := n.value])
  {
    var b := Bucket(n.key, |chains|);
    var chains' := chains[b := [n] + chains[b]];
    var m' := m[n.key := n.value];
    forall key | key in m'
      ensures InChain(chains'[Bucket(key, |chains|)], key)
    {
      var c, c' := chains[Bucket(key, |chains|)], chains'[Bucket(key, |chains|)];
      if key == n.key {
        assert c'[0].key == key;
      } else {
        var j :| 0 <= j < |c| && c[j].key == key;
        assert c' == c || c'[j + 1].key == key;
      }
    }
  }

  /** A chain without the node at position `j`. */
  ghost function Cut<V>(chain: seq<Node<V>>, j: nat): (r: seq<Node<V>>)
    requires j < |chain|
    ensures |r| == |chain| - 1
  {
    chain[..j] + chain[j + 1..]
  }

  lemma CutWithin<V>(chain: seq<Node<V>>, j: nat, within: set<object>)
    requires j < |chain| && forall k :: 0 <= k < |chain| ==> chain[k] in within
    ensures forall k :: 0 <= k < |Cut(chain, j)| ==> Cut(chain, j)[k] in within
  {
  }

  lemma LinkedCut<V>(head: Node?<V>, chain: seq<Node<V>>, j: nat)
    requires j < |chain|
    requires head == At(chain, if j == 0 then 1 else 0)
    requires j > 0 ==> chain[j - 1].next == At(chain, j + 1)
    requires forall k :: 0 <= k < |chain| && k != j && k != j - 1 ==> chain[k].next == At(chain, k + 1)
    ensures Linked(head, Cut(chain, j))
  {
  }

  lemma RemoveSize<V>(m: map<string, V>, key: string)
    requires key in m
    ensures |m - {key}| == |m| - 1
  {
    assert (m - {key}).Keys == m.Keys - {key};
  }

  lemma CutHolds<V>(chains: seq<seq<Node<V>>>, m: map<string, V>, i: nat, j: nat, key: string)
    requires |chains| > 0 && Holds(chains, m)
    requires i < |chains| && j < |chains[i]| && chains[i][j].key == key
    ensures Holds(chains[i := Cut(chains[i], j)], m - {key})
    ensures |m - {key}| == |m| - 1
  {
    hide InChain, Bucket;
    RemoveSize(m, key);
    var chains' := chains[i := Cut(chains[i], j)];
    forall other | other in m - {key}
      ensures InChain(chains'[Bucket(other, |chains|)], other)
    {
      KeySurvivesCut(chains[Bucket(other, |chains|)], other, j, chains[i]);
    }
  }

  lemma KeySurvivesCut<V>(c: seq<Node<V>>, other: string, j: nat, chain: seq<Node<V>>)
    requires InChain(c, other) && j < |chain| && chain[j].key != other
    ensures InChain(if c == chain then Cut(chain, j) else c, other)
  {
    var k :| 0 <= k < |c| && c[k].key == other;
    if c == chain {
      assert Cut(chain, j)[if k < j then k else k - 1].key == other;
    }
  }

  lemma KeyInItsChain<V>(chains: seq<seq<Node<V>>>, m: map<string, V>, key: string)
    requires |chains| > 0 && Holds(chains, m)
    ensures key in m <==> InChain(chains[Bucket(key, |chains|)], key)
  {
  }

  ghost predicate Has<V>(chains: seq<seq<Node<V>>>, n: Node<V>) {
    exists i, j :: 0 <= i < |chains| && 0 <= j < |chains[i]| && chains[i][j] == n
  }

  /** The nodes before position `j` of chain `i` of `old`, and no others, are in `chains`;
      `done` is the part of `m` that they hold. */
  ghost predicate Moved<V>(was: seq<seq<Node<V>>>, m: map<string, V>,
                           chains: seq<seq<Node<V>>>, done: map<string, V>, i: nat, j: nat)
    requires |was| > 0 && |chains| > 0
  {
    && Holds(was, m)
    && Holds(chains, done)
    && (forall key :: key in done ==> key in m && done[key] == m[key])
    && (forall k, l :: 0 <= k < |was| && 0 <= l < |was[k]| ==>
          (was[k][l].key in done <==> k < i || (k == i && l < j)))
    && (forall k, l :: 0 <= k < |chains| && 0 <= l < |chains[k]| ==> Has(was, chains[k][l]))
  }

  /** The node at position `j` of chain `i` is nowhere else. */
  ghost predicate OnlyAt<V>(chains: seq<seq<Node<V>>>, i: nat, j: nat)
    requires i < |chains| && j < |chains[i]|
  {
    forall k, l :: 0 <= k < |chains| && 0 <= l < |chains[k]| && (k != i || l != j) ==> chains[k][l] != chains[i][j]
  }

  lemma NodeOnlyAt<V>(chains: seq<seq<Node<V>>>, m: map<string, V>, i: nat, j: nat)
    requires |chains| > 0 && Holds(chains, m) && i < |chains| && j < |chains[i]|
    ensures OnlyAt(chains, i, j)
  {
    forall k, l | 0 <= k < |chains| && 0 <= l < |chains[k]| && (k != i || l != j)
      ensures chains[k][l].key != chains[i][j].key
    {
      assert k != i ==> Bucket(chains[k][l].key, |chains|) != Bucket(chains[i][j].key, |chains|);
    }
  }

  lemma ChainsApart<V>(chains: seq<seq<Node<V>>>, m: map<string, V>)
    requires |chains| > 0 && Holds(chains, m)
    ensures forall i, k, l :: 0 <= i < |chains| && 0 <= k < |chains| && i != k && 0 <= l < |chains[k]|
              ==> chains[k][l] !in chains[i]
  {
  }

  lemma MoveFirst<V>(was: seq<seq<Node<V>>>, m: map<string, V>, chains: seq<seq<Node<V>>>)
    requires |was| > 0 && |chains| > 0 && Holds(was, m)
    requires forall i :: 0 <= i < |chains| ==> chains[i] == []
    ensures Moved(was, m, chains, map[], 0, 0)
  {
  }

  lemma MoveNext<V>(was: seq<seq<Node<V>>>, m: map<string, V>,
                    chains: seq<seq<Node<V>>>, done: map<string, V>, i: nat, j: nat)
    requires |was| > 0 && |chains| > 0 && Moved(was, m, chains, done, i, j)
    requires i < |was| && j < |was[i]|
    ensures var n := was[i][j];
            var b := Bucket(n.key, |chains|);
            && n.key !in done && !Has(chains, n)
            && Moved(was, m, chains[b := [n] + chains[b]], done[n.key := n.value], i, j + 1)
    ensures OnlyAt(was, i, j)
  {
    hide InChain, Bucket;
    var n := was[i][j];
    var b := Bucket(n.key, |chains|);
    NodeOnlyAt(was, m, i, j);
    PushHolds(chains, done, n);
    var chains' := chains[b := [n] + chains[b]];
    forall k, l | 0 <= k < |chains'| && 0 <= l < |chains'[k]|
      ensures Has(was, chains'[k][l])
    {
      assert chains'[k][l] == n || chains'[k][l] == if k == b then chains[k][l - 1] else chains[k][l];
    }
  }

  lemma MoveOn<V>(was: seq<seq<Node<V>>>, m: map<string, V>,
                  chains: seq<seq<Node<V>>>, done: map<string, V>, i: nat)
    requires |was| > 0 && |chains| > 0 && i < |was| && Moved(was, m, chains, done, i, |was[i]|)
    ensures Moved(was, m, chains, done, i + 1, 0)
  {
  }

  lemma MovedAll<V>(was: seq<seq<Node<V>>>, m: map<string, V>, chains: seq<seq<Node<V>>>, done: map<string, V>)
    requires |was| > 0 && |chains| > 0 && Moved(was, m, chains, done, |was|, 0)
    ensures done == m && Holds(chains, m)
    ensures forall n: Node<V> :: Has(chains, n) <==> Has(was, n)
  {
    forall key | key in m
      ensures key in done
    {
      KeyInItsChain(was, m, key);
    }
    forall n: Node<V> | Has(was, n)
      ensures Has(chains, n)
    {
      var i, j :| 0 <= i < |was| && 0 <= j < |was[i]| && was[i][j] == n;
      KeyInItsChain(chains, m, n.key);
      var b := Bucket(n.key, |chains|);
      var l :| 0 <= l < |chains[b]| && chains[b][l].key == n.key;
      SameKeySameNode(was, m, chains[b][l], n);
    }
  }

  lemma SameKeySameNode<V>(chains: seq<seq<Node<V>>>, m: map<string, V>, x: Node<V>, y: Node<V>)
    requires |chains| > 0 && Holds(chains, m) && Has(chains, x) && Has(chains, y) && x.key == y.key
    ensures x == y
  {
    var i, j :| 0 <= i < |chains| && 0 <= j < |chains[i]| && chains[i][j] == x;
    var k, l :| 0 <= k < |chains| && 0 <= l < |chains[k]| && chains[k][l] == y;
    assert i == Bucket(x.key, |chains|) == k;
  }

  /** The walk along a bucket that get, contains and remove make. Remove needs the
      predecessor of the node found; `j` is the position of that node. */
  method Search<V>(head: Node?<V>, key: string, ghost chain: seq<Node<V>>)
    returns (prev: Node?<V>, node: Node?<V>, ghost j: nat)
    requires Linked(head, chain)
    ensures node == null <==> !InChain(chain, key)
    ensures node != null ==> j < |chain| && node == chain[j] && node.key == key
    ensures node != null ==> prev == if j == 0 then null else chain[j - 1]
  {
    prev, node, j := null, head, 0;
    while node != null
      invariant j <= |chain| && node == At(chain, j) && prev == (if j == 0 then null else chain[j - 1])
      invariant forall k :: 0 <= k < j ==> chain[k].key != key
      decreases |chain| - j
    {
      if node.key == key {
        return;
      }
      prev, node := node, node.next;
      j := j + 1;
    }
  }

  ghost predicate PowerCapacity(capacity: nat) {
    exists k: nat :: capacity == 8 * Pow2(k)
  }

  lemma CapacityDoubles(capacity: nat)
    requires PowerCapacity(capacity)
    ensures PowerCapacity(2 * capacity)
  {
    var k: nat :| capacity == 8 * Pow2(k);
    assert 2 * capacity == 8 * Pow2(k + 1);
  }

  class HashMap<V> {
    var buckets: array<Node?<V>>
    var capacity: nat
    var size: nat

    ghost var M: map<string, V>
    ghost var chains: seq<seq<Node<V>>>
    ghost var Repr: set<object>

    /** The shape: every bucket heads its chain, and all of it belongs to this map. */
    ghost predicate Shape()
      reads this, Repr
    {
      && {this, buckets} <= Repr
      && capacity == buckets.Length == |chains| > 0
      && (forall i, j :: 0 <= i < |chains| && 0 <= j < |chains[i]| ==> chains[i][j] in Repr)
      && (forall i :: 0 <= i < |chains| ==> Linked(buckets[i], chains[i]))
    }

    ghost predicate Valid()
      reads this, Repr
      ensures Valid() ==> this in Repr
    {
      && Shape()
      && Holds(chains, M)
      && size == |M|
      && 4 * size <= 3 * capacity
      && PowerCapacity(capacity)
    }

    constructor ()
      ensures Valid() && fresh(Repr)
      ensures M == map[] && capacity == 8
    {
      capacity, size := INITIAL_CAPACITY, 0;
      buckets := new Node?<V>[INITIAL_CAPACITY](_ => null);
      M := map[];
      chains := seq(INITIAL_CAPACITY, _ => []);
      new;
      Repr := {this, buckets};
      assert 8 == 8 * Pow2(0);
    }

    method Contains(key: string) returns (found: bool)
      requires Valid()
      ensures found <==> key in M
    {
      var index := Hash(key, capacity);
      KeyInItsChain(chains, M, key);
      var _, node, _ := Search(buckets[index], key, chains[index]);
      found := node != null;
    }

    method Get(key: string) returns (value: Option<V>)
      requires Valid()
      ensures value == if key in M then Some(M[key]) else None
    {
      var index := Hash(key, capacity);
      KeyInItsChain(chains, M, key);
      var _, node, _ := Search(buckets[index], key, chains[index]);
      value := if node == null then None else Some(node.value);
    }

    /** Puts a node at the head of a bucket. */
    method Push(node: Node<V>, index: nat, ghost entries: map<string, V>)
      requires Shape() && index < capacity && !Has(chains, node)
      modifies this`size, this`chains, this`Repr, this`M, buckets, node`next
      ensures Shape() && M == entries
      ensures chains == old(chains)[index := [node] + old(chains)[index]]
      ensures size == old(size) + 1 && Repr == old(Repr) + {node}
    {
      assert forall i, j :: 0 <= i < |chains| && 0 <= j < |chains[i]| ==> chains[i][j] != node;
      M := entries;
      node.next := buckets[index];
      buckets[index] := node;
      size := size + 1;
      chains := chains[index := [node] + chains[index]];
      Repr := Repr + {node};
      forall i | 0 <= i < |chains|
        ensures Linked(buckets[i], chains[i])
      {
        assert Linked(old(buckets[i]), old(chains[i]));
        if i == index {
          assert forall j :: 0 < j < |chains[i]| ==> chains[i][j] == old(chains[i])[j - 1];
        }
      }
    }

    /** Walks one old chain, moving each of its nodes to the bucket it has at the new capacity. */
    method Relink(head: Node?<V>, ghost was: seq<seq<Node<V>>>, ghost i: nat, ghost done: map<string, V>)
      returns (ghost done': map<string, V>)
      requires Shape() && size == |done| && i < |was| && Moved(was, M, chains, done, i, 0)
      requires Linked(head, was[i]) && forall n :: n in was[i] ==> n in Repr
      modifies this`size, this`chains, this`Repr, this`M, buckets, was[i]
      ensures Shape() && M == old(M) && size == |done'| && Moved(was, M, chains, done', i + 1, 0)
      ensures Repr == old(Repr)
    {
      hide Holds, InChain, Bucket;
      var node := head;
      done' := done;
      ghost var j := 0;
      while node != null
        invariant Shape() && M == old(M) && size == |done'| && Repr == old(Repr)
        invariant j <= |was[i]| && node == At(was[i], j)
        invariant Moved(was, M, chains, done', i, j)
        invariant forall k :: j <= k < |was[i]| ==> was[i][k].next == At(was[i], k + 1)
        decreases |was[i]| - j
      {
        var index := Hash(node.key, capacity);
        var next := node.next;
        MoveNext(was, M, chains, done', i, j);
        Push(node, index, M);
        done' := done'[node.key := node.value];
        node := next;
        j := j + 1;
      }
      MoveOn(was, M, chains, done', i);
    }

    /** Walks all the old chains. */
    method RelinkAll(oldBuckets: array<Node?<V>>, ghost was: seq<seq<Node<V>>>)
      requires Shape() && size == 0 && oldBuckets != buckets && oldBuckets in Repr && oldBuckets.Length == |was| > 0
      requires forall i, j :: 0 <= i < |was| && 0 <= j < |was[i]| ==> was[i][j] in Repr
      requires forall i :: 0 <= i < |was| ==> Linked(oldBuckets[i], was[i])
      requires Holds(was, M) && forall i :: 0 <= i < |chains| ==> chains[i] == []
      modifies this`size, this`chains, this`Repr, this`M, Repr - {this, oldBuckets}
      ensures Shape() && M == old(M) && size == |M| && Holds(chains, M)
      ensures Repr == old(Repr) && forall n: Node<V> :: Has(chains, n) <==> Has(was, n)
    {
      ghost var done := map[];
      MoveFirst(was, M, chains);
      for i := 0 to oldBuckets.Length
        invariant Shape() && M == old(M) && size == |done| && Repr == old(Repr)
        invariant Moved(was, M, chains, done, i, 0)
        invariant forall k :: i <= k < |was| ==> Linked(oldBuckets[k], was[k])
      {
        ChainsApart(was, M);
        done := Relink(oldBuckets[i], was, i, done);
      }
      MovedAll(was, M, chains, done);
    }

    /** Moves every node, without copying it, to the bucket it has at twice the capacity. */
    method Rehash()
      requires Shape() && Holds(chains, M) && size == |M|
      modifies Repr
      ensures Shape() && Holds(chains, M)
      ensures M == old(M) && size == old(size) && capacity == 2 * old(capacity)
      ensures Repr == old(Repr) + {buckets} && fresh(buckets)
      ensures forall n: Node<V> :: Has(chains, n) <==> Has(old(chains), n)
    {
      hide Holds;
      var oldBuckets := buckets;
      ghost var was := chains;
      capacity := capacity * 2;
      buckets := new Node?<V>[capacity](_ => null);
      size := 0;
      chains := seq(capacity, _ => []);
      Repr := Repr + {buckets};
      RelinkAll(oldBuckets, was);
    }

    /** Room for one more entry under the load factor: one rehash always suffices. */
    method Reserve()
      requires Valid()
      modifies Repr
      ensures Shape() && Holds(chains, M) && M == old(M) && size == |M|
      ensures 4 * (size + 1) <= 3 * capacity && PowerCapacity(capacity)
      ensures capacity == if 4 * (old(size) + 1) > 3 * old(capacity) then 2 * old(capacity) else old(capacity)
      ensures fresh(Repr - old(Repr))
    {
      if 4 * (size + 1) > 3 * capacity {
        CapacityDoubles(capacity);
        Rehash();
      }
    }

    method Add(key: string, value: V)
      requires Valid()
      modifies Repr
      ensures Valid() && fresh(Repr - old(Repr))
      ensures M == if key in old(M) then old(M) else old(M)[key := value]
      ensures capacity == if key !in old(M) && 4 * (old(size) + 1) > 3 * old(capacity) then 2 * old(capacity)
                          else old(capacity)
    {
      hide Holds, HashMap.Shape, PowerCapacity;
      var present := Contains(key);
      if present {
        return;
      }
      Reserve();
      ghost var roomy := Repr;
      Insert(key, value);
      assert Repr - old(Repr) <= (Repr - roomy) + (roomy - old(Repr));
    }

    /** Adds a new node for a key that has none. */
    method Insert(key: string, value: V)
      requires Shape() && Holds(chains, M) && size == |M| && key !in M
      modifies this`size, this`chains, this`Repr, this`M, buckets
      ensures Shape() && Holds(chains, M) && M == old(M)[key := value] && size == |M|
      ensures capacity == old(capacity) && size == old(size) + 1 && fresh(Repr - old(Repr))
    {
      var index := Hash(key, capacity);
      var node := new Node(key, value, buckets[index]);
      PushHolds(chains, M, node);
      Push(node, index, M[key := value]);
    }

    method Remove(key: string)
      requires Valid()
      modifies Repr
      ensures Valid() && Repr == old(Repr)
      ensures M == old(M) - {key} && capacity == old(capacity)
    {
      hide Holds, OnlyAt, InChain, PowerCapacity;
      var index := Hash(key, capacity);
      KeyInItsChain(chains, M, key);
      ghost var j;
      var prev, node;
      prev, node, j := Search(buckets[index], key, chains[index]);
      if node != null {
        CutHolds(chains, M, index, j, key);
        if prev != null {
          NodeOnlyAt(chains, M, index, j - 1);
          UnlinkAfter(index, prev, node, j);
        } else {
          UnlinkFirst(index, node);
        }
      } else {
        assert M - {key} == M;
      }
    }

    /** Takes the first node out of its chain. */
    method UnlinkFirst(index: nat, node: Node<V>)
      requires Shape() && size > 0
      requires index < capacity && 0 < |chains[index]| && node == chains[index][0]
      modifies this`size, this`chains, this`M, buckets
      ensures Shape() && size == old(size) - 1 && M == old(M) - {node.key}
      ensures chains == old(chains[index := Cut(chains[index], 0)])
    {
      hide Cut;
      ghost var chain := chains[index];
      CutWithin(chain, 0, Repr);
      M := M - {node.key};
      size := size - 1;
      chains := chains[index := Cut(chain, 0)];
      buckets[index] := node.next;
      assert old(Linked(buckets[index], chain));
      LinkedCut(buckets[index], chain, 0);
      forall i | 0 <= i < |chains| && i != index
        ensures Linked(buckets[i], chains[i])
      {
        assert old(Linked(buckets[i], chains[i]));
      }
    }

    /** Takes the node after `prev` out of its chain. */
    method UnlinkAfter(index: nat, prev: Node<V>, node: Node<V>, ghost j: nat)
      requires Shape() && size > 0
      requires index < capacity && 0 < j < |chains[index]|
      requires prev == chains[index][j - 1] && node == chains[index][j] && OnlyAt(chains, index, j - 1)
      modifies this`size, this`chains, this`M, prev`next
      ensures Shape() && size == old(size) - 1 && M == old(M) - {node.key}
      ensures chains == old(chains[index := Cut(chains[index], j)])
    {
      hide At, Cut;
      ghost var chain := chains[index];
      CutWithin(chain, j, Repr);
      M := M - {node.key};
      size := size - 1;
      chains := chains[index := Cut(chain, j)];
      prev.next := node.next;
      assert old(Linked(buckets[index], chain));
      LinkedCut(buckets[index], chain, j);
      forall i | 0 <= i < |chains| && i != index
        ensures Linked(buckets[i], chains[i])
      {
        assert old(Linked(buckets[i], chains[i]));
        assert forall k :: 0 <= k < |chains[i]| ==> chains[i][k] != prev;
      }
    }
  }
}
