/**
 * The consistent-hash ring. The hash is any function of the text, collisions included; keys are
 * the sorted virtual-node hashes, and `owner` maps a hash to the node placed there last.
 */
module Ring {
  import opened Decimal

  type Hash = string -> int

  datatype Ring = Ring(keys: seq<int>, owner: map<int, string>, nodes: set<string>)

  const EmptyRing := Ring([], map[], {})

  /** Reading a Go map: a missing entry reads as the empty name. */
  function Read(owner: map<int, string>, k: int): string {
    if k in owner then owner[k] else ""
  }

  predicate Sorted(keys: seq<int>) {
    forall i, j :: 0 <= i < j < |keys| ==> keys[i] <= keys[j]
  }

  function KeySet(keys: seq<int>): set<int> { set k | k in keys }

  /** How often a key occurs. */
  function Occurs(keys: seq<int>, k: int): nat {
    if keys == [] then 0 else Occurs(keys[..|keys| - 1], k) + if keys[|keys| - 1] == k then 1 else 0
  }

  lemma {:induction false} OccursIn(keys: seq<int>, k: int)
    ensures k in keys <==> Occurs(keys, k) > 0
  {
    if keys != [] {
      OccursIn(keys[..|keys| - 1], k);
      assert keys == keys[..|keys| - 1] + [keys[|keys| - 1]];
    }
  }

  lemma OccursSnoc(keys: seq<int>, h: int, k: int)
    ensures Occurs(keys + [h], k) == Occurs(keys, k) + if h == k then 1 else 0
  {
    assert (keys + [h])[..|keys|] == keys;
  }

  /* ---------- lookup ---------- */

  /** `k` is the first key at or after `h` going round the circle. */
  predicate IsSuccessor(keys: set<int>, h: int, k: int) {
    && k in keys
    && (k >= h ==> forall j :: j in keys && j >= h ==> k <= j)
    && (k < h ==> forall j :: j in keys ==> k <= j < h)
  }

  lemma SuccessorIsUnique(keys: set<int>, h: int, a: int, b: int)
    requires IsSuccessor(keys, h, a) && IsSuccessor(keys, h, b)
    ensures a == b
  {
  }

  /** Where a hash goes, by scanning: the owner of the first key at or after it, else of the first key. */
  function Scan(keys: seq<int>, h: int): nat {
    if keys == [] then 0 else if keys[0] >= h then 0 else 1 + Scan(keys[1..], h)
  }

  lemma {:induction false} ScanStops(keys: seq<int>, h: int)
    ensures Scan(keys, h) <= |keys|
    ensures forall i :: 0 <= i < Scan(keys, h) ==> keys[i] < h
    ensures Scan(keys, h) < |keys| ==> keys[Scan(keys, h)] >= h
  {
    if keys != [] && keys[0] < h {
      ScanStops(keys[1..], h);
      assert forall i :: 1 <= i < |keys| ==> keys[i] == keys[1..][i - 1];
    }
  }

  lemma {:induction false} ScanIs(keys: seq<int>, h: int, n: nat)
    requires n <= |keys| && (forall i :: 0 <= i < n ==> keys[i] < h) && (n < |keys| ==> keys[n] >= h)
    ensures Scan(keys, h) == n
  {
    if n > 0 {
      ScanIs(keys[1..], h, n - 1);
    }
  }

  /** The key a hash falls on. */
  function Landing(keys: seq<int>, h: int): (k: int)
    requires keys != []
    ensures k in keys
  {
    ScanStops(keys, h);
    var i := Scan(keys, h);
    keys[if i == |keys| then 0 else i]
  }

  lemma LandingIsSuccessor(keys: seq<int>, h: int)
    requires Sorted(keys) && keys != []
    ensures IsSuccessor(KeySet(keys), h, Landing(keys, h))
  {
    ScanStops(keys, h);
  }

  function Lookup(r: Ring, h: int): string {
    if r.keys == [] then "" else Read(r.owner, Landing(r.keys, h))
  }

  /* ---------- adding ---------- */

  function VirtualText(node: string, i: nat): string { node + "#" + Itoa(i) }

  function VirtualHash(hash: Hash, node: string, i: nat): int {
    hash(VirtualText(node, i))
  }

  /** The last hash sign splits a text in only one way. */
  lemma LastHashSign(p: string, x: string, q: string, y: string)
    requires '#' !in x && '#' !in y && p + "#" + x == q + "#" + y
    ensures p == q && x == y
  {
    var s, t := p + "#" + x, q + "#" + y;
    assert s[|p|] == '#' && t[|q|] == '#';
    assert forall k :: |p| < k < |s| ==> s[k] == x[k - |p| - 1];
    assert forall k :: |q| < k < |t| ==> t[k] == y[k - |q| - 1];
    assert p == s[..|p|] && q == t[..|q|] && x == s[|p| + 1..] && y == t[|q| + 1..];
  }

  /** Different virtual nodes have different texts, whatever the names: the text determines both the node
      and the number. */
  lemma VirtualTextInjective(n: string, i: nat, m: string, j: nat)
    requires VirtualText(n, i) == VirtualText(m, j)
    ensures n == m && i == j
  {
    NumberHasNoHashSign(i);
    NumberHasNoHashSign(j);
    LastHashSign(n, Itoa(i), m, Itoa(j));
    PrintInjective(i, j);
  }

  lemma NumberHasNoHashSign(i: nat)
    ensures '#' !in Itoa(i)
  {
    assert forall k :: 0 <= k < |Itoa(i)| ==> IsDigit(Itoa(i)[k]);
  }

  /** Append the first n virtual nodes. */
  function Place(hash: Hash, r: Ring, node: string, n: nat): Ring {
    if n == 0 then r
    else
      var p, h := Place(hash, r, node, n - 1), VirtualHash(hash, node, n - 1);
      p.(keys := p.keys + [h], owner := p.owner[h := node])
  }

  function AddOne(hash: Hash, r: Ring, node: string, replicas: nat): Ring {
    if node == "" || node in r.nodes then r else Place(hash, r.(nodes := r.nodes + {node}), node, replicas)
  }

  function AddAll(hash: Hash, r: Ring, nodes: seq<string>, replicas: nat): Ring {
    if nodes == [] then r
    else AddOne(hash, AddAll(hash, r, nodes[..|nodes| - 1], replicas), nodes[|nodes| - 1], replicas)
  }

  function Inserted(keys: seq<int>, k: int): seq<int> {
    if keys == [] || keys[|keys| - 1] <= k then keys + [k]
    else Inserted(keys[..|keys| - 1], k) + [keys[|keys| - 1]]
  }

  lemma {:induction false} InsertedIn(keys: seq<int>, k: int)
    ensures forall x :: x in Inserted(keys, k) <==> x in keys || x == k
  {
    if keys != [] && keys[|keys| - 1] > k {
      InsertedIn(keys[..|keys| - 1], k);
      assert keys == keys[..|keys| - 1] + [keys[|keys| - 1]];
    }
  }

  lemma SortedSnoc(keys: seq<int>, h: int)
    requires Sorted(keys) && forall x :: x in keys ==> x <= h
    ensures Sorted(keys + [h])
  {
    assert forall i :: 0 <= i < |keys| ==> keys[i] in keys;
  }

  lemma {:induction false} InsertedSorts(keys: seq<int>, k: int)
    requires Sorted(keys)
    ensures Sorted(Inserted(keys, k))
  {
    if keys == [] || keys[|keys| - 1] <= k {
      SortedSnoc(keys, k);
    } else {
      var front, h := keys[..|keys| - 1], keys[|keys| - 1];
      InsertedSorts(front, k);
      InsertedIn(front, k);
      SortedSnoc(Inserted(front, k), h);
    }
  }

  lemma {:induction false} InsertedOccurs(keys: seq<int>, k: int, x: int)
    ensures Occurs(Inserted(keys, k), x) == Occurs(keys, x) + if x == k then 1 else 0
  {
    if keys == [] || keys[|keys| - 1] <= k {
      OccursSnoc(keys, k, x);
    } else {
      var front, h := keys[..|keys| - 1], keys[|keys| - 1];
      InsertedOccurs(front, k, x);
      OccursSnoc(Inserted(front, k), h, x);
    }
  }

  function SortKeys(keys: seq<int>): seq<int> {
    if keys == [] then [] else Inserted(SortKeys(keys[..|keys| - 1]), keys[|keys| - 1])
  }

  lemma {:induction false} SortKeysSorts(keys: seq<int>)
    ensures Sorted(SortKeys(keys))
  {
    if keys != [] {
      SortKeysSorts(keys[..|keys| - 1]);
      InsertedSorts(SortKeys(keys[..|keys| - 1]), keys[|keys| - 1]);
    }
  }

  lemma {:induction false} SortKeysPermutes(keys: seq<int>, k: int)
    ensures Occurs(SortKeys(keys), k) == Occurs(keys, k)
  {
    if keys != [] {
      SortKeysPermutes(keys[..|keys| - 1], k);
      InsertedOccurs(SortKeys(keys[..|keys| - 1]), keys[|keys| - 1], k);
    }
  }

  lemma SortKeysIn(keys: seq<int>, k: int)
    ensures k in SortKeys(keys) <==> k in keys
  {
    SortKeysPermutes(keys, k);
    OccursIn(keys, k);
    OccursIn(SortKeys(keys), k);
  }

  function Extended(hash: Hash, r: Ring, nodes: seq<string>, replicas: nat): Ring {
    var added := AddAll(hash, r, nodes, replicas);
    added.(keys := SortKeys(added.keys))
  }

  predicate TakenOrKept(r: Ring, t: Ring, added: set<string>, k: int) {
    || (k in t.owner && t.owner[k] in added)
    || (k in r.keys && k in r.owner && k in t.owner && t.owner[k] == r.owner[k])
    || (k in r.keys && k !in r.owner && k !in t.owner)
  }

  /** What placing changes: old keys stay, a new owner is a new node, and other owners stay. */
  ghost predicate Extends(r: Ring, t: Ring, added: set<string>) {
    && KeySet(r.keys) <= KeySet(t.keys)
    && t.nodes == r.nodes + added
    && (forall k :: k in t.keys ==> TakenOrKept(r, t, added, k))
    && (forall k :: k in t.owner ==> k in t.keys || k in r.owner)
  }

  lemma {:induction false} PlaceExtends(hash: Hash, r: Ring, node: string, n: nat)
    ensures Extends(r.(nodes := r.nodes - {node}), Place(hash, r.(nodes := r.nodes + {node}), node, n), {node})
  {
    if n > 0 {
      PlaceExtends(hash, r, node, n - 1);
      var p := Place(hash, r.(nodes := r.nodes + {node}), node, n - 1);
      var h := VirtualHash(hash, node, n - 1);
      assert forall k :: k in p.keys + [h] <==> k in p.keys || k == h;
    }
  }

  lemma ExtendsTransitive(r: Ring, s: Ring, t: Ring, a: set<string>, b: set<string>)
    requires Extends(r, s, a) && Extends(s, t, b)
    ensures Extends(r, t, a + b)
  {
    forall k | k in t.keys ensures TakenOrKept(r, t, a + b, k) {
      assert TakenOrKept(s, t, b, k);
      if k in s.keys {
        assert TakenOrKept(r, s, a, k);
      }
    }
    forall k | k in t.owner ensures k in t.keys || k in r.owner {
      assert k in s.keys ==> k in KeySet(t.keys);
    }
  }

  /** The nodes that adding really brings in. */
  function NewNodes(r: Ring, nodes: seq<string>): set<string> {
    set n | n in nodes && n != "" && n !in r.nodes
  }

  lemma {:induction false} AddAllExtends(hash: Hash, r: Ring, nodes: seq<string>, replicas: nat)
    ensures Extends(r, AddAll(hash, r, nodes, replicas), NewNodes(r, nodes))
  {
    if nodes != [] {
      var front, node := nodes[..|nodes| - 1], nodes[|nodes| - 1];
      assert nodes == front + [node];
      AddAllExtends(hash, r, front, replicas);
      var s := AddAll(hash, r, front, replicas);
      if node == "" || node in s.nodes {
        assert NewNodes(r, nodes) == NewNodes(r, front);
      } else {
        PlaceExtends(hash, s, node, replicas);
        assert s.(nodes := s.nodes - {node}) == s;
        ExtendsTransitive(r, s, AddAll(hash, r, nodes, replicas), NewNodes(r, front), {node});
        assert NewNodes(r, nodes) == NewNodes(r, front) + {node};
      }
    }
  }

  lemma AddExtends(hash: Hash, r: Ring, nodes: seq<string>, replicas: nat)
    ensures Extends(r, Extended(hash, r, nodes, replicas), NewNodes(r, nodes)) && Sorted(Extended(hash, r, nodes, replicas).keys)
  {
    AddAllExtends(hash, r, nodes, replicas);
    var s := AddAll(hash, r, nodes, replicas);
    SortKeysSorts(s.keys);
    forall k ensures k in SortKeys(s.keys) <==> k in s.keys {
      SortKeysIn(s.keys, k);
    }
    SameKeysExtend(r, s, SortKeys(s.keys), NewNodes(r, nodes));
  }

  lemma SameKeysExtend(r: Ring, s: Ring, keys: seq<int>, added: set<string>)
    requires Extends(r, s, added) && forall k :: k in keys <==> k in s.keys
    ensures Extends(r, s.(keys := keys), added)
  {
    forall k ensures k in KeySet(keys) <==> k in KeySet(s.keys) {
      assert k in keys <==> k in s.keys;
    }
    forall k | k in keys ensures TakenOrKept(r, s.(keys := keys), added, k) {
      assert TakenOrKept(r, s, added, k);
    }
  }

  lemma ExtendingMovesToNew(r: Ring, t: Ring, added: set<string>, h: int)
    requires Extends(r, t, added) && Sorted(r.keys) && Sorted(t.keys)
    ensures Lookup(t, h) == Lookup(r, h) || Lookup(t, h) in added
  {
    assert forall k :: k in r.keys ==> k in KeySet(t.keys);
    if t.keys != [] {
      var k := Landing(t.keys, h);
      LandingIsSuccessor(t.keys, h);
      assert TakenOrKept(r, t, added, k);
      if k in r.keys && Lookup(t, h) !in added {
        LandingIsSuccessor(r.keys, h);
        assert IsSuccessor(KeySet(r.keys), h, k);
        SuccessorIsUnique(KeySet(r.keys), h, k, Landing(r.keys, h));
      }
    }
  }

  /** Monotonicity, for any hash and with any collisions: adding nodes sends every hash to the node it
      had before or to one of the nodes just added. */
  lemma AddOnlyMovesToNewNodes(hash: Hash, r: Ring, nodes: seq<string>, replicas: nat, h: int)
    requires Sorted(r.keys)
    ensures var t := Extended(hash, r, nodes, replicas);
            Lookup(t, h) == Lookup(r, h) || Lookup(t, h) in NewNodes(r, nodes)
  {
    AddExtends(hash, r, nodes, replicas);
    ExtendingMovesToNew(r, Extended(hash, r, nodes, replicas), NewNodes(r, nodes), h);
  }

  /** Every key has an owner that is a member, and every owned hash is a key. */
  predicate Whole(r: Ring) {
    && Sorted(r.keys)
    && r.owner.Keys == KeySet(r.keys)
    && "" !in r.nodes
    && forall k :: k in r.owner ==> r.owner[k] in r.nodes
  }

  lemma AddKeepsWhole(hash: Hash, r: Ring, nodes: seq<string>, replicas: nat)
    requires Whole(r)
    ensures Whole(Extended(hash, r, nodes, replicas))
  {
    AddExtends(hash, r, nodes, replicas);
    var t := Extended(hash, r, nodes, replicas);
    forall k | k in t.keys ensures k in t.owner && t.owner[k] in t.nodes {
      assert TakenOrKept(r, t, NewNodes(r, nodes), k);
      assert k in r.keys ==> k in KeySet(r.keys);
    }
    forall k | k in t.owner ensures k in KeySet(t.keys) {
      assert k in t.keys || k in KeySet(r.keys);
    }
  }

  /** A ring without stray keys answers with a member, unless it is empty. */
  lemma WholeRingAnswers(r: Ring, h: int)
    requires Whole(r)
    ensures if r.keys == [] then Lookup(r, h) == "" else Lookup(r, h) in r.nodes
  {
    if r.keys != [] {
      assert Landing(r.keys, h) in KeySet(r.keys);
    }
  }

  /* ---------- removing ---------- */

  /** The in-place filter: a key owned by the node loses its owner and its place. */
  function Filter(keys: seq<int>, owner: map<int, string>, node: string): (seq<int>, map<int, string>) {
    if keys == [] then ([], owner)
    else
      var (kept, o) := Filter(keys[..|keys| - 1], owner, node);
      var h := keys[|keys| - 1];
      if Read(o, h) == node then (kept, o - {h}) else (kept + [h], o)
  }

  function Reduced(r: Ring, node: string): Ring {
    if node !in r.nodes then r
    else
      var (kept, o) := Filter(r.keys, r.owner, node);
      Ring(kept, o, r.nodes - {node})
  }

  /** The filter takes away one occurrence of each key the node owns, and no other key. */
  lemma {:induction false} FilterTakesOne(keys: seq<int>, owner: map<int, string>, node: string, k: int)
    requires node != ""
    ensures var (kept, o) := Filter(keys, owner, node);
            && Occurs(kept, k) ==
                 (if Read(owner, k) == node && Occurs(keys, k) > 0 then Occurs(keys, k) - 1 else Occurs(keys, k))
            && (k in o <==> k in owner && !(owner[k] == node && Occurs(keys, k) > 0))
            && (k in o ==> o[k] == owner[k])
  {
    if keys != [] {
      var front, h := keys[..|keys| - 1], keys[|keys| - 1];
      FilterTakesOne(front, owner, node, k);
      OccursSnoc(Filter(front, owner, node).0, h, k);
    }
  }

  lemma {:induction false} FilterKeepsOrder(keys: seq<int>, owner: map<int, string>, node: string)
    ensures var kept := Filter(keys, owner, node).0;
            |kept| <= |keys| && (forall k :: k in kept ==> k in keys) && (Sorted(keys) ==> Sorted(kept))
  {
    if keys != [] {
      var front, h := keys[..|keys| - 1], keys[|keys| - 1];
      assert keys == front + [h];
      FilterKeepsOrder(front, owner, node);
      if Sorted(keys) {
        SortedSnoc(Filter(front, owner, node).0, h);
      }
    }
  }

  lemma RemoveKeepsSorted(r: Ring, node: string)
    requires Sorted(r.keys)
    ensures Sorted(Reduced(r, node).keys)
  {
    FilterKeepsOrder(r.keys, r.owner, node);
  }

  /** Keys and owners after a removal, one key at a time. */
  lemma RemovedKey(r: Ring, node: string, k: int)
    requires node in r.nodes && "" !in r.nodes
    ensures var t := Reduced(r, node);
            && (k in t.keys <==> if Read(r.owner, k) == node then Occurs(r.keys, k) > 1 else k in r.keys)
            && (k in t.owner <==> k in r.owner && !(r.owner[k] == node && k in r.keys))
            && (k in t.owner ==> t.owner[k] == r.owner[k])
  {
    FilterTakesOne(r.keys, r.owner, node, k);
    OccursIn(r.keys, k);
    OccursIn(Reduced(r, node).keys, k);
  }

  /** Removing a node moves no role of any other node, with or without collisions. */
  lemma RemoveMovesOnlyItsOwn(r: Ring, node: string, h: int)
    requires Sorted(r.keys) && "" !in r.nodes && Lookup(r, h) != node
    ensures Lookup(Reduced(r, node), h) == Lookup(r, h)
  {
    if node in r.nodes && r.keys != [] {
      var t := Reduced(r, node);
      var k := Landing(r.keys, h);
      LandingIsSuccessor(r.keys, h);
      FilterKeepsOrder(r.keys, r.owner, node);
      RemovedKey(r, node, k);
      LandingIsSuccessor(t.keys, h);
      assert forall j :: j in KeySet(t.keys) ==> j in KeySet(r.keys);
      SuccessorIsUnique(KeySet(t.keys), h, k, Landing(t.keys, h));
    }
  }

  /** No hash that the node owns was hit twice. */
  ghost predicate Unshared(r: Ring, node: string) {
    forall k :: k in r.owner && r.owner[k] == node ==> Occurs(r.keys, k) <= 1
  }

  /** A removal leaves no stray key exactly when none of the node's hashes was hit twice. */
  lemma RemoveKeepsWholeIff(r: Ring, node: string)
    requires Whole(r) && node in r.nodes
    ensures Whole(Reduced(r, node)) <==> Unshared(r, node)
  {
    if Unshared(r, node) {
      UnsharedStaysWhole(r, node);
    } else {
      var k :| k in r.owner && r.owner[k] == node && Occurs(r.keys, k) > 1;
      RemovedKey(r, node, k);
      assert k in KeySet(r.keys) && k in KeySet(Reduced(r, node).keys);
    }
  }

  lemma UnsharedStaysWhole(r: Ring, node: string)
    requires Whole(r) && node in r.nodes && Unshared(r, node)
    ensures Whole(Reduced(r, node))
  {
    var t := Reduced(r, node);
    RemoveKeepsSorted(r, node);
    forall k ensures k in t.owner <==> k in t.keys {
      RemovedKey(r, node, k);
      assert k in r.owner <==> k in KeySet(r.keys);
    }
    forall k | k in t.owner ensures t.owner[k] in t.nodes {
      RemovedKey(r, node, k);
      assert k in KeySet(r.keys);
    }
  }

  /** When a hash was hit twice, removal leaves roles with no node at all, although members remain. */
  lemma StrayKeyAnswersNobody(r: Ring, node: string, k: int)
    requires Whole(r) && node in r.nodes && k in r.owner && r.owner[k] == node && Occurs(r.keys, k) > 1
    ensures Lookup(Reduced(r, node), k) == ""
  {
    var t := Reduced(r, node);
    RemovedKey(r, node, k);
    OccursIn(r.keys, k);
    RemoveKeepsSorted(r, node);
    LandingIsSuccessor(t.keys, k);
    SuccessorIsUnique(KeySet(t.keys), k, k, Landing(t.keys, k));
  }

  /* ---------- adding and removing again ---------- */

  /** The node's virtual nodes hit neither each other nor an existing key. */
  predicate Apart(hash: Hash, r: Ring, node: string, n: nat) {
    && (forall i :: 0 <= i < n ==> VirtualHash(hash, node, i) !in r.keys)
    && (forall i, j :: 0 <= i < j < n ==> VirtualHash(hash, node, i) != VirtualHash(hash, node, j))
  }

  predicate Hit(hash: Hash, node: string, n: nat, k: int) {
    exists i :: 0 <= i < n && VirtualHash(hash, node, i) == k
  }

  /** How often the first n virtual nodes hit a key. */
  function Hits(hash: Hash, node: string, n: nat, k: int): nat {
    if n == 0 then 0 else Hits(hash, node, n - 1, k) + if VirtualHash(hash, node, n - 1) == k then 1 else 0
  }

  lemma {:induction false} HitsAreHits(hash: Hash, node: string, n: nat, k: int)
    ensures Hits(hash, node, n, k) > 0 <==> Hit(hash, node, n, k)
  {
    if n > 0 {
      HitsAreHits(hash, node, n - 1, k);
    }
  }

  /** How often a key occurs after placing, and who owns it. */
  lemma {:induction false} PlaceCounts(hash: Hash, r: Ring, node: string, n: nat, k: int)
    ensures var p, hits := Place(hash, r, node, n), Hits(hash, node, n, k);
            && Occurs(p.keys, k) == Occurs(r.keys, k) + hits
            && (k in p.owner <==> hits > 0 || k in r.owner)
            && Read(p.owner, k) == (if hits > 0 then node else Read(r.owner, k))
            && p.nodes == r.nodes
  {
    if n > 0 {
      PlaceCounts(hash, r, node, n - 1, k);
      OccursSnoc(Place(hash, r, node, n - 1).keys, VirtualHash(hash, node, n - 1), k);
    }
  }

  lemma {:induction false} ApartHitsOnce(hash: Hash, r: Ring, node: string, n: nat, k: int)
    requires Apart(hash, r, node, n)
    ensures Hits(hash, node, n, k) <= 1 && (Hits(hash, node, n, k) == 1 ==> Occurs(r.keys, k) == 0)
  {
    OccursIn(r.keys, k);
    if n > 0 {
      ApartHitsOnce(hash, r, node, n - 1, k);
      HitsAreHits(hash, node, n - 1, k);
    }
  }

  /** If they do hit, some key of the node occurs more than once. */
  lemma CollisionHitsTwice(hash: Hash, r: Ring, node: string, n: nat) returns (k: int)
    requires !Apart(hash, r, node, n)
    ensures Hits(hash, node, n, k) >= 1 && Occurs(r.keys, k) + Hits(hash, node, n, k) >= 2
  {
    if i :| 0 <= i < n && VirtualHash(hash, node, i) in r.keys {
      k := VirtualHash(hash, node, i);
      HitsAreHits(hash, node, n, k);
      OccursIn(r.keys, k);
    } else {
      var i, j :| 0 <= i < j < n && VirtualHash(hash, node, i) == VirtualHash(hash, node, j);
      k := VirtualHash(hash, node, i);
      HitsAreHits(hash, node, j, k);
      HitsGrow(hash, node, j + 1, n, k);
    }
  }

  lemma {:induction false} HitsGrow(hash: Hash, node: string, m: nat, n: nat, k: int)
    requires m <= n
    ensures Hits(hash, node, m, k) <= Hits(hash, node, n, k)
  {
    if m < n {
      HitsGrow(hash, node, m, n - 1, k);
    }
  }

  /** Two sorted sequences in which every key occurs equally often are the same. */
  lemma {:induction false} SortedIsUnique(a: seq<int>, b: seq<int>)
    requires Sorted(a) && Sorted(b) && forall k :: Occurs(a, k) == Occurs(b, k)
    ensures a == b
  {
    if a != [] {
      var x := a[|a| - 1];
      OccursIn(a, x);
      OccursIn(b, x);
      var y := b[|b| - 1];
      OccursIn(b, y);
      OccursIn(a, y);
      assert x == y;
      var a', b' := a[..|a| - 1], b[..|b| - 1];
      forall k ensures Occurs(a', k) == Occurs(b', k) {
        assert Occurs(a, k) == Occurs(b, k);
      }
      SortedIsUnique(a', b');
      assert a == a' + [x] && b == b' + [y];
    }
  }

  /** The ring after adding one fresh node, one key at a time. */
  lemma AddedKey(hash: Hash, r: Ring, node: string, replicas: nat, k: int)
    requires node != "" && node !in r.nodes
    ensures var t, hits := Extended(hash, r, [node], replicas), Hits(hash, node, replicas, k);
            && Occurs(t.keys, k) == Occurs(r.keys, k) + hits
            && (k in t.owner <==> hits > 0 || k in r.owner)
            && Read(t.owner, k) == (if hits > 0 then node else Read(r.owner, k))
            && t.nodes == r.nodes + {node}
  {
    assert [node][..0] == [];
    assert AddAll(hash, r, [], replicas) == r;
    var r1 := r.(nodes := r.nodes + {node});
    PlaceCounts(hash, r1, node, replicas, k);
    SortKeysPermutes(Place(hash, r1, node, replicas).keys, k);
  }

  /** Adding a fresh node and removing it again restores the ring exactly when its virtual nodes hit
      neither each other nor an existing key. */
  lemma AddThenRemoveRestoresIff(hash: Hash, r: Ring, node: string, replicas: nat)
    requires Whole(r) && node != "" && node !in r.nodes
    ensures Reduced(Extended(hash, r, [node], replicas), node) == r <==> Apart(hash, r, node, replicas)
  {
    if Apart(hash, r, node, replicas) {
      ApartRestores(hash, r, node, replicas);
    } else {
      CollisionLeavesTrace(hash, r, node, replicas);
    }
  }

  lemma CollisionLeavesTrace(hash: Hash, r: Ring, node: string, replicas: nat)
    requires Whole(r) && node != "" && node !in r.nodes && !Apart(hash, r, node, replicas)
    ensures Reduced(Extended(hash, r, [node], replicas), node) != r
  {
    var k := CollisionHitsTwice(hash, r, node, replicas);
    AddedKey(hash, r, node, replicas, k);
    AddKeepsWhole(hash, r, [node], replicas);
    assert !Unshared(Extended(hash, r, [node], replicas), node);
    RemoveKeepsWholeIff(Extended(hash, r, [node], replicas), node);
  }

  /** After the round trip every key occurs as often as before and has its old owner. */
  lemma ApartRestoresKey(hash: Hash, r: Ring, node: string, replicas: nat, k: int)
    requires Whole(r) && node != "" && node !in r.nodes && Apart(hash, r, node, replicas)
    ensures var u := Reduced(Extended(hash, r, [node], replicas), node);
            && Occurs(u.keys, k) == Occurs(r.keys, k)
            && (k in u.owner <==> k in r.owner) && Read(u.owner, k) == Read(r.owner, k)
            && u.nodes == r.nodes
  {
    var t := Extended(hash, r, [node], replicas);
    AddedKey(hash, r, node, replicas, k);
    ApartHitsOnce(hash, r, node, replicas, k);
    FilterTakesOne(t.keys, t.owner, node, k);
    OccursIn(r.keys, k);
    assert k in r.owner <==> k in KeySet(r.keys);
  }

  lemma ApartRestores(hash: Hash, r: Ring, node: string, replicas: nat)
    requires Whole(r) && node != "" && node !in r.nodes && Apart(hash, r, node, replicas)
    ensures Reduced(Extended(hash, r, [node], replicas), node) == r
  {
    var t := Extended(hash, r, [node], replicas);
    var u := Reduced(t, node);
    forall k ensures Occurs(u.keys, k) == Occurs(r.keys, k)
                     && (k in u.owner <==> k in r.owner) && Read(u.owner, k) == Read(r.owner, k)
    {
      ApartRestoresKey(hash, r, node, replicas, k);
    }
    ApartRestoresKey(hash, r, node, replicas, 0);
    AddExtends(hash, r, [node], replicas);
    RemoveKeepsSorted(t, node);
    SortedIsUnique(u.keys, r.keys);
    SameOwners(u.owner, r.owner);
  }

  lemma SameOwners(a: map<int, string>, b: map<int, string>)
    requires forall k :: (k in a <==> k in b) && Read(a, k) == Read(b, k)
    ensures a == b
  {
    forall k ensures k in a <==> k in b {
      assert Read(a, k) == Read(b, k);
    }
    forall k | k in a ensures a[k] == b[k] {
      assert Read(a, k) == Read(b, k);
    }
  }

  /* ---------- rings without collisions ---------- */

  /** The hash tells the virtual nodes of these names apart; their texts it can, since they all differ. */
  ghost predicate TellsApart(hash: Hash, names: set<string>, replicas: nat) {
    forall n, i: nat, m, j: nat ::
      n in names && m in names && i < replicas && j < replicas && VirtualText(n, i) != VirtualText(m, j) ==>
        VirtualHash(hash, n, i) != VirtualHash(hash, m, j)
  }

  lemma ApartByHash(hash: Hash, names: set<string>, replicas: nat, n: string, i: nat, m: string, j: nat)
    requires TellsApart(hash, names, replicas) && n in names && m in names && i < replicas && j < replicas
    requires VirtualHash(hash, n, i) == VirtualHash(hash, m, j)
    ensures n == m && i == j
  {
    if VirtualText(n, i) == VirtualText(m, j) {
      VirtualTextInjective(n, i, m, j);
    }
  }

  predicate Placed(hash: Hash, nodes: set<string>, replicas: nat, k: int) {
    exists n :: n in nodes && Hit(hash, n, replicas, k)
  }

  /** The ring holds exactly the virtual nodes of its members, each once and owned by its member. */
  ghost predicate Made(hash: Hash, r: Ring, replicas: nat) {
    && Sorted(r.keys) && "" !in r.nodes
    && (forall k :: Occurs(r.keys, k) == if Placed(hash, r.nodes, replicas, k) then 1 else 0)
    && (forall k :: k in r.owner <==> Placed(hash, r.nodes, replicas, k))
    && (forall n, k :: n in r.nodes && Hit(hash, n, replicas, k) ==> Read(r.owner, k) == n)
  }

  lemma {:induction false} HitsOnce(hash: Hash, names: set<string>, replicas: nat, n: string, m: nat, k: int)
    requires TellsApart(hash, names, replicas) && n in names && m <= replicas
    ensures Hits(hash, n, m, k) <= 1
  {
    if m > 0 {
      HitsOnce(hash, names, replicas, n, m - 1, k);
      HitsAreHits(hash, n, m - 1, k);
      if Hit(hash, n, m - 1, k) && VirtualHash(hash, n, m - 1) == k {
        var i :| 0 <= i < m - 1 && VirtualHash(hash, n, i) == k;
        ApartByHash(hash, names, replicas, n, i, n, m - 1);
      }
    }
  }

  lemma HitByOne(hash: Hash, names: set<string>, replicas: nat, n: string, m: string, k: int)
    requires TellsApart(hash, names, replicas) && n in names && m in names
    requires Hit(hash, n, replicas, k) && Hit(hash, m, replicas, k)
    ensures n == m
  {
    var i :| 0 <= i < replicas && VirtualHash(hash, n, i) == k;
    var j :| 0 <= j < replicas && VirtualHash(hash, m, j) == k;
    ApartByHash(hash, names, replicas, n, i, m, j);
  }

  /** Adding a fresh node gives it its virtual nodes, all of them and each once. */
  lemma AddKeepsMade(hash: Hash, r: Ring, node: string, replicas: nat)
    requires Made(hash, r, replicas) && node != "" && node !in r.nodes && TellsApart(hash, r.nodes + {node}, replicas)
    ensures var t := Extended(hash, r, [node], replicas); Made(hash, t, replicas) && t.nodes == r.nodes + {node}
  {
    var t, names := Extended(hash, r, [node], replicas), r.nodes + {node};
    AddExtends(hash, r, [node], replicas);
    AddedKey(hash, r, node, replicas, 0);
    forall k
      ensures Occurs(t.keys, k) == if Placed(hash, names, replicas, k) then 1 else 0
      ensures k in t.owner <==> Placed(hash, names, replicas, k)
    {
      AddedPlace(hash, r, node, replicas, k);
    }
    forall n, k | n in t.nodes && Hit(hash, n, replicas, k) ensures Read(t.owner, k) == n {
      AddedKey(hash, r, node, replicas, k);
      HitsAreHits(hash, node, replicas, k);
      if n != node && Hit(hash, node, replicas, k) {
        HitByOne(hash, names, replicas, n, node, k);
      }
    }
  }

  lemma AddedPlace(hash: Hash, r: Ring, node: string, replicas: nat, k: int)
    requires Made(hash, r, replicas) && node != "" && node !in r.nodes && TellsApart(hash, r.nodes + {node}, replicas)
    ensures var t, names := Extended(hash, r, [node], replicas), r.nodes + {node};
            && Occurs(t.keys, k) == (if Placed(hash, names, replicas, k) then 1 else 0)
            && (k in t.owner <==> Placed(hash, names, replicas, k))
  {
    var names := r.nodes + {node};
    AddedKey(hash, r, node, replicas, k);
    HitsAreHits(hash, node, replicas, k);
    HitsOnce(hash, names, replicas, node, replicas, k);
    if Placed(hash, r.nodes, replicas, k) {
      var n :| n in r.nodes && Hit(hash, n, replicas, k);
      assert n in names;
      if Hit(hash, node, replicas, k) {
        HitByOne(hash, names, replicas, n, node, k);
      }
    }
    assert Placed(hash, names, replicas, k) <==> Placed(hash, r.nodes, replicas, k) || Hit(hash, node, replicas, k);
  }

  /** Removing a member takes away its virtual nodes and no others. */
  lemma RemoveKeepsMade(hash: Hash, r: Ring, node: string, replicas: nat)
    requires Made(hash, r, replicas) && node in r.nodes && TellsApart(hash, r.nodes, replicas)
    ensures Made(hash, Reduced(r, node), replicas) && Reduced(r, node).nodes == r.nodes - {node}
  {
    var t := Reduced(r, node);
    RemoveKeepsSorted(r, node);
    forall k
      ensures Occurs(t.keys, k) == if Placed(hash, t.nodes, replicas, k) then 1 else 0
      ensures k in t.owner <==> Placed(hash, t.nodes, replicas, k)
      ensures k in t.owner ==> t.owner[k] == Read(r.owner, k)
    {
      RemovedPlace(hash, r, node, replicas, k);
    }
    forall n, k | n in t.nodes && Hit(hash, n, replicas, k) ensures Read(t.owner, k) == n {
      assert Placed(hash, t.nodes, replicas, k);
    }
  }

  lemma RemovedPlace(hash: Hash, r: Ring, node: string, replicas: nat, k: int)
    requires Made(hash, r, replicas) && node in r.nodes && TellsApart(hash, r.nodes, replicas)
    ensures var t := Reduced(r, node);
            && Occurs(t.keys, k) == (if Placed(hash, t.nodes, replicas, k) then 1 else 0)
            && (k in t.owner <==> Placed(hash, t.nodes, replicas, k))
            && (k in t.owner ==> t.owner[k] == Read(r.owner, k))
  {
    var t := Reduced(r, node);
    FilterTakesOne(r.keys, r.owner, node, k);
    if Placed(hash, r.nodes, replicas, k) {
      var n :| n in r.nodes && Hit(hash, n, replicas, k);
      assert Read(r.owner, k) == n;
      if Placed(hash, t.nodes, replicas, k) {
        var m :| m in t.nodes && Hit(hash, m, replicas, k);
        HitByOne(hash, r.nodes, replicas, n, m, k);
      }
      assert n != node ==> n in t.nodes;
    } else {
      assert forall m :: m in t.nodes ==> m in r.nodes;
    }
  }

  /** Such a ring depends only on who its members are, not on how it came about. */
  lemma MadeIsDetermined(hash: Hash, r: Ring, t: Ring, replicas: nat)
    requires Made(hash, r, replicas) && Made(hash, t, replicas) && r.nodes == t.nodes
    ensures r == t
  {
    SortedIsUnique(r.keys, t.keys);
    forall k ensures (k in r.owner <==> k in t.owner) && Read(r.owner, k) == Read(t.owner, k) {
      if Placed(hash, r.nodes, replicas, k) {
        var n :| n in r.nodes && Hit(hash, n, replicas, k);
        assert Read(r.owner, k) == n && Read(t.owner, k) == n;
      }
    }
    SameOwners(r.owner, t.owner);
  }

  /** In a ring that tells its virtual nodes apart, adding a fresh node and removing it again restores
      everything, and its virtual nodes hit neither each other nor an existing key. */
  lemma FreshNodeComesAndGoes(hash: Hash, r: Ring, node: string, replicas: nat)
    requires Made(hash, r, replicas) && node != "" && node !in r.nodes && TellsApart(hash, r.nodes + {node}, replicas)
    ensures Reduced(Extended(hash, r, [node], replicas), node) == r
    ensures Apart(hash, r, node, replicas)
  {
    AddKeepsMade(hash, r, node, replicas);
    RemoveKeepsMade(hash, Extended(hash, r, [node], replicas), node, replicas);
    MadeIsDetermined(hash, Reduced(Extended(hash, r, [node], replicas), node), r, replicas);
    MadeIsWhole(hash, r, replicas);
    AddThenRemoveRestoresIff(hash, r, node, replicas);
  }

  lemma MadeIsWhole(hash: Hash, r: Ring, replicas: nat)
    requires Made(hash, r, replicas)
    ensures Whole(r)
  {
    forall k ensures k in r.owner <==> k in KeySet(r.keys) {
      OccursIn(r.keys, k);
    }
    forall k | k in r.owner ensures r.owner[k] in r.nodes {
      var n :| n in r.nodes && Hit(hash, n, replicas, k);
      assert Read(r.owner, k) == n;
    }
  }

  /** It has as many keys as members times replicas. */
  lemma {:induction false} MadeHasAllKeys(hash: Hash, r: Ring, replicas: nat)
    requires Made(hash, r, replicas) && TellsApart(hash, r.nodes, replicas)
    ensures |r.keys| == Total(replicas, |r.nodes|)
    decreases |r.nodes|
  {
    if r.nodes == {} {
      if r.keys != [] {
        OccursIn(r.keys, r.keys[0]);
        assert false;
      }
    } else {
      var node :| node in r.nodes;
      RemoveKeepsMade(hash, r, node, replicas);
      MadeHasAllKeys(hash, Reduced(r, node), replicas);
      ComesBack(hash, r, node, replicas);
      AddedLength(hash, Reduced(r, node), node, replicas);
    }
  }

  /** A member that is removed and added again finds the ring as it was. */
  lemma ComesBack(hash: Hash, r: Ring, node: string, replicas: nat)
    requires Made(hash, r, replicas) && node in r.nodes && TellsApart(hash, r.nodes, replicas)
    ensures Extended(hash, Reduced(r, node), [node], replicas) == r
  {
    var t := Reduced(r, node);
    RemoveKeepsMade(hash, r, node, replicas);
    assert t.nodes + {node} == r.nodes;
    AddKeepsMade(hash, t, node, replicas);
    MadeIsDetermined(hash, r, Extended(hash, t, [node], replicas), replicas);
  }

  function Total(replicas: nat, members: nat): nat {
    if members == 0 then 0 else Total(replicas, members - 1) + replicas
  }

  lemma AddedLength(hash: Hash, r: Ring, node: string, replicas: nat)
    requires node != "" && node !in r.nodes
    ensures |Extended(hash, r, [node], replicas).keys| == |r.keys| + replicas
  {
    assert [node][..0] == [];
    assert AddAll(hash, r, [], replicas) == r;
    PlaceLength(hash, r.(nodes := r.nodes + {node}), node, replicas);
    SortKeysLength(Place(hash, r.(nodes := r.nodes + {node}), node, replicas).keys);
  }

  lemma {:induction false} PlaceLength(hash: Hash, r: Ring, node: string, n: nat)
    ensures |Place(hash, r, node, n).keys| == |r.keys| + n
  {
    if n > 0 {
      PlaceLength(hash, r, node, n - 1);
    }
  }

  lemma {:induction false} InsertedLength(keys: seq<int>, k: int)
    ensures |Inserted(keys, k)| == |keys| + 1
  {
    if keys != [] && keys[|keys| - 1] > k {
      InsertedLength(keys[..|keys| - 1], k);
    }
  }

  lemma {:induction false} SortKeysLength(keys: seq<int>)
    ensures |SortKeys(keys)| == |keys|
  {
    if keys != [] {
      SortKeysLength(keys[..|keys| - 1]);
      InsertedLength(SortKeys(keys[..|keys| - 1]), keys[|keys| - 1]);
    }
  }

  /* ---------- one ring per shard count ---------- */

  function ServiceName(i: int): string { "game-shard-" + Itoa(i) }

  function Shards(hash: Hash, count: nat, replicas: nat): Ring {
    if count == 0 then EmptyRing
    else Extended(hash, Shards(hash, count - 1, replicas), [ServiceName(count - 1)], replicas)
  }

  function ShardNames(count: nat): set<string> { set i | 0 <= i < count :: ServiceName(i) }

  lemma ServiceNameInjective(i: int, j: int)
    requires ServiceName(i) == ServiceName(j)
    ensures i == j
  {
    assert Itoa(i) == ServiceName(i)[|"game-shard-"|..] && Itoa(j) == ServiceName(j)[|"game-shard-"|..];
    PrintInjective(i, j);
  }

  /** If the hash tells their virtual nodes apart, the ring of a shard count holds exactly those. */
  lemma {:induction false} ShardsAreMade(hash: Hash, count: nat, replicas: nat)
    requires TellsApart(hash, ShardNames(count), replicas)
    ensures Made(hash, Shards(hash, count, replicas), replicas) && Shards(hash, count, replicas).nodes == ShardNames(count)
  {
    if count > 0 {
      var name := ServiceName(count - 1);
      assert ShardNames(count) == ShardNames(count - 1) + {name};
      assert name !in ShardNames(count - 1) by {
        if i :| 0 <= i < count - 1 && ServiceName(i) == name {
          ServiceNameInjective(i, count - 1);
        }
      }
      ShardsAreMade(hash, count - 1, replicas);
      AddKeepsMade(hash, Shards(hash, count - 1, replicas), name, replicas);
    }
  }

  predicate NamesShard(name: string, lo: nat, hi: nat) {
    exists i :: lo <= i < hi && name == ServiceName(i)
  }

  lemma {:induction false} ShardsAreWhole(hash: Hash, count: nat, replicas: nat)
    ensures Whole(Shards(hash, count, replicas))
    ensures forall n :: n in Shards(hash, count, replicas).nodes ==> NamesShard(n, 0, count)
    ensures count > 0 && replicas > 0 ==> Shards(hash, count, replicas).keys != []
  {
    if count > 0 {
      var r, name := Shards(hash, count - 1, replicas), ServiceName(count - 1);
      ShardsAreWhole(hash, count - 1, replicas);
      AddKeepsWhole(hash, r, [name], replicas);
      AddExtends(hash, r, [name], replicas);
      assert NamesShard(name, 0, count);
      var t := Extended(hash, r, [name], replicas);
      forall n | n in t.nodes ensures NamesShard(n, 0, count) {
        if n in r.nodes {
          var i :| 0 <= i < count - 1 && n == ServiceName(i);
        }
      }
      if replicas > 0 && count == 1 {
        AddedKey(hash, r, name, replicas, VirtualHash(hash, name, 0));
        HitsAreHits(hash, name, replicas, VirtualHash(hash, name, 0));
      } else if replicas > 0 {
        assert r.keys[0] in KeySet(r.keys);
        assert r.keys[0] in KeySet(t.keys);
      }
    }
  }

  /** Every role has one of the shards. */
  lemma ShardsAnswer(hash: Hash, count: nat, replicas: nat, h: int)
    requires count > 0 && replicas > 0
    ensures NamesShard(Lookup(Shards(hash, count, replicas), h), 0, count)
  {
    ShardsAreWhole(hash, count, replicas);
    WholeRingAnswers(Shards(hash, count, replicas), h);
  }

  lemma NamesMore(name: string, lo: nat, hi: nat)
    requires NamesShard(name, lo, hi)
    ensures NamesShard(name, lo, hi + 1)
  {
    var i :| lo <= i < hi && name == ServiceName(i);
  }

  /** Where a hash goes with so many shards. */
  function ShardOf(hash: Hash, count: nat, replicas: nat, h: int): string { Lookup(Shards(hash, count, replicas), h) }

  /** Growing from one shard count to a larger one moves a role only onto a shard that is new. */
  lemma {:induction false} RescaleMovesOnlyToNewShards(hash: Hash, lo: nat, hi: nat, replicas: nat, h: int)
    requires lo <= hi
    ensures ShardOf(hash, hi, replicas, h) == ShardOf(hash, lo, replicas, h) || NamesShard(ShardOf(hash, hi, replicas, h), lo, hi)
    decreases hi - lo
  {
    if lo < hi {
      RescaleMovesOnlyToNewShards(hash, lo, hi - 1, replicas, h);
      OneMoreShard(hash, hi - 1, replicas, h);
      if NamesShard(ShardOf(hash, hi - 1, replicas, h), lo, hi - 1) {
        NamesMore(ShardOf(hash, hi - 1, replicas, h), lo, hi - 1);
      }
    }
  }

  lemma OneMoreShard(hash: Hash, count: nat, replicas: nat, h: int)
    ensures ShardOf(hash, count + 1, replicas, h) == ShardOf(hash, count, replicas, h)
            || ShardOf(hash, count + 1, replicas, h) == ServiceName(count)
  {
    ShardsAreWhole(hash, count, replicas);
    AddOnlyMovesToNewNodes(hash, Shards(hash, count, replicas), [ServiceName(count)], replicas, h);
  }

  /* ---------- the ring as it is stored ---------- */

  const DEFAULT_REPLICAS := 150

  class HashRing {
    const hash: Hash
    const replicas: nat
    var keys: seq<int>
    var owner: map<int, string>
    var nodes: set<string>

    ghost predicate Valid() reads this { Sorted(keys) && replicas > 0 && "" !in nodes }

    ghost function Value(): Ring reads this { Ring(keys, owner, nodes) }

    constructor (hash: Hash, replicas: int)
      ensures Valid() && Value() == EmptyRing
      ensures this.hash == hash && this.replicas == if replicas <= 0 then 150 else replicas
    {
      this.hash := hash;
      this.replicas := if replicas <= 0 then DEFAULT_REPLICAS else replicas;
      keys, owner, nodes := [], map[], {};
    }

    method PlaceNode(node: string)
      requires node != "" && node !in nodes
      modifies this
      ensures Value() == AddOne(hash, old(Value()), node, replicas)
    {
      nodes := nodes + {node};
      ghost var start := Value();
      var i := 0;
      while i < replicas
        invariant i <= replicas
        invariant Value() == Place(hash, start, node, i)
      {
        var h := VirtualHash(hash, node, i);
        keys := keys + [h];
        owner := owner[h := node];
        i := i + 1;
      }
    }

    method Add(names: seq<string>)
      requires Valid()
      modifies this
      ensures Valid() && Value() == Extended(hash, old(Value()), names, replicas)
    {
      var j := 0;
      while j < |names|
        invariant j <= |names| && "" !in nodes
        invariant Value() == AddAll(hash, old(Value()), names[..j], replicas)
      {
        assert names[..j + 1][..j] == names[..j];
        if names[j] != "" && names[j] !in nodes {
          PlaceNode(names[j]);
          PlaceExtends(hash, AddAll(hash, old(Value()), names[..j], replicas), names[j], replicas);
        }
        j := j + 1;
      }
      assert names[..j] == names;
      SortKeysSorts(keys);
      keys := SortKeys(keys);
    }

    /** The kept keys are written over the front of the same buffer while the rest is still being read. */
    method Remove(node: string)
      requires Valid()
      modifies this
      ensures Valid() && Value() == Reduced(old(Value()), node)
    {
      if node !in nodes { return; }
      nodes := nodes - {node};
      ghost var was, owned := keys, owner;
      var kept, i := 0, 0;
      while i < |keys|
        invariant kept <= i <= |keys| == |was|
        invariant nodes == old(nodes) - {node}
        invariant forall q :: i <= q < |keys| ==> keys[q] == was[q]
        invariant (keys[..kept], owner) == Filter(was[..i], owned, node)
      {
        var h := keys[i];
        assert was[..i + 1][..i] == was[..i];
        if Read(owner, h) == node {
          owner := owner - {h};
        } else {
          assert keys[kept := h][..kept + 1] == keys[..kept] + [h];
          keys := keys[kept := h];
          kept := kept + 1;
        }
        i := i + 1;
      }
      assert was[..i] == was;
      FilterKeepsOrder(was, owned, node);
      keys := keys[..kept];
    }

    /** Binary search for the first key not below the role's hash, wrapping round at the end. */
    method Get(role: int) returns (node: string)
      requires Valid()
      ensures node == Lookup(Value(), hash(Itoa(role)))
    {
      if |keys| == 0 { return ""; }
      var h := hash(Itoa(role));
      var lo, hi := 0, |keys|;
      while lo < hi
        invariant 0 <= lo <= hi <= |keys|
        invariant forall i :: 0 <= i < lo ==> keys[i] < h
        invariant forall i :: hi <= i < |keys| ==> keys[i] >= h
      {
        var mid := (lo + hi) / 2;
        if keys[mid] >= h { hi := mid; } else { lo := mid + 1; }
      }
      ScanIs(keys, h, lo);
      return Read(owner, keys[if lo == |keys| then 0 else lo]);
    }
  }

  /** The ring a tool builds for a shard count. */
  method RingForShards(hash: Hash, count: int, replicas: int) returns (r: HashRing)
    ensures fresh(r) && r.Valid()
    ensures r.hash == hash
    ensures r.Value() == Shards(hash, if count < 0 then 0 else count, r.replicas)
  {
    r := new HashRing(hash, replicas);
    var i := 0;
    while i < count
      invariant 0 <= i && (i <= count || i == 0)
      invariant fresh(r) && r.Valid() && r.hash == hash && r.Value() == Shards(hash, i, r.replicas)
    {
      r.Add([ServiceName(i)]);
      i := i + 1;
    }
  }
}
