/** The intrusive doubly linked list of lib/cppcms/private/hash_map.h.  Nodes live in a
    store shared by all lists and are named by their address. */
module IntrusiveLists {
  import opened Sequences

  datatype Node<K, V> = Node(key: K, val: V, next: int, prev: int)

  type Store<K, V> = map<int, Node<K, V>>

  class Memory<K, V> {
    var store: Store<K, V>

    constructor ()
      ensures store == map[]
    {
      store := map[];
    }
  }

  /** `l` is linked both ways through the store, ending in null on both sides. */
  ghost predicate Chain<K, V>(s: Store<K, V>, l: seq<int>) {
    forall i :: 0 <= i < |l| ==> LinkOk(s, l, i)
  }

  predicate LinkOk<K, V>(s: Store<K, V>, l: seq<int>, i: nat)
    requires i < |l|
  {
    l[i] in s && s[l[i]].next == At(l, i + 1) && s[l[i]].prev == At(l, i - 1)
  }

  ghost predicate Linked<K, V>(s: Store<K, V>, l: seq<int>) {
    Chain(s, l) && Distinct(l) && NULL !in l
  }

  /** The change from `s` to `s'` concerns only links, and only those of `touched` nodes. */
  ghost predicate Relinked<K, V>(s: Store<K, V>, s': Store<K, V>, touched: seq<int>) {
    && s.Keys == s'.Keys
    && (forall p :: p in s ==> SameData(s, s', p))
    && (forall p :: p !in touched ==> Kept(s, s', p))
  }

  ghost predicate Kept<K, V>(s: Store<K, V>, s': Store<K, V>, p: int) {
    p in s ==> p in s' && s'[p] == s[p]
  }

  ghost predicate SameData<K, V>(s: Store<K, V>, s': Store<K, V>, p: int) {
    p in s && p in s' && s'[p].key == s[p].key && s'[p].val == s[p].val
  }

  function SetNext<K, V>(s: Store<K, V>, p: int, q: int): Store<K, V>
    requires p in s
  {
    s[p := s[p].(next := q)]
  }

  function SetPrev<K, V>(s: Store<K, V>, p: int, q: int): Store<K, V>
    requires p in s
  {
    s[p := s[p].(prev := q)]
  }

  /** The store after linking `p` between `before` and `after`, either of which may be null. */
  function Between<K, V>(s: Store<K, V>, p: int, before: int, after: int): Store<K, V>
    requires p in s && (before != NULL ==> before in s) && (after != NULL ==> after in s)
  {
    var s1 := s[p := s[p].(next := after, prev := before)];
    var s2 := if after != NULL then SetPrev(s1, after, p) else s1;
    if before != NULL then SetNext(s2, before, p) else s2
  }

  /** The store after taking out `p`, whose own links become null. */
  function Without<K, V>(s: Store<K, V>, p: int): Store<K, V>
    requires p in s && (s[p].prev != NULL ==> s[p].prev in s) && (s[p].next != NULL ==> s[p].next in s)
  {
    var n, b := s[p].next, s[p].prev;
    var s1 := if b != NULL then SetNext(s, b, n) else s;
    var s2 := if n != NULL then SetPrev(s1, n, b) else s1;
    SetPrev(SetNext(s2, p, NULL), p, NULL)
  }

  lemma Neighbours<K, V>(s: Store<K, V>, l: seq<int>, i: int)
    requires Chain(s, l)
    ensures At(l, i) != NULL ==> At(l, i) in s && At(l, i) in l
  {
    if 0 <= i < |l| {
      assert LinkOk(s, l, i);
    }
  }

  lemma BetweenChain<K, V>(s: Store<K, V>, l: seq<int>, i: nat, p: int)
    requires Linked(s, l) && i <= |l| && p in s && p !in l && p != NULL
    ensures At(l, i) != NULL ==> At(l, i) in s
    ensures At(l, i - 1) != NULL ==> At(l, i - 1) in s
    ensures var s' := Between(s, p, At(l, i - 1), At(l, i));
            Linked(s', InsertAt(l, i, p)) && Relinked(s, s', l + [p])
  {
    Neighbours(s, l, i);
    Neighbours(s, l, i - 1);
    var l' := InsertAt(l, i, p);
    var s' := Between(s, p, At(l, i - 1), At(l, i));
    InsertAtElements(l, i, p);
    forall j | 0 <= j < |l'|
      ensures LinkOk(s', l', j)
    {
      AtInserted(l, i, p, j);
      if j != i {
        BetweenNode(s, l, i, p, if j < i then j else j - 1);
      }
    }
  }

  lemma BetweenNode<K, V>(s: Store<K, V>, l: seq<int>, i: nat, p: int, k: nat)
    requires Linked(s, l) && i <= |l| && k < |l| && p in s && p !in l && p != NULL
    requires (At(l, i) != NULL ==> At(l, i) in s) && (At(l, i - 1) != NULL ==> At(l, i - 1) in s)
    ensures var s' := Between(s, p, At(l, i - 1), At(l, i));
            && l[k] in s'
            && s'[l[k]].next == (if k + 1 == i then p else At(l, k + 1))
            && s'[l[k]].prev == (if k == i then p else At(l, k - 1))
  {
    assert LinkOk(s, l, k);
  }

  lemma WithoutChain<K, V>(s: Store<K, V>, l: seq<int>, i: nat)
    requires Linked(s, l) && i < |l|
    ensures var p := l[i];
            && p in s && s[p].next == At(l, i + 1) && s[p].prev == At(l, i - 1)
            && (s[p].prev != NULL ==> s[p].prev in s) && (s[p].next != NULL ==> s[p].next in s)
            && var s' := Without(s, p);
               && Linked(s', RemoveAt(l, i)) && Relinked(s, s', l)
               && s'[p].next == NULL && s'[p].prev == NULL
  {
    var p := l[i];
    assert LinkOk(s, l, i);
    Neighbours(s, l, i + 1);
    Neighbours(s, l, i - 1);
    var l' := RemoveAt(l, i);
    var s' := Without(s, p);
    RemoveAtElements(l, i);
    forall j | 0 <= j < |l'|
      ensures LinkOk(s', l', j)
    {
      AtRemoved(l, i, j);
      WithoutNode(s, l, i, if j < i then j else j + 1);
    }
  }

  lemma WithoutNode<K, V>(s: Store<K, V>, l: seq<int>, i: nat, k: nat)
    requires Linked(s, l) && i < |l| && k < |l| && k != i
    requires var p := l[i];
             p in s && (s[p].prev != NULL ==> s[p].prev in s) && (s[p].next != NULL ==> s[p].next in s)
    ensures var s' := Without(s, l[i]);
            && l[k] in s'
            && s'[l[k]].next == (if k + 1 == i then At(l, i + 1) else At(l, k + 1))
            && s'[l[k]].prev == (if k == i + 1 then At(l, i - 1) else At(l, k - 1))
  {
    assert LinkOk(s, l, k) && LinkOk(s, l, i);
  }

  /** A list none of whose nodes was touched is still linked. */
  lemma ChainFrame<K, V>(s: Store<K, V>, s': Store<K, V>, l: seq<int>)
    requires Linked(s, l)
    requires forall i :: 0 <= i < |l| ==> l[i] in s' && (l[i] in s ==> s'[l[i]] == s[l[i]])
    ensures Linked(s', l)
  {
    forall i | 0 <= i < |l|
      ensures LinkOk(s', l, i)
    {
      assert LinkOk(s, l, i);
    }
  }

  lemma NodeLinks<K, V>(s: Store<K, V>, l: seq<int>, i: nat)
    requires Linked(s, l) && i < |l|
    ensures l[i] in s && s[l[i]].next == At(l, i + 1) && s[l[i]].prev == At(l, i - 1)
    ensures At(l, i + 1) == NULL <==> i + 1 == |l|
  {
    assert LinkOk(s, l, i);
    if i + 1 < |l| {
      assert l[i + 1] in l;
    }
  }

  /** Inserting strictly inside a list keeps its two ends. */
  lemma InsertedInside<K, V>(s: Store<K, V>, l: seq<int>, i: nat, p: int)
    requires Linked(s, l) && 0 < i < |l| && p in s && p !in l && p != NULL
    ensures l[i] in s && l[i - 1] in s && l[i] != NULL && l[i - 1] != NULL
    ensures var s' := Between(s, p, l[i - 1], l[i]);
            Linked(s', InsertAt(l, i, p)) && Relinked(s, s', l + [p])
    ensures var l' := InsertAt(l, i, p);
            At(l', 0) == At(l, 0) && At(l', |l'| - 1) == At(l, |l| - 1)
  {
    NodeLinks(s, l, i);
    NodeLinks(s, l, i - 1);
    BetweenChain(s, l, i, p);
  }

  /** What `erase` needs to know about the list before and after. */
  lemma ErasedEnds<K, V>(s: Store<K, V>, l: seq<int>, i: nat)
    requires Linked(s, l) && i < |l|
    ensures var p := l[i];
            && p in s && (s[p].prev != NULL ==> s[p].prev in s) && (s[p].next != NULL ==> s[p].next in s)
            && s[p].prev != p && s[p].next != p
            && Linked(Without(s, p), RemoveAt(l, i)) && Relinked(s, Without(s, p), l)
            && At(RemoveAt(l, i), 0) == (if At(l, 0) == p then s[p].next else At(l, 0))
            && At(RemoveAt(l, i), |l| - 2) == (if At(l, |l| - 1) == p then s[p].prev else At(l, |l| - 1))
  {
    WithoutChain(s, l, i);
    NodeLinks(s, l, i);
  }

  class IntrusiveList<K, V> {
    const memory: Memory<K, V>
    var begin: int
    var end: int
    ghost var nodes: seq<int>

    ghost predicate Valid()
      reads this, memory
    {
      Linked(memory.store, nodes) && begin == At(nodes, 0) && end == At(nodes, |nodes| - 1)
    }

    constructor (memory: Memory<K, V>)
      ensures Valid() && nodes == [] && this.memory == memory
    {
      this.memory := memory;
      begin, end, nodes := NULL, NULL, [];
    }

    method PushBack(p: int)
      requires Valid() && p in memory.store && p !in nodes && p != NULL
      modifies this, memory
      ensures Valid() && nodes == old(nodes) + [p]
      ensures Relinked(old(memory.store), memory.store, old(nodes) + [p])
    {
      BetweenChain(memory.store, nodes, |nodes|, p);
      memory.store := SetNext(memory.store, p, NULL);
      memory.store := SetPrev(memory.store, p, end);
      assert memory.store == old(memory.store)[p := old(memory.store)[p].(next := NULL, prev := end)];
      if end != NULL {
        memory.store := SetNext(memory.store, end, p);
      }
      end := p;
      if begin == NULL {
        begin := p;
      }
      AppendIsInsert(nodes, |nodes|, p);
      nodes := nodes + [p];
    }

    method Erase(p: int, ghost i: nat)
      requires Valid() && i < |nodes| && nodes[i] == p
      modifies this, memory
      ensures Valid() && nodes == RemoveAt(old(nodes), i)
      ensures Relinked(old(memory.store), memory.store, old(nodes))
    {
      ErasedEnds(memory.store, nodes, i);
      var next, prev := memory.store[p].next, memory.store[p].prev;
      Unlink(p);
      if begin == p {
        begin := next;
      }
      if end == p {
        end := prev;
      }
      nodes := RemoveAt(nodes, i);
    }

    /** The pointer assignments of `erase`. */
    method Unlink(p: int)
      requires p in memory.store
      requires memory.store[p].prev != NULL ==> memory.store[p].prev in memory.store
      requires memory.store[p].next != NULL ==> memory.store[p].next in memory.store
      requires memory.store[p].prev != p && memory.store[p].next != p
      modifies memory
      ensures memory.store == Without(old(memory.store), p)
    {
      if memory.store[p].prev != NULL {
        memory.store := SetNext(memory.store, memory.store[p].prev, memory.store[p].next);
      }
      if memory.store[p].next != NULL {
        memory.store := SetPrev(memory.store, memory.store[p].next, memory.store[p].prev);
      }
      memory.store := SetNext(memory.store, p, NULL);
      memory.store := SetPrev(memory.store, p, NULL);
    }

    method InsertAfter(p: int, afterMe: int, ghost i: nat)
      requires Valid() && p in memory.store && p !in nodes && p != NULL
      requires i < |nodes| && nodes[i] == afterMe
      modifies this, memory
      ensures Valid() && nodes == InsertAt(old(nodes), i + 1, p)
      ensures Relinked(old(memory.store), memory.store, old(nodes) + [p])
    {
      NodeLinks(memory.store, nodes, i);
      if memory.store[afterMe].next == NULL {
        AppendIsInsert(nodes, i + 1, p);
        PushBack(p);
        return;
      }
      InsertedInside(memory.store, nodes, i + 1, p);
      LinkBetween(p, afterMe, memory.store[afterMe].next);
      nodes := InsertAt(nodes, i + 1, p);
    }

    /** The four pointer assignments of `insert_after`. */
    method LinkBetween(p: int, afterMe: int, next: int)
      requires p in memory.store && afterMe in memory.store && next in memory.store
      requires afterMe != NULL && next != NULL && p != afterMe && p != next
      requires memory.store[afterMe].next == next
      modifies memory
      ensures memory.store == Between(old(memory.store), p, afterMe, next)
    {
      memory.store := SetPrev(memory.store, p, afterMe);
      memory.store := SetNext(memory.store, p, memory.store[afterMe].next);
      assert memory.store == old(memory.store)[p := old(memory.store)[p].(next := next, prev := afterMe)];
      if memory.store[afterMe].next != NULL {
        memory.store := SetPrev(memory.store, memory.store[afterMe].next, p);
      }
      memory.store := SetNext(memory.store, afterMe, p);
    }
  }
}
