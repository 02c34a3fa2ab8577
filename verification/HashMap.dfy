/** The map of lib/cppcms/private/hash_map.h: all entries sit on one intrusive list, and each
    bucket is a pair of pointers to the ends of a contiguous segment of that list. */
module HashMap {
  import opened Sequences
  import opened IntrusiveLists

  datatype Range = Range(first: int, second: int)

  const EMPTY: Range := Range(NULL, NULL)

  /** The entries of bucket `c` are those at positions lo..hi, and `r` points at their ends. */
  ghost predicate RangeOk<K(!new)>(nodes: seq<int>, keys: seq<K>, hashOf: K -> nat, n: nat, c: nat, r: Range, lo: int,
                                   hi: int)
    requires |nodes| == |keys| && n > 0
  {
    && 0 <= lo <= hi <= |keys|
    && (forall i :: 0 <= i < |keys| ==> (hashOf(keys[i]) % n == c <==> lo <= i < hi))
    && r == (if lo == hi then EMPTY else Range(nodes[lo], nodes[hi - 1]))
  }

  ghost predicate RangesOk<K(!new)>(nodes: seq<int>, keys: seq<K>, hashOf: K -> nat, hash: seq<Range>, lo: seq<int>,
                                    hi: seq<int>)
    requires |nodes| == |keys|
  {
    && |lo| == |hi| == |hash|
    && forall c :: 0 <= c < |hash| ==> RangeOk(nodes, keys, hashOf, |hash|, c, hash[c], lo[c], hi[c])
  }

  /** Where a new entry of bucket `b` goes: after the segment, or at the end of the list. */
  function Place(size: nat, lo: int, hi: int): int {
    if lo == hi then size else hi
  }

  function ShiftedUp(pos: int, l: int, h: int): (int, int) {
    if l == h then (0, 0) else (if l >= pos then l + 1 else l, if h > pos then h + 1 else h)
  }

  lemma RangeKept<K(!new)>(nodes: seq<int>, keys: seq<K>, hashOf: K -> nat, n: nat, c: nat, r: Range, lo: int, hi: int,
                           b: nat, pos: nat, p: int, k: K)
    requires |nodes| == |keys| && n > 0 && RangeOk(nodes, keys, hashOf, n, c, r, lo, hi)
    requires c != b && hashOf(k) % n == b && pos <= |nodes|
    requires pos == |nodes| || (pos > 0 && hashOf(keys[pos - 1]) % n == b)
    ensures var s := ShiftedUp(pos, lo, hi);
            RangeOk(InsertAt(nodes, pos, p), InsertAt(keys, pos, k), hashOf, n, c, r, s.0, s.1)
  {
  }

  lemma RangeGrown<K(!new)>(nodes: seq<int>, keys: seq<K>, hashOf: K -> nat, n: nat, b: nat, r: Range, lo: int,
                            hi: int, p: int, k: K)
    requires |nodes| == |keys| && n > 0 && RangeOk(nodes, keys, hashOf, n, b, r, lo, hi)
    requires hashOf(k) % n == b
    ensures var pos := Place(|nodes|, lo, hi);
            RangeOk(InsertAt(nodes, pos, p), InsertAt(keys, pos, k), hashOf, n, b,
                    Range(if lo == hi then p else r.first, p), if lo == hi then pos else lo, pos + 1)
  {
  }

  /** Linking a new entry after its bucket's segment keeps every bucket contiguous. */
  lemma RangesInsert<K(!new)>(nodes: seq<int>, keys: seq<K>, hashOf: K -> nat, hash: seq<Range>, lo: seq<int>,
                              hi: seq<int>, p: int, k: K) returns (lo': seq<int>, hi': seq<int>)
    requires |nodes| == |keys| && |hash| > 0 && RangesOk(nodes, keys, hashOf, hash, lo, hi)
    ensures var b := hashOf(k) % |hash|;
            var pos := Place(|nodes|, lo[b], hi[b]);
            && 0 <= pos <= |nodes|
            && RangesOk(InsertAt(nodes, pos, p), InsertAt(keys, pos, k), hashOf,
                        hash[b := Range(if lo[b] == hi[b] then p else hash[b].first, p)], lo', hi')
  {
    var n := |hash|;
    var b := hashOf(k) % n;
    assert RangeOk(nodes, keys, hashOf, n, b, hash[b], lo[b], hi[b]);
    var pos := Place(|nodes|, lo[b], hi[b]);
    var hash' := hash[b := Range(if lo[b] == hi[b] then p else hash[b].first, p)];
    lo' := seq(n, c requires 0 <= c < n =>
                 if c != b then ShiftedUp(pos, lo[c], hi[c]).0 else if lo[b] == hi[b] then pos else lo[b]);
    hi' := seq(n, c requires 0 <= c < n => if c != b then ShiftedUp(pos, lo[c], hi[c]).1 else pos + 1);
    forall c | 0 <= c < n
      ensures RangeOk(InsertAt(nodes, pos, p), InsertAt(keys, pos, k), hashOf, n, c, hash'[c], lo'[c], hi'[c])
    {
      if c == b {
        RangeGrown(nodes, keys, hashOf, n, b, hash[b], lo[b], hi[b], p, k);
      } else {
        RangeKept(nodes, keys, hashOf, n, c, hash[c], lo[c], hi[c], b, pos, p, k);
      }
    }
  }

  /** The range of the bucket of an erased entry, as `erase` computes it. */
  function Shrunk(nodes: seq<int>, r: Range, i: nat): Range
    requires i < |nodes|
  {
    var p := nodes[i];
    if r.first == r.second then EMPTY
    else if r.first == p then Range(At(nodes, i + 1), r.second)
    else if r.second == p then Range(r.first, At(nodes, i - 1))
    else r
  }

  lemma RangeErased<K(!new)>(nodes: seq<int>, keys: seq<K>, hashOf: K -> nat, n: nat, c: nat, r: Range, lo: int,
                             hi: int, i: nat)
    requires |nodes| == |keys| && n > 0 && RangeOk(nodes, keys, hashOf, n, c, r, lo, hi)
    requires Distinct(nodes) && i < |nodes|
    ensures var r' := if hashOf(keys[i]) % n == c then Shrunk(nodes, r, i) else r;
            RangeOk(RemoveAt(nodes, i), RemoveAt(keys, i), hashOf, n, c, r',
                    if lo > i then lo - 1 else lo, if hi > i then hi - 1 else hi)
  {
  }

  /** Erasing an entry keeps every bucket contiguous. */
  lemma RangesErase<K(!new)>(nodes: seq<int>, keys: seq<K>, hashOf: K -> nat, hash: seq<Range>, lo: seq<int>,
                             hi: seq<int>, i: nat)
    returns (lo': seq<int>, hi': seq<int>)
    requires |nodes| == |keys| && |hash| > 0 && RangesOk(nodes, keys, hashOf, hash, lo, hi)
    requires Distinct(nodes) && i < |nodes|
    ensures var b := hashOf(keys[i]) % |hash|;
            RangesOk(RemoveAt(nodes, i), RemoveAt(keys, i), hashOf, hash[b := Shrunk(nodes, hash[b], i)], lo', hi')
  {
    var n := |hash|;
    var b := hashOf(keys[i]) % n;
    lo' := seq(n, c requires 0 <= c < n => if lo[c] > i then lo[c] - 1 else lo[c]);
    hi' := seq(n, c requires 0 <= c < n => if hi[c] > i then hi[c] - 1 else hi[c]);
    var hash' := hash[b := Shrunk(nodes, hash[b], i)];
    forall c | 0 <= c < n
      ensures RangeOk(RemoveAt(nodes, i), RemoveAt(keys, i), hashOf, n, c, hash'[c], lo'[c], hi'[c])
    {
      RangeErased(nodes, keys, hashOf, n, c, hash[c], lo[c], hi[c], i);
    }
  }

  /** Node `i` of the list carries key `i` and the value the model gives that key. */
  ghost predicate EntryOk<K(!new), V>(store: Store<K, V>, nodes: seq<int>, keys: seq<K>, model: map<K, V>, i: nat)
    requires i < |nodes| == |keys|
  {
    && nodes[i] in store && store[nodes[i]].key == keys[i]
    && keys[i] in model && store[nodes[i]].val == model[keys[i]]
  }

  ghost predicate Represents<K(!new), V>(store: Store<K, V>, nodes: seq<int>, keys: seq<K>, model: map<K, V>) {
    && |nodes| == |keys| == |model| && Distinct(keys)
    && EntriesOk(store, nodes, keys, model)
    && (forall k :: k in model <==> k in keys)
  }

  ghost predicate EntriesOk<K(!new), V>(store: Store<K, V>, nodes: seq<int>, keys: seq<K>, model: map<K, V>)
    requires |nodes| == |keys|
  {
    forall i :: 0 <= i < |nodes| ==> EntryOk(store, nodes, keys, model, i)
  }

  /** The map's structure apart from the links: the listed nodes are the entries of the model
      and every bucket is a contiguous segment. */
  ghost predicate Table<K(!new), V>(s: Store<K, V>, nodes: seq<int>, keys: seq<K>, model: map<K, V>,
                                    hashOf: K -> nat, hash: seq<Range>, lo: seq<int>, hi: seq<int>) {
    && Represents(s, nodes, keys, model)
    && RangesOk(nodes, keys, hashOf, hash, lo, hi)
    && (hash == [] ==> keys == [])
  }

  lemma EntryMoved<K(!new), V>(s: Store<K, V>, s': Store<K, V>, nodes: seq<int>, keys: seq<K>, model: map<K, V>, i: nat,
                               nodes': seq<int>, keys': seq<K>, model': map<K, V>, j: nat)
    requires i < |nodes| == |keys| && j < |nodes'| == |keys'| && EntryOk(s, nodes, keys, model, i)
    requires SameData(s, s', nodes[i])
    requires nodes'[j] == nodes[i] && keys'[j] == keys[i] && keys[i] in model' && model'[keys[i]] == model[keys[i]]
    ensures EntryOk(s', nodes', keys', model', j)
  {
  }

  lemma EntriesInsert<K(!new), V>(s: Store<K, V>, s': Store<K, V>, nodes: seq<int>, keys: seq<K>, model: map<K, V>,
                                  pos: nat, p: int)
    requires |nodes| == |keys| && EntriesOk(s, nodes, keys, model) && Relinked(s, s', nodes + [p])
    requires pos <= |nodes| && p in s && s[p].key !in model
    ensures EntriesOk(s', InsertAt(nodes, pos, p), InsertAt(keys, pos, s[p].key), model[s[p].key := s[p].val])
  {
    var n', k' := InsertAt(nodes, pos, p), InsertAt(keys, pos, s[p].key);
    var m' := model[s[p].key := s[p].val];
    forall i | 0 <= i < |n'|
      ensures EntryOk(s', n', k', m', i)
    {
      if i == pos {
        assert n'[i] == p && k'[i] == s[p].key;
      } else {
        var j := if i < pos then i else i - 1;
        assert EntryOk(s, nodes, keys, model, j);
        EntryMoved(s, s', nodes, keys, model, j, n', k', m', i);
      }
    }
  }

  lemma RepresentsInsert<K(!new), V>(s: Store<K, V>, s': Store<K, V>, nodes: seq<int>, keys: seq<K>, model: map<K, V>,
                                     pos: nat, p: int)
    requires Represents(s, nodes, keys, model) && Relinked(s, s', nodes + [p])
    requires pos <= |nodes| && p in s && s[p].key !in keys
    ensures Represents(s', InsertAt(nodes, pos, p), InsertAt(keys, pos, s[p].key), model[s[p].key := s[p].val])
  {
    EntriesInsert(s, s', nodes, keys, model, pos, p);
    InsertAtElements(keys, pos, s[p].key);
    assert model[s[p].key := s[p].val].Keys == model.Keys + {s[p].key};
  }

  lemma EntriesErase<K(!new), V>(s: Store<K, V>, s': Store<K, V>, nodes: seq<int>, keys: seq<K>, model: map<K, V>,
                                 i: nat)
    requires |nodes| == |keys| && EntriesOk(s, nodes, keys, model) && Relinked(s, s', nodes)
    requires i < |nodes| && Distinct(keys)
    ensures EntriesOk(s', RemoveAt(nodes, i), RemoveAt(keys, i), model - {keys[i]})
  {
    var n', k' := RemoveAt(nodes, i), RemoveAt(keys, i);
    forall j | 0 <= j < |n'|
      ensures EntryOk(s', n', k', model - {keys[i]}, j)
    {
      var o := if j < i then j else j + 1;
      assert EntryOk(s, nodes, keys, model, o);
      EntryMoved(s, s', nodes, keys, model, o, n', k', model - {keys[i]}, j);
    }
  }

  lemma RepresentsErase<K(!new), V>(s: Store<K, V>, s': Store<K, V>, nodes: seq<int>, keys: seq<K>, model: map<K, V>,
                                    i: nat)
    requires Represents(s, nodes, keys, model) && Relinked(s, s', nodes) && i < |nodes|
    ensures Represents(s', RemoveAt(nodes, i), RemoveAt(keys, i), model - {keys[i]})
  {
    EntriesErase(s, s', nodes, keys, model, i);
    RemoveAtElements(keys, i);
    assert keys[i] in model;
    assert (model - {keys[i]}).Keys == model.Keys - {keys[i]};
  }

  /** Dropping store cells that are not nodes does not change what a list represents. */
  lemma RepresentsFrame<K(!new), V>(s: Store<K, V>, s': Store<K, V>, nodes: seq<int>, keys: seq<K>, model: map<K, V>)
    requires Represents(s, nodes, keys, model)
    requires forall i :: 0 <= i < |nodes| ==> SameData(s, s', nodes[i])
    ensures Represents(s', nodes, keys, model)
  {
    forall i | 0 <= i < |nodes|
      ensures EntryOk(s', nodes, keys, model, i)
    {
      assert EntryOk(s, nodes, keys, model, i);
    }
  }

  /** The bucket that a new node with key `k` joins, and where on the list. */
  lemma LinkPlace<K(!new), V>(s: Store<K, V>, nodes: seq<int>, keys: seq<K>, model: map<K, V>, hashOf: K -> nat,
                              hash: seq<Range>, lo: seq<int>, hi: seq<int>, k: K) returns (pos: nat)
    requires Linked(s, nodes) && Table(s, nodes, keys, model, hashOf, hash, lo, hi) && |hash| > 0
    ensures var b := hashOf(k) % |hash|;
            && pos == Place(|nodes|, lo[b], hi[b]) <= |nodes|
            && (hash[b].second == NULL ==> lo[b] == hi[b] && pos == |nodes|)
            && (hash[b].second != NULL ==> lo[b] != hi[b] && 0 < pos && nodes[pos - 1] == hash[b].second)
  {
    var b := hashOf(k) % |hash|;
    assert RangeOk(nodes, keys, hashOf, |hash|, b, hash[b], lo[b], hi[b]);
    pos := Place(|nodes|, lo[b], hi[b]);
  }

  lemma KeysAre<K(!new), V>(s: Store<K, V>, nodes: seq<int>, keys: seq<K>, model: map<K, V>, hashOf: K -> nat,
                            hash: seq<Range>, lo: seq<int>, hi: seq<int>)
    requires Linked(s, nodes) && Table(s, nodes, keys, model, hashOf, hash, lo, hi)
    ensures |keys| == |nodes| && |lo| == |hi| == |hash| && Distinct(nodes)
  {
  }

  lemma LinkTable<K(!new), V>(s: Store<K, V>, s': Store<K, V>, nodes: seq<int>, keys: seq<K>, model: map<K, V>,
                              hashOf: K -> nat, hash: seq<Range>, lo: seq<int>, hi: seq<int>, p: int, pos: nat)
    returns (lo': seq<int>, hi': seq<int>)
    requires Table(s, nodes, keys, model, hashOf, hash, lo, hi) && |hash| > 0
    requires p in s && s[p].key !in model && Relinked(s, s', nodes + [p])
    requires pos == Place(|nodes|, lo[hashOf(s[p].key) % |hash|], hi[hashOf(s[p].key) % |hash|])
    ensures var b := hashOf(s[p].key) % |hash|;
            pos <= |nodes| &&
            Table(s', InsertAt(nodes, pos, p), InsertAt(keys, pos, s[p].key), model[s[p].key := s[p].val], hashOf,
                  hash[b := Range(if lo[b] == hi[b] then p else hash[b].first, p)], lo', hi')
  {
    lo', hi' := RangesInsert(nodes, keys, hashOf, hash, lo, hi, p, s[p].key);
    RepresentsInsert(s, s', nodes, keys, model, pos, p);
  }

  /** What a rehash has done after moving `i` entries: `rest` is still on the old list and
      `nodes` and `model` describe the new one. */
  ghost predicate Moved<K(!new), V>(s: Store<K, V>, rest: seq<int>, nodes: seq<int>, model: map<K, V>,
                                    n0: seq<int>, k0: seq<K>, s0: Store<K, V>, m0: map<K, V>, i: nat) {
    && Represents(s0, n0, k0, m0) && Distinct(n0) && NULL !in n0 && i <= |n0| && rest == n0[i..]
    && Relinked(s0, s, n0)
    && (forall q :: q in nodes <==> q in n0[..i])
    && (forall k :: k in model <==> k in k0[..i])
    && (forall k :: k in model ==> k in m0 && model[k] == m0[k])
  }

  /** The node being moved and its entry. */
  lemma MovingFirst<K(!new), V>(s: Store<K, V>, rest: seq<int>, nodes: seq<int>, model: map<K, V>,
                                n0: seq<int>, k0: seq<K>, s0: Store<K, V>, m0: map<K, V>, i: nat)
    requires Moved(s, rest, nodes, model, n0, k0, s0, m0, i) && At(rest, 0) != NULL
    ensures i < |n0| == |k0| && rest[0] == n0[i] && n0[i] in s && n0[i] != NULL
    ensures s[n0[i]].key == k0[i] && k0[i] in m0 && s[n0[i]].val == m0[k0[i]]
    ensures n0[i] !in nodes && k0[i] !in model
    ensures RemoveAt(rest, 0) == n0[i + 1..] && rest == n0[i..] && Distinct(n0)
    ensures forall q :: q in nodes <==> q in n0[..i]
  {
    assert EntryOk(s0, n0, k0, m0, i) && SameData(s0, s, n0[i]);
    assert n0[i] in n0;
    assert n0[i] !in n0[..i] && k0[i] !in k0[..i];
  }

  lemma DataKept<K, V>(s: Store<K, V>, s': Store<K, V>, touched: seq<int>, p: int)
    requires Relinked(s, s', touched) && p in s
    ensures p in s' && SameData(s, s', p)
  {
  }

  lemma MovedOne<K(!new), V>(s1: Store<K, V>, s2: Store<K, V>, s3: Store<K, V>, rest: seq<int>,
                             nodes: seq<int>, model: map<K, V>, nodes': seq<int>, model': map<K, V>,
                             n0: seq<int>, k0: seq<K>, s0: Store<K, V>, m0: map<K, V>, i: nat)
    requires Moved(s1, rest, nodes, model, n0, k0, s0, m0, i) && i < |n0|
    requires Relinked(s1, s2, rest) && Relinked(s2, s3, nodes + [n0[i]])
    requires forall q :: q in nodes' <==> q in nodes || q == n0[i]
    requires k0[i] in m0 && model' == model[k0[i] := m0[k0[i]]]
    ensures Moved(s3, n0[i + 1..], nodes', model', n0, k0, s0, m0, i + 1)
  {
    assert n0[..i + 1] == n0[..i] + [n0[i]] && k0[..i + 1] == k0[..i] + [k0[i]];
    forall p | p in s0
      ensures SameData(s0, s3, p)
    {
      assert SameData(s0, s1, p) && SameData(s1, s2, p) && SameData(s2, s3, p);
    }
    forall p | p !in n0
      ensures Kept(s0, s3, p)
    {
      assert Kept(s0, s1, p) && Kept(s1, s2, p) && Kept(s2, s3, p);
    }
  }

  /** Unlinking a node of one list leaves a list of other nodes as it was. */
  lemma FrameOther<K(!new), V>(s: Store<K, V>, s': Store<K, V>, n0: seq<int>, i: nat, nodes: seq<int>, keys: seq<K>,
                               model: map<K, V>)
    requires Distinct(n0) && i <= |n0| && Relinked(s, s', n0[i..])
    requires forall q :: q in nodes ==> q in n0[..i]
    requires Linked(s, nodes) && Represents(s, nodes, keys, model)
    ensures Linked(s', nodes) && Represents(s', nodes, keys, model)
  {
    forall j | 0 <= j < |nodes|
      ensures nodes[j] in s' && s'[nodes[j]] == s[nodes[j]] && SameData(s, s', nodes[j])
    {
      assert LinkOk(s, nodes, j);
      var q := nodes[j];
      assert q in nodes;
      NotInBoth(n0, i, q);
      assert Kept(s, s', q) && SameData(s, s', q);
    }
    ChainFrame(s, s', nodes);
    RepresentsFrame(s, s', nodes, keys, model);
  }

  lemma FrameRest<K, V>(s: Store<K, V>, s': Store<K, V>, moved: seq<int>, n0: seq<int>, i: nat)
    requires Distinct(n0) && i < |n0| && Relinked(s, s', moved + [n0[i]])
    requires forall q :: q in moved <==> q in n0[..i]
    requires Linked(s, n0[i + 1..])
    ensures Linked(s', n0[i + 1..])
  {
    var rest := n0[i + 1..];
    forall j | 0 <= j < |rest|
      ensures rest[j] in s' && s'[rest[j]] == s[rest[j]]
    {
      assert LinkOk(s, rest, j);
      assert rest[j] == n0[i + 1 + j];
      NotInBoth(n0, i + 1, rest[j]);
      assert rest[j] !in moved + [n0[i]] by { assert rest[j] !in n0[..i + 1]; assert n0[..i + 1] == n0[..i] + [n0[i]]; }
      assert Kept(s, s', rest[j]);
    }
    ChainFrame(s, s', rest);
  }

  lemma MovedAll<K(!new), V>(s: Store<K, V>, rest: seq<int>, nodes: seq<int>, model: map<K, V>,
                             n0: seq<int>, k0: seq<K>, s0: Store<K, V>, m0: map<K, V>, i: nat)
    requires Moved(s, rest, nodes, model, n0, k0, s0, m0, i) && At(rest, 0) == NULL
    ensures model == m0 && Relinked(s0, s, n0)
    ensures forall q :: q in nodes <==> q in n0
  {
  }

  lemma MovedNone<K(!new), V>(s: Store<K, V>, nodes: seq<int>, keys: seq<K>, m0: map<K, V>)
    requires Represents(s, nodes, keys, m0) && Linked(s, nodes)
    ensures Moved(s, nodes, [], map[], nodes, keys, s, m0, 0)
  {
  }

  lemma StoreGrown<K(!new), V>(s: Store<K, V>, s': Store<K, V>, nodes: seq<int>, keys: seq<K>, model: map<K, V>,
                               p: int, node: Node<K, V>)
    requires Linked(s, nodes) && Represents(s, nodes, keys, model) && p !in s && s' == s[p := node]
    ensures Linked(s', nodes) && Represents(s', nodes, keys, model) && p !in nodes
  {
    forall i | 0 <= i < |nodes|
      ensures nodes[i] in s' && nodes[i] != p && s'[nodes[i]] == s[nodes[i]] && SameData(s, s', nodes[i])
    {
      assert LinkOk(s, nodes, i);
    }
    ChainFrame(s, s', nodes);
    RepresentsFrame(s, s', nodes, keys, model);
  }

  lemma StoreShrunk<K(!new), V>(s: Store<K, V>, s': Store<K, V>, nodes: seq<int>, keys: seq<K>, model: map<K, V>,
                                p: int)
    requires Linked(s, nodes) && Represents(s, nodes, keys, model) && p !in nodes && s' == s - {p}
    ensures Linked(s', nodes) && Represents(s', nodes, keys, model)
  {
    forall i | 0 <= i < |nodes|
      ensures nodes[i] in s' && s'[nodes[i]] == s[nodes[i]] && SameData(s, s', nodes[i])
    {
      assert LinkOk(s, nodes, i);
      assert nodes[i] in nodes;
    }
    ChainFrame(s, s', nodes);
    RepresentsFrame(s, s', nodes, keys, model);
  }

  /** The range update of `erase` is the one that keeps the buckets contiguous, and the
      erased node is no longer needed. */
  lemma EraseTable<K(!new), V>(s: Store<K, V>, s1: Store<K, V>, s2: Store<K, V>, nodes: seq<int>, nodes': seq<int>,
                               keys: seq<K>, model: map<K, V>, hashOf: K -> nat, hash: seq<Range>, hash': seq<Range>,
                               lo: seq<int>, hi: seq<int>, i: nat)
    returns (keys': seq<K>, model': map<K, V>, lo': seq<int>, hi': seq<int>)
    requires Linked(s, nodes) && Table(s, nodes, keys, model, hashOf, hash, lo, hi) && |hash| > 0
    requires i < |nodes| == |keys| && nodes' == RemoveAt(nodes, i)
    requires hash' == hash[hashOf(keys[i]) % |hash| := Shrunk(nodes, hash[hashOf(keys[i]) % |hash|], i)]
    requires Relinked(s, s1, nodes) && Linked(s1, nodes') && s2 == s1 - {nodes[i]}
    ensures Table(s2, nodes', keys', model', hashOf, hash', lo', hi')
    ensures Linked(s2, nodes')
    ensures keys[i] in model && model' == model - {keys[i]} && |model'| == |model| - 1
    ensures s2.Keys == s.Keys - {nodes[i]}
  {
    keys', model' := RemoveAt(keys, i), model - {keys[i]};
    assert EntryOk(s, nodes, keys, model, i);
    lo', hi' := RangesErase(nodes, keys, hashOf, hash, lo, hi, i);
    RepresentsErase(s, s1, nodes, keys, model, i);
    RemoveAtElements(nodes, i);
    StoreShrunk(s1, s2, nodes', keys', model', nodes[i]);
  }

  lemma NodeEntry<K(!new), V>(s: Store<K, V>, nodes: seq<int>, keys: seq<K>, model: map<K, V>, p: int) returns (i: nat)
    requires Linked(s, nodes) && Represents(s, nodes, keys, model) && p in nodes
    ensures i < |nodes| == |keys| && nodes[i] == p && p in s && s[p].key == keys[i] && keys[i] in model
    ensures s[p].next == At(nodes, i + 1) && s[p].prev == At(nodes, i - 1) && s[p].val == model[keys[i]]
  {
    i :| 0 <= i < |nodes| && nodes[i] == p;
    assert EntryOk(s, nodes, keys, model, i) && LinkOk(s, nodes, i);
  }

  lemma EntryKey<K(!new), V>(s: Store<K, V>, nodes: seq<int>, keys: seq<K>, model: map<K, V>, i: nat)
    requires Represents(s, nodes, keys, model) && i < |nodes|
    ensures |keys| == |nodes| && nodes[i] in s && s[nodes[i]].key == keys[i]
  {
    assert EntryOk(s, nodes, keys, model, i);
  }

  /** The first `i` nodes have been given back; nothing else changed. */
  ghost predicate Swept<K, V>(s0: Store<K, V>, s: Store<K, V>, n0: seq<int>, i: nat)
    requires i <= |n0|
  {
    && (forall q :: q in s <==> q in s0 && q !in n0[..i])
    && (forall q :: q !in n0[..i] ==> Kept(s0, s, q))
  }

  lemma SweepOne<K, V>(s0: Store<K, V>, s: Store<K, V>, n0: seq<int>, i: nat)
    requires Linked(s0, n0) && i <= |n0| && At(n0, i) != NULL && Swept(s0, s, n0, i)
    ensures i < |n0| && n0[i] in s0 && n0[i] in s && s[n0[i]] == s0[n0[i]] && s0[n0[i]].next == At(n0, i + 1)
    ensures Swept(s0, s - {n0[i]}, n0, i + 1)
  {
    AtNull(n0, i);
    NodeLinks(s0, n0, i);
    var p := n0[i];
    NotInBoth(n0, i, p);
    assert p in n0[i..];
    assert Kept(s0, s, p);
    assert n0[..i + 1] == n0[..i] + [p];
    var s' := s - {p};
    forall q | q !in n0[..i + 1]
      ensures Kept(s0, s', q)
    {
      assert Kept(s0, s, q);
    }
  }

  /** The buckets of the first `i` entries have been emptied, the others are as before. */
  ghost predicate BucketsSwept<K(!new)>(hashOf: K -> nat, h0: seq<Range>, hash: seq<Range>, keys: seq<K>, i: nat)
    requires |hash| == |h0| > 0 && i <= |keys|
  {
    && (forall c :: 0 <= c < |hash| ==> hash[c] == h0[c] || hash[c] == EMPTY)
    && (forall j :: 0 <= j < i ==> hash[hashOf(keys[j]) % |hash|] == EMPTY)
  }

  lemma SweptNone<K(!new), V>(s: Store<K, V>, n0: seq<int>, hashOf: K -> nat, h0: seq<Range>, keys: seq<K>)
    requires |h0| > 0
    ensures Swept(s, s, n0, 0) && BucketsSwept(hashOf, h0, h0, keys, 0)
  {
  }

  lemma SweepBucket<K(!new)>(hashOf: K -> nat, h0: seq<Range>, hash: seq<Range>, keys: seq<K>, i: nat)
    requires |hash| == |h0| > 0 && i < |keys| && BucketsSwept(hashOf, h0, hash, keys, i)
    ensures BucketsSwept(hashOf, h0, hash[hashOf(keys[i]) % |hash| := EMPTY], keys, i + 1)
  {
  }

  lemma AllBucketsSwept<K(!new)>(nodes: seq<int>, keys: seq<K>, hashOf: K -> nat, h0: seq<Range>, hash: seq<Range>,
                                 lo: seq<int>, hi: seq<int>)
    requires |nodes| == |keys| && |hash| == |h0| > 0
    requires RangesOk(nodes, keys, hashOf, h0, lo, hi) && BucketsSwept(hashOf, h0, hash, keys, |keys|)
    ensures forall c :: 0 <= c < |hash| ==> hash[c] == EMPTY
  {
    forall c | 0 <= c < |hash|
      ensures hash[c] == EMPTY
    {
      assert RangeOk(nodes, keys, hashOf, |h0|, c, h0[c], lo[c], hi[c]);
      if lo[c] < hi[c] {
        assert hashOf(keys[lo[c]]) % |hash| == c;
      }
    }
  }

  lemma NoEntries<K(!new), V>(s: Store<K, V>, hashOf: K -> nat, hash: seq<Range>, lo: seq<int>, hi: seq<int>)
    requires |lo| == |hi| == |hash|
    requires forall c :: 0 <= c < |hash| ==> hash[c] == EMPTY && lo[c] == hi[c] == 0
    ensures Linked(s, []) && Table(s, [], [], map[], hashOf, hash, lo, hi)
  {
  }

  class BasicMap<K(==, !new), V> {
    const memory: Memory<K, V>
    const hashOf: K -> nat
    const list: IntrusiveList<K, V>
    var hash: seq<Range>
    var size: nat
    ghost var model: map<K, V>
    ghost var keys: seq<K>
    ghost var lo: seq<int>
    ghost var hi: seq<int>

    /** Everything but the size: the list holds the entries of the model, one node each, and
        every bucket is a contiguous segment of the list. */
    ghost predicate Structure()
      reads this, list, memory
    {
      && list.memory == memory && list.Valid()
      && Table(memory.store, list.nodes, keys, model, hashOf, hash, lo, hi)
    }

    ghost predicate Valid()
      reads this, list, memory
    {
      Structure() && size == |model|
    }

    constructor (memory: Memory<K, V>, hashOf: K -> nat)
      ensures Valid() && fresh(list) && model == map[] && keys == [] && list.nodes == [] && hash == []
      ensures this.memory == memory && this.hashOf == hashOf
    {
      this.memory, this.hashOf := memory, hashOf;
      list := new IntrusiveList<K, V>(memory);
      hash, size := [], 0;
      model, keys, lo, hi := map[], [], [], [];
    }

    method Get(k: K) returns (b: nat)
      requires |hash| > 0
      ensures b == hashOf(k) % |hash|
    {
      b := hashOf(k) % |hash|;
    }

    /** Put node `p` after its bucket's segment, or at the end of the list. */
    method Link(p: int)
      requires Structure() && |hash| > 0
      requires p in memory.store && p !in list.nodes && p != NULL && memory.store[p].key !in model
      modifies this`hash, this`model, this`keys, this`lo, this`hi, list, memory
      ensures Structure() && |hash| == |old(hash)|
      ensures model == old(model)[old(memory.store[p].key) := old(memory.store[p].val)]
      ensures forall q :: q in list.nodes <==> q in old(list.nodes) || q == p
      ensures Relinked(old(memory.store), memory.store, old(list.nodes) + [p])
    {
      hide Linked, Relinked, Represents, RangesOk, Table;
      ghost var n0, s0, h0 := list.nodes, memory.store, hash;
      var b := Get(memory.store[p].key);
      KeysAre(s0, n0, keys, model, hashOf, hash, lo, hi);
      ghost var pos := LinkPlace(s0, n0, keys, model, hashOf, hash, lo, hi, s0[p].key);
      if hash[b].second == NULL {
        AppendIsInsert(n0, pos, p);
        list.PushBack(p);
        hash := hash[b := Range(p, p)];
      } else {
        list.InsertAfter(p, hash[b].second, pos - 1);
        hash := hash[b := hash[b].(second := p)];
      }
      InsertAtElements(n0, pos, p);
      ghost var lo', hi' := LinkTable(s0, memory.store, n0, keys, model, hashOf, h0, lo, hi, p, pos);
      model := model[s0[p].key := s0[p].val];
      keys, lo, hi := InsertAt(keys, pos, s0[p].key), lo', hi';
    }

    /** The entry with key `k`, or null if there is none. */
    method Find(k: K) returns (p: int)
      requires Valid()
      ensures p != NULL <==> k in model
      ensures p != NULL ==>
                  p in list.nodes && p in memory.store && memory.store[p].key == k && memory.store[p].val == model[k]
    {
      if hash == [] {
        return NULL;
      }
      var b := Get(k);
      p := FindInRange(hash[b], k, b);
    }

    method FindInRange(r: Range, k: K, ghost b: nat) returns (p: int)
      requires Structure() && |hash| > 0 && b == hashOf(k) % |hash| && r == hash[b]
      ensures p != NULL <==> k in model
      ensures p != NULL ==>
                  p in list.nodes && p in memory.store && memory.store[p].key == k && memory.store[p].val == model[k]
    {
      assert RangeOk(list.nodes, keys, hashOf, |hash|, b, hash[b], lo[b], hi[b]);
      ghost var i := lo[b];
      p := r.first;
      while p != NULL
        invariant lo[b] <= i <= hi[b]
        invariant p != NULL ==> i < hi[b] && p == list.nodes[i]
        invariant p == NULL ==> lo[b] == hi[b]
        invariant forall j :: lo[b] <= j < i ==> keys[j] != k
        decreases hi[b] - i
      {
        assert EntryOk(memory.store, list.nodes, keys, model, i);
        NodeLinks(memory.store, list.nodes, i);
        if memory.store[p].key == k {
          return;
        }
        if p == r.second {
          assert i == hi[b] - 1;
          return NULL;
        }
        p := memory.store[p].next;
        i := i + 1;
      }
    }

    /** Move every entry, in list order, to a fresh table of `newSize` buckets. */
    method Rehash(newSize: nat)
      requires Valid() && (newSize > 0 || model == map[])
      modifies this, list, memory
      ensures Valid() && model == old(model) && |hash| == newSize
      ensures forall q :: q in list.nodes <==> q in old(list.nodes)
      ensures Relinked(old(memory.store), memory.store, old(list.nodes))
    {
      var tmp := new BasicMap<K, V>(memory, hashOf);
      tmp.Resize(newSize);
      MovedNone(memory.store, list.nodes, keys, model);
      MoveAll(tmp, list.nodes, keys, memory.store, model);
      Adopt(tmp);
    }

    /** The loop of `rehash`. */
    method MoveAll(tmp: BasicMap<K, V>, ghost n0: seq<int>, ghost k0: seq<K>, ghost s0: Store<K, V>,
                   ghost m0: map<K, V>)
      requires Moving(tmp, n0, k0, s0, m0, 0)
      modifies list, tmp`hash, tmp`model, tmp`keys, tmp`lo, tmp`hi, tmp.list, memory
      ensures tmp.Structure() && tmp.model == m0 && Relinked(s0, memory.store, n0) && |tmp.hash| == |old(tmp.hash)|
      ensures forall q :: q in tmp.list.nodes <==> q in n0
    {
      ghost var i: nat := 0;
      while list.begin != NULL
        invariant Moving(tmp, n0, k0, s0, m0, i) && |tmp.hash| == |old(tmp.hash)|
        decreases |n0| - i
      {
        MoveFirst(tmp, n0, k0, s0, m0, i);
        i := i + 1;
      }
      MovedAll(memory.store, list.nodes, tmp.list.nodes, tmp.model, n0, k0, s0, m0, i);
    }

    /** The swaps at the end of `rehash`. */
    method Adopt(tmp: BasicMap<K, V>)
      requires tmp != this && tmp.list != list && tmp.memory == memory && tmp.hashOf == hashOf && list.memory == memory
      requires tmp.Structure() && tmp.model == model && size == |model|
      modifies this`hash, this`keys, this`lo, this`hi, list
      ensures Valid() && hash == tmp.hash && list.nodes == tmp.list.nodes
    {
      list.begin, list.end := tmp.list.begin, tmp.list.end;
      hash := tmp.hash;
      list.nodes, keys, lo, hi := tmp.list.nodes, tmp.keys, tmp.lo, tmp.hi;
    }

    /** During a rehash: the first `i` nodes have moved to `tmp`, the others still form the list. */
    ghost predicate Moving(tmp: BasicMap<K, V>, n0: seq<int>, k0: seq<K>, s0: Store<K, V>, m0: map<K, V>, i: nat)
      reads this, list, tmp, tmp.list, memory
    {
      && tmp != this && tmp.list != list && tmp.memory == memory && tmp.hashOf == hashOf
      && list.memory == memory && list.Valid() && tmp.Structure() && (|tmp.hash| > 0 || n0 == [])
      && Moved(memory.store, list.nodes, tmp.list.nodes, tmp.model, n0, k0, s0, m0, i)
    }

    /** The first node leaves the list of the old table. */
    method DetachFirst(tmp: BasicMap<K, V>, ghost n0: seq<int>, ghost k0: seq<K>, ghost s0: Store<K, V>,
                       ghost m0: map<K, V>, ghost i: nat) returns (p: int)
      requires Moving(tmp, n0, k0, s0, m0, i) && list.begin != NULL
      modifies list, memory
      ensures i < |n0| == |k0| && p == n0[i] && list.Valid() && list.nodes == n0[i + 1..] && tmp.Structure()
      ensures old(list.nodes) == n0[i..] && Distinct(n0) && Relinked(old(memory.store), memory.store, n0[i..])
      ensures p in memory.store && p !in tmp.list.nodes && p != NULL
      ensures memory.store[p].key == k0[i] && k0[i] in m0 && memory.store[p].val == m0[k0[i]] && k0[i] !in tmp.model
      ensures forall q :: q in tmp.list.nodes <==> q in n0[..i]
    {
      hide Linked, Relinked, Represents, RangesOk, Moved, Distinct;
      p := list.begin;
      ghost var s1 := memory.store;
      MovingFirst(s1, list.nodes, tmp.list.nodes, tmp.model, n0, k0, s0, m0, i);
      list.Erase(p, 0);
      FrameOther(s1, memory.store, n0, i, tmp.list.nodes, tmp.keys, tmp.model);
      DataKept(s1, memory.store, n0[i..], p);
    }

    /** One turn of the loop in `rehash`. */
    method MoveFirst(tmp: BasicMap<K, V>, ghost n0: seq<int>, ghost k0: seq<K>, ghost s0: Store<K, V>,
                     ghost m0: map<K, V>, ghost i: nat)
      requires Moving(tmp, n0, k0, s0, m0, i) && list.begin != NULL
      modifies list, tmp`hash, tmp`model, tmp`keys, tmp`lo, tmp`hi, tmp.list, memory
      ensures i < |n0| && Moving(tmp, n0, k0, s0, m0, i + 1) && |tmp.hash| == |old(tmp.hash)|
    {
      hide Linked, Relinked, Represents, RangesOk, Moved, Table;
      ghost var s1, t1, m1 := memory.store, tmp.list.nodes, tmp.model;
      var p := DetachFirst(tmp, n0, k0, s0, m0, i);
      ghost var s2 := memory.store;
      tmp.Link(p);
      FrameRest(s2, memory.store, t1, n0, i);
      MovedOne(s1, s2, memory.store, n0[i..], t1, m1, tmp.list.nodes, tmp.model, n0, k0, s0, m0, i);
    }

    method RehashIfNeeded()
      requires Valid()
      modifies this, list, memory
      ensures Valid() && model == old(model) && |model| + 1 < |hash|
      ensures |hash| == if |model| + 1 < |old(hash)| then |old(hash)| else 2 * (|model| + 1)
      ensures forall q :: q in list.nodes <==> q in old(list.nodes)
      ensures Relinked(old(memory.store), memory.store, old(list.nodes))
    {
      if size + 1 >= |hash| {
        Rehash((1 + size) * 2);
      } else {
        MovedNone(memory.store, list.nodes, keys, model);
      }
    }

    /** Add an entry unless its key is present; `address` is where the allocator puts the node. */
    method Insert(k: K, v: V, address: int) returns (p: int, inserted: bool)
      requires Valid() && address >= 0 && address !in memory.store
      modifies this, list, memory
      ensures Valid() && inserted == (k !in old(model))
      ensures model == if inserted then old(model)[k := v] else old(model)
      ensures p in list.nodes && p in memory.store && memory.store[p].key == k && memory.store[p].val == model[k]
      ensures inserted ==> p == address && memory.store.Keys == old(memory.store.Keys) + {address}
      ensures !inserted ==> memory.store.Keys == old(memory.store.Keys)
      ensures |model| < |hash|
      ensures |hash| == if |old(model)| + 1 < |old(hash)| then |old(hash)| else 2 * (|old(model)| + 1)
    {
      RehashIfNeeded();
      var b := Get(k);
      p := FindInRange(hash[b], k, b);
      if p != NULL {
        return p, false;
      }
      p := address;
      StoreGrown(memory.store, memory.store[p := Node(k, v, NULL, NULL)], list.nodes, keys, model, p,
                 Node(k, v, NULL, NULL));
      memory.store := memory.store[p := Node(k, v, NULL, NULL)];
      ghost var s1, m1 := memory.store, model;
      Link(p);
      assert SameData(s1, memory.store, p);
      assert model.Keys == m1.Keys + {k};
      inserted := true;
      size := size + 1;
    }

    /** Remove the entry at `p` and give its node back; the result is the next entry on the list. */
    method Erase(p: int) returns (next: int)
      requires Valid() && (p == NULL || p in list.nodes)
      modifies this`hash, this`size, this`model, this`keys, this`lo, this`hi, list, memory
      ensures Valid()
      ensures |hash| == |old(hash)|
      ensures p == NULL ==> next == NULL && model == old(model) && memory.store == old(memory.store)
      ensures p != NULL ==>
                && p in old(memory.store) && old(memory.store[p].key) in old(model)
                && model == old(model) - {old(memory.store[p].key)} && |model| == |old(model)| - 1
                && next == old(memory.store[p].next)
                && memory.store.Keys == old(memory.store.Keys) - {p}
                && exists i :: 0 <= i < |old(list.nodes)| && old(list.nodes)[i] == p
                     && list.nodes == RemoveAt(old(list.nodes), i)
    {
      if p == NULL {
        return NULL;
      }
      ghost var i := NodeEntry(memory.store, list.nodes, keys, model, p);
      next := EraseNode(p, i);
    }

    method EraseNode(p: int, ghost i: nat) returns (next: int)
      requires Valid() && i < |list.nodes| && list.nodes[i] == p
      modifies this`hash, this`size, this`model, this`keys, this`lo, this`hi, list, memory
      ensures Valid() && list.nodes == RemoveAt(old(list.nodes), i)
      ensures p in old(memory.store) && next == old(memory.store[p].next)
      ensures memory.store.Keys == old(memory.store.Keys) - {p}
      ensures i < |old(keys)| && model == old(model) - {old(keys)[i]} && |model| == |old(model)| - 1
      ensures |hash| == |old(hash)|
    {
      ghost var n0, s0, h0 := list.nodes, memory.store, hash;
      assert EntryOk(s0, n0, keys, model, i);
      ShrinkBucket(p, i);
      next := memory.store[p].next;
      list.Erase(p, i);
      Destroy(p, i, s0, n0, h0);
    }

    /** Release the node of an erased entry and forget the entry. */
    method Destroy(p: int, ghost i: nat, ghost s0: Store<K, V>, ghost n0: seq<int>, ghost h0: seq<Range>)
      requires list.memory == memory && list.Valid() && size == |model| && |h0| > 0
      requires Linked(s0, n0) && Table(s0, n0, keys, model, hashOf, h0, lo, hi)
      requires i < |n0| == |keys| && n0[i] == p && list.nodes == RemoveAt(n0, i) && Relinked(s0, memory.store, n0)
      requires hash == h0[hashOf(keys[i]) % |h0| := Shrunk(n0, h0[hashOf(keys[i]) % |h0|], i)]
      modifies this`size, this`model, this`keys, this`lo, this`hi, memory
      ensures Valid() && memory.store.Keys == s0.Keys - {p}
      ensures model == old(model) - {old(keys)[i]} && |model| == |old(model)| - 1
    {
      hide Linked, Represents, RangesOk;
      ghost var s2 := memory.store - {p};
      ghost var keys', model', lo', hi' :=
        EraseTable(s0, memory.store, s2, n0, list.nodes, keys, model, hashOf, h0, hash, lo, hi, i);
      size := size - 1;
      memory.store := memory.store - {p};
      keys, model, lo, hi := keys', model', lo', hi';
    }

    /** The range update of `erase`. */
    method ShrinkBucket(p: int, ghost i: nat)
      requires Structure() && |hash| > 0 && i < |list.nodes| && list.nodes[i] == p
      modifies this`hash
      ensures var b := hashOf(keys[i]) % |old(hash)|; hash == old(hash)[b := Shrunk(list.nodes, old(hash)[b], i)]
    {
      assert EntryOk(memory.store, list.nodes, keys, model, i) && LinkOk(memory.store, list.nodes, i);
      var b := Get(memory.store[p].key);
      var r := hash[b];
      if r.first == r.second {
        hash := hash[b := EMPTY];
      } else if r.first == p {
        hash := hash[b := r.(first := memory.store[p].next)];
      } else if r.second == p {
        hash := hash[b := r.(second := memory.store[p].prev)];
      }
    }

    /** An empty table of `n` buckets. */
    method Resize(n: nat)
      requires Structure() && model == map[] && keys == []
      modifies this`hash, this`lo, this`hi
      ensures Structure() && |hash| == n
    {
      hash := seq(n, _ => EMPTY);
      lo, hi := seq(n, _ => 0), seq(n, _ => 0);
    }

    /** Remove every entry.  A table that is small for its contents is wiped bucket by bucket,
        a large one only in the buckets of its entries. */
    method Clear()
      requires Valid()
      modifies this, list, memory
      ensures Valid() && model == map[] && list.nodes == [] && |hash| == |old(hash)|
      ensures forall q :: q in memory.store <==> q in old(memory.store) && q !in old(list.nodes)
    {
      if size / 4 >= |hash| {
        WipeTable();
        FreeNodes();
      } else {
        FreeNodesAndBuckets();
      }
      list.begin, list.end := NULL, NULL;
      size := 0;
      list.nodes, model, keys := [], map[], [];
      lo, hi := seq(|hash|, _ => 0), seq(|hash|, _ => 0);
      NoEntries(memory.store, hashOf, hash, lo, hi);
    }

    method WipeTable()
      modifies this`hash
      ensures |hash| == |old(hash)| && forall c :: 0 <= c < |hash| ==> hash[c] == EMPTY
    {
      for i := 0 to |hash|
        invariant |hash| == |old(hash)| && forall c :: 0 <= c < i ==> hash[c] == EMPTY
      {
        hash := hash[i := EMPTY];
      }
    }

    /** Walk the list and give every node back. */
    method FreeNodes()
      requires list.memory == memory && list.Valid()
      modifies memory
      ensures Swept(old(memory.store), memory.store, list.nodes, |list.nodes|)
    {
      ghost var n0, s0 := list.nodes, memory.store;
      ghost var i: nat := 0;
      var p := list.begin;
      while p != NULL
        invariant i <= |n0| && p == At(n0, i) && Swept(s0, memory.store, n0, i)
        decreases |n0| - i
      {
        SweepOne(s0, memory.store, n0, i);
        var del := p;
        p := memory.store[p].next;
        memory.store := memory.store - {del};
        i := i + 1;
      }
      AtNull(n0, i);
    }

    /** Walk the list, emptying the bucket of every entry and giving its node back. */
    method FreeNodesAndBuckets()
      requires Valid() && |hash| > 0
      modifies this`hash, memory
      ensures Swept(old(memory.store), memory.store, list.nodes, |list.nodes|)
      ensures |hash| == |old(hash)| && forall c :: 0 <= c < |hash| ==> hash[c] == EMPTY
    {
      ghost var n0, s0, h0 := list.nodes, memory.store, hash;
      ghost var i: nat := 0;
      SweptNone(s0, n0, hashOf, h0, keys);
      assert Represents(s0, n0, keys, model) && Linked(s0, n0) && RangesOk(n0, keys, hashOf, h0, lo, hi);
      assert |keys| == |n0|;
      hide Swept, BucketsSwept, Linked, RangesOk, Represents, Table;
      var p := list.begin;
      while p != NULL
        invariant i <= |n0| && p == At(n0, i) && Swept(s0, memory.store, n0, i)
        invariant |hash| == |h0| && BucketsSwept(hashOf, h0, hash, keys, i)
        decreases |n0| - i
      {
        SweepOne(s0, memory.store, n0, i);
        EntryKey(s0, n0, keys, model, i);
        var del := p;
        p := memory.store[p].next;
        var b := Get(memory.store[del].key);
        SweepBucket(hashOf, h0, hash, keys, i);
        hash := hash[b := EMPTY];
        memory.store := memory.store - {del};
        i := i + 1;
      }
      AtNull(n0, i);
      AllBucketsSwept(n0, keys, hashOf, h0, hash, lo, hi);
    }

    /** The entries in list order, as an iteration from `begin` to `end` meets them. */
    method Entries() returns (out: seq<(K, V)>)
      requires Valid()
      ensures |out| == |model| && (forall i, j :: 0 <= i < j < |out| ==> out[i].0 != out[j].0)
      ensures forall i :: 0 <= i < |out| ==> out[i].0 in model && model[out[i].0] == out[i].1
    {
      ghost var n0 := list.nodes;
      out := [];
      var p := list.begin;
      while p != NULL
        invariant |out| <= |n0| && p == At(n0, |out|)
        invariant forall i :: 0 <= i < |out| ==> out[i].0 == keys[i] && out[i].0 in model && model[out[i].0] == out[i].1
        decreases |n0| - |out|
      {
        AtNull(n0, |out|);
        NodeLinks(memory.store, n0, |out|);
        assert EntryOk(memory.store, n0, keys, model, |out|);
        out := out + [(memory.store[p].key, memory.store[p].val)];
        p := memory.store[p].next;
      }
      AtNull(n0, |out|);
    }
  }

  // ----- whole runs

  datatype Option<+T> = None | Some(get: T)

  datatype Op<K, V> = Put(k: K, v: V) | Look(k: K) | Drop(k: K) | Size | ClearAll | Resize(n: nat)

  /** What an operation returned: the value now stored and whether it was added, the value found,
      whether there was something to erase, the number of entries. */
  datatype Reply<V> =
    | Added(v: V, inserted: bool)
    | Found(value: Option<V>)
    | Dropped(found: bool)
    | Counted(n: nat)
    | Done

  /** What each operation does to a finite map, and what it returns. */
  function Apply<K(==), V>(m: map<K, V>, op: Op<K, V>): (map<K, V>, Reply<V>) {
    match op
    case Put(k, v) => if k in m then (m, Added(m[k], false)) else (m[k := v], Added(v, true))
    case Look(k) => (m, Found(if k in m then Some(m[k]) else None))
    case Drop(k) => (m - {k}, Dropped(k in m))
    case Size => (m, Counted(|m|))
    case ClearAll => (map[], Done)
    case Resize(_) => (m, Done)
  }

  /** The first value put under a key stays until it is dropped; a look-up finds it. */
  lemma ApplyIs<K, V>(m: map<K, V>, k: K, v: V)
    ensures k !in m ==> Apply(m, Put(k, v)) == (m[k := v], Added(v, true))
    ensures k in m ==>
                Apply(m, Put(k, v)) == (m, Added(m[k], false)) && Apply(m, Op<K, V>.Look(k)) == (m, Found(Some(m[k])))
    ensures k !in m ==> Apply(m, Op<K, V>.Look(k)) == (m, Found(None))
    ensures Apply(m, Op<K, V>.Drop(k)) == (m - {k}, Dropped(k in m))
    ensures Apply(m, Op<K, V>.Size) == (m, Counted(|m|)) && Apply(m, Op<K, V>.ClearAll) == (map[], Done)
    ensures forall n :: Apply(m, Op<K, V>.Resize(n)) == (m, Done)
  {
  }

  /** The map after some operations and everything they returned. */
  function ApplyAll<K(==), V>(ops: seq<Op<K, V>>): (map<K, V>, seq<Reply<V>>) {
    if ops == [] then (map[], [])
    else
      var (m, replies) := ApplyAll(ops[..|ops| - 1]);
      var (m', reply) := Apply(m, ops[|ops| - 1]);
      (m', replies + [reply])
  }

  /** The load condition that holds as long as nobody calls `rehash` by hand. */
  predicate Roomy(entries: nat, buckets: nat) {
    entries < buckets || (entries == 0 && buckets == 0)
  }

  /** The source accepts rehashing to no buckets at all only while there are no entries. */
  predicate Sensible<K, V>(op: Op<K, V>, entries: nat) {
    op.Resize? && op.n == 0 ==> entries == 0
  }

  method EraseKey<K(==, !new), V>(m: BasicMap<K, V>, k: K, ghost address: nat) returns (found: bool)
    requires m.Valid() && forall q :: q in m.memory.store ==> q < address
    modifies m, m.list, m.memory
    ensures found == (k in old(m.model))
    ensures m.Valid() && m.model == old(m.model) - {k} && |m.model| <= |old(m.model)| && |m.hash| == |old(m.hash)|
    ensures forall q :: q in m.memory.store ==> q < address
  {
    var p := m.Find(k);
    if p == NULL {
      assert m.model - {k} == m.model;
      return false;
    }
    ghost var cells := m.memory.store.Keys;
    var next := m.Erase(p);
    assert forall q :: q in m.memory.store.Keys ==> q in cells;
    return true;
  }

  method Perform<K(==, !new), V>(m: BasicMap<K, V>, op: Op<K, V>, address: nat) returns (reply: Reply<V>)
    requires m.Valid() && Sensible(op, |m.model|)
    requires forall q :: q in m.memory.store ==> q < address
    modifies m, m.list, m.memory
    ensures m.Valid() && (m.model, reply) == Apply(old(m.model), op)
    ensures forall q :: q in m.memory.store ==> q < address + 1
    ensures Roomy(|old(m.model)|, |old(m.hash)|) && !op.Resize? ==> Roomy(|m.model|, |m.hash|)
  {
    hide Linked, Table;
    reply := Done;
    match op
    case Put(k, v) =>
      var p, inserted := m.Insert(k, v, address);
      assert forall q :: q in m.memory.store ==> q in old(m.memory.store.Keys) || q == address;
      reply := Added(m.memory.store[p].val, inserted);
    case Look(k) =>
      var p := m.Find(k);
      reply := Found(if p == NULL then None else Some(m.memory.store[p].val));
    case Drop(k) =>
      var found := EraseKey(m, k, address);
      reply := Dropped(found);
    case Size =>
      reply := Counted(m.size);
    case ClearAll =>
      m.Clear();
    case Resize(n) =>
      m.Rehash(n);
      assert forall q :: q in m.memory.store ==> q in old(m.memory.store.Keys);
  }

  /** Any sequence of operations returns what the finite map they describe returns and ends with
      its contents, and without manual rehashing there are fewer entries than buckets. */
  method Run<K(==, !new), V>(hashOf: K -> nat, ops: seq<Op<K, V>>) returns (m: BasicMap<K, V>, replies: seq<Reply<V>>)
    requires forall i :: 0 <= i < |ops| ==> Sensible(ops[i], |ApplyAll(ops[..i]).0|)
    ensures m.Valid() && (m.model, replies) == ApplyAll(ops)
    ensures (forall i :: 0 <= i < |ops| ==> !ops[i].Resize?) ==> Roomy(m.size, |m.hash|)
  {
    var memory := new Memory<K, V>();
    m := new BasicMap<K, V>(memory, hashOf);
    replies := [];
    for i := 0 to |ops|
      invariant fresh(m) && fresh(m.list) && fresh(m.memory) && m.Valid()
      invariant forall q :: q in m.memory.store ==> q < i
      invariant (m.model, replies) == ApplyAll(ops[..i])
      invariant (forall j :: 0 <= j < i ==> !ops[j].Resize?) ==> Roomy(|m.model|, |m.hash|)
    {
      assert ops[..i + 1][..i] == ops[..i];
      var reply := Perform(m, ops[i], i);
      replies := replies + [reply];
    }
    assert ops[..|ops|] == ops;
  }
}
