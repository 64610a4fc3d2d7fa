/** The chained hash table of vm/hash_table.hpp. Key comparison and hash are parameters: `classOf`
    says which keys are equal, and the hash of a key depends on nothing else. */
module HashTables {
  import opened Options

  class Entry<K, V> {
    const key: K
    var value: V
    var prev: Entry?<K, V>
    var next: Entry?<K, V>

    constructor (key: K, value: V)
      ensures this.key == key && this.value == value
    {
      this.key, this.value := key, value;
      prev, next := null, null;
    }
  }

  datatype Bucket<K, V> = Bucket(first: Entry?<K, V>, last: Entry?<K, V>)

  // ------------------------------------------------------------------ the logical table

  /** The entries of every bucket in order, the value of each, the entry of each key, and the map
      that all this stands for. */
  datatype Model<K, V, Q> = Model(chains: seq<seq<Entry<K, V>>>, values: map<Entry<K, V>, V>,
                                  entryOf: map<Q, Entry<K, V>>, contents: map<Q, V>)

  /** What the buckets and the entries point to. */
  datatype Links<K, V> = Links(heads: seq<Bucket<K, V>>, next: map<Entry<K, V>, Entry?<K, V>>,
                               prev: map<Entry<K, V>, Entry?<K, V>>)

  ghost predicate NoRepeat<T>(s: seq<T>) {
    forall j, k :: 0 <= j < k < |s| ==> s[j] != s[k]
  }

  /** Equality is an equivalence that the hash respects. */
  ghost predicate Respects<K(!new), Q>(hash: K -> nat, classOf: K -> Q) {
    forall k, k' {:trigger hash(k), hash(k')} :: classOf(k) == classOf(k') ==> hash(k) == hash(k')
  }

  /** Every entry is once in the chain of its hash, and nowhere else. */
  ghost predicate Chained<K, V, Q>(m: Model<K, V, Q>, hash: K -> nat) {
    && (forall i :: 0 <= i < |m.chains| ==> NoRepeat(m.chains[i]))
    && (forall i, e {:trigger e in m.chains[i]} :: 0 <= i < |m.chains| && e in m.chains[i] ==>
          e in m.values && hash(e.key) % |m.chains| == i)
    && (forall e {:trigger e in m.values} :: e in m.values ==> 0 < |m.chains| && e in m.chains[hash(e.key) % |m.chains|])
  }

  /** The entries are the pairs of the map, one for each class of keys. */
  ghost predicate Represents<K, V, Q>(m: Model<K, V, Q>, classOf: K -> Q) {
    && m.entryOf.Keys == m.contents.Keys
    && (forall q {:trigger m.entryOf[q]} :: q in m.entryOf ==> m.entryOf[q] in m.values && classOf(m.entryOf[q].key) == q)
    && (forall e {:trigger e in m.values} :: e in m.values ==>
          classOf(e.key) in m.entryOf && m.entryOf[classOf(e.key)] == e && m.contents[classOf(e.key)] == m.values[e])
  }

  ghost predicate WellFormed<K, V, Q>(m: Model<K, V, Q>, hash: K -> nat, classOf: K -> Q) {
    Chained(m, hash) && Represents(m, classOf)
  }

  ghost function Inserted<K, V, Q>(m: Model<K, V, Q>, i: nat, e: Entry<K, V>, q: Q, value: V): Model<K, V, Q>
    requires i < |m.chains|
  {
    Model(m.chains[i := m.chains[i] + [e]], m.values[e := value], m.entryOf[q := e], m.contents[q := value])
  }

  lemma InsertedChained<K(!new), V, Q>(m: Model<K, V, Q>, hash: K -> nat, e: Entry<K, V>, q: Q, value: V)
    requires Chained(m, hash) && |m.chains| > 0 && e !in m.values
    ensures Chained(Inserted(m, hash(e.key) % |m.chains|, e, q, value), hash)
  {
    var i := hash(e.key) % |m.chains|;
    var m' := Inserted(m, i, e, q, value);
    assert e !in m.chains[i];
    forall k | 0 <= k < |m'.chains| ensures NoRepeat(m'.chains[k]) {
      assert NoRepeat(m.chains[k]);
    }
    forall k, x | 0 <= k < |m'.chains| && x in m'.chains[k] ensures x in m'.values && hash(x.key) % |m'.chains| == k {
      assert x in m.chains[k] || x == e;
    }
    forall x | x in m'.values ensures x in m'.chains[hash(x.key) % |m'.chains|] {
      if x != e { assert x in m.chains[hash(x.key) % |m.chains|]; }
    }
  }

  lemma InsertedRepresents<K(!new), V, Q>(m: Model<K, V, Q>, classOf: K -> Q, i: nat, e: Entry<K, V>, value: V)
    requires Represents(m, classOf) && i < |m.chains|
    requires e !in m.values && classOf(e.key) !in m.contents
    ensures Represents(Inserted(m, i, e, classOf(e.key), value), classOf)
  {
  }

  lemma InsertedKeeps<K(!new), V, Q>(m: Model<K, V, Q>, hash: K -> nat, classOf: K -> Q, e: Entry<K, V>, value: V)
    requires WellFormed(m, hash, classOf) && |m.chains| > 0
    requires e !in m.values && classOf(e.key) !in m.contents
    ensures WellFormed(Inserted(m, hash(e.key) % |m.chains|, e, classOf(e.key), value), hash, classOf)
  {
    InsertedChained(m, hash, e, classOf(e.key), value);
    InsertedRepresents(m, classOf, hash(e.key) % |m.chains|, e, value);
  }

  ghost function Replaced<K, V, Q>(m: Model<K, V, Q>, e: Entry<K, V>, q: Q, value: V): Model<K, V, Q> {
    m.(values := m.values[e := value], contents := m.contents[q := value])
  }

  lemma ReplacedKeeps<K(!new), V, Q>(m: Model<K, V, Q>, hash: K -> nat, classOf: K -> Q, e: Entry<K, V>, value: V)
    requires WellFormed(m, hash, classOf) && e in m.values
    ensures WellFormed(Replaced(m, e, classOf(e.key), value), hash, classOf)
  {
  }

  ghost function Removed<K, V, Q>(m: Model<K, V, Q>, i: nat, pos: nat, q: Q): Model<K, V, Q>
    requires i < |m.chains| && pos < |m.chains[i]|
  {
    var e := m.chains[i][pos];
    Model(m.chains[i := m.chains[i][..pos] + m.chains[i][pos + 1..]], m.values - {e}, m.entryOf - {q}, m.contents - {q})
  }

  lemma WithoutOne<T>(s: seq<T>, pos: nat)
    requires pos < |s| && NoRepeat(s)
    ensures var r := s[..pos] + s[pos + 1..]; NoRepeat(r) && forall x :: x in r <==> x in s && x != s[pos]
  {
    var r := s[..pos] + s[pos + 1..];
    forall x | x in s && x != s[pos] ensures x in r {
      var j :| 0 <= j < |s| && s[j] == x;
      assert x == if j < pos then r[j] else r[j - 1];
    }
  }

  lemma RemovedChained<K(!new), V, Q>(m: Model<K, V, Q>, hash: K -> nat, i: nat, pos: nat, q: Q)
    requires Chained(m, hash) && i < |m.chains| && pos < |m.chains[i]|
    ensures Chained(Removed(m, i, pos, q), hash)
  {
    WithoutOne(m.chains[i], pos);
    var m' := Removed(m, i, pos, q);
    forall k, x | 0 <= k < |m'.chains| && x in m'.chains[k] ensures x in m'.values && hash(x.key) % |m'.chains| == k {
      assert x in m.chains[k];
      assert m.chains[i][pos] in m.chains[i];
    }
  }

  lemma RemovedRepresents<K(!new), V, Q>(m: Model<K, V, Q>, classOf: K -> Q, i: nat, pos: nat)
    requires Represents(m, classOf) && i < |m.chains| && pos < |m.chains[i]| && m.chains[i][pos] in m.values
    ensures Represents(Removed(m, i, pos, classOf(m.chains[i][pos].key)), classOf)
  {
  }

  lemma RemovedKeeps<K(!new), V, Q>(m: Model<K, V, Q>, hash: K -> nat, classOf: K -> Q, i: nat, pos: nat)
    requires WellFormed(m, hash, classOf)
    requires i < |m.chains| && pos < |m.chains[i]|
    ensures WellFormed(Removed(m, i, pos, classOf(m.chains[i][pos].key)), hash, classOf)
  {
    assert m.chains[i][pos] in m.chains[i];
    RemovedChained(m, hash, i, pos, classOf(m.chains[i][pos].key));
    RemovedRepresents(m, classOf, i, pos);
  }

  /** The entry of a key is in the bucket of any equal key. */
  lemma FoundInBucket<K(!new), V, Q>(m: Model<K, V, Q>, hash: K -> nat, classOf: K -> Q, key: K)
    requires WellFormed(m, hash, classOf) && Respects(hash, classOf) && classOf(key) in m.contents
    ensures |m.chains| > 0 && classOf(key) in m.entryOf && m.entryOf[classOf(key)] in m.chains[hash(key) % |m.chains|]
    ensures classOf(m.entryOf[classOf(key)].key) == classOf(key)
  {
    var e := m.entryOf[classOf(key)];
    assert e in m.values && hash(e.key) == hash(key);
  }

  lemma ChainedIsKnown<K(!new), V, Q>(m: Model<K, V, Q>, hash: K -> nat, classOf: K -> Q, i: nat, e: Entry<K, V>)
    requires WellFormed(m, hash, classOf) && i < |m.chains| && e in m.chains[i]
    ensures e in m.values && classOf(e.key) in m.contents && m.contents[classOf(e.key)] == m.values[e]
  {
  }

  lemma ChainsDisjoint<K, V, Q>(m: Model<K, V, Q>, hash: K -> nat, i: nat)
    requires Chained(m, hash) && i < |m.chains|
    ensures NoRepeat(m.chains[i]) && forall e :: e in m.chains[i] ==> e in m.values
    ensures forall k, e {:trigger e in m.chains[k]} :: 0 <= k < |m.chains| && k != i && e in m.chains[k] ==> e !in m.chains[i]
  {
  }

  lemma EmptyChains<K(!new), V, Q>(m: Model<K, V, Q>, hash: K -> nat, classOf: K -> Q)
    requires WellFormed(m, hash, classOf) && |m.chains| == 0
    ensures m.values == map[] && m.contents == map[]
  {
  }

  lemma EntryIsKnown<K(!new), V, Q>(m: Model<K, V, Q>, hash: K -> nat, classOf: K -> Q, e: Entry<K, V>)
    requires WellFormed(m, hash, classOf) && e in m.values
    ensures classOf(e.key) in m.contents && m.entryOf[classOf(e.key)] == e && m.contents[classOf(e.key)] == m.values[e]
  {
  }

  // ------------------------------------------------------------------ the linked lists

  /** A bucket is a doubly linked list from its first to its last entry. */
  ghost predicate LinkedAt<K, V>(l: Links<K, V>, i: nat, chain: seq<Entry<K, V>>) {
    && i < |l.heads|
    && l.heads[i].first == (if chain == [] then null else chain[0])
    && l.heads[i].last == (if chain == [] then null else chain[|chain| - 1])
    && (forall j {:trigger chain[j]} :: 0 <= j < |chain| ==> LinkedEntry(l, chain, j))
  }

  ghost predicate Linked<K, V>(l: Links<K, V>, chains: seq<seq<Entry<K, V>>>) {
    |l.heads| == |chains| && forall i :: 0 <= i < |chains| ==> LinkedAt(l, i, chains[i])
  }

  ghost function Appended<K, V>(l: Links<K, V>, i: nat, e: Entry<K, V>): Links<K, V>
    requires i < |l.heads|
  {
    var b := l.heads[i];
    Links(l.heads[i := Bucket(if b.last == null then e else b.first, e)],
          if b.last == null then l.next[e := null] else l.next[e := null][b.last := e],
          l.prev[e := b.last])
  }

  lemma AppendedAt<K, V>(l: Links<K, V>, i: nat, chain: seq<Entry<K, V>>, e: Entry<K, V>)
    requires LinkedAt(l, i, chain) && NoRepeat(chain) && e !in chain
    ensures LinkedAt(Appended(l, i, e), i, chain + [e])
  {
    forall j | 0 <= j <= |chain| ensures LinkedEntry(Appended(l, i, e), chain + [e], j) {
      if j < |chain| { assert LinkedEntry(l, chain, j) && chain[j] in chain; }
    }
  }

  lemma AppendedElsewhere<K, V>(l: Links<K, V>, i: nat, chain: seq<Entry<K, V>>, e: Entry<K, V>, k: nat, other: seq<Entry<K, V>>)
    requires LinkedAt(l, i, chain) && LinkedAt(l, k, other) && k != i
    requires e !in other && forall x :: x in chain ==> x !in other
    ensures LinkedAt(Appended(l, i, e), k, other)
  {
    if chain != [] { assert chain[|chain| - 1] in chain; }
    forall j | 0 <= j < |other| ensures LinkedEntry(Appended(l, i, e), other, j) {
      assert LinkedEntry(l, other, j) && other[j] in other;
    }
  }

  lemma AppendedLinked<K, V, Q>(m: Model<K, V, Q>, hash: K -> nat, l: Links<K, V>, i: nat, e: Entry<K, V>)
    requires Chained(m, hash) && Linked(l, m.chains) && i < |m.chains| && e !in m.values
    ensures Linked(Appended(l, i, e), m.chains[i := m.chains[i] + [e]])
  {
    AppendedAt(l, i, m.chains[i], e);
    forall k | 0 <= k < |m.chains| && k != i ensures LinkedAt(Appended(l, i, e), k, m.chains[k]) {
      AppendedElsewhere(l, i, m.chains[i], e, k, m.chains[k]);
    }
  }

  ghost function Unlinked<K, V>(l: Links<K, V>, i: nat, e: Entry<K, V>): Links<K, V>
    requires i < |l.heads| && e in l.next && e in l.prev
  {
    Bypassed(UnlinkedHeads(l, i, e), e)
  }

  /** A bucket that starts or ends with an entry starts or ends with its neighbour. */
  ghost function UnlinkedHeads<K, V>(l: Links<K, V>, i: nat, e: Entry<K, V>): Links<K, V>
    requires i < |l.heads| && e in l.next && e in l.prev
  {
    var b := l.heads[i];
    l.(heads := l.heads[i := Bucket(if b.first == e then l.next[e] else b.first, if b.last == e then l.prev[e] else b.last)])
  }

  /** The neighbours of an entry point to each other, and the entry to nothing. */
  ghost function Bypassed<K, V>(l: Links<K, V>, e: Entry<K, V>): Links<K, V>
    requires e in l.next && e in l.prev
  {
    var p, n := l.prev[e], l.next[e];
    Links(l.heads,
          (if p == null then l.next else l.next[p := n])[e := null],
          (if n == null then l.prev else l.prev[n := p])[e := null])
  }

  /** The links of the entries that stay. */
  lemma UnlinkedStays<K, V>(l: Links<K, V>, i: nat, chain: seq<Entry<K, V>>, pos: nat, o: nat)
    requires LinkedAt(l, i, chain) && NoRepeat(chain) && pos < |chain| && o < |chain| && o != pos
    ensures var l' := Unlinked(l, i, chain[pos]);
            && chain[o] in l'.next && l'.next[chain[o]] == (if o + 1 == pos then l.next[chain[pos]] else l.next[chain[o]])
            && chain[o] in l'.prev && l'.prev[chain[o]] == (if o == pos + 1 then l.prev[chain[pos]] else l.prev[chain[o]])
  {
    assert chain[o] != chain[pos];
    if pos > 0 && o != pos - 1 { assert chain[o] != chain[pos - 1]; }
    if pos + 1 < |chain| && o != pos + 1 { assert chain[o] != chain[pos + 1]; }
  }

  lemma UnlinkedHead<K, V>(l: Links<K, V>, i: nat, chain: seq<Entry<K, V>>, pos: nat)
    requires LinkedAt(l, i, chain) && NoRepeat(chain) && pos < |chain|
    ensures i < |Unlinked(l, i, chain[pos]).heads|
    ensures var b, rest := Unlinked(l, i, chain[pos]).heads[i], chain[..pos] + chain[pos + 1..];
            && b.first == (if rest == [] then null else rest[0])
            && b.last == (if rest == [] then null else rest[|rest| - 1])
  {
    if pos > 0 { assert chain[0] != chain[pos]; }
    if pos + 1 < |chain| { assert chain[|chain| - 1] != chain[pos]; }
  }

  ghost predicate LinkedEntry<K, V>(l: Links<K, V>, chain: seq<Entry<K, V>>, j: nat)
    requires j < |chain|
  {
    && chain[j] in l.next && l.next[chain[j]] == (if j + 1 < |chain| then chain[j + 1] else null)
    && chain[j] in l.prev && l.prev[chain[j]] == (if j > 0 then chain[j - 1] else null)
  }

  lemma UnlinkedEntry<K, V>(l: Links<K, V>, i: nat, chain: seq<Entry<K, V>>, pos: nat, j: nat)
    requires LinkedAt(l, i, chain) && NoRepeat(chain) && pos < |chain| && j + 1 < |chain|
    ensures LinkedEntry(Unlinked(l, i, chain[pos]), chain[..pos] + chain[pos + 1..], j)
  {
    hide LinkedAt, Unlinked, NoRepeat;
    var o := if j < pos then j else j + 1;
    UnlinkedStays(l, i, chain, pos, o);
    LinkedAtEntry(l, i, chain, o);
    LinkedAtEntry(l, i, chain, pos);
    WithoutAt(chain, pos, j);
    if j > 0 { WithoutAt(chain, pos, j - 1); }
    if j + 2 < |chain| { WithoutAt(chain, pos, j + 1); }
  }

  lemma LinkedAtEntry<K, V>(l: Links<K, V>, i: nat, chain: seq<Entry<K, V>>, j: nat)
    requires LinkedAt(l, i, chain) && j < |chain|
    ensures LinkedEntry(l, chain, j)
  {
  }

  lemma WithoutAt<T>(s: seq<T>, pos: nat, j: nat)
    requires pos < |s| && j + 1 < |s|
    ensures (s[..pos] + s[pos + 1..])[j] == s[if j < pos then j else j + 1]
  {
  }

  lemma UnlinkedAt<K, V>(l: Links<K, V>, i: nat, chain: seq<Entry<K, V>>, pos: nat)
    requires LinkedAt(l, i, chain) && NoRepeat(chain) && pos < |chain|
    ensures LinkedAt(Unlinked(l, i, chain[pos]), i, chain[..pos] + chain[pos + 1..])
  {
    hide Unlinked, NoRepeat;
    var l', rest := Unlinked(l, i, chain[pos]), chain[..pos] + chain[pos + 1..];
    UnlinkedHead(l, i, chain, pos);
    forall j | 0 <= j < |rest| ensures LinkedEntry(l', rest, j) {
      UnlinkedEntry(l, i, chain, pos, j);
    }
  }

  lemma UnlinkedElsewhere<K, V>(l: Links<K, V>, i: nat, chain: seq<Entry<K, V>>, pos: nat, k: nat, other: seq<Entry<K, V>>)
    requires LinkedAt(l, i, chain) && LinkedAt(l, k, other) && k != i && pos < |chain|
    requires forall x :: x in chain ==> x !in other
    ensures LinkedAt(Unlinked(l, i, chain[pos]), k, other)
  {
    assert LinkedEntry(l, chain, pos) && chain[pos] in chain;
    if pos > 0 { assert chain[pos - 1] in chain; }
    if pos + 1 < |chain| { assert chain[pos + 1] in chain; }
    forall j | 0 <= j < |other| ensures LinkedEntry(Unlinked(l, i, chain[pos]), other, j) {
      assert LinkedEntry(l, other, j) && other[j] in other;
    }
  }

  lemma UnlinkedLinked<K, V, Q>(m: Model<K, V, Q>, hash: K -> nat, l: Links<K, V>, i: nat, pos: nat)
    requires Chained(m, hash) && Linked(l, m.chains) && i < |m.chains| && pos < |m.chains[i]|
    requires m.chains[i][pos] in l.next && m.chains[i][pos] in l.prev
    ensures Linked(Unlinked(l, i, m.chains[i][pos]), m.chains[i := m.chains[i][..pos] + m.chains[i][pos + 1..]])
  {
    UnlinkedAt(l, i, m.chains[i], pos);
    forall k | 0 <= k < |m.chains| && k != i ensures LinkedAt(Unlinked(l, i, m.chains[i][pos]), k, m.chains[k]) {
      UnlinkedElsewhere(l, i, m.chains[i], pos, k, m.chains[k]);
    }
  }

  lemma LastIsKnown<K, V, Q>(m: Model<K, V, Q>, hash: K -> nat, l: Links<K, V>, i: nat)
    requires Chained(m, hash) && Linked(l, m.chains) && i < |m.chains|
    ensures l.heads[i].last != null ==> l.heads[i].last in m.values
  {
    var chain := m.chains[i];
    assert LinkedAt(l, i, chain);
    if chain != [] { assert chain[|chain| - 1] in chain; }
  }

  lemma NeighboursAreKnown<K, V, Q>(m: Model<K, V, Q>, hash: K -> nat, l: Links<K, V>, i: nat, pos: nat)
    requires Chained(m, hash) && Linked(l, m.chains) && i < |m.chains| && pos < |m.chains[i]|
    ensures var e := m.chains[i][pos];
            && e in m.chains[i] && e in m.values && e in l.next && e in l.prev
            && (l.next[e] != null ==> l.next[e] in m.values) && (l.prev[e] != null ==> l.prev[e] in m.values)
  {
    var chain := m.chains[i];
    assert LinkedAt(l, i, chain) && LinkedEntry(l, chain, pos);
    assert chain[pos] in chain;
    if pos + 1 < |chain| { assert chain[pos + 1] in chain; }
    if pos > 0 { assert chain[pos - 1] in chain; }
  }

  lemma InsertionKeeps<K(!new), V, Q>(m: Model<K, V, Q>, hash: K -> nat, classOf: K -> Q, l: Links<K, V>, e: Entry<K, V>, value: V)
    requires WellFormed(m, hash, classOf) && Linked(l, m.chains) && |m.chains| > 0
    requires e !in m.values && classOf(e.key) !in m.contents
    ensures var i := hash(e.key) % |m.chains|;
            var m' := Inserted(m, i, e, classOf(e.key), value);
            && m'.values == m.values[e := value]
            && WellFormed(m', hash, classOf) && |m'.contents| == |m.contents| + 1
            && i < |l.heads| && Linked(Appended(l, i, e), m'.chains)
            && (l.heads[i].last != null ==> l.heads[i].last in m.values)
  {
    hide Chained, Represents, LinkedAt, NoRepeat;
    InsertedKeeps(m, hash, classOf, e, value);
    AppendedLinked(m, hash, l, hash(e.key) % |m.chains|, e);
    LastIsKnown(m, hash, l, hash(e.key) % |m.chains|);
  }

  lemma RemovalKeeps<K(!new), V, Q>(m: Model<K, V, Q>, hash: K -> nat, classOf: K -> Q, l: Links<K, V>, i: nat, pos: nat)
    requires WellFormed(m, hash, classOf) && Linked(l, m.chains) && i < |m.chains| && pos < |m.chains[i]|
    ensures var e := m.chains[i][pos];
            && e in m.values && e in l.next && e in l.prev
            && (l.next[e] != null ==> l.next[e] in m.values) && (l.prev[e] != null ==> l.prev[e] in m.values)
            && Linked(Unlinked(l, i, e), Removed(m, i, pos, classOf(e.key)).chains)
            && |m.contents| == |Removed(m, i, pos, classOf(e.key)).contents| + 1
    ensures WellFormed(Removed(m, i, pos, classOf(m.chains[i][pos].key)), hash, classOf)
  {
    hide Chained, Represents, LinkedAt, NoRepeat, Unlinked;
    NeighboursAreKnown(m, hash, l, i, pos);
    RemovedKeeps(m, hash, classOf, i, pos);
    UnlinkedLinked(m, hash, l, i, pos);
    ChainedIsKnown(m, hash, classOf, i, m.chains[i][pos]);
  }

  // ------------------------------------------------------------------ the table in memory

  class HashTable<K(!new), V, Q(!new)> {
    const hash: K -> nat
    const equal: (K, K) -> bool
    ghost const classOf: K -> Q
    var buckets: array?<Bucket<K, V>>
    var entryCount: nat
    ghost var model: Model<K, V, Q>
    ghost var links: Links<K, V>

    ghost predicate KeysOk() {
      Respects(hash, classOf) && forall k, k' {:trigger equal(k, k')} :: equal(k, k') <==> classOf(k) == classOf(k')
    }

    ghost function Entries(): set<Entry<K, V>>
      reads this`model
    {
      model.values.Keys
    }

    ghost predicate HoldsEntry(e: Entry<K, V>)
      reads this`model, this`links, e
      requires e in model.values
    {
      && e.value == model.values[e]
      && e in links.next && e.next == links.next[e]
      && e in links.prev && e.prev == links.prev[e]
    }

    /** The memory holds the logical table and its links. */
    ghost predicate Holds()
      reads this`buckets, this`model, this`links, buckets, Entries()
    {
      && (if buckets == null then links.heads == [] else buckets.Length > 0 && buckets[..] == links.heads)
      && (forall e {:trigger e in model.values} :: e in model.values ==> HoldsEntry(e))
    }

    ghost predicate Valid()
      reads this, buckets, Entries()
    {
      && KeysOk() && WellFormed(model, hash, classOf) && Linked(links, model.chains) && Holds()
      && entryCount == |model.contents|
    }

    /** All that the table is made of. */
    ghost function Repr(): set<object>
      reads this
    {
      {this} + Entries() + if buckets == null then {} else {buckets}
    }

    /** The map from classes of equal keys to values. */
    ghost function Contents(): map<Q, V>
      reads this`model
    {
      model.contents
    }

    constructor (hash: K -> nat, equal: (K, K) -> bool, ghost classOf: K -> Q)
      requires Respects(hash, classOf)
      requires forall k, k' {:trigger equal(k, k')} :: equal(k, k') <==> classOf(k) == classOf(k')
      ensures Valid() && buckets == null && Contents() == map[] && Entries() == {} && Repr() == {this}
      ensures this.hash == hash && this.equal == equal && this.classOf == classOf
    {
      this.hash, this.equal, this.classOf := hash, equal, classOf;
      buckets, entryCount := null, 0;
      model, links := Model([], map[], map[], map[]), Links([], map[], map[]);
    }

    method FindInBucket(i: nat, key: K) returns (entry: Entry?<K, V>, ghost pos: nat)
      requires KeysOk() && Linked(links, model.chains) && Holds() && buckets != null && i < buckets.Length
      requires forall j :: 0 <= j < |model.chains[i]| ==> model.chains[i][j] in model.values
      ensures entry == null ==> forall e :: e in model.chains[i] ==> classOf(e.key) != classOf(key)
      ensures entry != null ==> pos < |model.chains[i]| && model.chains[i][pos] == entry && classOf(entry.key) == classOf(key)
    {
      hide Respects;
      entry := buckets[i].first;
      ghost var chain := model.chains[i];
      assert LinkedAt(links, i, chain);
      pos := 0;
      while entry != null
        invariant pos <= |chain| && entry == if pos < |chain| then chain[pos] else null
        invariant forall j :: 0 <= j < pos ==> classOf(chain[j].key) != classOf(key)
        decreases |chain| - pos
      {
        if equal(entry.key, key) {
          return;
        }
        assert LinkedEntry(links, chain, pos) && HoldsEntry(entry);
        entry := entry.next;
        pos := pos + 1;
      }
    }

    /** The bucket of a key and its entry there, or null. */
    method FindEntry(key: K) returns (i: nat, entry: Entry?<K, V>, ghost pos: nat)
      requires Valid() && buckets != null
      ensures i < |model.chains| && i == hash(key) % |model.chains|
      ensures entry == null <==> classOf(key) !in Contents()
      ensures entry != null ==> pos < |model.chains[i]| && model.chains[i][pos] == entry && classOf(entry.key) == classOf(key)
      ensures entry != null ==> entry in Entries() && model.values[entry] == Contents()[classOf(key)]
    {
      hide Chained, Represents, Respects, LinkedAt, HoldsEntry;
      i := hash(key) % buckets.Length;
      ChainsDisjoint(model, hash, i);
      entry, pos := FindInBucket(i, key);
      if classOf(key) in Contents() {
        FoundInBucket(model, hash, classOf, key);
      }
      if entry != null {
        ChainedIsKnown(model, hash, classOf, i, entry);
      }
    }

    method Get(key: K) returns (value: Option<V>)
      requires Valid()
      ensures value == if classOf(key) in Contents() then Some(Contents()[classOf(key)]) else None
    {
      hide Chained, Represents, Respects, LinkedAt;
      if buckets == null {
        EmptyChains(model, hash, classOf);
        return None;
      }
      var i, entry, pos := FindEntry(key);
      if entry == null {
        return None;
      }
      assert HoldsEntry(entry);
      return Some(entry.value);
    }

    method Size() returns (count: nat)
      requires Valid()
      ensures count == |Contents()|
    {
      hide Respects, Chained, Represents, Linked, HoldsEntry;
      return entryCount;
    }

    /** A new table, without the entries of the old one; no table at all for 0 buckets. */
    method SetBucketCount(count: nat, canAllocate: bool) returns (ok: bool)
      requires Valid()
      modifies this
      ensures Valid() && fresh(Repr() - old(Repr()))
      ensures ok == (count == 0 || canAllocate)
      ensures ok ==> Contents() == map[] && Entries() == {} && (buckets == null <==> count == 0)
                     && (buckets != null ==> buckets.Length == count)
      ensures !ok ==> model == old(model) && buckets == old(buckets)
    {
      hide Respects, Chained, Represents, Linked;
      if count == 0 {
        Forget();
        return true;
      }
      if !canAllocate {
        return false;
      }
      Allocate(count);
      return true;
    }

    /** The same for a table without buckets; nothing for one that has some. */
    method SetBucketCountForNilRef(count: nat, canAllocate: bool) returns (ok: bool)
      requires Valid()
      modifies this
      ensures Valid() && fresh(Repr() - old(Repr()))
      ensures ok == (old(buckets) != null || count == 0 || canAllocate)
      ensures if old(buckets) == null && ok && count > 0 then buckets != null && Contents() == map[] && Entries() == {}
              else Contents() == old(Contents()) && Entries() == old(Entries()) && buckets == old(buckets)
    {
      hide Respects, Chained, Represents, Linked, HoldsEntry;
      if buckets != null {
        return true;
      }
      EmptyWithoutBuckets();
      ok := SetBucketCount(count, canAllocate);
    }

    lemma EmptyWithoutBuckets()
      requires Valid() && buckets == null
      ensures Contents() == map[] && Entries() == {}
    {
      EmptyChains(model, hash, classOf);
    }

    method Forget()
      requires KeysOk()
      modifies this
      ensures Valid() && buckets == null && Contents() == map[] && Entries() == {}
    {
      hide Respects;
      buckets := null;
      entryCount, model, links := 0, Model([], map[], map[], map[]), Links([], map[], map[]);
    }

    method Allocate(count: nat)
      requires KeysOk() && count > 0
      modifies this
      ensures Valid() && fresh(buckets) && buckets.Length == count && Contents() == map[] && Entries() == {}
    {
      hide Respects;
      buckets := new Bucket<K, V>[count](_ => Bucket(null, null));
      entryCount, model, links := 0, Model(seq(count, _ => []), map[], map[], map[]), Links(buckets[..], map[], map[]);
    }

    method Replace(entry: Entry<K, V>, value: V)
      requires Valid() && entry in Entries()
      modifies this`model, entry`value
      ensures Valid() && model == Replaced(old(model), entry, classOf(entry.key), value)
      ensures classOf(entry.key) in old(Contents())
    {
      hide Respects, Chained, Represents, Linked;
      ReplacedKeeps(model, hash, classOf, entry, value);
      EntryIsKnown(model, hash, classOf, entry);
      entry.value := value;
      model := Replaced(model, entry, classOf(entry.key), value);
    }

    method SetNext(x: Entry<K, V>, next: Entry?<K, V>)
      requires Holds() && x in Entries()
      modifies this`links, x`next
      ensures Holds() && links == old(links).(next := old(links).next[x := next])
    {
      x.next := next;
      links := links.(next := links.next[x := next]);
    }

    method SetPrev(x: Entry<K, V>, prev: Entry?<K, V>)
      requires Holds() && x in Entries()
      modifies this`links, x`prev
      ensures Holds() && links == old(links).(prev := old(links).prev[x := prev])
    {
      x.prev := prev;
      links := links.(prev := links.prev[x := prev]);
    }

    method SetBucket(i: nat, b: Bucket<K, V>)
      requires Holds() && buckets != null && i < buckets.Length
      modifies this`links, buckets
      ensures Holds() && links == old(links).(heads := old(links).heads[i := b])
    {
      buckets[i] := b;
      links := links.(heads := links.heads[i := b]);
    }

    /** The logical table takes over an entry as it is. */
    ghost method Adopt(e: Entry<K, V>, m: Model<K, V, Q>)
      requires Holds() && e !in Entries() && m.values == model.values[e := e.value]
      modifies this`model, this`links
      ensures Holds() && model == m
      ensures links == old(links).(next := old(links).next[e := e.next], prev := old(links).prev[e := e.prev])
    {
      model := m;
      links := links.(next := links.next[e := e.next], prev := links.prev[e := e.prev]);
    }

    /** Links a new entry behind the last one of a bucket. */
    method Append(i: nat, e: Entry<K, V>, ghost m: Model<K, V, Q>)
      requires Holds() && buckets != null && i < buckets.Length && e !in Entries()
      requires m.values == model.values[e := e.value]
      requires buckets[i].last != null ==> buckets[i].last in Entries()
      modifies this`links, this`model, buckets, e, Entries()
      ensures model == m && links == Appended(old(links), i, e) && Holds()
    {
      var b := buckets[i];
      e.prev := b.last;
      e.next := null;
      assert Holds();
      hide HoldsEntry;
      Adopt(e, m);
      if b.last != null {
        SetNext(b.last, e);
        SetBucket(i, b.(last := e));
      } else {
        SetBucket(i, Bucket(e, e));
      }
    }

    lemma BucketsHeld()
      requires Valid() && buckets != null
      ensures buckets.Length == |model.chains| > 0 && forall i :: 0 <= i < buckets.Length ==> buckets[i] == links.heads[i]
    {
      hide Respects, Chained, Represents, LinkedAt, HoldsEntry;
    }

    method Insert(i: nat, e: Entry<K, V>)
      requires Valid() && buckets != null && i < |model.chains| && i == hash(e.key) % |model.chains|
      requires classOf(e.key) !in Contents() && e !in Entries()
      modifies this`entryCount, this`model, this`links, buckets, e, Entries()
      ensures Valid() && buckets == old(buckets)
      ensures model == old(Inserted(model, i, e, classOf(e.key), e.value))
    {
      hide KeysOk, WellFormed, Linked, HoldsEntry, Appended, Inserted;
      BucketsHeld();
      ghost var m := Inserted(model, i, e, classOf(e.key), e.value);
      InsertionKeeps(model, hash, classOf, links, e, e.value);
      Append(i, e, m);
      entryCount := entryCount + 1;
    }

    /** The new entry needs memory for itself, for its key and for its value; without one of them the
        table stays as it is. */
    method Add(key: K, value: V, forEntry: bool, forKey: bool, forValue: bool) returns (ok: bool)
      requires Valid()
      modifies this`entryCount, this`model, this`links, buckets, Entries()
      ensures Valid() && buckets == old(buckets) && fresh(Entries() - old(Entries())) && old(Entries()) <= Entries()
      ensures ok == (buckets == null || classOf(key) in old(Contents()) || (forEntry && forKey && forValue))
      ensures Contents() == if ok && buckets != null then old(Contents())[classOf(key) := value] else old(Contents())
      ensures !ok || buckets == null ==> model == old(model) && links == old(links) && entryCount == old(entryCount)
    {
      hide Respects, Chained, Represents, Linked, HoldsEntry;
      if buckets == null {
        return true;
      }
      var i, entry, pos := FindEntry(key);
      if entry == null {
        if !forEntry {
          return false;
        }
        var e := new Entry(key, value);
        if !forKey {
          return false;
        }
        if !forValue {
          return false;
        }
        Insert(i, e);
      } else {
        Replace(entry, value);
      }
      return true;
    }

    /** Takes an entry out between its neighbours. */
    method Bypass(e: Entry<K, V>)
      requires Holds() && e in Entries() && e in links.next && e in links.prev
      requires links.prev[e] != null ==> links.prev[e] in Entries()
      requires links.next[e] != null ==> links.next[e] in Entries()
      modifies this`links, Entries()
      ensures links == old(Bypassed(links, e)) && Holds()
    {
      assert HoldsEntry(e);
      hide HoldsEntry;
      var prev, next := e.prev, e.next;
      if prev != null { SetNext(prev, next); }
      if next != null { SetPrev(next, prev); }
      SetPrev(e, null);
      SetNext(e, null);
    }

    method UnlinkHead(i: nat, e: Entry<K, V>)
      requires Holds() && buckets != null && i < buckets.Length && e in Entries() && e in links.next && e in links.prev
      modifies this`links, buckets
      ensures links == old(UnlinkedHeads(links, i, e)) && Holds()
    {
      assert HoldsEntry(e);
      hide HoldsEntry;
      var b := buckets[i];
      if b.first == e { b := b.(first := e.next); }
      if b.last == e { b := b.(last := e.prev); }
      SetBucket(i, b);
    }

    /** Takes an entry out of its list. */
    method Unlink(i: nat, e: Entry<K, V>)
      requires Holds() && buckets != null && i < buckets.Length && e in Entries() && e in links.next && e in links.prev
      requires links.prev[e] != null ==> links.prev[e] in Entries()
      requires links.next[e] != null ==> links.next[e] in Entries()
      modifies this`links, buckets, Entries()
      ensures buckets == old(buckets) && links == old(Unlinked(links, i, e)) && Holds()
    {
      hide HoldsEntry;
      UnlinkHead(i, e);
      Bypass(e);
    }

    /** Forgets logically an entry that is linked nowhere any more. */
    ghost method SetModel(m: Model<K, V, Q>)
      requires Holds() && m.values.Keys <= model.values.Keys && forall e :: e in m.values ==> m.values[e] == model.values[e]
      modifies this`model
      ensures model == m && Holds()
    {
      model := m;
    }

    method Remove(i: nat, e: Entry<K, V>, ghost pos: nat)
      requires Valid() && buckets != null && i < buckets.Length && i < |model.chains|
      requires pos < |model.chains[i]| && model.chains[i][pos] == e
      modifies this`entryCount, this`model, this`links, buckets, Entries()
      ensures Valid() && buckets == old(buckets)
      ensures model == old(Removed(model, i, pos, classOf(e.key)))
    {
      hide Respects, Chained, Represents, LinkedAt, HoldsEntry, NoRepeat, Unlinked;
      RemovalKeeps(model, hash, classOf, links, i, pos);
      Unlink(i, e);
      SetModel(Removed(model, i, pos, classOf(e.key)));
      entryCount := entryCount - 1;
    }

    method Del(key: K) returns (ok: bool)
      requires Valid()
      modifies this`entryCount, this`model, this`links, buckets, Entries()
      ensures Valid() && buckets == old(buckets) && Entries() <= old(Entries())
      ensures ok == (classOf(key) in old(Contents()))
      ensures Contents() == old(Contents()) - {classOf(key)}
    {
      hide Respects, Chained, Represents, LinkedAt, HoldsEntry;
      if buckets == null {
        EmptyChains(model, hash, classOf);
        return false;
      }
      var i, entry, pos := FindEntry(key);
      if entry == null {
        return false;
      }
      Remove(i, entry, pos);
      return true;
    }
  }
}