/** The associative arrays of LEMON: a chained hash table that doubles when it is
    full, over nodes kept in the order of insertion. A link is the number of a
    node, or -1. */
module HashTables {
  import opened Options
  import opened Automata
  import opened States

  /** The hash is an `int`, masked to the size of the table. */
  function Bucket<K>(hash: K -> int, size: nat, key: K): (h: nat)
    requires size > 0
    ensures h < size
  {
    hash(key) % size
  }

  predicate PowerOf2(n: nat) { n == 1 || (n > 0 && n % 2 == 0 && PowerOf2(n / 2)) }

  datatype Node<K, D> = Node(key: K, data: D, next: int)

  // ---------------------------------------------------------------------------
  // The meaning of a table

  /** Linear search in the order of insertion. */
  function Lookup<K(==), D>(entries: seq<(K, D)>, key: K): Option<D> {
    if entries == [] then None
    else if entries[0].0 == key then Some(entries[0].1)
    else Lookup(entries[1..], key)
  }

  lemma {:induction false} LookupFinds<K, D>(entries: seq<(K, D)>, i: nat)
    requires i < |entries| && forall j, k :: 0 <= j < k < |entries| ==> entries[j].0 != entries[k].0
    ensures Lookup(entries, entries[i].0) == Some(entries[i].1)
  {
    if i > 0 {
      LookupFinds(entries[1..], i - 1);
    }
  }

  lemma {:induction false} LookupMisses<K, D>(entries: seq<(K, D)>, key: K)
    ensures Lookup(entries, key) == None <==> forall i :: 0 <= i < |entries| ==> entries[i].0 != key
  {
    if entries != [] {
      LookupMisses(entries[1..], key);
      assert forall i :: 1 <= i < |entries| ==> entries[i] == entries[1..][i - 1];
    }
  }

  /** What a table holds after these inserts, none of which overwrites. */
  function Built<K(==), D>(ops: seq<(K, D)>): seq<(K, D)> {
    if ops == [] then []
    else
      var op, entries := ops[|ops| - 1], Built(ops[..|ops| - 1]);
      if Lookup(entries, op.0) == None then entries + [op] else entries
  }

  lemma {:induction false} LookupAppend<K, D>(a: seq<(K, D)>, b: seq<(K, D)>, key: K)
    ensures Lookup(a + b, key) == if Lookup(a, key) == None then Lookup(b, key) else Lookup(a, key)
  {
    if a == [] {
      assert a + b == b;
    } else {
      assert (a + b)[1..] == a[1..] + b;
      LookupAppend(a[1..], b, key);
    }
  }

  /** Over any run of inserts, a key finds what was first inserted for it. */
  lemma {:induction false} FirstInsertWins<K, D>(ops: seq<(K, D)>, key: K)
    ensures Lookup(Built(ops), key) == Lookup(ops, key)
  {
    if ops != [] {
      var op, front := ops[|ops| - 1], ops[..|ops| - 1];
      FirstInsertWins(front, key);
      FirstInsertWins(front, op.0);
      assert ops == front + [op];
      LookupAppend(front, [op], key);
      LookupAppend(Built(front), [op], key);
    }
  }

  function EntriesOf<K, D>(tbl: seq<Node<K, D>>): seq<(K, D)> {
    seq(|tbl|, i requires 0 <= i < |tbl| => (tbl[i].key, tbl[i].data))
  }

  // ---------------------------------------------------------------------------
  // Chains

  /** `k` is the last node before `upto` in bucket `h`, or -1 if there is none. */
  ghost predicate LastIn<K, D>(hash: K -> int, size: nat, tbl: seq<Node<K, D>>, upto: int, h: int, k: int)
    requires size > 0
  {
    && -1 <= k < upto <= |tbl|
    && (k >= 0 ==> Bucket(hash, size, tbl[k].key) == h)
    && forall j :: 0 <= j < upto && k < j ==> Bucket(hash, size, tbl[j].key) != h
  }

  /** Every chain goes backwards through the nodes of its bucket. */
  ghost predicate Linked<K, D>(hash: K -> int, size: nat, tbl: seq<Node<K, D>>, ht: seq<int>) {
    && size > 0 && |ht| == size
    && (forall h :: 0 <= h < size ==> LastIn(hash, size, tbl, |tbl|, h, ht[h]))
    && (forall i :: 0 <= i < |tbl| ==> LastIn(hash, size, tbl, i, Bucket(hash, size, tbl[i].key), tbl[i].next))
  }

  /** A new node goes to the head of its chain. */
  lemma LinkedPush<K, D>(hash: K -> int, size: nat, tbl: seq<Node<K, D>>, ht: seq<int>, key: K, data: D)
    requires Linked(hash, size, tbl, ht)
    ensures var h := Bucket(hash, size, key);
            Linked(hash, size, tbl + [Node(key, data, ht[h])], ht[h := |tbl|])
  {
    var h := Bucket(hash, size, key);
    var tbl', ht' := tbl + [Node(key, data, ht[h])], ht[h := |tbl|];
    forall g | 0 <= g < size ensures LastIn(hash, size, tbl', |tbl'|, g, ht'[g]) {
      assert LastIn(hash, size, tbl, |tbl|, g, ht[g]);
    }
    forall i | 0 <= i < |tbl'| ensures LastIn(hash, size, tbl', i, Bucket(hash, size, tbl'[i].key), tbl'[i].next) {
      if i < |tbl| {
        assert LastIn(hash, size, tbl, i, Bucket(hash, size, tbl[i].key), tbl[i].next);
      } else {
        assert LastIn(hash, size, tbl, |tbl|, h, ht[h]);
      }
    }
  }

  /** All nodes over again in a table of another size. */
  method Rehash<K, D>(hash: K -> int, tbl: seq<Node<K, D>>, size: nat) returns (tbl': seq<Node<K, D>>, ht: array<int>)
    requires size > 0
    ensures fresh(ht) && ht.Length == size && Linked(hash, size, tbl', ht[..]) && EntriesOf(tbl') == EntriesOf(tbl)
  {
    ht := new int[size](_ => -1);
    tbl' := [];
    assert Linked(hash, size, tbl', ht[..]);
    hide Linked;
    for i := 0 to |tbl|
      invariant |tbl'| == i && Linked(hash, size, tbl', ht[..])
      invariant forall j :: 0 <= j < i ==> tbl'[j].key == tbl[j].key && tbl'[j].data == tbl[j].data
    {
      LinkedPush(hash, size, tbl', ht[..], tbl[i].key, tbl[i].data);
      var h := Bucket(hash, size, tbl[i].key);
      ghost var before := ht[..];
      tbl' := tbl' + [Node(tbl[i].key, tbl[i].data, ht[h])];
      ht[h] := i;
      assert ht[..] == before[h := i];
    }
  }

  class Table<K(==), D> {
    const hash: K -> int
    var size: nat
    var tbl: seq<Node<K, D>>
    var ht: array<int>

    ghost predicate Valid()
      reads this, ht
    {
      && PowerOf2(size) && ht.Length == size && |tbl| <= size
      && Linked(hash, size, tbl, ht[..])
      && forall i, j :: 0 <= i < j < |tbl| ==> tbl[i].key != tbl[j].key
    }

    function Entries(): seq<(K, D)>
      reads this
    {
      EntriesOf(tbl)
    }

    constructor (size: nat, hash: K -> int)
      requires PowerOf2(size)
      ensures Valid() && Entries() == [] && fresh(ht) && this.hash == hash
    {
      this.hash := hash;
      this.size := size;
      this.tbl := [];
      this.ht := new int[size](_ => -1);
      new;
      assert forall h :: 0 <= h < size ==> LastIn(hash, size, tbl, 0, h, ht[..][h]);
    }

    /** Walks one chain, yet answers for all the nodes. */
    method FindNode(key: K) returns (np: int)
      requires Valid()
      ensures -1 <= np < |tbl|
      ensures np >= 0 ==> tbl[np].key == key
      ensures np < 0 ==> forall i :: 0 <= i < |tbl| ==> tbl[i].key != key
    {
      var h := Bucket(hash, size, key);
      np := ht[h];
      assert LastIn(hash, size, tbl, |tbl|, h, ht[..][h]);
      while np >= 0 && tbl[np].key != key
        invariant -1 <= np < |tbl| && (np >= 0 ==> Bucket(hash, size, tbl[np].key) == h)
        invariant forall j :: 0 <= j < |tbl| && np < j && Bucket(hash, size, tbl[j].key) == h ==> tbl[j].key != key
      {
        assert LastIn(hash, size, tbl, np, Bucket(hash, size, tbl[np].key), tbl[np].next);
        np := tbl[np].next;
      }
    }

    method Find(key: K) returns (data: Option<D>)
      requires Valid()
      ensures data == Lookup(Entries(), key)
    {
      var np := FindNode(key);
      if np >= 0 {
        LookupFinds(Entries(), np);
        data := Some(tbl[np].data);
      } else {
        LookupMisses(Entries(), key);
        data := None;
      }
    }

    /** Twice the size, every node hashed anew. */
    method Double()
      requires Valid()
      modifies this`size, this`tbl, this`ht
      ensures Valid() && fresh(ht) && size == 2 * old(size) && Entries() == old(Entries())
    {
      var tbl', ht' := Rehash(hash, tbl, 2 * size);
      assert 2 * size / 2 == size;
      hide Linked;
      assert forall i :: 0 <= i < |tbl| ==> tbl'[i].key == EntriesOf(tbl')[i].0 == EntriesOf(tbl)[i].0 == tbl[i].key;
      size, tbl, ht := 2 * size, tbl', ht';
    }

    /** A new key goes to the end of the nodes and the head of its chain. */
    method Push(data: D, key: K)
      requires Valid() && |tbl| < size && forall i :: 0 <= i < |tbl| ==> tbl[i].key != key
      modifies this`tbl, ht
      ensures Valid() && Entries() == old(Entries()) + [(key, data)]
    {
      LinkedPush(hash, size, tbl, ht[..], key, data);
      hide Linked;
      var h := Bucket(hash, size, key);
      ghost var before := ht[..];
      tbl := tbl + [Node(key, data, ht[h])];
      ht[h] := |tbl| - 1;
      assert ht[..] == before[h := |tbl| - 1];
    }

    /** A key already present is refused; otherwise the entry comes last. */
    method Insert(data: D, key: K) returns (ok: bool)
      requires Valid()
      modifies this`size, this`tbl, this`ht, ht
      ensures Valid() && (ht == old(ht) || fresh(ht))
      ensures ok <==> old(Lookup(Entries(), key)) == None
      ensures Entries() == old(Entries()) + if ok then [(key, data)] else []
    {
      hide Linked, Lookup;
      ghost var entries := Entries();
      LookupMisses(entries, key);
      var np := FindNode(key);
      if np >= 0 {
        assert entries[np].0 == key;
        return false;
      }
      assert forall i :: 0 <= i < |entries| ==> entries[i].0 != key;
      if |tbl| >= size {
        Double();
      }
      assert forall i :: 0 <= i < |tbl| ==> Entries()[i].0 == tbl[i].key;
      Push(data, key);
      ok := true;
    }

    /** `State_arrayof`: the data in the order of insertion. */
    method ArrayOf() returns (data: seq<D>)
      ensures |data| == |Entries()| && forall i :: 0 <= i < |data| ==> data[i] == Entries()[i].1
    {
      data := [];
      for i := 0 to |tbl|
        invariant |data| == i && forall j :: 0 <= j < i ==> data[j] == tbl[j].data
      {
        data := data + [tbl[i].data];
      }
    }

    /** `Configtable_clear`. */
    method Clear()
      requires Valid()
      modifies this`tbl, ht
      ensures Valid() && Entries() == []
    {
      if |tbl| == 0 {
        return;
      }
      for i := 0 to size
        invariant forall j :: 0 <= j < i ==> ht[j] == -1
      {
        ht[i] := -1;
      }
      tbl := [];
      assert forall h :: 0 <= h < size ==> LastIn(hash, size, tbl, 0, h, ht[..][h]);
    }
  }

  // ---------------------------------------------------------------------------
  // Keys

  /** The lists agree up to a place where the first one ends or has the smaller item. */
  ghost predicate Precedes(a: seq<Item>, b: seq<Item>) {
    exists i :: 0 <= i <= |a| && i < |b| && a[..i] == b[..i] && (i == |a| || ConfigCmp(a[i], b[i]) < 0)
  }

  /** `statecmp` on two basis lists: zero exactly for equal lists, so that it is an
      equality test on keys, and otherwise the order of the dictionary. */
  method StateCmp(a: seq<Item>, b: seq<Item>) returns (rc: int)
    ensures rc == 0 <==> a == b
    ensures if rc < 0 then Precedes(a, b) else rc > 0 ==> Precedes(b, a)
  {
    rc := 0;
    var i := 0;
    while rc == 0 && i < |a| && i < |b|
      invariant 0 <= i <= |a| && i <= |b|
      invariant if rc == 0 then a[..i] == b[..i] else a != b
      invariant if rc < 0 then Precedes(a, b) else rc > 0 ==> Precedes(b, a)
    {
      rc := ConfigCmp(a[i], b[i]);
      assert a[..i + 1] == a[..i] + [a[i]] && b[..i + 1] == b[..i] + [b[i]];
      assert rc != 0 ==> a[i] != b[i];
      assert rc < 0 ==> Precedes(a, b);
      assert rc > 0 ==> ConfigCmp(b[i], a[i]) < 0 && Precedes(b, a);
      i := i + 1;
    }
    if rc == 0 {
      assert a[..i] == b[..i];
      if i < |a| { rc := 1; }
      if i < |b| { rc := -1; }
      assert i == |a| ==> a[..i] == a;
      assert i == |b| ==> b[..i] == b;
    }
  }

  /** Arithmetic of a 32-bit `int`. */
  function Wrap(x: int): (r: int)
    ensures -0x8000_0000 <= r < 0x8000_0000 && (r - x) % 0x1_0000_0000 == 0
  {
    (x + 0x8000_0000) % 0x1_0000_0000 - 0x8000_0000
  }

  /** `statehash`, from the hash `h` of the configurations before. */
  function StateHash(a: seq<Item>, h: int): int {
    if a == [] then h else StateHash(a[1..], Wrap(h * 571 + a[0].rule * 37 + a[0].dot))
  }

  /** One more configuration: a polynomial in 571 of what the configurations are, modulo
      2^32. */
  lemma {:induction false} HashAppend(a: seq<Item>, it: Item, h: int)
    ensures (StateHash(a + [it], h) - (571 * StateHash(a, h) + 37 * it.rule + it.dot)) % 0x1_0000_0000 == 0
    decreases |a|
  {
    hide Wrap;
    if a == [] {
      assert a + [it] == [it] && [it][1..] == [];
      assert StateHash([it], h) == StateHash([], Wrap(h * 571 + it.rule * 37 + it.dot));
    } else {
      assert (a + [it])[1..] == a[1..] + [it];
      HashAppend(a[1..], it, Wrap(h * 571 + a[0].rule * 37 + a[0].dot));
    }
  }

  /** `State_init`. */
  method StateInit<D>() returns (x3a: Table<seq<Item>, D>)
    ensures fresh(x3a) && fresh(x3a.ht) && x3a.Valid() && x3a.Entries() == []
  {
    x3a := new Table(128, a => StateHash(a, 0));
  }

  /** `Configtable_init`. */
  method ConfigtableInit<D>() returns (x4a: Table<Item, D>)
    ensures fresh(x4a) && fresh(x4a.ht) && x4a.Valid() && x4a.Entries() == []
  {
    x4a := new Table(64, a => StateHash([a], 0));
  }
}
