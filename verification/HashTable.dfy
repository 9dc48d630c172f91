/** The hash table of lang/ht.c and the hash functions of lang/common.c. The ghost `contents` is the map
    the table stands for. */
module HashTable {
  import opened Wrappers
  import opened Bits
  import opened ProbeTable

  const INITIAL_CAPACITY := 256

  // ---- Hashing ---------------------------------------------------------------------

  /** A C string in memory: the bytes of `key`, then 0, then anything. */
  predicate Terminated(text: seq<byte>, key: Key) {
    |key| < |text| && text[..|key|] == key && text[|key|] == 0 && 0 !in key
  }

  /** `hash_string`: the hash of the first `length` bytes. */
  method HashString(text: seq<byte>, length: nat) returns (hash: nat)
    requires length <= |text|
    ensures hash == HashOf(text[..length])
  {
    hide Mix;
    hash := FNV_OFFSET;
    assert text[..length][0..] == text[..length];
    for i := 0 to length
      invariant Fnv(hash, text[..length][i..]) == HashOf(text[..length])
    {
      assert text[..length][i..][0] == text[i] && text[..length][i..][1..] == text[..length][i + 1..];
      hash := Mix(hash, text[i]);
    }
    assert text[..length][length..] == [];
  }

  /** `hash_key`: the hash up to the terminator. */
  method HashKey(text: seq<byte>, ghost key: Key) returns (hash: nat)
    requires Terminated(text, key)
    ensures hash == HashOf(key)
  {
    hide Mix;
    hash := FNV_OFFSET;
    var p := 0;
    assert key[0..] == key;
    while text[p] != 0
      invariant p <= |key| && Fnv(hash, key[p..]) == HashOf(key)
      decreases |key| - p
    {
      TextAt(text, key, p);
      assert key[p..][0] == key[p] && key[p..][1..] == key[p + 1..];
      hash := Mix(hash, text[p]);
      p := p + 1;
    }
    KeyEnds(text, key, p);
    assert key[p..] == [];
  }

  lemma TextAt(text: seq<byte>, key: Key, p: nat)
    requires Terminated(text, key) && p <= |key| && text[p] != 0
    ensures p < |key| && text[p] == key[p]
  {
    if p < |key| {
      assert text[..|key|][p] == text[p];
    }
  }

  lemma KeyEnds(text: seq<byte>, key: Key, p: nat)
    requires Terminated(text, key) && p <= |key| && text[p] == 0
    ensures p == |key|
  {
    assert forall i :: 0 <= i < |key| ==> text[i] == text[..|key|][i] && key[i] in key;
  }

  /** The first index: the hash cut to the capacity, a power of two. */
  method FirstIndex(hash: nat, capacity: nat, ghost k: nat) returns (index: nat)
    requires capacity == Pow2(k) && capacity > 0
    ensures index == hash % capacity
  {
    AndMask(hash, k);
    index := And(hash, capacity - 1);
  }

  // ---- The table -----------------------------------------------------------------------

  /** `ht_set_entry_w_hash`: sets the key in an array with a free slot; `added` if it was not there. */
  method SetEntry(entries: array<Slot>, key: Key, hash: nat, value: Pointer, ghost k: nat, ghost m: map<Key, Pointer>)
    returns (added: bool)
    requires entries.Length == Pow2(k) && Holds(entries[..], m) && |m| < entries.Length
    requires hash == HashOf(key) && value != NULL
    modifies entries
    ensures Holds(entries[..], m[key := value])
    ensures added <==> key !in m
  {
    hide HashOf;
    hide Holds;
    hide Pow2;
    ghost var s := entries[..];
    var index := FirstIndex(hash, entries.Length, k);
    ghost var start, d := index, 0;
    assert start == Home(key, |s|);
    while entries[index].Used?
      invariant entries[..] == s && d < |s| && index == At(|s|, start, d) && Passed(s, key, start, d)
      decreases |s| - d
    {
      assert s[index] == entries[index];
      if entries[index].key == key {
        SetHolds(s, m, key, value, d);
        entries[index] := Used(key, value);
        assert entries[..] == s[index := Used(key, value)];
        return false;
      }
      index := index + 1;
      if index >= entries.Length {
        index := 0;
      }
      ProbeEnds(s, m, key, start, d + 1);
      d := d + 1;
    }
    assert s[index] == entries[index];
    SetHolds(s, m, key, value, d);
    entries[index] := Used(key, value);
    assert entries[..] == s[index := Used(key, value)];
    added := true;
  }

  class HashTable {
    var entries: array<Slot>
    var length: nat
    ghost var contents: map<Key, Pointer>
    ghost var k: nat

    ghost predicate Valid()
      reads this, entries
    {
      && entries.Length == Pow2(k) && entries.Length >= 2
      && Holds(entries[..], contents) && length == |contents| && 2 * length <= entries.Length
    }

    /** `ht_create`, `ht_init` */
    constructor ()
      ensures Valid() && contents == map[] && fresh(entries)
    {
      entries := new Slot[INITIAL_CAPACITY](_ => Free);
      length, contents, k := 0, map[], 8;
      new;
      Pow2Values();
      EmptyHolds(entries[..]);
    }

    /** `ht_get_hash` */
    method GetHash(key: Key, hash: nat) returns (value: Pointer)
      requires Valid() && hash == HashOf(key)
      ensures value == if key in contents then contents[key] else NULL
    {
      hide HashOf;
      hide Holds;
      hide Pow2;
      ghost var s := entries[..];
      var index := FirstIndex(hash, entries.Length, k);
      ghost var start, d := index, 0;
      assert start == Home(key, |s|);
      while entries[index].Used?
        invariant d < |s| && index == At(|s|, start, d) && Passed(s, key, start, d)
        decreases |s| - d
      {
        assert s[index] == entries[index];
        if entries[index].key == key {
          StopKey(s, contents, index);
          return entries[index].value;
        }
        index := index + 1;
        if index >= entries.Length {
          index := 0;
        }
        ProbeEnds(s, contents, key, start, d + 1);
        d := d + 1;
      }
      assert s[index] == entries[index];
      StopFree(s, contents, key, d);
      value := NULL;
    }

    /** `ht_get`; `text` is the C string that holds the key. */
    method Get(text: seq<byte>, key: Key) returns (value: Pointer)
      requires Valid() && Terminated(text, key)
      ensures value == if key in contents then contents[key] else NULL
    {
      var hash := HashKey(text, key);
      value := GetHash(key, hash);
    }

    /** `ht_expand`: every entry moves to an array of twice the size. */
    method Expand()
      requires Valid()
      modifies this`entries, this`k
      ensures Valid() && contents == old(contents) && entries.Length == 2 * old(entries.Length) && fresh(entries)
    {
      hide HashOf;
      hide Holds;
      ghost var s := entries[..];
      var bigger := new Slot[2 * entries.Length](_ => Free);
      EmptyHolds(bigger[..]);
      for i := 0 to entries.Length
        invariant Valid() && entries == old(entries) && k == old(k) && entries[..] == s && fresh(bigger)
        invariant Holds(bigger[..], Prefix(s, i))
      {
        PrefixSmall(s, contents, i);
        var entry := entries[i];
        assert entry == s[i];
        if entry.Used? {
          ValueThere(s, contents, i);
          var _ := SetEntry(bigger, entry.key, HashOf(entry.key), entry.value, k + 1, Prefix(s, i));
        }
      }
      WholePrefix(s, contents);
      entries := bigger;
      k := k + 1;
    }

    /** `ht_set_hash` with the key's own hash; a NULL value is refused. */
    method SetHash(key: Key, hash: nat, value: Pointer) returns (ok: bool)
      requires Valid() && hash == HashOf(key)
      modifies this, entries
      ensures Valid() && (entries == old(entries) || fresh(entries)) && ok == (value != NULL)
      ensures contents == if ok then old(contents)[key := value] else old(contents)
    {
      hide HashOf;
      hide Holds;
      hide Pow2;
      if value == NULL {
        return false;
      }
      if length >= entries.Length / 2 {
        Expand();
      }
      UpdateSize(contents, key, value);
      var added := SetEntry(entries, key, hash, value, k, contents);
      if added {
        length := length + 1;
      }
      contents := contents[key := value];
      ok := true;
    }

    /** `ht_set` */
    method Set(text: seq<byte>, key: Key, value: Pointer) returns (ok: bool)
      requires Valid() && Terminated(text, key)
      modifies this, entries
      ensures Valid() && (entries == old(entries) || fresh(entries)) && ok == (value != NULL)
      ensures contents == if ok then old(contents)[key := value] else old(contents)
    {
      hide Holds;
      var hash := HashKey(text, key);
      ok := SetHash(key, hash, value);
    }

    /** `ht_reinit`: the slots are freed, the capacity stays. */
    method Reinit()
      requires Valid()
      modifies this, entries
      ensures Valid() && entries == old(entries) && contents == map[]
    {
      hide Holds;
      for i := 0 to entries.Length
        invariant entries == old(entries) && k == old(k) && forall j :: 0 <= j < i ==> entries[j].Free?
      {
        entries[i] := Free;
      }
      length := 0;
      contents := map[];
      EmptyHolds(entries[..]);
    }

    /** `ht_length` */
    method Length() returns (n: nat)
      requires Valid()
      ensures n == |contents|
    {
      n := length;
    }
  }

  lemma ValueThere(s: seq<Slot>, m: map<Key, Pointer>, i: nat)
    requires Holds(s, m) && i < |s| && s[i].Used?
    ensures s[i].value != NULL
  {
  }

  /** `hti`: the index of the slot to look at next. */
  class Iterator {
    const table: HashTable
    var index: nat

    /** `ht_iterator` */
    constructor (table: HashTable)
      ensures this.table == table && index == 0
    {
      this.table := table;
      index := 0;
    }

    /** `ht_next`: the next used slot, if any. */
    method Next() returns (r: Option<Slot>)
      requires table.Valid() && index <= table.entries.Length
      modifies this
      ensures index <= table.entries.Length
      ensures var s, left := table.entries[..], UsedFrom(table.entries[..], old(index));
              if left == [] then r == None else r == Some(left[0]) && UsedFrom(s, index) == left[1..]
    {
      hide Holds;
      ghost var s := table.entries[..];
      while index < table.entries.Length
        invariant index <= table.entries.Length && UsedFrom(s, index) == UsedFrom(s, old(index))
        decreases table.entries.Length - index
      {
        var i := index;
        index := index + 1;
        assert s[i] == table.entries[i];
        if table.entries[i].Used? {
          assert ([s[i]] + UsedFrom(s, i + 1))[1..] == UsedFrom(s, i + 1);
          return Some(table.entries[i]);
        }
        assert [] + UsedFrom(s, i + 1) == UsedFrom(s, i + 1);
      }
      r := None;
    }
  }

  lemma IteratesMap(s: seq<Slot>, m: map<Key, Pointer>)
    requires Holds(s, m)
    ensures forall key, value :: Used(key, value) in UsedFrom(s, 0) <==> key in m && m[key] == value
  {
    hide Holds;
    hide UsedFrom;
    forall key, value ensures Used(key, value) in UsedFrom(s, 0) <==> key in m && m[key] == value {
      IterationIsMap(s, m, key, value);
    }
  }

  /** A loop over `ht_next` sees every binding of the table once and nothing else. */
  method Iterate(table: HashTable) returns (items: seq<Slot>)
    requires table.Valid()
    ensures forall a, b :: 0 <= a < b < |items| ==> items[a].Used? && items[b].Used? && items[a].key != items[b].key
    ensures forall key, value :: Used(key, value) in items <==> key in table.contents && table.contents[key] == value
  {
    hide Holds;
    hide Pow2;
    hide UsedFrom;
    var it := new Iterator(table);
    ghost var s := table.entries[..];
    ghost var all := UsedFrom(s, 0);
    items := [];
    assert [] + all == all;
    var next := it.Next();
    while next.Some?
      invariant it.index <= |s| && s == table.entries[..]
      invariant next.Some? ==> items + [next.value] + UsedFrom(s, it.index) == all
      invariant next.None? ==> items == all
      decreases |all| - |items|
    {
      items := items + [next.value];
      next := it.Next();
    }
    UsedOnce(s, table.contents, 0);
    IteratesMap(s, table.contents);
  }
}
