/** Linear probing (lang/ht.c) on the slots as a list: which slots a probe visits, what a table of slots
    stands for, and what setting and moving entries keeps. */
module ProbeTable {
  import opened Bits

  /** A C string: its bytes before the terminator. */
  type Key = seq<byte>

  type Pointer = nat

  const NULL: Pointer := 0

  const FNV_OFFSET: nat := 14695981039346656037
  const FNV_PRIME: nat := 1099511628211

  /** One byte of FNV-1a in 64 bits. */
  function Mix(hash: nat, b: byte): nat {
    (Xor(hash, b) * FNV_PRIME) % 0x1_0000_0000_0000_0000
  }

  function Fnv(hash: nat, bytes: seq<byte>): nat
    decreases |bytes|
  {
    if bytes == [] then hash else Fnv(Mix(hash, bytes[0]), bytes[1..])
  }

  /** The hash of a key. */
  function HashOf(key: Key): nat {
    Fnv(FNV_OFFSET, key)
  }

  /** FNV-1a in 64 bits: the hash of no bytes is the offset, and one byte more is brought in by an exclusive or and a
      multiplication with the prime 2^40 + 2^8 + 0xb3, modulo 2^64. */
  lemma HashIsFnv(key: Key, b: byte)
    ensures HashOf([]) == 0xcbf2_9ce4_8422_2325
    ensures HashOf(key + [b]) == (Xor(HashOf(key), b) * 0x100_0000_01b3) % 0x1_0000_0000_0000_0000
  {
    hide Xor;
    FnvLast(FNV_OFFSET, key, b);
  }

  lemma {:induction false} FnvLast(hash: nat, bytes: seq<byte>, b: byte)
    ensures Fnv(hash, bytes + [b]) == Mix(Fnv(hash, bytes), b)
    decreases |bytes|
  {
    hide Mix;
    if bytes == [] {
      assert bytes + [b] == [b] && [b][1..] == [];
    } else {
      assert (bytes + [b])[0] == bytes[0] && (bytes + [b])[1..] == bytes[1..] + [b];
      FnvLast(Mix(hash, bytes[0]), bytes[1..], b);
    }
  }

  /** A slot of the table; a free slot has a NULL key. */
  datatype Slot = Free | Used(key: Key, value: Pointer)

  /** The slot `d` steps on from `start`, around the end. */
  function At(n: nat, start: nat, d: nat): (i: nat)
    requires start < n && d < n
    ensures i < n
  {
    if start + d < n then start + d else start + d - n
  }

  /** The steps from `start` to slot `i`. */
  function Steps(n: nat, start: nat, i: nat): (d: nat)
    requires start < n && i < n
    ensures d < n && At(n, start, d) == i
  {
    if i >= start then i - start else i + n - start
  }

  function Home(key: Key, n: nat): (i: nat)
    requires n > 0
    ensures i < n
  {
    HashOf(key) % n
  }

  /** The slots before `d` steps are used by other keys. */
  predicate Passed(s: seq<Slot>, key: Key, start: nat, d: nat)
    requires start < |s| && d <= |s|
  {
    forall e :: 0 <= e < d ==> s[At(|s|, start, e)].Used? && s[At(|s|, start, e)].key != key
  }

  /** Slot `i` is reached from the home of its key. */
  predicate Reached(s: seq<Slot>, i: nat)
    requires i < |s| && s[i].Used?
  {
    Passed(s, s[i].key, Home(s[i].key, |s|), Steps(|s|, Home(s[i].key, |s|), i))
  }

  /** The slots hold exactly the bindings of `m`, each key once, each where its probe finds it. */
  ghost predicate Holds(s: seq<Slot>, m: map<Key, Pointer>) {
    && (forall i :: 0 <= i < |s| && s[i].Used? ==>
          s[i].key in m && m[s[i].key] == s[i].value && s[i].value != NULL && Reached(s, i))
    && (forall i, j :: 0 <= i < j < |s| && s[i].Used? && s[j].Used? ==> s[i].key != s[j].key)
    && (forall k :: k in m ==> HasKey(s, k))
  }

  predicate HasKey(s: seq<Slot>, key: Key) {
    exists i :: 0 <= i < |s| && s[i].Used? && s[i].key == key
  }

  // ---- Looking up ---------------------------------------------------------------------

  /** A probe that stops at a free slot has shown the key absent. */
  lemma StopFree(s: seq<Slot>, m: map<Key, Pointer>, key: Key, d: nat)
    requires Holds(s, m) && 0 < |s| && d < |s|
    requires Passed(s, key, Home(key, |s|), d) && s[At(|s|, Home(key, |s|), d)].Free?
    ensures key !in m
  {
    hide Holds;
    hide Passed;
    hide Home;
    if key in m {
      ProbeStaysUsed(s, m, key, d);
    }
  }

  /** The slot before which only other keys were passed is used, if the key is there. */
  lemma ProbeStaysUsed(s: seq<Slot>, m: map<Key, Pointer>, key: Key, d: nat)
    requires Holds(s, m) && d < |s| && key in m && Passed(s, key, Home(key, |s|), d)
    ensures s[At(|s|, Home(key, |s|), d)].Used?
  {
    hide HashOf;
    hide Home;
    hide Passed;
    assert HasKey(s, key);
    var i :| 0 <= i < |s| && s[i].Used? && s[i].key == key;
    assert Reached(s, i);
    var e := Steps(|s|, Home(key, |s|), i);
    if d < e {
      PassedAt(s, key, Home(key, |s|), e, d);
    } else if e < d {
      PassedAt(s, key, Home(key, |s|), d, e);
    }
  }

  lemma PassedAt(s: seq<Slot>, key: Key, start: nat, d: nat, e: nat)
    requires start < |s| && d <= |s| && Passed(s, key, start, d) && e < d
    ensures s[At(|s|, start, e)].Used? && s[At(|s|, start, e)].key != key
  {
  }

  /** A probe that stops at the key has found its binding. */
  lemma StopKey(s: seq<Slot>, m: map<Key, Pointer>, i: nat)
    requires Holds(s, m) && i < |s| && s[i].Used?
    ensures s[i].key in m && m[s[i].key] == s[i].value
  {
  }

  /** The keys of a full table are as many as its slots. */
  lemma {:induction false} FullKeys(s: seq<Slot>, n: nat)
    requires n <= |s| && (forall i :: 0 <= i < n ==> s[i].Used?)
    requires forall i, j :: 0 <= i < j < n && s[i].Used? && s[j].Used? ==> s[i].key != s[j].key
    ensures |KeysUpTo(s, n)| == n
  {
    if n > 0 {
      FullKeys(s, n - 1);
      assert KeysUpTo(s, n) == KeysUpTo(s, n - 1) + {s[n - 1].key};
    }
  }

  ghost function KeysUpTo(s: seq<Slot>, n: nat): set<Key>
    requires n <= |s|
  {
    set i | 0 <= i < n && s[i].Used? :: s[i].key
  }

  /** With fewer bindings than slots some slot is free. */
  lemma SomeFree(s: seq<Slot>, m: map<Key, Pointer>)
    requires Holds(s, m) && |m| < |s|
    ensures exists i :: 0 <= i < |s| && s[i].Free?
  {
    assert |m.Keys| == |m|;
    assert KeysUpTo(s, |s|) <= m.Keys;
    Subset(KeysUpTo(s, |s|), m.Keys);
    if forall i :: 0 <= i < |s| ==> s[i].Used? {
      FullKeys(s, |s|);
    }
  }

  lemma Subset(a: set<Key>, b: set<Key>)
    requires a <= b
    ensures |a| <= |b|
  {
    assert b == a + (b - a);
  }

  /** So every probe ends before it has gone around. */
  lemma ProbeEnds(s: seq<Slot>, m: map<Key, Pointer>, key: Key, start: nat, d: nat)
    requires Holds(s, m) && |m| < |s| && start < |s| && d <= |s| && Passed(s, key, start, d)
    ensures d < |s|
  {
    hide Passed;
    SomeFree(s, m);
    var i :| 0 <= i < |s| && s[i].Free?;
    var e := Steps(|s|, start, i);
    if e < d {
      PassedAt(s, key, start, d, e);
    }
  }

  // ---- Setting ------------------------------------------------------------------------------

  /** Using a slot keeps every probe path. */
  lemma PathsStay(s: seq<Slot>, i: nat, key: Key, value: Pointer, j: nat)
    requires i < |s| && j < |s| && s[j].Used? && Reached(s, j) && i != j
    requires s[i].Free? || s[i].key == key
    requires s[j].key != key
    ensures Reached(s[i := Used(key, value)], j)
  {
    hide HashOf;
  }

  lemma SetHolds(s: seq<Slot>, m: map<Key, Pointer>, key: Key, value: Pointer, d: nat)
    requires Holds(s, m) && 0 < |s| && d < |s| && value != NULL && Passed(s, key, Home(key, |s|), d)
    requires var i := At(|s|, Home(key, |s|), d); s[i].Free? || s[i].key == key
    ensures Holds(s[At(|s|, Home(key, |s|), d) := Used(key, value)], m[key := value])
    ensures s[At(|s|, Home(key, |s|), d)].Free? <==> key !in m
  {
    hide HashOf;
    hide Passed;
    hide Reached;
    hide Home;
    var i := At(|s|, Home(key, |s|), d);
    var s' := s[i := Used(key, value)];
    if s[i].Free? {
      StopFree(s, m, key, d);
    }
    NewReached(s, key, value, d);
    forall j | 0 <= j < |s'| && s'[j].Used?
      ensures s'[j].key in m[key := value] && m[key := value][s'[j].key] == s'[j].value && Reached(s', j)
    {
      if j != i {
        OtherKey(s, m, key, i, j);
        PathsStay(s, i, key, value, j);
      }
    }
    forall k | k in m[key := value] ensures HasKey(s', k) {
      if k == key {
        assert s'[i].key == key;
      } else {
        assert HasKey(s, k);
        var j :| 0 <= j < |s| && s[j].Used? && s[j].key == k;
        assert s'[j].key == k;
      }
    }
    forall a, b | 0 <= a < b < |s'| && s'[a].Used? && s'[b].Used? ensures s'[a].key != s'[b].key {
      if a == i {
        OtherKey(s, m, key, i, b);
      } else if b == i {
        OtherKey(s, m, key, i, a);
      }
    }
  }

  /** No other slot has the key. */
  lemma OtherKey(s: seq<Slot>, m: map<Key, Pointer>, key: Key, i: nat, j: nat)
    requires Holds(s, m) && i < |s| && j < |s| && i != j && s[j].Used?
    requires s[i].Free? ==> key !in m
    requires s[i].Used? ==> s[i].key == key
    ensures s[j].key != key
  {
    hide Reached;
  }

  lemma NewReached(s: seq<Slot>, key: Key, value: Pointer, d: nat)
    requires 0 < |s| && d < |s| && Passed(s, key, Home(key, |s|), d)
    requires var i := At(|s|, Home(key, |s|), d); s[i].Free? || s[i].key == key
    ensures Reached(s[At(|s|, Home(key, |s|), d) := Used(key, value)], At(|s|, Home(key, |s|), d))
  {
    hide HashOf;
    hide Home;
    StepsAt(|s|, Home(key, |s|), d);
  }

  lemma StepsAt(n: nat, start: nat, d: nat)
    requires start < n && d < n
    ensures Steps(n, start, At(n, start, d)) == d
    ensures forall e :: 0 <= e < n && e != d ==> At(n, start, e) != At(n, start, d)
  {
  }

  // ---- Moving to a bigger table ------------------------------------------------------------------

  lemma EmptyHolds(s: seq<Slot>)
    requires forall i :: 0 <= i < |s| ==> s[i].Free?
    ensures Holds(s, map[])
  {
  }

  /** The bindings of the first `n` slots. */
  function Prefix(s: seq<Slot>, n: nat): map<Key, Pointer>
    requires n <= |s|
  {
    if n == 0 then map[]
    else if s[n - 1].Used? then Prefix(s, n - 1)[s[n - 1].key := s[n - 1].value]
    else Prefix(s, n - 1)
  }

  lemma {:induction false} PrefixOf(s: seq<Slot>, m: map<Key, Pointer>, n: nat)
    requires Holds(s, m) && n <= |s|
    ensures forall k :: k in Prefix(s, n) <==> k in m && exists i :: 0 <= i < n && s[i].Used? && s[i].key == k
    ensures forall k :: k in Prefix(s, n) ==> k in m && Prefix(s, n)[k] == m[k]
    decreases n
  {
    hide Reached;
    if n > 0 {
      PrefixOf(s, m, n - 1);
    }
  }

  lemma WholePrefix(s: seq<Slot>, m: map<Key, Pointer>)
    requires Holds(s, m)
    ensures Prefix(s, |s|) == m
  {
    hide Reached;
    PrefixOf(s, m, |s|);
    forall k | k in m ensures k in Prefix(s, |s|) {
      assert HasKey(s, k);
    }
  }

  lemma PrefixSmall(s: seq<Slot>, m: map<Key, Pointer>, n: nat)
    requires Holds(s, m) && n <= |s|
    ensures |Prefix(s, n)| <= |m|
  {
    hide Reached;
    hide Prefix;
    PrefixOf(s, m, n);
    Subset(Prefix(s, n).Keys, m.Keys);
    assert |Prefix(s, n)| == |Prefix(s, n).Keys| && |m| == |m.Keys|;
  }

  lemma UpdateSize(m: map<Key, Pointer>, key: Key, value: Pointer)
    ensures |m[key := value]| == if key in m then |m| else |m| + 1
  {
    if key in m {
      assert m[key := value].Keys == m.Keys;
    } else {
      assert m[key := value].Keys == m.Keys + {key};
    }
  }

  // ---- Iterating -----------------------------------------------------------------------------------

  /** The used slots from `i` on, in order. */
  function UsedFrom(s: seq<Slot>, i: nat): (r: seq<Slot>)
    requires i <= |s|
    ensures forall e :: e in r ==> e.Used?
    decreases |s| - i
  {
    if i == |s| then [] else (if s[i].Used? then [s[i]] else []) + UsedFrom(s, i + 1)
  }

  lemma UsedOpens(s: seq<Slot>, i: nat)
    requires i < |s|
    ensures UsedFrom(s, i) == (if s[i].Used? then [s[i]] else []) + UsedFrom(s, i + 1)
  {
  }

  lemma UsedNone(s: seq<Slot>)
    ensures UsedFrom(s, |s|) == []
  {
  }

  lemma {:induction false} UsedMembers(s: seq<Slot>, i: nat, e: Slot)
    requires i <= |s|
    ensures e in UsedFrom(s, i) <==> e.Used? && exists j :: i <= j < |s| && s[j] == e
    decreases |s| - i
  {
    hide UsedFrom;
    if i < |s| {
      UsedMembers(s, i + 1, e);
      UsedOpens(s, i);
      assert s[i] == e || forall j :: i <= j < |s| && s[j] == e ==> i + 1 <= j;
    } else {
      UsedNone(s);
    }
  }

  /** Iterating yields each binding of the map exactly once. */
  lemma {:induction false} UsedOnce(s: seq<Slot>, m: map<Key, Pointer>, i: nat)
    requires Holds(s, m) && i <= |s|
    ensures forall a, b :: 0 <= a < b < |UsedFrom(s, i)| ==> UsedFrom(s, i)[a].key != UsedFrom(s, i)[b].key
    decreases |s| - i
  {
    hide Reached;
    if i < |s| {
      UsedOnce(s, m, i + 1);
      var rest := UsedFrom(s, i + 1);
      if s[i].Used? {
        forall b | 0 <= b < |rest| ensures rest[b].key != s[i].key {
          UsedMembers(s, i + 1, rest[b]);
          assert rest[b] in rest;
          var j :| i + 1 <= j < |s| && s[j] == rest[b];
        }
      } else {
        assert [] + rest == rest;
      }
    }
  }

  lemma IterationIsMap(s: seq<Slot>, m: map<Key, Pointer>, k: Key, v: Pointer)
    requires Holds(s, m)
    ensures Used(k, v) in UsedFrom(s, 0) <==> k in m && m[k] == v
  {
    hide Reached;
    UsedMembers(s, 0, Used(k, v));
    if k in m && m[k] == v {
      assert HasKey(s, k);
      var i :| 0 <= i < |s| && s[i].Used? && s[i].key == k;
      assert s[i] == Used(k, v);
    }
  }
}
