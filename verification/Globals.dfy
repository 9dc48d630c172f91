/** Addresses of top-level bindings in linear memory, kept over a whole session of inputs. */
module Globals {
  import opened Wrappers
  import opened Bits

  const GLOBAL_BASE: nat := 0x10_0000
  const GLOBAL_END: nat := 0x100_0000
  const SLOT_SIZE: nat := 8
  const PAGE_SIZE: nat := 65536

  /** The slot table, the next free address, the size of memory in pages and the largest size the
      host will grow it to. */
  datatype GlobalTable = GlobalTable(slots: map<string, nat>, bump: nat, pages: nat, maxPages: nat)

  function Init(pages: nat, maxPages: nat): GlobalTable {
    GlobalTable(map[], GLOBAL_BASE, pages, maxPages)
  }

  /** `ylc_wasm_ensure_memory`: the pages after the call, or none if memory cannot grow that far. */
  function PagesFor(g: GlobalTable, end: nat): (pages: Option<nat>)
  {
    if g.pages * PAGE_SIZE >= end then Some(g.pages)
    else
      var needed := (end + PAGE_SIZE - 1) / PAGE_SIZE;
      if needed <= g.maxPages then Some(needed) else None
  }

  /** `ylc_wasm_global_address`: `None` is the address 0 of a failure. */
  function Address(g: GlobalTable, name: string): (r: (Option<nat>, GlobalTable)) {
    if name in g.slots then (Some(g.slots[name]), g)
    else if g.bump + SLOT_SIZE > GLOBAL_END then (None, g)
    else
      match PagesFor(g, g.bump + SLOT_SIZE)
      case None => (None, g)
      case Some(pages) =>
        (Some(g.bump), g.(slots := g.slots[name := g.bump], bump := g.bump + SLOT_SIZE, pages := pages))
  }

  /** A slot of eight bytes inside the global region and inside memory, aligned to eight. */
  predicate SlotOk(g: GlobalTable, at: nat) {
    && GLOBAL_BASE <= at
    && at + SLOT_SIZE <= g.bump <= GLOBAL_END
    && at % SLOT_SIZE == 0
    && at + SLOT_SIZE <= g.pages * PAGE_SIZE
  }

  /** Two slots share no byte. */
  predicate Disjoint(a: nat, b: nat) {
    a + SLOT_SIZE <= b || b + SLOT_SIZE <= a
  }

  ghost predicate TableOk(g: GlobalTable) {
    && GLOBAL_BASE <= g.bump <= GLOBAL_END
    && g.bump % SLOT_SIZE == 0
    && (forall name :: name in g.slots ==> SlotOk(g, g.slots[name]))
    && (forall a, b :: a in g.slots && b in g.slots && a != b ==> Disjoint(g.slots[a], g.slots[b]))
  }

  /** `h` is a later state of the session `g`. */
  ghost predicate Extends(h: GlobalTable, g: GlobalTable) {
    && g.bump <= h.bump
    && (forall name :: name in g.slots ==> name in h.slots && h.slots[name] == g.slots[name])
    && (forall name :: name in h.slots && name !in g.slots ==> h.slots[name] >= g.bump)
  }

  lemma PagesEnough(g: GlobalTable, end: nat)
    requires PagesFor(g, end).Some?
    ensures PagesFor(g, end).value >= g.pages && PagesFor(g, end).value * PAGE_SIZE >= end
  {
    if g.pages * PAGE_SIZE < end {
      var needed := (end + PAGE_SIZE - 1) / PAGE_SIZE;
      assert needed * PAGE_SIZE >= end;
    }
  }

  /** Memory grows, in pages of 64 KB, only if it must and no further than it must; it cannot grow exactly if its
      largest size is too small. */
  lemma PagesExact(g: GlobalTable, end: nat)
    ensures PagesFor(g, end).None? <==> end > 65536 * g.pages && end > 65536 * g.maxPages
    ensures PagesFor(g, end).Some? ==>
              var p := PagesFor(g, end).value;
              if end <= 65536 * g.pages then p == g.pages
              else p <= g.maxPages && 65536 * (p - 1) < end <= 65536 * p
  {
    var needed := (end + PAGE_SIZE - 1) / PAGE_SIZE;
    assert needed * PAGE_SIZE >= end > (needed - 1) * PAGE_SIZE;
  }

  /** One request for an address keeps the session valid and moves no existing slot; it fails exactly
      when the name is new and the region is full or memory cannot grow, and then changes nothing. */
  lemma AddressCorrect(g: GlobalTable, name: string)
    requires TableOk(g)
    ensures var (at, h) := Address(g, name);
            && TableOk(h) && Extends(h, g)
            && (at.Some? ==> h.slots == g.slots[name := at.value] && name in h.slots && SlotOk(h, at.value))
            && (at.None? ==> h == g && name !in g.slots)
            && (at.None? <==> name !in g.slots
                              && (g.bump + SLOT_SIZE > GLOBAL_END || PagesFor(g, g.bump + SLOT_SIZE).None?))
  {
    hide PagesFor;
    var (at, h) := Address(g, name);
    if name !in g.slots && at.Some? {
      PagesEnough(g, g.bump + SLOT_SIZE);
      forall n | n in h.slots
        ensures SlotOk(h, h.slots[n])
      {
        if n != name {
          assert SlotOk(g, g.slots[n]);
        }
      }
    }
  }

  /** The requests of a session, in order. */
  function Session(g: GlobalTable, names: seq<string>): GlobalTable
    decreases |names|
  {
    if names == [] then g else Session(Address(g, names[0]).1, names[1..])
  }

  /** Over any session a name keeps its address once it has one, different names never share a byte, and
      every slot lies inside the region; a name that was asked for has a slot unless it was refused one. */
  lemma {:induction false} SessionStable(g: GlobalTable, names: seq<string>)
    requires TableOk(g)
    ensures TableOk(Session(g, names)) && Extends(Session(g, names), g)
    ensures forall name :: name in g.slots ==> Address(Session(g, names), name).0 == Some(g.slots[name])
    ensures forall k :: 0 <= k < |names| ==>
              names[k] in Session(g, names).slots || Address(Session(g, names[..k]), names[k]).0.None?
    decreases |names|
  {
    if names != [] {
      var h := Address(g, names[0]).1;
      AddressCorrect(g, names[0]);
      SessionStable(h, names[1..]);
      forall k | 0 <= k < |names|
        ensures names[k] in Session(g, names).slots || Address(Session(g, names[..k]), names[k]).0.None?
      {
        if k == 0 {
          assert names[..0] == [];
        } else {
          assert names[..k][0] == names[0] && names[..k][1..] == names[1..][..k - 1];
          assert names[1..][k - 1] == names[k];
        }
      }
    }
  }

  /** Addresses lie in the region from 1 MB to 16 MB, at multiples of eight; the first one of a session is its start. */
  lemma RegionIs(g: GlobalTable, name: string)
    requires TableOk(g)
    ensures var at := Address(g, name).0;
            at.Some? ==> 1048576 <= at.value && at.value + 8 <= 16777216 && at.value % 8 == 0
    ensures forall pages: nat, maxPages: nat :: 17 <= maxPages ==>
              Address(Init(pages, maxPages), name).0 == Some(1048576)
  {
    hide PagesFor;
    AddressCorrect(g, name);
    forall pages: nat, maxPages: nat | 17 <= maxPages ensures Address(Init(pages, maxPages), name).0 == Some(1048576) {
      FirstPage(Init(pages, maxPages));
    }
  }

  lemma FirstPage(g: GlobalTable)
    requires 17 <= g.maxPages
    ensures PagesFor(g, 1048584).Some?
  {
  }

  lemma InitValid(pages: nat, maxPages: nat)
    ensures TableOk(Init(pages, maxPages))
  {
    assert GLOBAL_BASE % SLOT_SIZE == 0;
  }

  /** The session object, updated in place. */
  class GlobalSession {
    var slots: map<string, nat>
    var bump: nat
    var pages: nat
    const maxPages: nat

    /** The session as a value. */
    ghost function State(): GlobalTable
      reads this
    {
      GlobalTable(slots, bump, pages, maxPages)
    }

    constructor (pages: nat, maxPages: nat)
      ensures State() == Init(pages, maxPages)
      ensures TableOk(State())
    {
      this.slots, this.bump, this.pages, this.maxPages := map[], GLOBAL_BASE, pages, maxPages;
      new;
      InitValid(pages, maxPages);
    }

    method EnsureMemory(end: nat) returns (ok: bool)
      modifies this`pages
      ensures ok == PagesFor(old(State()), end).Some?
      ensures State() == old(State()).(pages := if ok then PagesFor(old(State()), end).value else old(pages))
    {
      if pages * PAGE_SIZE >= end {
        return true;
      }
      var needed := (end + PAGE_SIZE - 1) / PAGE_SIZE;
      if needed <= maxPages {
        pages := needed;
        return true;
      }
      return false;
    }

    /** The address of a global, assigned at its first use. */
    method AddressOf(name: string) returns (at: Option<nat>)
      requires TableOk(State())
      modifies this
      ensures (at, State()) == Address(old(State()), name)
      ensures TableOk(State()) && Extends(State(), old(State()))
      ensures at.Some? ==> SlotOk(State(), at.value) && State().slots == old(State()).slots[name := at.value]
      ensures at.None? ==> State() == old(State())
    {
      AddressCorrect(State(), name);
      if name in slots {
        return Some(slots[name]);
      }
      if bump + SLOT_SIZE > GLOBAL_END {
        return None;
      }
      var addr := bump;
      var grown := EnsureMemory(addr + SLOT_SIZE);
      if !grown {
        return None;
      }
      bump := bump + SLOT_SIZE;
      slots := slots[name := addr];
      return Some(addr);
    }
  }
}
