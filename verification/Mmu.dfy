/**
  Address translation as the hardware performs it (section 4.3.2 of the RISC-V Privileged
  Specification, version 20211203, with the three levels of section 4.4), bit by bit, and
  the proof that on the kernel's trees it gives what the flat tables say.
 */
module Mmu {
  import opened Kalloc
  import opened Paging
  import opened Images
  import opened ProcTable
  import opened Sv39
  import opened Vm
  import Cow
  import CowSafety
  import opened InMemory

  /** A page fault, a page with its permission bits and the software bit 8, or a larger page. */
  datatype Translation =
    | PageFault
    | Page(ppn: nat, r: bool, w: bool, x: bool, u: bool, soft: bool)
    | LargePage

  /** The walk from a node of the given level down. */
  function TranslateFrom(mem: Memory, node: nat, level: nat, va: nat): Translation
    requires level <= 2
    decreases level
  {
    if node !in mem || |mem[node]| != 512 then PageFault else
      var i := (if level == 2 then va / 0x4000_0000 else if level == 1 then va / 0x20_0000 else va / 0x1000) % 512;
      var word := mem[node][i];
      var bits := (word % 1024) as bv10;
      if bits & 1 == 0 || (bits & 2 == 0 && bits & 4 != 0) then PageFault
      else if bits & 2 != 0 || bits & 8 != 0 then
        if level > 0 then LargePage
        else Page(word / 1024, bits & 2 != 0, bits & 4 != 0, bits & 8 != 0, bits & 16 != 0, bits & 256 != 0)
      else if level == 0 then PageFault
      else TranslateFrom(mem, word / 1024, level - 1, va)
  }

  function Translate(mem: Memory, root: nat, va: nat): Translation { TranslateFrom(mem, root, 2, va) }

  /** What a flat table gives for an address. */
  function Flat(t: Table, va: nat): Translation {
    if va / 4096 in t.ptes then
      var p := t.ptes[va / 4096];
      Page(p.ppn, p.perm.r, p.perm.w, p.perm.x, p.perm.u, p.perm.cow)
    else PageFault
  }

  predicate Readable(t: Table) { forall v :: v in t.ptes ==> t.ptes[v].perm.r }

  /** What an entry of an inner node leads to. */
  lemma EntryTurn(mem: Memory, node: nat, level: nat, va: nat)
    requires 1 <= level <= 2 && node in mem && |mem[node]| == 512
    ensures var word := mem[node][Px(level, va)];
            && (FlagsOf(word) & 1 == 0 ==> TranslateFrom(mem, node, level, va) == PageFault)
            && (FlagsOf(word) == 1 ==>
                  TranslateFrom(mem, node, level, va) == TranslateFrom(mem, word / 1024, level - 1, va))
  {
  }

  /** The turn at an inner node: on to the next one, or a fault. */
  lemma InnerTurn(mem: Memory, t: Table, level: nat, va: nat, node: nat)
    requires 1 <= level <= 2 && Represents(mem, t) && va < 0x80_0000_0000
    requires if level == 2 then node == t.root else MidKey(va / 4096) in t.mids && node == t.mids[MidKey(va / 4096)]
    ensures var m := if level == 2 then t.mids else t.lows;
            var k := if level == 2 then MidKey(va / 4096) else LowKey(va / 4096);
            TranslateFrom(mem, node, level, va) == if k in m then TranslateFrom(mem, m[k], level - 1, va) else PageFault
  {
    hide Represents, TranslateFrom, MidKey, LowKey, Px, FlagsOf;
    var m := if level == 2 then t.mids else t.lows;
    var k := if level == 2 then MidKey(va / 4096) else LowKey(va / 4096);
    NodeTurn(mem, t, level, va, node);
    EntryTurn(mem, node, level, va);
    if k in m { EntryRoundTrip(m[k], PTE_V); }
  }

  lemma NodeTurn(mem: Memory, t: Table, level: nat, va: nat, node: nat)
    requires 1 <= level <= 2 && Represents(mem, t) && va < MAXVA
    requires if level == 2 then node == t.root else MidKey(va / 4096) in t.mids && node == t.mids[MidKey(va / 4096)]
    ensures node in mem && |mem[node]| == 512
    ensures NodeWord(mem[node][Px(level, va)], if level == 2 then t.mids else t.lows,
                     if level == 2 then MidKey(va / 4096) else LowKey(va / 4096))
  {
    PxKeys(va);
    hide TableOk, NodeWord, LeafPage;
    if level == 2 {
      assert NodePage(mem[node], t.mids, 0);
    } else {
      assert NodePage(mem[node], t.lows, MidKey(va / 4096) * 512);
    }
  }

  /** The last turn reads the leaf. */
  lemma LeafTurn(mem: Memory, t: Table, va: nat)
    requires Represents(mem, t) && va < 0x80_0000_0000 && LowKey(va / 4096) in t.lows && Readable(t)
    ensures TranslateFrom(mem, t.lows[LowKey(va / 4096)], 0, va) == Flat(t, va)
  {
    LeafValid(mem, t, va);
  }

  /** The hardware walks the tree in memory to exactly what the flat table says. */
  lemma TranslateIs(mem: Memory, t: Table, va: nat)
    requires Represents(mem, t) && Readable(t) && va < 0x80_0000_0000
    ensures Translate(mem, t.root, va) == Flat(t, va)
  {
    LowHasMid(mem, t, va);
    if va / 4096 in t.ptes { NoLowNoLeaf(mem, t, va / 4096); }
    hide Represents, Readable, MidKey, LowKey, TranslateFrom;
    InnerTurn(mem, t, 2, va, t.root);
    if MidKey(va / 4096) in t.mids {
      InnerTurn(mem, t, 1, va, t.mids[MidKey(va / 4096)]);
      if LowKey(va / 4096) in t.lows { LeafTurn(mem, t, va); }
    }
  }

  /** So it is for every process of the state that memory holds. */
  lemma ProcessTranslates(mem: Memory, pool: Pool, k: Cow.Kernel, i: nat, va: nat)
    requires Holds(mem, pool, k, {}) && Cow.Live(k, i) && va < 0x80_0000_0000
    ensures Translate(mem, k.procs[i].t.root, va) == Flat(k.procs[i].t, va)
  {
    hide Represents, Contents, Seen;
    LiesFacts(mem, pool, k, {}, i);
    HoldsWith(mem, pool, k, {});
    LeavesRead(k, i);
    hide Holds, Readable;
    TranslateIs(mem, k.procs[i].t, va);
  }

  lemma LeavesRead(k: Cow.Kernel, i: nat)
    requires CowSafety.InvWith(k, {}) && Cow.Live(k, i)
    ensures Readable(k.procs[i].t)
  {
    CowSafety.ImageIsGood(k, {}, i);
    var img := k.procs[i];
    hide CowSafety.InvWith, ShapeOk, PagesApart;
    forall v | v in img.t.ptes ensures img.t.ptes[v].perm.r {
      assert v != CODE_VPN && v != STACK_VPN ==> PlaceOk(img, v, img.t.ptes[v].perm);
    }
  }

  /**
    A table from proc_pagetable, as the hardware reads it: kernel text can be executed and
    not written, devices and the rest of memory read and written, none of it from user mode.
   */
  lemma BuiltTableTranslates(mem: Memory, pool: Pool, etext: nat, code: nat, stack: nat, va: nat)
    requires 0x80200 < etext < 0x88000 && NewTable(pool, etext, code, stack).ok && va < 0x80_0000_0000
    requires Represents(mem, NewTable(pool, etext, code, stack).t)
    ensures var page, x := va / 4096, Translate(mem, NewTable(pool, etext, code, stack).t.root, va);
            && (0x80200 <= page < etext ==> x == Page(page, true, false, true, false, false))
            && (etext <= page < 0x88000 || 0x10000 <= page <= 0x10008 || 0xc000 <= page <= 0xc3ff ==>
                  x == Page(page, true, true, false, false, false))
            && (page == 1 && |pool.free| >= 70 ==> x == Page(code, true, false, true, true, false))
            && (page == 4 && |pool.free| >= 70 ==> x == Page(stack, true, true, false, true, false))
            && (0x80200 <= page < 0x88000 || 0x10000 <= page <= 0x10008 || 0xc000 <= page <= 0xc3ff
                || page == 1 || page == 4 || x == PageFault)
  {
    hide NewTable, Represents, Translate;
    NewTableMaps(pool, etext, code, stack);
    var t := NewTable(pool, etext, code, stack).t;
    assert Readable(t) by {
      forall v | v in t.ptes ensures t.ptes[v].perm.r { }
    }
    TranslateIs(mem, t, va);
  }
}
