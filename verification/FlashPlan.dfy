/** The flash writer's plan byte by byte: what the flash holds afterwards, and exactly which
    sectors are erased and which pages written. */
module FlashPlan {
  import opened FlashWriter

  // The byte wanted at an address: the image, then 0xFF padding.
  ghost function Wanted(image: seq<Byte>, a: nat): Byte { if a < |image| then image[a] else 0xFF }

  ghost function WholePlan(mem: seq<Byte>, image: seq<Byte>, force: bool): seq<Op>
    requires SectorCount(image) * 4096 <= |mem|
  {
    Plan(mem, image, force, SectorCount(image))
  }

  // Some byte of page p has to change; some byte of it is not blank; the image has a byte
  // other than 0xFF there.
  ghost predicate Differs(mem: seq<Byte>, image: seq<Byte>, p: nat)
    requires (p + 1) * 256 <= |mem|
  {
    exists a :: p * 256 <= a < (p + 1) * 256 && mem[a] != Wanted(image, a)
  }

  ghost predicate Dirty(mem: seq<Byte>, p: nat)
    requires (p + 1) * 256 <= |mem|
  {
    exists a :: p * 256 <= a < (p + 1) * 256 && mem[a] != 0xFF
  }

  ghost predicate Needed(image: seq<Byte>, p: nat) {
    exists a :: p * 256 <= a < (p + 1) * 256 && Wanted(image, a) != 0xFF
  }

  // ---------- sectors ----------

  // A sector is covered exactly when the image has a byte in it.
  lemma Covered(image: seq<Byte>, k: nat)
    ensures k < SectorCount(image) <==> k * 4096 < |image|
  {
    var n := |image| + 4095;
    assert n == 4096 * (n / 4096) + n % 4096;
  }

  lemma PageAt(mem: seq<Byte>, image: seq<Byte>, k: nat, j: nat)
    requires (k + 1) * 4096 <= |mem| && j < 16
    ensures (16 * k + j + 1) * 256 <= |mem|
    ensures Page(SectorAt(mem, k), j) == mem[(16 * k + j) * 256..(16 * k + j + 1) * 256]
    ensures forall i :: 0 <= i < 256 ==> Page(WantedSector(image, k), j)[i] == Wanted(image, (16 * k + j) * 256 + i)
  {
    var l, r := Page(SectorAt(mem, k), j), mem[(16 * k + j) * 256..(16 * k + j + 1) * 256];
    forall i | 0 <= i < 256 ensures l[i] == r[i] {
      assert l[i] == SectorAt(mem, k)[j * 256 + i];
    }
    forall i | 0 <= i < 256 ensures Page(WantedSector(image, k), j)[i] == Wanted(image, (16 * k + j) * 256 + i) {
      assert Page(WantedSector(image, k), j)[i] == WantedSector(image, k)[j * 256 + i];
    }
  }

  lemma DiffersIff(mem: seq<Byte>, image: seq<Byte>, k: nat, j: nat)
    requires (k + 1) * 4096 <= |mem| && j < 16
    ensures (16 * k + j + 1) * 256 <= |mem|
    ensures Page(SectorAt(mem, k), j) != Page(WantedSector(image, k), j) <==> Differs(mem, image, 16 * k + j)
  {
    hide SectorAt, WantedSector, Page, Wanted;
    PageAt(mem, image, k, j);
    var l, r, at := Page(SectorAt(mem, k), j), Page(WantedSector(image, k), j), (16 * k + j) * 256;
    if l != r {
      var i :| 0 <= i < 256 && l[i] != r[i];
      assert mem[at + i] != Wanted(image, at + i);
    }
    if Differs(mem, image, 16 * k + j) {
      var a :| at <= a < at + 256 && mem[a] != Wanted(image, a);
      assert l[a - at] == mem[a] && r[a - at] == Wanted(image, at + (a - at));
    }
  }

  lemma DirtyIff(mem: seq<Byte>, image: seq<Byte>, k: nat, j: nat)
    requires (k + 1) * 4096 <= |mem| && j < 16
    ensures (16 * k + j + 1) * 256 <= |mem|
    ensures !IsBlank(Page(SectorAt(mem, k), j)) <==> Dirty(mem, 16 * k + j)
  {
    hide SectorAt, WantedSector, Page, Wanted;
    PageAt(mem, image, k, j);
    var l, at := Page(SectorAt(mem, k), j), (16 * k + j) * 256;
    if !IsBlank(l) {
      var i :| 0 <= i < 256 && l[i] != BLANK;
      assert mem[at + i] != 0xFF;
    }
    if Dirty(mem, 16 * k + j) {
      var a :| at <= a < at + 256 && mem[a] != 0xFF;
      assert l[a - at] == mem[a];
    }
  }

  lemma NeededIff(image: seq<Byte>, k: nat, j: nat)
    requires j < 16
    ensures Page(Blanks(4096), j) != Page(WantedSector(image, k), j) <==> Needed(image, 16 * k + j)
  {
    hide SectorAt, WantedSector, Page, Wanted;
    var mem := Blanks((k + 1) * 4096);
    PageAt(mem, image, k, j);
    BlankPages(j);
    var l, r, at := Page(Blanks(4096), j), Page(WantedSector(image, k), j), (16 * k + j) * 256;
    if l != r {
      var i :| 0 <= i < 256 && l[i] != r[i];
      assert Wanted(image, at + i) != 0xFF;
    }
    if Needed(image, 16 * k + j) {
      var a :| at <= a < at + 256 && Wanted(image, a) != 0xFF;
      assert r[a - at] == Wanted(image, at + (a - at)) && l[a - at] == BLANK;
    }
  }

  // ---------- the contents afterwards ----------

  /** Afterwards the flash holds the image; the rest of the last sector it reaches into is
      0xFF, and every other byte is what it was. */
  lemma FinalBytes(mem: seq<Byte>, image: seq<Byte>, force: bool, a: nat)
    requires SectorCount(image) * 4096 <= |mem| && a < |mem|
    ensures AllFit(|mem|, WholePlan(mem, image, force))
    ensures Replay(mem, WholePlan(mem, image, force))[a]
            == if a < |image| then image[a] else if a / 4096 * 4096 < |image| then 0xFF else mem[a]
  {
    PlanReaches(mem, image, force, SectorCount(image));
    Covered(image, a / 4096);
    assert a / 4096 < SectorCount(image) <==> a < SectorCount(image) * 4096;
    hide Plan, Replay, AllFit, SectorCount;
  }

  // ---------- erased sectors ----------

  lemma SomePageIff(mem: seq<Byte>, image: seq<Byte>, k: nat)
    requires (k + 1) * 4096 <= |mem|
    ensures (exists j :: 0 <= j < 16 && Page(SectorAt(mem, k), j) != Page(WantedSector(image, k), j) &&
                         !IsBlank(Page(SectorAt(mem, k), j)))
            <==> exists p :: 16 * k <= p < 16 * k + 16 && (p + 1) * 256 <= |mem| && Differs(mem, image, p) && Dirty(mem, p)
  {
    hide SectorAt, WantedSector, Page, IsBlank, Differs, Dirty;
    if j :| 0 <= j < 16 && Page(SectorAt(mem, k), j) != Page(WantedSector(image, k), j) &&
            !IsBlank(Page(SectorAt(mem, k), j))
    {
      DiffersIff(mem, image, k, j);
      DirtyIff(mem, image, k, j);
    }
    if p :| 16 * k <= p < 16 * k + 16 && (p + 1) * 256 <= |mem| && Differs(mem, image, p) && Dirty(mem, p) {
      DiffersIff(mem, image, k, p - 16 * k);
      DirtyIff(mem, image, k, p - 16 * k);
    }
  }

  /** A sector is erased exactly when the image reaches into it and erasing is forced or one of
      its pages has to change and is not blank. */
  lemma ErasedBytes(mem: seq<Byte>, image: seq<Byte>, force: bool, k: nat)
    requires SectorCount(image) * 4096 <= |mem| && (k + 1) * 4096 <= |mem|
    ensures Erase(k * 4096) in WholePlan(mem, image, force) <==>
            k * 4096 < |image| &&
            (force || exists p :: 16 * k <= p < 16 * k + 16 && (p + 1) * 256 <= |mem| && Differs(mem, image, p) && Dirty(mem, p))
  {
    hide Plan, SectorCount, SectorAt, WantedSector, Page, IsBlank, Differs, Dirty;
    Covered(image, k);
    if k < SectorCount(image) {
      ErasedIff(mem, image, force, SectorCount(image), k);
      SomePageIff(mem, image, k);
    } else {
      NoEraseBeyond(mem, image, force, SectorCount(image), k);
    }
  }

  // ---------- written pages ----------

  lemma {:induction false} PageWritten(address: nat, base: seq<Byte>, wanted: seq<Byte>, n: nat, at: nat, data: seq<Byte>)
    requires |base| == |wanted| == 4096 && n <= 16
    ensures Write(at, data) in PageOps(address, base, wanted, n) <==>
            exists j :: 0 <= j < n && at == address + j * 256 && data == Page(wanted, j) && Page(base, j) != Page(wanted, j)
  {
    hide Page;
    if n > 0 { PageWritten(address, base, wanted, n - 1, at, data); }
  }

  lemma WrittenInSector(address: nat, current: seq<Byte>, wanted: seq<Byte>, force: bool, at: nat, data: seq<Byte>)
    requires |current| == |wanted| == 4096
    ensures Write(at, data) in SectorOps(address, current, wanted, force) <==>
            exists j :: 0 <= j < 16 && at == address + j * 256 && data == Page(wanted, j) &&
                        Page(Base(current, wanted, force), j) != Page(wanted, j)
  {
    hide Page, PageOps, Base, NeedsErase;
    PageWritten(address, Base(current, wanted, force), wanted, 16, at, data);
  }

  lemma {:induction false} WrittenInPlan(mem: seq<Byte>, image: seq<Byte>, force: bool, n: nat, at: nat, data: seq<Byte>)
    requires n * 4096 <= |mem|
    ensures Write(at, data) in Plan(mem, image, force, n) <==>
            exists k :: 0 <= k < n && Write(at, data) in OpsAt(mem, image, force, k)
  {
    hide OpsAt;
    if n > 0 { WrittenInPlan(mem, image, force, n - 1, at, data); }
  }

  // The page a write goes to, and what it is compared with.
  lemma BaseIs(mem: seq<Byte>, image: seq<Byte>, force: bool, k: nat)
    requires SectorCount(image) * 4096 <= |mem| && k < SectorCount(image)
    ensures Base(SectorAt(mem, k), WantedSector(image, k), force)
            == if Erase(k * 4096) in WholePlan(mem, image, force) then Blanks(4096) else SectorAt(mem, k)
  {
    hide Plan, SectorCount, SectorAt, WantedSector, Page, IsBlank, NeedsErase;
    ErasedIff(mem, image, force, SectorCount(image), k);
    NeedsEraseIff(SectorAt(mem, k), WantedSector(image, k));
  }

  // Page j of sector k is written exactly when it differs from what the flash holds by then.
  ghost predicate PageIsWritten(mem: seq<Byte>, image: seq<Byte>, force: bool, k: nat, j: nat)
    requires SectorCount(image) * 4096 <= |mem| && (16 * k + j + 1) * 256 <= |mem|
  {
    if Erase(k * 4096) in WholePlan(mem, image, force) then Needed(image, 16 * k + j) else Differs(mem, image, 16 * k + j)
  }

  lemma PageIsWrittenIff(mem: seq<Byte>, image: seq<Byte>, force: bool, k: nat, j: nat)
    requires SectorCount(image) * 4096 <= |mem| && k < SectorCount(image) && j < 16
    ensures (16 * k + j + 1) * 256 <= |mem|
    ensures Page(Base(SectorAt(mem, k), WantedSector(image, k), force), j) != Page(WantedSector(image, k), j)
            <==> PageIsWritten(mem, image, force, k, j)
  {
    hide Plan, SectorCount, SectorAt, WantedSector, Page, Base, Needed, Differs;
    BaseIs(mem, image, force, k);
    DiffersIff(mem, image, k, j);
    NeededIff(image, k, j);
  }

  ghost predicate PageBytes(image: seq<Byte>, p: nat, data: seq<Byte>) {
    |data| == 256 && forall i :: 0 <= i < 256 ==> data[i] == Wanted(image, p * 256 + i)
  }

  lemma PageBytesIff(mem: seq<Byte>, image: seq<Byte>, k: nat, j: nat, data: seq<Byte>)
    requires (k + 1) * 4096 <= |mem| && j < 16
    ensures data == Page(WantedSector(image, k), j) <==> PageBytes(image, 16 * k + j, data)
  {
    hide SectorAt, WantedSector, Page, Wanted;
    PageAt(mem, image, k, j);
  }

  /** The writes are exactly these: for a page of a sector the image reaches into, its wanted
      bytes, if the sector is erased and they are not all 0xFF, or if it is not erased and
      they differ from what the flash holds. */
  lemma WrittenBytes(mem: seq<Byte>, image: seq<Byte>, force: bool, at: nat, data: seq<Byte>)
    requires SectorCount(image) * 4096 <= |mem|
    ensures Write(at, data) in WholePlan(mem, image, force) <==>
            exists k, j :: 0 <= j < 16 && 0 <= k && k * 4096 < |image| && (16 * k + j + 1) * 256 <= |mem| &&
                           at == (16 * k + j) * 256 && PageBytes(image, 16 * k + j, data) &&
                           PageIsWritten(mem, image, force, k, j)
  {
    hide Plan, SectorCount, SectorAt, WantedSector, Page, Base, PageIsWritten, PageBytes, SectorOps;
    WrittenInPlan(mem, image, force, SectorCount(image), at, data);
    if Write(at, data) in WholePlan(mem, image, force) {
      var k :| 0 <= k < SectorCount(image) && Write(at, data) in OpsAt(mem, image, force, k);
      WrittenInSector(k * 4096, SectorAt(mem, k), WantedSector(image, k), force, at, data);
      var j :| 0 <= j < 16 && at == k * 4096 + j * 256 && data == Page(WantedSector(image, k), j) &&
               Page(Base(SectorAt(mem, k), WantedSector(image, k), force), j) != Page(WantedSector(image, k), j);
      Covered(image, k);
      PageBytesIff(mem, image, k, j, data);
      PageIsWrittenIff(mem, image, force, k, j);
    }
    if k, j :| 0 <= j < 16 && 0 <= k && k * 4096 < |image| && (16 * k + j + 1) * 256 <= |mem| &&
               at == (16 * k + j) * 256 && PageBytes(image, 16 * k + j, data) && PageIsWritten(mem, image, force, k, j)
    {
      Covered(image, k);
      PageBytesIff(mem, image, k, j, data);
      PageIsWrittenIff(mem, image, force, k, j);
      WrittenInSector(k * 4096, SectorAt(mem, k), WantedSector(image, k), force, at, data);
      assert Write(at, data) in OpsAt(mem, image, force, k);
    }
  }

  // ---------- nothing twice ----------

  ghost predicate Distinct(ops: seq<Op>) { forall i, j :: 0 <= i < j < |ops| ==> ops[i] != ops[j] }

  function Address(op: Op): nat { op.address }

  // Operations on one stretch of the flash.
  ghost predicate Between(ops: seq<Op>, lo: nat, hi: nat) {
    forall i :: 0 <= i < |ops| ==> lo <= Address(ops[i]) < hi
  }

  lemma DistinctConcat(a: seq<Op>, b: seq<Op>, lo: nat, mid: nat, hi: nat)
    requires Distinct(a) && Distinct(b) && Between(a, lo, mid) && Between(b, mid, hi) && lo <= mid <= hi
    ensures Distinct(a + b) && Between(a + b, lo, hi)
  {
    hide Address;
  }

  lemma {:induction false} PagesDistinct(address: nat, base: seq<Byte>, wanted: seq<Byte>, n: nat)
    requires |base| == |wanted| == 4096 && n <= 16
    ensures Distinct(PageOps(address, base, wanted, n)) && Between(PageOps(address, base, wanted, n), address, address + n * 256)
  {
    hide Page, Distinct, Between;
    if n == 0 {
      NoneDistinct(address, address);
    } else {
      PagesDistinct(address, base, wanted, n - 1);
      var mid, hi := address + (n - 1) * 256, address + n * 256;
      NoneDistinct(mid, hi);
      OneDistinct(PageWrite(address, wanted, n - 1), mid, hi);
      DistinctConcat(PageOps(address, base, wanted, n - 1), [PageWrite(address, wanted, n - 1)], address, mid, hi);
      DistinctConcat(PageOps(address, base, wanted, n - 1), [], address, mid, hi);
    }
  }

  lemma NoneDistinct(lo: nat, hi: nat)
    ensures Distinct([]) && Between([], lo, hi)
  {
  }

  lemma OneDistinct(op: Op, lo: nat, hi: nat)
    requires lo <= Address(op) < hi
    ensures Distinct([op]) && Between([op], lo, hi)
  {
  }

  lemma EraseFirst(address: nat, writes: seq<Op>)
    requires Distinct(writes) && Between(writes, address, address + 4096)
    requires forall k :: 0 <= k < |writes| ==> writes[k].Write?
    ensures Distinct([Erase(address)] + writes) && Between([Erase(address)] + writes, address, address + 4096)
    ensures [] + writes == writes
  {
    forall i | 0 <= i < |writes| ensures writes[i] != Erase(address) { assert writes[i].Write?; }
  }

  lemma SectorDistinct(address: nat, current: seq<Byte>, wanted: seq<Byte>, force: bool)
    requires |current| == |wanted| == 4096
    ensures Distinct(SectorOps(address, current, wanted, force))
    ensures Between(SectorOps(address, current, wanted, force), address, address + 4096)
  {
    hide Page, PageOps, Base, NeedsErase, Distinct, Between, Address;
    var writes := PageOps(address, Base(current, wanted, force), wanted, 16);
    PagesDistinct(address, Base(current, wanted, force), wanted, 16);
    PageOpsNeverErase(address, Base(current, wanted, force), wanted, 16);
    EraseFirst(address, writes);
  }

  /** No request is issued twice, and the sectors are handled in ascending order. */
  lemma {:induction false} PlanDistinct(mem: seq<Byte>, image: seq<Byte>, force: bool, n: nat)
    requires n * 4096 <= |mem|
    ensures Distinct(Plan(mem, image, force, n)) && Between(Plan(mem, image, force, n), 0, n * 4096)
  {
    hide SectorOps, Distinct, Between, SectorAt, WantedSector;
    if n == 0 {
      NoneDistinct(0, 0);
    } else {
      PlanDistinct(mem, image, force, n - 1);
      SectorDistinct((n - 1) * 4096, SectorAt(mem, n - 1), WantedSector(image, n - 1), force);
      DistinctConcat(Plan(mem, image, force, n - 1), OpsAt(mem, image, force, n - 1), 0, (n - 1) * 4096, n * 4096);
    }
  }
}
