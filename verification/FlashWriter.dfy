/** The firmware writer: it updates NOR flash sector by sector, erasing only
    sectors that need it and writing only pages that differ.

    Flash is NOR memory: erasing a sector sets every byte to 0xFF, and writing a
    page can only clear bits. */
module FlashWriter {
  type Byte = bv8

  // A page is 256 bytes, a sector 4096 bytes or 16 pages.
  const BLANK: Byte := 0xFF

  datatype Op =
    | Erase(address: nat)
    | Write(address: nat, data: seq<Byte>)

  // ---------- what the operations do to the memory ----------

  function Blanks(n: nat): (r: seq<Byte>)
    ensures |r| == n
  {
    seq(n, _ => BLANK)
  }

  predicate IsBlank(page: seq<Byte>) {
    forall k :: 0 <= k < |page| ==> page[k] == BLANK
  }

  function And(current: seq<Byte>, data: seq<Byte>): (r: seq<Byte>)
    requires |current| == |data|
    ensures |r| == |data|
  {
    seq(|data|, k requires 0 <= k < |data| => current[k] & data[k])
  }

  // mem with the bytes from `at` on replaced by `bytes`
  function Patch(mem: seq<Byte>, at: nat, bytes: seq<Byte>): (r: seq<Byte>)
    requires at + |bytes| <= |mem|
    ensures |r| == |mem|
  {
    mem[..at] + bytes + mem[at + |bytes|..]
  }

  predicate Fits(size: nat, op: Op) {
    match op
    case Erase(a) => a + 4096 <= size
    case Write(a, data) => a + |data| <= size
  }

  ghost predicate AllFit(size: nat, ops: seq<Op>) {
    forall k :: 0 <= k < |ops| ==> Fits(size, ops[k])
  }

  function Apply(mem: seq<Byte>, op: Op): (r: seq<Byte>)
    requires Fits(|mem|, op)
    ensures |r| == |mem|
  {
    match op
    case Erase(a) => Patch(mem, a, Blanks(4096))
    case Write(a, data) => Patch(mem, a, And(mem[a..a + |data|], data))
  }

  ghost function Replay(mem: seq<Byte>, ops: seq<Op>): (r: seq<Byte>)
    requires AllFit(|mem|, ops)
    ensures |r| == |mem|
    decreases |ops|
  {
    if ops == [] then mem
    else Apply(Replay(mem, ops[..|ops| - 1]), ops[|ops| - 1])
  }

  lemma ReplayOneMore(mem: seq<Byte>, ops: seq<Op>, op: Op)
    requires AllFit(|mem|, ops) && Fits(|mem|, op)
    ensures AllFit(|mem|, ops + [op]) && Replay(mem, ops + [op]) == Apply(Replay(mem, ops), op)
  {
    assert (ops + [op])[..|ops|] == ops;
  }

  lemma {:induction false} ReplayConcat(mem: seq<Byte>, xs: seq<Op>, ys: seq<Op>)
    requires AllFit(|mem|, xs) && AllFit(|mem|, ys)
    ensures AllFit(|mem|, xs + ys) && Replay(mem, xs + ys) == Replay(Replay(mem, xs), ys)
    decreases |ys|
  {
    if ys == [] {
      assert xs + ys == xs;
    } else {
      hide Apply;
      var front, last := ys[..|ys| - 1], ys[|ys| - 1];
      ReplayConcat(mem, xs, front);
      assert xs + ys == (xs + front) + [last];
      ReplayOneMore(mem, xs + front, last);
      assert AllFit(|mem|, front) && Replay(Replay(mem, xs), ys) == Apply(Replay(Replay(mem, xs), front), last);
    }
  }

  // ---------- the plan ----------

  function SectorCount(image: seq<Byte>): nat { (|image| + 4096 - 1) / 4096 }

  // The bytes wanted in sector k: the image, then 0xFF padding.
  function WantedSector(image: seq<Byte>, k: nat): (r: seq<Byte>)
    ensures |r| == 4096
  {
    seq(4096, j requires 0 <= j < 4096 =>
      if k * 4096 + j < |image| then image[k * 4096 + j] else BLANK)
  }

  function Page(sector: seq<Byte>, j: nat): (r: seq<Byte>)
    requires |sector| == 4096 && j < 16
    ensures |r| == 256
  {
    sector[j * 256..(j + 1) * 256]
  }

  // Page j has to change but cannot be written as it is.
  predicate Blocked(current: seq<Byte>, wanted: seq<Byte>, j: nat)
    requires |current| == |wanted| == 4096 && j < 16
  {
    Page(wanted, j) != Page(current, j) && !IsBlank(Page(current, j))
  }

  predicate NeedsErase(current: seq<Byte>, wanted: seq<Byte>, upTo: nat)
    requires |current| == |wanted| == 4096 && upTo <= 16
  {
    exists j :: 0 <= j < upTo && Blocked(current, wanted, j)
  }

  function PageWrite(address: nat, wanted: seq<Byte>, n: nat): Op
    requires |wanted| == 4096 && n < 16
  {
    Write(address + n * 256, Page(wanted, n))
  }

  // Write operations for the first n pages of the sector at `address`.
  function PageOps(address: nat, current: seq<Byte>, wanted: seq<Byte>, n: nat): seq<Op>
    requires |current| == |wanted| == 4096 && n <= 16
  {
    if n == 0 then []
    else
      PageOps(address, current, wanted, n - 1) +
      if Page(current, n - 1) == Page(wanted, n - 1) then []
      else [PageWrite(address, wanted, n - 1)]
  }

  // The contents the pages are compared with: blank after an erase.
  function Base(current: seq<Byte>, wanted: seq<Byte>, force: bool): (r: seq<Byte>)
    requires |current| == |wanted| == 4096
    ensures |r| == 4096
  {
    if force || NeedsErase(current, wanted, 16) then Blanks(4096) else current
  }

  function EraseOps(address: nat, current: seq<Byte>, wanted: seq<Byte>, force: bool): seq<Op>
    requires |current| == |wanted| == 4096
  {
    if force || NeedsErase(current, wanted, 16) then [Erase(address)] else []
  }

  function SectorOps(address: nat, current: seq<Byte>, wanted: seq<Byte>, force: bool): seq<Op>
    requires |current| == |wanted| == 4096
  {
    EraseOps(address, current, wanted, force) + PageOps(address, Base(current, wanted, force), wanted, 16)
  }

  function SectorAt(mem: seq<Byte>, k: nat): (r: seq<Byte>)
    requires (k + 1) * 4096 <= |mem|
    ensures |r| == 4096
  {
    mem[k * 4096..k * 4096 + 4096]
  }

  function OpsAt(mem: seq<Byte>, image: seq<Byte>, force: bool, k: nat): seq<Op>
    requires (k + 1) * 4096 <= |mem|
  {
    SectorOps(k * 4096, SectorAt(mem, k), WantedSector(image, k), force)
  }

  // Every operation for the first n sectors, decided from the initial contents alone.
  function Plan(mem: seq<Byte>, image: seq<Byte>, force: bool, n: nat): seq<Op>
    requires n * 4096 <= |mem|
  {
    if n == 0 then [] else Plan(mem, image, force, n - 1) + OpsAt(mem, image, force, n - 1)
  }

  function WriteCount(ops: seq<Op>): nat {
    if ops == [] then 0
    else WriteCount(ops[..|ops| - 1]) + if ops[|ops| - 1].Write? then 1 else 0
  }

  lemma {:induction false} WriteCountConcat(xs: seq<Op>, ys: seq<Op>)
    ensures WriteCount(xs + ys) == WriteCount(xs) + WriteCount(ys)
    decreases |ys|
  {
    if ys == [] {
      assert xs + ys == xs;
    } else {
      assert (xs + ys)[..|xs + ys| - 1] == xs + ys[..|ys| - 1];
      WriteCountConcat(xs, ys[..|ys| - 1]);
    }
  }

  // ---------- the plan reaches the target ----------

  // The first n sectors as wanted, everything else as it was.
  function Progress(mem: seq<Byte>, image: seq<Byte>, n: nat): (r: seq<Byte>)
    requires n * 4096 <= |mem|
    ensures |r| == |mem|
  {
    seq(|mem|, k requires 0 <= k < |mem| =>
      if k >= n * 4096 then mem[k] else if k < |image| then image[k] else BLANK)
  }

  function Target(mem: seq<Byte>, image: seq<Byte>): seq<Byte>
    requires SectorCount(image) * 4096 <= |mem|
  {
    Progress(mem, image, SectorCount(image))
  }

  lemma WriteOverBlank(page: seq<Byte>, data: seq<Byte>)
    requires |page| == |data| && IsBlank(page)
    ensures And(page, data) == data
  {
    forall k | 0 <= k < |data| ensures (page[k] & data[k]) == data[k] {
      assert page[k] == 0xFF;
    }
  }

  // A sector whose first n pages are as wanted.
  function Mixed(current: seq<Byte>, wanted: seq<Byte>, n: nat): (r: seq<Byte>)
    requires |current| == |wanted| == 4096 && n <= 16
    ensures |r| == 4096
  {
    wanted[..n * 256] + current[n * 256..]
  }

  // No page of `base` is both different and dirty, so every write lands on a blank page.
  ghost predicate Writable(base: seq<Byte>, wanted: seq<Byte>)
    requires |base| == |wanted| == 4096
  {
    forall j :: 0 <= j < 16 ==> !Blocked(base, wanted, j)
  }

  lemma BaseWritable(current: seq<Byte>, wanted: seq<Byte>, force: bool)
    requires |current| == |wanted| == 4096
    ensures Writable(Base(current, wanted, force), wanted)
  {
  }

  // Writing page n of a partly written sector, or skipping it when it is right already.
  lemma WritePageStep(mem: seq<Byte>, address: nat, base: seq<Byte>, wanted: seq<Byte>, n: nat)
    requires |base| == |wanted| == 4096 && n < 16 && address + 4096 <= |mem|
    ensures var mid := Patch(mem, address, Mixed(base, wanted, n));
            Patch(mid, address + n * 256, Page(wanted, n)) == Patch(mem, address, Mixed(base, wanted, n + 1)) &&
            mid[address + n * 256..address + (n + 1) * 256] == Page(base, n)
  {
    var mid := Patch(mem, address, Mixed(base, wanted, n));
    var l, r := Patch(mid, address + n * 256, Page(wanted, n)), Patch(mem, address, Mixed(base, wanted, n + 1));
    forall k | 0 <= k < |mem| ensures l[k] == r[k] {
    }
    var slice, page := mid[address + n * 256..address + (n + 1) * 256], Page(base, n);
    forall k | 0 <= k < 256 ensures slice[k] == page[k] {
      assert slice[k] == mid[address + (n * 256 + k)];
    }
  }

  lemma SkipPageStep(base: seq<Byte>, wanted: seq<Byte>, n: nat)
    requires |base| == |wanted| == 4096 && n < 16 && Page(base, n) == Page(wanted, n)
    ensures Mixed(base, wanted, n + 1) == Mixed(base, wanted, n)
  {
    var l, r := Mixed(base, wanted, n + 1), Mixed(base, wanted, n);
    forall k | 0 <= k < 4096 ensures l[k] == r[k] {
      if n * 256 <= k < (n + 1) * 256 {
        assert Page(base, n)[k - n * 256] == base[k] && Page(wanted, n)[k - n * 256] == wanted[k];
      }
    }
  }

  // The write lands on a blank page and completes one more page.
  lemma PageStep(mem: seq<Byte>, address: nat, base: seq<Byte>, wanted: seq<Byte>, n: nat)
    requires |base| == |wanted| == 4096 && n < 16 && address + 4096 <= |mem|
    requires IsBlank(Page(base, n))
    ensures IsBlank(Patch(mem, address, Mixed(base, wanted, n))[address + n * 256..address + (n + 1) * 256])
    ensures Apply(Patch(mem, address, Mixed(base, wanted, n)), PageWrite(address, wanted, n))
            == Patch(mem, address, Mixed(base, wanted, n + 1))
  {
    hide Patch, Mixed, Page, And;
    WritePageStep(mem, address, base, wanted, n);
    WriteOverBlank(Page(base, n), Page(wanted, n));
  }

  lemma NoPagesYet(mem: seq<Byte>, address: nat, wanted: seq<Byte>)
    requires |wanted| == 4096 && address + 4096 <= |mem|
    ensures Patch(mem, address, Mixed(mem[address..address + 4096], wanted, 0)) == mem
  {
    var base := mem[address..address + 4096];
    assert Mixed(base, wanted, 0) == base;
    PatchSame(mem, address, 4096);
  }

  lemma {:induction false} PageOpsReach(mem: seq<Byte>, address: nat, base: seq<Byte>, wanted: seq<Byte>, n: nat)
    requires |base| == |wanted| == 4096 && n <= 16 && address + 4096 <= |mem|
    requires mem[address..address + 4096] == base && Writable(base, wanted)
    ensures AllFit(|mem|, PageOps(address, base, wanted, n))
    ensures Replay(mem, PageOps(address, base, wanted, n)) == Patch(mem, address, Mixed(base, wanted, n))
  {
    if n == 0 {
      NoPagesYet(mem, address, wanted);
    } else {
      hide Patch, Mixed, Page, Replay, AllFit;
      PageOpsReach(mem, address, base, wanted, n - 1);
      var ops := PageOps(address, base, wanted, n - 1);
      if Page(base, n - 1) == Page(wanted, n - 1) {
        assert ops + [] == ops;
        SkipPageStep(base, wanted, n - 1);
      } else {
        assert !Blocked(base, wanted, n - 1);
        PageStep(mem, address, base, wanted, n - 1);
        ReplayOneMore(mem, ops, PageWrite(address, wanted, n - 1));
      }
    }
  }

  lemma PatchSlice(mem: seq<Byte>, address: nat, x: seq<Byte>)
    requires address + |x| <= |mem|
    ensures Patch(mem, address, x)[address..address + |x|] == x
  {
  }

  lemma MixedAll(current: seq<Byte>, wanted: seq<Byte>)
    requires |current| == |wanted| == 4096
    ensures Mixed(current, wanted, 16) == wanted
  {
  }

  lemma PatchTwice(mem: seq<Byte>, address: nat, x: seq<Byte>, y: seq<Byte>)
    requires address + |x| <= |mem| && |x| == |y|
    ensures Patch(Patch(mem, address, x), address, y) == Patch(mem, address, y)
  {
  }

  lemma PatchSame(mem: seq<Byte>, address: nat, n: nat)
    requires address + n <= |mem|
    ensures Patch(mem, address, mem[address..address + n]) == mem
  {
  }

  lemma SectorOpsReach(mem: seq<Byte>, address: nat, wanted: seq<Byte>, force: bool)
    requires |wanted| == 4096 && address + 4096 <= |mem|
    ensures AllFit(|mem|, SectorOps(address, mem[address..address + 4096], wanted, force))
    ensures Replay(mem, SectorOps(address, mem[address..address + 4096], wanted, force)) == Patch(mem, address, wanted)
  {
    hide Patch, PageOps, Page, Writable, NeedsErase, Mixed, Blanks;
    var current := mem[address..address + 4096];
    var base := Base(current, wanted, force);
    PatchSlice(mem, address, base);
    var erase := EraseOps(address, current, wanted, force);
    BaseWritable(current, wanted, force);
    PatchSame(mem, address, 4096);
    var mid := Replay(mem, erase);
    if erase != [] {
      assert erase[..0] == [];
      assert Replay(mem, []) == mem;
    }
    hide Replay, AllFit;
    PageOpsReach(mid, address, base, wanted, 16);
    ReplayConcat(mem, erase, PageOps(address, base, wanted, 16));
    MixedAll(base, wanted);
    PatchTwice(mem, address, base, wanted);
  }

  lemma ProgressNone(mem: seq<Byte>, image: seq<Byte>)
    ensures Progress(mem, image, 0) == mem
  {
  }

  lemma ProgressAhead(mem: seq<Byte>, image: seq<Byte>, n: nat)
    requires (n + 1) * 4096 <= |mem|
    ensures SectorAt(Progress(mem, image, n), n) == SectorAt(mem, n)
  {
  }

  lemma ProgressStep(mem: seq<Byte>, image: seq<Byte>, n: nat)
    requires (n + 1) * 4096 <= |mem|
    ensures Patch(Progress(mem, image, n), n * 4096, WantedSector(image, n)) == Progress(mem, image, n + 1)
  {
  }

  lemma OpsAtReach(mem: seq<Byte>, image: seq<Byte>, force: bool, n: nat)
    requires (n + 1) * 4096 <= |mem|
    ensures AllFit(|mem|, OpsAt(mem, image, force, n))
    ensures Replay(Progress(mem, image, n), OpsAt(mem, image, force, n)) == Progress(mem, image, n + 1)
  {
    hide SectorOps, Replay, AllFit, Progress, Patch;
    ProgressAhead(mem, image, n);
    SectorOpsReach(Progress(mem, image, n), n * 4096, WantedSector(image, n), force);
    ProgressStep(mem, image, n);
  }

  lemma PlanUnfolds(mem: seq<Byte>, image: seq<Byte>, force: bool, n: nat)
    requires (n + 1) * 4096 <= |mem|
    ensures Plan(mem, image, force, n + 1) == Plan(mem, image, force, n) + OpsAt(mem, image, force, n)
  {
    hide OpsAt;
  }

  lemma EmptyPlan(mem: seq<Byte>, image: seq<Byte>, force: bool)
    ensures Plan(mem, image, force, 0) == [] && AllFit(|mem|, []) && Replay(mem, []) == mem
  {
  }

  // Replaying the plan gives the image, padded, and touches nothing else.
  lemma {:induction false} PlanReaches(mem: seq<Byte>, image: seq<Byte>, force: bool, n: nat)
    requires n * 4096 <= |mem|
    ensures AllFit(|mem|, Plan(mem, image, force, n))
    ensures Replay(mem, Plan(mem, image, force, n)) == Progress(mem, image, n)
  {
    hide Plan, OpsAt, Replay, AllFit, Progress;
    if n == 0 {
      EmptyPlan(mem, image, force);
      ProgressNone(mem, image);
    } else {
      PlanUnfolds(mem, image, force, n - 1);
      PlanReaches(mem, image, force, n - 1);
      OpsAtReach(mem, image, force, n - 1);
      ReplayConcat(mem, Plan(mem, image, force, n - 1), OpsAt(mem, image, force, n - 1));
    }
  }

  // ---------- every write lands on a blank page, aligned; every erase is aligned ----------

  ghost predicate Proper(mem: seq<Byte>, op: Op) {
    match op
    case Erase(a) => a % 4096 == 0
    case Write(a, data) => a % 256 == 0 && |data| == 256 && a + 256 <= |mem| && IsBlank(mem[a..a + 256])
  }

  ghost predicate AllProper(mem: seq<Byte>, ops: seq<Op>)
    requires AllFit(|mem|, ops)
    decreases |ops|
  {
    ops == [] || (AllProper(mem, ops[..|ops| - 1]) && Proper(Replay(mem, ops[..|ops| - 1]), ops[|ops| - 1]))
  }

  lemma AllProperOneMore(mem: seq<Byte>, ops: seq<Op>, op: Op)
    requires AllFit(|mem|, ops) && AllFit(|mem|, ops + [op]) && AllProper(mem, ops) && Proper(Replay(mem, ops), op)
    ensures AllProper(mem, ops + [op])
  {
    hide Proper, Replay, AllFit;
    assert (ops + [op])[..|ops|] == ops;
  }

  lemma AllProperParts(mem: seq<Byte>, ops: seq<Op>)
    requires AllFit(|mem|, ops) && ops != [] && AllProper(mem, ops)
    ensures AllFit(|mem|, ops[..|ops| - 1]) && AllProper(mem, ops[..|ops| - 1])
    ensures Proper(Replay(mem, ops[..|ops| - 1]), ops[|ops| - 1])
  {
    hide Proper, Replay;
  }

  lemma AllFitConcat(size: nat, xs: seq<Op>, ys: seq<Op>)
    requires AllFit(size, xs) && AllFit(size, ys)
    ensures AllFit(size, xs + ys)
  {
  }

  lemma {:induction false} AllProperConcat(mem: seq<Byte>, xs: seq<Op>, ys: seq<Op>)
    requires AllFit(|mem|, xs) && AllFit(|mem|, ys) && AllProper(mem, xs) && AllProper(Replay(mem, xs), ys)
    ensures AllFit(|mem|, xs + ys) && AllProper(mem, xs + ys)
    decreases |ys|
  {
    hide Proper, Replay, AllFit, AllProper;
    AllFitConcat(|mem|, xs, ys);
    if ys == [] {
      assert xs + ys == xs;
    } else {
      var front, last := ys[..|ys| - 1], ys[|ys| - 1];
      AllProperParts(Replay(mem, xs), ys);
      AllProperConcat(mem, xs, front);
      ReplayConcat(mem, xs, front);
      assert xs + ys == (xs + front) + [last];
      AllProperOneMore(mem, xs + front, last);
    }
  }

  lemma WritableAt(base: seq<Byte>, wanted: seq<Byte>, n: nat)
    requires |base| == |wanted| == 4096 && n < 16
    requires Writable(base, wanted) && Page(base, n) != Page(wanted, n)
    ensures IsBlank(Page(base, n))
  {
    assert !Blocked(base, wanted, n);
  }

  lemma PageAligned(k: nat, n: nat)
    ensures (k * 4096 + n * 256) % 256 == 0 && (k * 4096) % 4096 == 0
  {
    assert (k * 4096 + n * 256) / 256 == 16 * k + n;
    assert (k * 4096) / 4096 == k;
  }

  lemma PageWriteProper(mem: seq<Byte>, address: nat, base: seq<Byte>, wanted: seq<Byte>, n: nat)
    requires |base| == |wanted| == 4096 && n < 16 && address + 4096 <= |mem| && address % 4096 == 0
    requires Writable(base, wanted) && Page(base, n) != Page(wanted, n)
    ensures Proper(Patch(mem, address, Mixed(base, wanted, n)), PageWrite(address, wanted, n))
  {
    hide Patch, Mixed, Page, Writable, IsBlank, And;
    PageAligned(address / 4096, n);
    WritableAt(base, wanted, n);
    PageStep(mem, address, base, wanted, n);
  }

  lemma {:induction false} PageOpsProper(mem: seq<Byte>, address: nat, base: seq<Byte>, wanted: seq<Byte>, n: nat)
    requires |base| == |wanted| == 4096 && n <= 16 && address + 4096 <= |mem| && address % 4096 == 0
    requires mem[address..address + 4096] == base && Writable(base, wanted)
    ensures AllFit(|mem|, PageOps(address, base, wanted, n)) && AllProper(mem, PageOps(address, base, wanted, n))
  {
    hide Patch, Mixed, Page, Writable, Proper, PageWrite;
    if n > 0 {
      hide AllFit, AllProper, Replay;
      PageOpsReach(mem, address, base, wanted, n);
      PageOpsProper(mem, address, base, wanted, n - 1);
      PageOpsReach(mem, address, base, wanted, n - 1);
      var ops := PageOps(address, base, wanted, n - 1);
      if Page(base, n - 1) == Page(wanted, n - 1) {
        assert ops + [] == ops;
      } else {
        PageWriteProper(mem, address, base, wanted, n - 1);
        AllProperOneMore(mem, ops, PageWrite(address, wanted, n - 1));
      }
    }
  }

  lemma OpsAtProper(mem: seq<Byte>, image: seq<Byte>, force: bool, n: nat)
    requires (n + 1) * 4096 <= |mem|
    ensures AllFit(|mem|, OpsAt(mem, image, force, n)) && AllProper(Progress(mem, image, n), OpsAt(mem, image, force, n))
  {
    hide Progress, PageOps, Patch, Writable, NeedsErase, Mixed, Page;
    OpsAtReach(mem, image, force, n);
    ProgressAhead(mem, image, n);
    var mid := Progress(mem, image, n);
    var current, wanted := SectorAt(mem, n), WantedSector(image, n);
    var base := Base(current, wanted, force);
    var erase := EraseOps(n * 4096, current, wanted, force);
    BaseWritable(current, wanted, force);
    PatchSlice(mid, n * 4096, Blanks(4096));
    if erase != [] { assert erase[..0] == []; }
    assert AllProper(mid, erase);
    PageOpsProper(Replay(mid, erase), n * 4096, base, wanted, 16);
    hide AllProper, Replay;
    AllProperConcat(mid, erase, PageOps(n * 4096, base, wanted, 16));
  }

  // The assertion in the page loop never fails, in any sector of any run.
  lemma {:induction false} PlanProper(mem: seq<Byte>, image: seq<Byte>, force: bool, n: nat)
    requires n * 4096 <= |mem|
    ensures AllFit(|mem|, Plan(mem, image, force, n)) && AllProper(mem, Plan(mem, image, force, n))
  {
    hide OpsAt, Replay, AllFit, Progress;
    PlanReaches(mem, image, force, n);
    if n > 0 {
      hide AllProper;
      PlanProper(mem, image, force, n - 1);
      PlanReaches(mem, image, force, n - 1);
      OpsAtProper(mem, image, force, n - 1);
      AllProperConcat(mem, Plan(mem, image, force, n - 1), OpsAt(mem, image, force, n - 1));
    }
  }

  // ---------- against the trivial updater ----------

  function AllPages(address: nat, wanted: seq<Byte>, n: nat): seq<Op>
    requires |wanted| == 4096 && n <= 16
  {
    if n == 0 then [] else AllPages(address, wanted, n - 1) + [PageWrite(address, wanted, n - 1)]
  }

  // Erasing and writing sector n.
  function NaiveSector(image: seq<Byte>, n: nat): seq<Op> {
    [Erase(n * 4096)] + AllPages(n * 4096, WantedSector(image, n), 16)
  }

  // Erase everything, write everything.
  function NaivePlan(image: seq<Byte>, n: nat): seq<Op> {
    if n == 0 then []
    else NaivePlan(image, n - 1) + NaiveSector(image, n - 1)
  }

  lemma BlankPages(n: nat)
    requires n < 16
    ensures IsBlank(Page(Blanks(4096), n))
  {
  }

  lemma {:induction false} AllPagesReach(mem: seq<Byte>, address: nat, wanted: seq<Byte>, n: nat)
    requires |wanted| == 4096 && n <= 16 && address + 4096 <= |mem|
    requires mem[address..address + 4096] == Blanks(4096)
    ensures AllFit(|mem|, AllPages(address, wanted, n))
    ensures Replay(mem, AllPages(address, wanted, n)) == Patch(mem, address, Mixed(Blanks(4096), wanted, n))
  {
    if n == 0 {
      NoPagesYet(mem, address, wanted);
    } else {
      hide Patch, Mixed, Page, Replay, AllFit, Blanks;
      AllPagesReach(mem, address, wanted, n - 1);
      BlankPages(n - 1);
      PageStep(mem, address, Blanks(4096), wanted, n - 1);
      ReplayOneMore(mem, AllPages(address, wanted, n - 1), PageWrite(address, wanted, n - 1));
    }
  }

  lemma NaiveSectorReaches(mem: seq<Byte>, address: nat, wanted: seq<Byte>)
    requires |wanted| == 4096 && address + 4096 <= |mem|
    ensures AllFit(|mem|, [Erase(address)] + AllPages(address, wanted, 16))
    ensures Replay(mem, [Erase(address)] + AllPages(address, wanted, 16)) == Patch(mem, address, wanted)
  {
    hide Patch, AllPages, Page, Mixed, Blanks;
    PatchSlice(mem, address, Blanks(4096));
    ReplayOneMore(mem, [], Erase(address));
    assert [] + [Erase(address)] == [Erase(address)];
    var mid := Patch(mem, address, Blanks(4096));
    AllPagesReach(mid, address, wanted, 16);
    ReplayConcat(mem, [Erase(address)], AllPages(address, wanted, 16));
    hide Replay, AllFit;
    MixedAll(Blanks(4096), wanted);
    PatchTwice(mem, address, Blanks(4096), wanted);
  }

  lemma NaiveUnfolds(image: seq<Byte>, n: nat)
    ensures NaivePlan(image, n + 1) == NaivePlan(image, n) + NaiveSector(image, n)
  {
    hide NaiveSector;
  }

  lemma NaiveNone(mem: seq<Byte>, image: seq<Byte>)
    ensures NaivePlan(image, 0) == [] && AllFit(|mem|, []) && Replay(mem, []) == mem
  {
  }

  lemma {:induction false} NaiveReaches(mem: seq<Byte>, image: seq<Byte>, n: nat)
    requires n * 4096 <= |mem|
    ensures AllFit(|mem|, NaivePlan(image, n)) && Replay(mem, NaivePlan(image, n)) == Progress(mem, image, n)
  {
    hide Progress, AllPages, Patch, WantedSector, NaivePlan, Replay, AllFit;
    if n == 0 {
      NaiveNone(mem, image);
      ProgressNone(mem, image);
    } else {
      NaiveUnfolds(image, n - 1);
      NaiveReaches(mem, image, n - 1);
      NaiveSectorReaches(Progress(mem, image, n - 1), (n - 1) * 4096, WantedSector(image, n - 1));
      ProgressStep(mem, image, n - 1);
      ReplayConcat(mem, NaivePlan(image, n - 1), NaiveSector(image, n - 1));
    }
  }

  // Skipping work changes nothing: the plan and the trivial plan leave the same flash.
  lemma PlanAgreesWithNaive(mem: seq<Byte>, image: seq<Byte>, force: bool)
    requires SectorCount(image) * 4096 <= |mem|
    ensures AllFit(|mem|, Plan(mem, image, force, SectorCount(image)))
    ensures AllFit(|mem|, NaivePlan(image, SectorCount(image)))
    ensures Replay(mem, Plan(mem, image, force, SectorCount(image)))
            == Replay(mem, NaivePlan(image, SectorCount(image))) == Target(mem, image)
  {
    PlanReaches(mem, image, force, SectorCount(image));
    NaiveReaches(mem, image, SectorCount(image));
  }

  // ---------- a second run, and when a sector is erased ----------

  lemma {:induction false} NoPageOps(address: nat, sector: seq<Byte>, n: nat)
    requires |sector| == 4096 && n <= 16
    ensures PageOps(address, sector, sector, n) == []
  {
    if n > 0 { NoPageOps(address, sector, n - 1); }
  }

  lemma TargetSector(mem: seq<Byte>, image: seq<Byte>, n: nat, k: nat)
    requires n * 4096 <= |mem| && k < n
    ensures SectorAt(Progress(mem, image, n), k) == WantedSector(image, k)
  {
  }

  lemma NothingToDo(address: nat, sector: seq<Byte>)
    requires |sector| == 4096
    ensures SectorOps(address, sector, sector, false) == []
  {
    hide PageOps, Page;
    NoPageOps(address, sector, 16);
  }

  lemma {:induction false} PlanAfterUpdate(mem: seq<Byte>, image: seq<Byte>, n: nat, k: nat)
    requires n * 4096 <= |mem| && k <= n
    ensures Plan(Progress(mem, image, n), image, false, k) == []
  {
    hide Progress, SectorOps, SectorAt, WantedSector;
    if k > 0 {
      PlanAfterUpdate(mem, image, n, k - 1);
      TargetSector(mem, image, n, k - 1);
      NothingToDo((k - 1) * 4096, WantedSector(image, k - 1));
    }
  }

  // An unforced rerun on updated flash issues no operation at all.
  lemma RerunDoesNothing(mem: seq<Byte>, image: seq<Byte>)
    requires SectorCount(image) * 4096 <= |mem|
    ensures Plan(Target(mem, image), image, false, SectorCount(image)) == []
  {
    PlanAfterUpdate(mem, image, SectorCount(image), SectorCount(image));
  }

  lemma {:induction false} PageOpsNeverErase(address: nat, base: seq<Byte>, wanted: seq<Byte>, n: nat)
    requires |base| == |wanted| == 4096 && n <= 16
    ensures forall k :: 0 <= k < |PageOps(address, base, wanted, n)| ==> PageOps(address, base, wanted, n)[k].Write?
  {
    if n > 0 { PageOpsNeverErase(address, base, wanted, n - 1); }
  }

  lemma EraseInSector(address: nat, current: seq<Byte>, wanted: seq<Byte>, force: bool, a: nat)
    requires |current| == |wanted| == 4096
    ensures Erase(a) in SectorOps(address, current, wanted, force) <==>
            a == address && (force || NeedsErase(current, wanted, 16))
  {
    PageOpsNeverErase(address, Base(current, wanted, force), wanted, 16);
    var erase := EraseOps(address, current, wanted, force);
    if erase != [] { assert erase[0] == Erase(address); }
  }

  // A sector is erased exactly when forced, or when one of its pages both differs and is not blank.
  lemma {:induction false} ErasedIff(mem: seq<Byte>, image: seq<Byte>, force: bool, n: nat, k: nat)
    requires n * 4096 <= |mem| && k < n
    ensures Erase(k * 4096) in Plan(mem, image, force, n) <==>
            force || exists j :: 0 <= j < 16 && Page(SectorAt(mem, k), j) != Page(WantedSector(image, k), j) &&
                                 !IsBlank(Page(SectorAt(mem, k), j))
  {
    hide SectorOps, Blocked, NeedsErase, SectorAt, WantedSector, Page, IsBlank;
    EraseInSector((n - 1) * 4096, SectorAt(mem, n - 1), WantedSector(image, n - 1), force, k * 4096);
    if k < n - 1 {
      ErasedIff(mem, image, force, n - 1, k);
    } else {
      NoEraseBeyond(mem, image, force, k, k);
      NeedsEraseIff(SectorAt(mem, k), WantedSector(image, k));
    }
  }

  lemma NeedsEraseIff(current: seq<Byte>, wanted: seq<Byte>)
    requires |current| == |wanted| == 4096
    ensures NeedsErase(current, wanted, 16) <==>
            exists j :: 0 <= j < 16 && Page(current, j) != Page(wanted, j) && !IsBlank(Page(current, j))
  {
    hide Page, IsBlank;
    if NeedsErase(current, wanted, 16) {
      var j :| 0 <= j < 16 && Blocked(current, wanted, j);
    }
    if j :| 0 <= j < 16 && Page(current, j) != Page(wanted, j) && !IsBlank(Page(current, j)) {
      assert Blocked(current, wanted, j);
    }
  }

  lemma {:induction false} NoEraseBeyond(mem: seq<Byte>, image: seq<Byte>, force: bool, n: nat, k: nat)
    requires n * 4096 <= |mem| && n <= k
    ensures Erase(k * 4096) !in Plan(mem, image, force, n)
  {
    hide SectorOps, NeedsErase, SectorAt, WantedSector;
    if n > 0 {
      NoEraseBeyond(mem, image, force, n - 1, k);
      EraseInSector((n - 1) * 4096, SectorAt(mem, n - 1), WantedSector(image, n - 1), force, k * 4096);
    }
  }

  // ---------- the device ----------

  // Page n of a sector is the stretch the loops index by byte offset.
  lemma PageSlice(sector: seq<Byte>, n: nat)
    requires |sector| == 4096 && n < 16
    ensures sector[n * 256..n * 256 + 256] == Page(sector, n)
  {
  }

  // True when every byte is 0xFF; stops at the first that is not.
  method IsErasedPage(page: seq<Byte>) returns (erased: bool)
    ensures erased <==> IsBlank(page)
  {
    for i := 0 to |page|
      invariant forall k :: 0 <= k < i ==> page[k] == BLANK
    {
      if page[i] != 0xFF { return false; }
    }
    return true;
  }

  method CopyIn(buf: array<Byte>, at: nat, data: seq<Byte>)
    requires at + |data| <= buf.Length
    modifies buf
    ensures buf[..] == Patch(old(buf[..]), at, data)
  {
    forall k | 0 <= k < |data| { buf[at + k] := data[k]; }
  }

  lemma PatchNothing(buf: seq<Byte>, at: nat)
    requires at <= |buf|
    ensures Patch(buf, at, []) == buf
  {
  }

  lemma PatchMore(buf: seq<Byte>, at: nat, x: seq<Byte>, y: seq<Byte>)
    requires at + |x| + |y| <= |buf|
    ensures Patch(Patch(buf, at, x), at + |x|, y) == Patch(buf, at, x + y)
  {
  }

  lemma PatchOutside(buf: seq<Byte>, at: nat, x: seq<Byte>, end: nat)
    requires at + |x| <= end <= |buf|
    ensures Patch(buf, at, x)[..at] == buf[..at] && Patch(buf, at, x)[end..] == buf[end..]
  {
  }

  // Only bytes in [from, to) differ.
  ghost predicate SameOutside(before: seq<Byte>, after: seq<Byte>, from: nat, to: nat) {
    |after| == |before| && forall k :: 0 <= k < |after| && !(from <= k < to) ==> after[k] == before[k]
  }

  /** Flash behind the I/O object. `log` records the erase and write requests in the
      order they are issued. A transfer may fail at any time unless `reliable` is
      set; a failed erase or write leaves its own sector or page in any state. */
  class Flash {
    var mem: seq<Byte>
    var log: seq<Op>
    const dryRun: bool
    const reliable: bool

    constructor (contents: seq<Byte>, dryRun: bool, reliable: bool)
      ensures mem == contents && log == [] && this.dryRun == dryRun && this.reliable == reliable
    {
      mem := contents;
      log := [];
      this.dryRun := dryRun;
      this.reliable := reliable;
    }

    // One control transfer, which never crosses a page.
    method ReadQuad(start: nat, n: nat) returns (ok: bool, data: seq<Byte>)
      requires start + n <= |mem| && start % 256 + n <= 256
      ensures |data| == n && (ok ==> data == mem[start..start + n])
      ensures reliable ==> ok
    {
      ok := *;
      ok := ok || reliable;
      data := if ok then mem[start..start + n] else Blanks(n);
    }

    // Reads n bytes into buf from index `at` on, split at page boundaries.
    method Read(start: nat, buf: array<Byte>, at: nat, n: nat) returns (ok: bool)
      requires start + n <= |mem| && at + n <= buf.Length
      modifies buf
      ensures ok ==> buf[..] == Patch(old(buf[..]), at, mem[start..start + n])
      ensures buf[..at] == old(buf[..at]) && buf[at + n..] == old(buf[at + n..])
      ensures reliable ==> ok
    {
      hide Patch;
      var s, b, left := start, at, n;
      ghost var buf0 := buf[..];
      PatchNothing(buf0, at);
      assert mem[start..start] == [];
      while left > 0
        invariant s + left == start + n && b + left == at + n && 0 <= left <= n
        invariant buf[..] == Patch(buf0, at, mem[start..s])
      {
        var len := 256 - s % 256;
        if len > left { len := left; }
        var got, data := ReadQuad(s, len);
        if !got {
          PatchOutside(buf0, at, mem[start..s], at + n);
          return false;
        }
        CopyIn(buf, b, data);
        PatchMore(buf0, at, mem[start..s], data);
        assert mem[start..s] + data == mem[start..s + len];
        s, b, left := s + len, b + len, left - len;
      }
      PatchOutside(buf0, at, mem[start..start + n], at + n);
      return true;
    }

    method WritePage(start: nat, data: seq<Byte>) returns (ok: bool)
      requires |data| == 256 && start + 256 <= |mem|
      modifies this`mem, this`log
      ensures dryRun ==> ok && mem == old(mem)
      ensures !dryRun && start % 256 != 0 ==> !ok && mem == old(mem) && log == old(log)
      ensures dryRun || start % 256 == 0 ==> log == old(log) + [Write(start, data)]
      ensures !dryRun && ok ==> mem == Apply(old(mem), Write(start, data))
      ensures SameOutside(old(mem), mem, start, start + 256)
      ensures reliable && start % 256 == 0 ==> ok
    {
      if dryRun {
        log := log + [Write(start, data)];
        return true;
      }
      if start % 256 != 0 { return false; }
      log := log + [Write(start, data)];
      ok := *;
      ok := ok || reliable;
      if ok {
        mem := Apply(mem, Write(start, data));
      } else {
        var junk: seq<Byte> := *;
        mem := Patch(mem, start, if |junk| == 256 then junk else Blanks(256));
      }
    }

    method EraseSector(start: nat) returns (ok: bool)
      requires start + 4096 <= |mem|
      modifies this`mem, this`log
      ensures dryRun ==> ok && mem == old(mem)
      ensures !dryRun && start % 4096 != 0 ==> !ok && mem == old(mem) && log == old(log)
      ensures dryRun || start % 4096 == 0 ==> log == old(log) + [Erase(start)]
      ensures !dryRun && ok ==> mem == Apply(old(mem), Erase(start))
      ensures SameOutside(old(mem), mem, start, start + 4096)
      ensures reliable && start % 4096 == 0 ==> ok
    {
      if dryRun {
        log := log + [Erase(start)];
        return true;
      }
      if start % 4096 != 0 { return false; }
      log := log + [Erase(start)];
      ok := *;
      ok := ok || reliable;
      if ok {
        mem := Apply(mem, Erase(start));
      } else {
        var junk: seq<Byte> := *;
        mem := Patch(mem, start, if |junk| == 4096 then junk else Blanks(4096));
      }
    }
  }

  // ---------- the update loop ----------

  // The desired contents of sector k: 0xFF everywhere, then the image bytes that fall in it.
  method FillSector(image: seq<Byte>, k: nat, fw: array<Byte>)
    requires fw.Length == 4096
    modifies fw
    ensures fw[..] == WantedSector(image, k)
  {
    var address := k * 4096;
    forall j | 0 <= j < 4096 { fw[j] := BLANK; }
    if address < |image| {
      var remaining := |image| - address;
      if remaining > 4096 { remaining := 4096; }
      forall j | 0 <= j < remaining { fw[j] := image[address + j]; }
    }
  }

  lemma ReadOnePage(buf: seq<Byte>, sector: seq<Byte>, n: nat)
    requires |buf| == |sector| == 4096 && n < 16
    requires buf[..n * 256] == sector[..n * 256]
    ensures Patch(buf, n * 256, Page(sector, n))[..(n + 1) * 256] == sector[..(n + 1) * 256]
    ensures Patch(buf, n * 256, Page(sector, n))[n * 256..n * 256 + 256] == Page(sector, n)
  {
    var l, r := Patch(buf, n * 256, Page(sector, n))[..(n + 1) * 256], sector[..(n + 1) * 256];
    forall k | 0 <= k < (n + 1) * 256 ensures l[k] == r[k] {
    }
  }

  lemma NeedsEraseStep(current: seq<Byte>, wanted: seq<Byte>, n: nat)
    requires |current| == |wanted| == 4096 && n < 16
    ensures NeedsErase(current, wanted, n + 1) <==> NeedsErase(current, wanted, n) || Blocked(current, wanted, n)
  {
    hide Blocked;
  }

  lemma NothingScanned(current: seq<Byte>, wanted: seq<Byte>)
    requires |current| == |wanted| == 4096
    ensures !NeedsErase(current, wanted, 0)
  {
  }

  lemma MemPage(mem: seq<Byte>, k: nat, n: nat)
    requires (k + 1) * 4096 <= |mem| && n < 16
    ensures mem[k * 4096 + n * 256..k * 4096 + n * 256 + 256] == Page(SectorAt(mem, k), n)
  {
    SliceOfSlice(mem, k * 4096, k * 4096 + 4096, n * 256, (n + 1) * 256);
  }

  lemma SliceOfSlice(s: seq<Byte>, a: nat, b: nat, c: nat, d: nat)
    requires a <= b <= |s| && c <= d <= b - a
    ensures s[a..b][c..d] == s[a + c..a + d]
  {
    var l, r := s[a..b][c..d], s[a + c..a + d];
    forall k | 0 <= k < d - c ensures l[k] == r[k] {
      assert l[k] == s[a..b][c + k] == s[a + (c + k)];
    }
  }

  // Reads sector k a page at a time and decides whether it has to be erased.
  method ScanSector(flash: Flash, k: nat, fw: array<Byte>, buf: array<Byte>) returns (ok: bool, erase: bool)
    requires fw.Length == buf.Length == 4096 && fw != buf && (k + 1) * 4096 <= |flash.mem|
    modifies buf
    ensures ok ==> buf[..] == SectorAt(flash.mem, k) && erase == NeedsErase(buf[..], fw[..], 16)
    ensures flash.reliable ==> ok
  {
    hide NeedsErase, IsBlank, Page, SectorAt, Patch;
    erase := false;
    ghost var sector := SectorAt(flash.mem, k);
    NothingScanned(sector, fw[..]);
    for n := 0 to 16
      invariant buf[..n * 256] == sector[..n * 256]
      invariant erase == NeedsErase(sector, fw[..], n)
    {
      ghost var before := buf[..];
      var got := flash.Read(k * 4096 + n * 256, buf, n * 256, 256);
      if !got { return false, false; }
      MemPage(flash.mem, k, n);
      ReadOnePage(before, sector, n);
      PageSlice(fw[..], n);
      NeedsEraseStep(sector, fw[..], n);
      var erased := IsErasedPage(buf[n * 256..n * 256 + 256]);
      if fw[n * 256..n * 256 + 256] != buf[n * 256..n * 256 + 256] && !erased {
        erase := true;
      }
    }
    return true, erase;
  }

  lemma {:induction false} PageOpsPrefix(address: nat, base: seq<Byte>, wanted: seq<Byte>, m: nat, n: nat)
    requires |base| == |wanted| == 4096 && m <= n <= 16
    ensures PageOps(address, base, wanted, m) <= PageOps(address, base, wanted, n)
    decreases n
  {
    hide Page, PageWrite;
    if m < n { PageOpsPrefix(address, base, wanted, m, n - 1); }
  }

  lemma {:induction false} PlanPrefix(mem: seq<Byte>, image: seq<Byte>, force: bool, m: nat, n: nat)
    requires n * 4096 <= |mem| && m <= n
    ensures Plan(mem, image, force, m) <= Plan(mem, image, force, n)
    decreases n
  {
    hide OpsAt;
    if m < n { PlanPrefix(mem, image, force, m, n - 1); }
  }

  // What one iteration of the page loop does to the memory.
  lemma PageWritten(mem: seq<Byte>, k: nat, base: seq<Byte>, wanted: seq<Byte>, n: nat)
    requires |base| == |wanted| == 4096 && n < 16 && (k + 1) * 4096 <= |mem| && Writable(base, wanted)
    ensures Page(base, n) == Page(wanted, n) ==> Mixed(base, wanted, n + 1) == Mixed(base, wanted, n)
    ensures Page(base, n) != Page(wanted, n) ==>
              IsBlank(Page(base, n)) &&
              Apply(Patch(mem, k * 4096, Mixed(base, wanted, n)), Write(k * 4096 + n * 256, Page(wanted, n)))
              == Patch(mem, k * 4096, Mixed(base, wanted, n + 1))
  {
    hide Patch, Mixed, Page, Writable, IsBlank, And;
    if Page(base, n) == Page(wanted, n) {
      SkipPageStep(base, wanted, n);
    } else {
      WritableAt(base, wanted, n);
      PageStep(mem, k * 4096, base, wanted, n);
    }
  }

  lemma NoOpsYet(address: nat, base: seq<Byte>, wanted: seq<Byte>, mem: seq<Byte>)
    requires |base| == |wanted| == 4096
    ensures PageOps(address, base, wanted, 0) == [] && WriteCount([]) == 0 && SameOutside(mem, mem, address, address + 4096)
  {
  }

  lemma OneMorePage(address: nat, base: seq<Byte>, wanted: seq<Byte>, n: nat)
    requires |base| == |wanted| == 4096 && n < 16
    ensures Page(base, n) == Page(wanted, n) ==>
              PageOps(address, base, wanted, n + 1) == PageOps(address, base, wanted, n)
    ensures Page(base, n) != Page(wanted, n) ==>
              PageOps(address, base, wanted, n + 1)
              == PageOps(address, base, wanted, n) + [Write(address + n * 256, Page(wanted, n))]
    ensures Page(base, n) != Page(wanted, n) ==>
              WriteCount(PageOps(address, base, wanted, n + 1)) == WriteCount(PageOps(address, base, wanted, n)) + 1
    ensures PageOps(address, base, wanted, n + 1) <= PageOps(address, base, wanted, 16)
  {
    hide Page;
    PageOpsPrefix(address, base, wanted, n + 1, 16);
    WriteCountConcat(PageOps(address, base, wanted, n), [PageWrite(address, wanted, n)]);
    assert [PageWrite(address, wanted, n)][..0] == [];
  }

  lemma OnlyPageChanged(mem0: seq<Byte>, mem1: seq<Byte>, mem2: seq<Byte>, k: nat, n: nat)
    requires n < 16 && SameOutside(mem0, mem1, k * 4096, k * 4096 + 4096)
    requires SameOutside(mem1, mem2, k * 4096 + n * 256, k * 4096 + n * 256 + 256)
    ensures SameOutside(mem0, mem2, k * 4096, k * 4096 + 4096)
  {
  }

  // After n pages: what was requested and counted, and what the memory holds.
  ghost predicate PagesDone(dry: bool, mem0: seq<Byte>, log0: seq<Op>, mem: seq<Byte>, log: seq<Op>, k: nat,
                            base: seq<Byte>, wanted: seq<Byte>, n: nat, count: nat)
    requires |wanted| == |base| == 4096 && (k + 1) * 4096 <= |mem0| && n <= 16
  {
    && log == log0 + PageOps(k * 4096, base, wanted, n)
    && count == WriteCount(PageOps(k * 4096, base, wanted, n))
    && mem == (if dry then mem0 else Patch(mem0, k * 4096, Mixed(base, wanted, n)))
    && SameOutside(mem0, mem, k * 4096, k * 4096 + 4096)
  }

  // At any point, even after a failure.
  ghost predicate PagesTouched(mem0: seq<Byte>, log0: seq<Op>, mem: seq<Byte>, log: seq<Op>, k: nat,
                               base: seq<Byte>, wanted: seq<Byte>)
    requires |wanted| == |base| == 4096
  {
    && log0 <= log <= log0 + PageOps(k * 4096, base, wanted, 16)
    && SameOutside(mem0, mem, k * 4096, k * 4096 + 4096)
  }

  lemma PagesStart(dry: bool, mem0: seq<Byte>, log0: seq<Op>, k: nat, base: seq<Byte>, wanted: seq<Byte>)
    requires |wanted| == |base| == 4096 && (k + 1) * 4096 <= |mem0| && (dry || SectorAt(mem0, k) == base)
    ensures PagesDone(dry, mem0, log0, mem0, log0, k, base, wanted, 0, 0)
  {
    hide SectorAt, Patch, Mixed;
    StartOfSector(mem0, k, wanted);
  }

  lemma PagesSkip(dry: bool, mem0: seq<Byte>, log0: seq<Op>, mem: seq<Byte>, log: seq<Op>, k: nat,
                  base: seq<Byte>, wanted: seq<Byte>, n: nat, count: nat)
    requires |wanted| == |base| == 4096 && (k + 1) * 4096 <= |mem0| && n < 16 && Page(base, n) == Page(wanted, n)
    requires PagesDone(dry, mem0, log0, mem, log, k, base, wanted, n, count)
    ensures PagesDone(dry, mem0, log0, mem, log, k, base, wanted, n + 1, count)
  {
    hide Patch, Mixed, Page, PageOps, WriteCount, SameOutside;
    SkipPageStep(base, wanted, n);
    OneMorePage(k * 4096, base, wanted, n);
  }

  lemma LogGrows(log0: seq<Op>, done: seq<Op>, op: Op, next: seq<Op>, all: seq<Op>)
    requires next == done + [op] && next <= all
    ensures log0 + done + [op] == log0 + next && log0 <= log0 + next <= log0 + all
  {
  }

  // A page write was requested, whatever came of it.
  lemma PagesIssue(dry: bool, mem0: seq<Byte>, log0: seq<Op>, mem: seq<Byte>, log: seq<Op>, k: nat,
                   base: seq<Byte>, wanted: seq<Byte>, n: nat, count: nat, mem2: seq<Byte>)
    requires |wanted| == |base| == 4096 && (k + 1) * 4096 <= |mem0| && n < 16 && Page(base, n) != Page(wanted, n)
    requires PagesDone(dry, mem0, log0, mem, log, k, base, wanted, n, count)
    requires SameOutside(mem, mem2, k * 4096 + n * 256, k * 4096 + n * 256 + 256)
    ensures PagesTouched(mem0, log0, mem2, log + [Write(k * 4096 + n * 256, Page(wanted, n))], k, base, wanted)
    ensures log + [Write(k * 4096 + n * 256, Page(wanted, n))] == log0 + PageOps(k * 4096, base, wanted, n + 1)
  {
    hide Patch, Mixed, Page, PageOps, WriteCount, SameOutside;
    OneMorePage(k * 4096, base, wanted, n);
    OnlyPageChanged(mem0, mem, mem2, k, n);
    LogGrows(log0, PageOps(k * 4096, base, wanted, n), Write(k * 4096 + n * 256, Page(wanted, n)),
             PageOps(k * 4096, base, wanted, n + 1), PageOps(k * 4096, base, wanted, 16));
  }

  // A page write succeeded.
  lemma PagesWrite(dry: bool, mem0: seq<Byte>, log0: seq<Op>, mem: seq<Byte>, log: seq<Op>, k: nat,
                   base: seq<Byte>, wanted: seq<Byte>, n: nat, count: nat, mem2: seq<Byte>, log2: seq<Op>)
    requires |wanted| == |base| == 4096 && (k + 1) * 4096 <= |mem0| && n < 16
    requires Writable(base, wanted) && Page(base, n) != Page(wanted, n)
    requires PagesDone(dry, mem0, log0, mem, log, k, base, wanted, n, count) && |mem| == |mem0|
    requires mem2 == if dry then mem else Apply(mem, Write(k * 4096 + n * 256, Page(wanted, n)))
    requires log2 == log0 + PageOps(k * 4096, base, wanted, n + 1)
    requires SameOutside(mem0, mem2, k * 4096, k * 4096 + 4096)
    ensures PagesDone(dry, mem0, log0, mem2, log2, k, base, wanted, n + 1, count + 1)
  {
    hide Patch, Mixed, Page, PageOps, WriteCount, SameOutside, Writable, Apply, IsBlank;
    PageWritten(mem0, k, base, wanted, n);
    OneMorePage(k * 4096, base, wanted, n);
  }

  lemma PagesEnd(dry: bool, mem0: seq<Byte>, log0: seq<Op>, mem: seq<Byte>, log: seq<Op>, k: nat,
                 base: seq<Byte>, wanted: seq<Byte>, count: nat)
    requires |wanted| == |base| == 4096 && (k + 1) * 4096 <= |mem0|
    requires PagesDone(dry, mem0, log0, mem, log, k, base, wanted, 16, count)
    ensures PagesTouched(mem0, log0, mem, log, k, base, wanted)
    ensures log == log0 + PageOps(k * 4096, base, wanted, 16)
    ensures count == WriteCount(PageOps(k * 4096, base, wanted, 16))
    ensures mem == if dry then mem0 else Patch(mem0, k * 4096, wanted)
  {
    hide Patch, Mixed, PageOps, WriteCount, SameOutside;
    MixedAll(base, wanted);
  }

  // Writes the pages of sector k that differ from `base`, the sector's contents.
  method WritePages(flash: Flash, k: nat, wanted: seq<Byte>, base: seq<Byte>) returns (ok: bool, count: nat)
    requires |wanted| == |base| == 4096 && (k + 1) * 4096 <= |flash.mem|
    requires Writable(base, wanted) && (flash.dryRun || SectorAt(flash.mem, k) == base)
    modifies flash`mem, flash`log
    ensures ok ==> flash.log == old(flash.log) + PageOps(k * 4096, base, wanted, 16)
    ensures ok ==> count == WriteCount(PageOps(k * 4096, base, wanted, 16))
    ensures ok ==> flash.mem == if flash.dryRun then old(flash.mem) else Patch(old(flash.mem), k * 4096, wanted)
    ensures PagesTouched(old(flash.mem), old(flash.log), flash.mem, flash.log, k, base, wanted)
    ensures flash.reliable || flash.dryRun ==> ok
  {
    hide *;
    count := 0;
    ghost var mem0, log0 := flash.mem, flash.log;
    PagesStart(flash.dryRun, mem0, log0, k, base, wanted);
    for n := 0 to 16
      invariant PagesDone(flash.dryRun, mem0, log0, flash.mem, flash.log, k, base, wanted, n, count)
    {
      PageSlice(base, n);
      PageSlice(wanted, n);
      if base[n * 256..n * 256 + 256] == wanted[n * 256..n * 256 + 256] {
        PagesSkip(flash.dryRun, mem0, log0, flash.mem, flash.log, k, base, wanted, n, count);
        continue;
      }
      ghost var mem1, log1 := flash.mem, flash.log;
      WritableAt(base, wanted, n);
      assert IsBlank(base[n * 256..n * 256 + 256]);
      PagesKeepLength(flash.dryRun, mem0, log0, mem1, log1, k, base, wanted, n, count);
      PageAligned(k, n);
      ok := flash.WritePage(k * 4096 + n * 256, wanted[n * 256..n * 256 + 256]);
      PagesIssue(flash.dryRun, mem0, log0, mem1, log1, k, base, wanted, n, count, flash.mem);
      if !ok { return false, 0; }
      TouchedFacts(mem0, log0, flash.mem, flash.log, k, base, wanted);
      PagesWrite(flash.dryRun, mem0, log0, mem1, log1, k, base, wanted, n, count, flash.mem, flash.log);
      count := count + 1;
    }
    PagesEnd(flash.dryRun, mem0, log0, flash.mem, flash.log, k, base, wanted, count);
    return true, count;
  }

  lemma PagesKeepLength(dry: bool, mem0: seq<Byte>, log0: seq<Op>, mem: seq<Byte>, log: seq<Op>, k: nat,
                        base: seq<Byte>, wanted: seq<Byte>, n: nat, count: nat)
    requires |wanted| == |base| == 4096 && (k + 1) * 4096 <= |mem0| && n <= 16
    requires PagesDone(dry, mem0, log0, mem, log, k, base, wanted, n, count)
    ensures |mem| == |mem0|
  {
  }

  lemma StartOfSector(mem: seq<Byte>, k: nat, wanted: seq<Byte>)
    requires (k + 1) * 4096 <= |mem| && |wanted| == 4096
    ensures Patch(mem, k * 4096, Mixed(SectorAt(mem, k), wanted, 0)) == mem
  {
    hide Patch, Mixed;
    NoPagesYet(mem, k * 4096, wanted);
  }

  lemma BaseIs(current: seq<Byte>, wanted: seq<Byte>, force: bool, erase: bool, address: nat)
    requires |current| == |wanted| == 4096 && erase == (force || NeedsErase(current, wanted, 16))
    ensures Writable(if erase then Blanks(4096) else current, wanted)
    ensures Base(current, wanted, force) == if erase then Blanks(4096) else current
    ensures SectorOps(address, current, wanted, force)
            == (if erase then [Erase(address)] else []) +
               PageOps(address, if erase then Blanks(4096) else current, wanted, 16)
    ensures WriteCount(SectorOps(address, current, wanted, force))
            == WriteCount(PageOps(address, if erase then Blanks(4096) else current, wanted, 16))
  {
    hide Writable, PageOps, NeedsErase;
    BaseWritable(current, wanted, force);
    WriteCountConcat(if erase then [Erase(address)] else [], PageOps(address, Base(current, wanted, force), wanted, 16));
    assert [Erase(address)][..0] == [];
  }

  lemma EraseThenWrite(mem: seq<Byte>, image: seq<Byte>, k: nat, wanted: seq<Byte>)
    requires (k + 1) * 4096 <= |mem| && wanted == WantedSector(image, k)
    ensures Apply(mem, Erase(k * 4096)) == Patch(mem, k * 4096, Blanks(4096))
    ensures SectorAt(Patch(mem, k * 4096, Blanks(4096)), k) == Blanks(4096)
    ensures Patch(Patch(mem, k * 4096, Blanks(4096)), k * 4096, wanted) == Patch(mem, k * 4096, wanted)
  {
    hide Blanks, Patch;
    PatchSlice(mem, k * 4096, Blanks(4096));
    PatchTwice(mem, k * 4096, Blanks(4096), wanted);
  }

  lemma OneMoreSector(mem: seq<Byte>, image: seq<Byte>, force: bool, k: nat)
    requires (k + 1) * 4096 <= |mem|
    ensures Plan(mem, image, force, k + 1)
            == Plan(mem, image, force, k) + SectorOps(k * 4096, SectorAt(mem, k), WantedSector(image, k), force)
    ensures WriteCount(Plan(mem, image, force, k + 1))
            == WriteCount(Plan(mem, image, force, k)) +
               WriteCount(SectorOps(k * 4096, SectorAt(mem, k), WantedSector(image, k), force))
  {
    hide SectorOps, SectorAt, WantedSector;
    WriteCountConcat(Plan(mem, image, force, k), OpsAt(mem, image, force, k));
  }

  // Brings sector k up to date: one iteration of the sector loop.
  method WriteSector(flash: Flash, image: seq<Byte>, k: nat, force: bool, fw: array<Byte>, buf: array<Byte>)
    returns (ok: bool, count: nat)
    requires fw.Length == buf.Length == 4096 && fw != buf && (k + 1) * 4096 <= |flash.mem|
    modifies flash`mem, flash`log, fw, buf
    ensures ok ==> flash.log == old(flash.log) +
                     SectorOps(k * 4096, SectorAt(old(flash.mem), k), WantedSector(image, k), force)
    ensures ok ==> count == WriteCount(SectorOps(k * 4096, SectorAt(old(flash.mem), k), WantedSector(image, k), force))
    ensures ok ==> flash.mem == if flash.dryRun then old(flash.mem)
                                else Patch(old(flash.mem), k * 4096, WantedSector(image, k))
    ensures old(flash.log) <= flash.log <= old(flash.log) +
              SectorOps(k * 4096, SectorAt(old(flash.mem), k), WantedSector(image, k), force)
    ensures SameOutside(old(flash.mem), flash.mem, k * 4096, k * 4096 + 4096)
    ensures flash.reliable ==> ok
  {
    hide *;
    ghost var mem0, log0 := flash.mem, flash.log;
    FillSector(image, k, fw);
    ghost var current, wanted := SectorAt(mem0, k), WantedSector(image, k);
    NoOpsYet(k * 4096, current, wanted, mem0);
    var erase := false;
    if force {
      erase := true;
    } else {
      ok, erase := ScanSector(flash, k, fw, buf);
      if !ok { return false, 0; }
    }
    BaseIs(current, wanted, force, erase, k * 4096);
    EraseThenWrite(mem0, image, k, wanted);
    if erase {
      PageAligned(k, 0);
      ok := flash.EraseSector(k * 4096);
      if !ok { return false, 0; }
      forall j | 0 <= j < 4096 { buf[j] := 0xFF; }
      ItIsBlank(buf[..]);
    }
    ghost var mem1 := flash.mem;
    assert fw[..] == wanted;
    assert buf[..] == if erase then Blanks(4096) else current;
    ghost var log1 := flash.log;
    ok, count := WritePages(flash, k, fw[..], buf[..]);
    TouchedFacts(mem1, log1, flash.mem, flash.log, k, if erase then Blanks(4096) else current, wanted);
    SameTwice(mem0, mem1, flash.mem, k * 4096, k * 4096 + 4096);
  }

  lemma TouchedFacts(mem0: seq<Byte>, log0: seq<Op>, mem: seq<Byte>, log: seq<Op>, k: nat,
                     base: seq<Byte>, wanted: seq<Byte>)
    requires |wanted| == |base| == 4096 && PagesTouched(mem0, log0, mem, log, k, base, wanted)
    ensures log0 <= log <= log0 + PageOps(k * 4096, base, wanted, 16)
    ensures SameOutside(mem0, mem, k * 4096, k * 4096 + 4096)
  {
  }

  lemma SameTwice(mem0: seq<Byte>, mem1: seq<Byte>, mem2: seq<Byte>, from: nat, to: nat)
    requires mem1 == mem0 || SameOutside(mem0, mem1, from, to)
    requires SameOutside(mem1, mem2, from, to)
    ensures SameOutside(mem0, mem2, from, to)
  {
  }

  lemma ItIsBlank(s: seq<Byte>)
    requires |s| == 4096 && forall j :: 0 <= j < 4096 ==> s[j] == 0xFF
    ensures s == Blanks(4096)
  {
  }

  lemma NoSectors(mem: seq<Byte>, image: seq<Byte>, force: bool)
    ensures Plan(mem, image, force, 0) == [] && WriteCount([]) == 0
    ensures Progress(mem, image, 0) == mem && SameOutside(mem, mem, 0, SectorCount(image) * 4096)
  {
  }

  lemma SectorDone(mem0: seq<Byte>, mem1: seq<Byte>, image: seq<Byte>, force: bool, dry: bool, k: nat)
    requires (k + 1) * 4096 <= |mem0| && k < SectorCount(image) && SectorCount(image) * 4096 <= |mem0|
    requires mem1 == if dry then mem0 else Progress(mem0, image, k)
    ensures SectorAt(mem1, k) == SectorAt(mem0, k)
    ensures Patch(Progress(mem0, image, k), k * 4096, WantedSector(image, k)) == Progress(mem0, image, k + 1)
    ensures Plan(mem0, image, force, k + 1) <= Plan(mem0, image, force, SectorCount(image))
  {
    hide Patch, Progress, SectorAt, WantedSector, Plan;
    ProgressAhead(mem0, image, k);
    ProgressStep(mem0, image, k);
    PlanPrefix(mem0, image, force, k + 1, SectorCount(image));
  }

  lemma WidenSame(mem0: seq<Byte>, mem1: seq<Byte>, mem2: seq<Byte>, k: nat, n: nat)
    requires k < n && SameOutside(mem0, mem1, 0, n * 4096) && SameOutside(mem1, mem2, k * 4096, k * 4096 + 4096)
    ensures SameOutside(mem0, mem2, 0, n * 4096)
  {
  }

  /** Writes the image and returns the number of pages written, or -1 on an I/O error.
      The requests issued are the plan, or a prefix of it if a transfer fails. */
  method WriteImage(flash: Flash, image: seq<Byte>, force: bool) returns (modified: int)
    requires SectorCount(image) * 4096 <= |flash.mem|
    modifies flash`mem, flash`log
    ensures modified == -1 || modified == WriteCount(Plan(old(flash.mem), image, force, SectorCount(image)))
    ensures modified >= 0 ==>
              flash.log == old(flash.log) + Plan(old(flash.mem), image, force, SectorCount(image))
    ensures modified >= 0 ==>
              flash.mem == if flash.dryRun then old(flash.mem) else Target(old(flash.mem), image)
    ensures old(flash.log) <= flash.log <=
              old(flash.log) + Plan(old(flash.mem), image, force, SectorCount(image))
    ensures SameOutside(old(flash.mem), flash.mem, 0, SectorCount(image) * 4096)
    ensures flash.reliable ==> modified >= 0
  {
    hide Plan, SectorOps, WriteCount, Progress, Patch, SameOutside, WantedSector, SectorAt, Blanks;
    modified := 0;
    var sectors := SectorCount(image);
    var fw, buf := new Byte[4096], new Byte[4096];
    ghost var mem0, log0 := flash.mem, flash.log;
    NoSectors(mem0, image, force);
    PlanPrefix(mem0, image, force, 0, sectors);
    for k := 0 to sectors
      invariant modified == WriteCount(Plan(mem0, image, force, k))
      invariant flash.log == log0 + Plan(mem0, image, force, k)
      invariant flash.mem == if flash.dryRun then mem0 else Progress(mem0, image, k)
      invariant SameOutside(mem0, flash.mem, 0, sectors * 4096)
    {
      ghost var mem1 := flash.mem;
      SectorDone(mem0, mem1, image, force, flash.dryRun, k);
      OneMoreSector(mem0, image, force, k);
      var ok, count := WriteSector(flash, image, k, force, fw, buf);
      WidenSame(mem0, mem1, flash.mem, k, sectors);
      if !ok { return -1; }
      modified := modified + count;
    }
  }

  // Compares the image with flash a page at a time and stops at the first difference.
  method VerifyImage(flash: Flash, image: seq<Byte>) returns (same: bool)
    requires |image| <= |flash.mem|
    ensures same ==> flash.mem[..|image|] == image
    ensures flash.reliable ==> (same <==> flash.mem[..|image|] == image)
  {
    var page := new Byte[256];
    var address := 0;
    while address < |image|
      invariant 0 <= address && forall k :: 0 <= k < address && k < |image| ==> flash.mem[k] == image[k]
    {
      var n := |image| - address;
      if n > 256 { n := 256; }
      var ok := flash.Read(address, page, 0, n);
      if !ok { return false; }
      assert forall i :: 0 <= i < n ==> page[..][i] == flash.mem[address..address + n][i];
      for i := 0 to n
        invariant forall k :: 0 <= k < address + i ==> flash.mem[k] == image[k]
      {
        if page[i] != image[address + i] {
          assert flash.mem[..|image|][address + i] != image[address + i];
          return false;
        }
      }
      address := address + 256;
    }
    return true;
  }

  lemma TargetHoldsImage(mem: seq<Byte>, image: seq<Byte>)
    requires SectorCount(image) * 4096 <= |mem|
    ensures |image| <= |mem| && Target(mem, image)[..|image|] == image
  {
  }

  /** The whole update on a device whose transfers succeed: write, verify, write again.
      Verification passes and the second write issues no request. */
  method UpdateVerifyRerun(flash: Flash, image: seq<Byte>, force: bool) returns (same: bool, again: int)
    requires flash.reliable && !flash.dryRun && SectorCount(image) * 4096 <= |flash.mem|
    modifies flash`mem, flash`log
    ensures same && again == 0 && flash.mem == Target(old(flash.mem), image)
    ensures flash.log == old(flash.log) + Plan(old(flash.mem), image, force, SectorCount(image))
  {
    hide Plan, Progress;
    ghost var mem0 := flash.mem;
    TargetHoldsImage(mem0, image);
    var n := WriteImage(flash, image, force);
    same := VerifyImage(flash, image);
    RerunDoesNothing(mem0, image);
    RerunIsStable(mem0, image);
    again := WriteImage(flash, image, false);
  }

  lemma RerunIsStable(mem: seq<Byte>, image: seq<Byte>)
    requires SectorCount(image) * 4096 <= |mem|
    ensures Target(Target(mem, image), image) == Target(mem, image)
  {
  }

  /** A dry run predicts the real run: the same requests and page count, from the same flash. */
  method DryRunThenReal(dry: Flash, live: Flash, image: seq<Byte>, force: bool) returns (predicted: int, actual: int)
    requires dry != live && dry.dryRun && !live.dryRun && dry.reliable && live.reliable
    requires dry.mem == live.mem && dry.log == live.log == [] && SectorCount(image) * 4096 <= |live.mem|
    modifies dry`mem, dry`log, live`mem, live`log
    ensures predicted == actual && dry.log == live.log && dry.mem == old(dry.mem)
    ensures live.mem == Target(old(live.mem), image) && AllFit(|old(live.mem)|, dry.log)
    ensures live.mem == Replay(old(live.mem), dry.log)
  {
    hide Plan, Progress, Replay, AllFit;
    ghost var mem0 := live.mem;
    PlanReaches(mem0, image, force, SectorCount(image));
    predicted := WriteImage(dry, image, force);
    actual := WriteImage(live, image, force);
    assert dry.log == live.log == Plan(mem0, image, force, SectorCount(image));
  }
}
