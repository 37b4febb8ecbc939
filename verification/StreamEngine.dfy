/** The streaming engine as a machine of atomic steps.

    Three kinds of actor interleave freely: the streaming thread (its position
    is `pc`), libusb completion callbacks (each is two separate stores: mark the
    transfer, then raise the flag), and pg2sdr_stop_streaming (two stores made
    while it holds the device mutex).  The streaming thread holds that mutex
    everywhere except while it waits for libusb events.

    `ownEvents` says that the streaming thread handles all libusb events itself: callbacks
    then run inside its waits only. Another thread that handles events of the same libusb
    context, such as a second device's, may run them at any time.

    `fenced` says whether memory_barrier() makes the cleared completion flag
    visible before the loads that follow it.  When it does not, the clear may
    stay in the thread's store buffer (`clearPending`) and reach memory late,
    at the latest when the mutex is released. */
module StreamEngine {
  import opened Wrappers
  import opened ActiveList

  datatype XferState = Idle | Busy | Completed

  // Who called submit_one_transfer.
  datatype Origin = FromScan | FromLoop

  datatype Pc =
    | SubmitScan(i: nat)                   // submit_transfers, about to look at transfer i
    | SubmitCall(t: nat, origin: Origin)   // state is Busy, libusb_submit_transfer comes next
    | Appending(t: nat, origin: Origin)       // accepted by libusb, not yet on the active list
    | LoopTop                              // about to clear the completion flag
    | CheckDraining
    | CheckHead
    | Unlock                               // head was Busy, about to release the mutex
    | Waiting                              // in libusb_handle_events_timeout_completed
    | Examine(t: nat)
    | Dispatch(t: nat)
    | SetIdle(t: nat)
    | PopHead(t: nat)
    | Resubmit(t: nat)
    | DrainBegin
    | DrainClear
    | DrainScan(i: nat)
    | DrainUnlock(i: nat)                  // transfer i was Busy
    | DrainWait(i: nat)                    // in libusb_handle_events_completed
    | Releasing                            // marking the active transfers Idle
    | Freed                                // drain succeeded, transfers are freed
    | DrainFailed                          // drain failed, nothing is freed
    | BadState                             // "active transfer has state" error branch
    | Crashed                              // a NULL list head was dereferenced

  datatype State = State(
    xfer: seq<XferState>,
    list: Links,
    flag: bool,
    clearPending: bool,
    draining: bool,
    streaming: bool,
    inflight: set<nat>,    // accepted by libusb, callback not started
    cb: set<nat>,          // callback has marked the transfer but not raised the flag
    stop: bool,            // pg2sdr_stop_streaming is between its two stores
    pc: Pc,
    submitted: seq<nat>,   // log: accepted submissions, in order
    popped: nat,           // log: how many of them have left the active list
    dispatched: seq<nat>)  // log: transfers handed to user code, in order

  datatype Event =
    | Step(ok: bool, stopInCallback: bool)  // the streaming thread's next statement; `ok` is what the outside world answers
    | CallbackMark(t: nat)
    | CallbackSignal(t: nat)
    | StopRequest
    | StopSignal
    | Flush

  function Init(n: nat): State {
    State(seq(n, _ => Idle), Links(seq(n, _ => None), None, None),
          false, false, false, false, {}, {}, false, SubmitScan(0), [], 0, [])
  }

  predicate MutexFree(s: State) {
    (s.pc.Waiting? || s.pc.DrainWait?) && !s.stop
  }

  predicate WellFormed(s: State) {
    && |s.list.next| == |s.xfer|
    && InBounds(s.list)
    && (forall t :: t in s.inflight ==> t < |s.xfer|)
    && match s.pc
       case SubmitCall(t, _) => t < |s.xfer|
       case Appending(t, _) => t < |s.xfer|
       case Examine(t) => t < |s.xfer|
       case Dispatch(t) => t < |s.xfer|
       case SetIdle(t) => t < |s.xfer|
       case PopHead(t) => t < |s.xfer|
       case Resubmit(t) => t < |s.xfer|
       case _ => true
  }

  predicate Enabled(s: State, e: Event) {
    WellFormed(s) &&
    match e
    case Step(_, _) =>
      && !(s.pc.Freed? || s.pc.DrainFailed? || s.pc.BadState? || s.pc.Crashed?)
      && (s.pc.Waiting? || s.pc.DrainWait? ==> !s.stop)   // the mutex must be taken back
    case CallbackMark(t) => t in s.inflight && t !in s.cb
    case CallbackSignal(t) => t in s.cb
    case StopRequest => MutexFree(s) && s.streaming
    case StopSignal => s.stop
    case Flush => s.clearPending
  }

  // completion_flag = 0; memory_barrier()
  function ClearFlag(fenced: bool, s: State): State
  {
    if fenced then s.(flag := false) else s.(clearPending := true)
  }

  function FlushClear(s: State): State
  {
    if s.clearPending then s.(flag := false, clearPending := false) else s
  }

  // memory_barrier(); completion_flag = 1, as the streaming thread itself performs it
  function RaiseFlagSelf(s: State): State
  {
    s.(flag := true, clearPending := false)
  }

  // submit_one_transfer up to the libusb call
  function BeginSubmit(s: State, t: nat, origin: Origin): State
    requires t < |s.xfer|
  {
    if s.xfer[t] != Idle then s.(pc := DrainBegin)
    else s.(xfer := s.xfer[t := Busy], pc := SubmitCall(t, origin))
  }

  function CallSubmit(s: State, t: nat, origin: Origin, ok: bool): State
    requires t < |s.xfer|
  {
    if ok then s.(inflight := s.inflight + {t}, submitted := s.submitted + [t], pc := Appending(t, origin))
    else s.(xfer := s.xfer[t := Idle], pc := DrainBegin)
  }

  // the tail of submit_one_transfer: link t at the end of the active list
  function AppendTransfer(s: State, t: nat, origin: Origin): State
    requires t < |s.xfer| == |s.list.next| && InBounds(s.list)
  {
    s.(list := Append(s.list, t), pc := if origin.FromScan? then SubmitScan(t + 1) else LoopTop)
  }

  function PopTransfer(s: State, t: nat): State
    requires t < |s.list.next|
  {
    s.(list := Pop(s.list, t), popped := s.popped + 1, pc := Resubmit(t))
  }

  function ReleaseOne(s: State): State
    requires WellFormed(s)
  {
    match s.list.head
    case None => s.(list := s.list.(tail := None), draining := false, streaming := false, pc := Freed)
    case Some(h) =>
      s.(xfer := s.xfer[h := Idle], list := ActiveList.Release(s.list, h), popped := s.popped + 1)
  }

  // One statement of the streaming thread.
  function StepThread(fenced: bool, s: State, ok: bool, stopInCallback: bool): State
    requires Enabled(s, Step(ok, stopInCallback))
  {
    match s.pc
    case SubmitScan(i) =>
      if i >= |s.xfer| then s.(streaming := true, pc := LoopTop)
      else if s.xfer[i].Idle? then BeginSubmit(s, i, FromScan)
      else s.(pc := SubmitScan(i + 1))
    case SubmitCall(t, origin) => CallSubmit(s, t, origin, ok)
    case Appending(t, origin) => AppendTransfer(s, t, origin)
    case LoopTop => ClearFlag(fenced, s).(pc := CheckDraining)
    case CheckDraining => s.(pc := if s.draining then DrainBegin else CheckHead)
    case CheckHead =>
      (match s.list.head
       case None => s.(pc := Crashed)
       case Some(h) => if s.xfer[h].Busy? then s.(pc := Unlock) else s.(pc := Examine(h)))
    case Unlock => FlushClear(s).(pc := Waiting)
    case Waiting => s.(pc := if ok then LoopTop else DrainBegin)
    case Examine(t) =>
      if !s.xfer[t].Completed? then s.(pc := BadState)
      else s.(pc := if ok then Dispatch(t) else DrainBegin)
    case Dispatch(t) =>
      // the user callback may call pg2sdr_stop_streaming: the mutex is recursive
      var s1 := if stopInCallback then RaiseFlagSelf(s).(draining := true) else s;
      if ok then s1.(dispatched := s1.dispatched + [t], pc := SetIdle(t)) else s1.(pc := DrainBegin)
    case SetIdle(t) => s.(xfer := s.xfer[t := Idle], pc := PopHead(t))
    case PopHead(t) => PopTransfer(s, t)
    case Resubmit(t) => BeginSubmit(s, t, FromLoop)
    case DrainBegin => s.(draining := true, pc := DrainClear)
    case DrainClear => ClearFlag(fenced, s).(pc := DrainScan(0))
    case DrainScan(i) =>
      if i >= |s.xfer| then s.(pc := Releasing)
      else if s.xfer[i].Busy? then s.(pc := DrainUnlock(i))
      else s.(pc := DrainScan(i + 1))
    case DrainUnlock(i) => FlushClear(s).(pc := DrainWait(i))
    case DrainWait(i) =>
      if ok then s.(pc := DrainClear) else s.(draining := false, streaming := false, pc := DrainFailed)
    case Releasing => ReleaseOne(s)
    case _ => s
  }

  function Exec(fenced: bool, s: State, e: Event): State
    requires Enabled(s, e)
  {
    match e
    case Step(ok, stopInCallback) => StepThread(fenced, s, ok, stopInCallback)
    case CallbackMark(t) => s.(xfer := s.xfer[t := Completed], inflight := s.inflight - {t}, cb := s.cb + {t})
    case CallbackSignal(t) => s.(flag := true, cb := s.cb - {t})
    case StopRequest => s.(draining := true, stop := true)
    case StopSignal => s.(flag := true, stop := false)
    case Flush => FlushClear(s)
  }

  // A thread that handles its own events runs one callback at a time, inside a wait, and
  // takes no other step until the callback has returned.
  predicate Possible(ownEvents: bool, s: State, e: Event) {
    && Enabled(s, e)
    && (ownEvents ==>
          match e
          case Step(_, _) => s.cb == {}
          case CallbackMark(_) => s.cb == {} && (s.pc.Waiting? || s.pc.DrainWait?)
          case _ => true)
  }

  // The state after the events, if each of them was possible when it fired.
  function Run(ownEvents: bool, fenced: bool, s: State, events: seq<Event>): Option<State>
    decreases events
  {
    if events == [] then Some(s)
    else if Possible(ownEvents, s, events[0]) then Run(ownEvents, fenced, Exec(fenced, s, events[0]), events[1..])
    else None
  }

  // ---------- what is claimed ----------

  // The transfers that ought to be on the active list, in submission order.
  function Active(s: State): seq<nat>
    requires s.popped <= |s.submitted|
  {
    var a := s.submitted[s.popped..];
    if s.pc.Appending? && a != [] then a[..|a| - 1] else a
  }

  // The transfer in the middle of a submission, if any.
  function MidSubmission(pc: Pc): set<nat> {
    match pc
    case SubmitCall(t, _) => {t}
    case Appending(t, _) => {t}
    case _ => {}
  }

  // The list head between "state = IDLE" and its removal from the list, if any.
  function MidRemoval(pc: Pc): set<nat> {
    match pc
    case PopHead(t) => {t}
    case _ => {}
  }

  // The transfer marked Busy but not yet handed to libusb, if any.
  function NotYetCalled(pc: Pc): set<nat> {
    match pc
    case SubmitCall(t, _) => {t}
    case _ => {}
  }

  // The non-Idle transfers are those listed or being submitted, except the one being removed.
  ghost predicate NonIdleExactly(xfer: seq<XferState>, a: seq<nat>, submitting: set<nat>, removing: set<nat>) {
    forall t :: 0 <= t < |xfer| ==> (xfer[t] != Idle <==> (t in a || t in submitting) && t !in removing)
  }

  // libusb owns exactly the Busy transfers it has been given.
  ghost predicate BusyExactly(xfer: seq<XferState>, inflight: set<nat>, uncalled: set<nat>) {
    && (forall t :: t in inflight ==> t < |xfer| && xfer[t] == Busy && t !in uncalled)
    && (forall t :: 0 <= t < |xfer| && xfer[t] == Busy && t !in uncalled ==> t in inflight)
  }

  ghost predicate NoneBusy(xfer: seq<XferState>, n: nat)
    requires n <= |xfer|
  {
    forall t :: 0 <= t < n ==> xfer[t] != Busy
  }

  ghost predicate StateIs(xfer: seq<XferState>, t: nat, x: XferState) {
    t < |xfer| && xfer[t] == x
  }

  // The streaming thread is parked on a clear flag although what it waits for has happened.
  ghost predicate LostWakeup(s: State) {
    && !s.flag && !s.stop
    && match s.pc
       case Waiting => s.draining || (s.list.head.Some? && StateIs(s.xfer, s.list.head.value, Completed) && s.list.head.value !in s.cb)
       case DrainWait(i) => i < |s.xfer| && s.xfer[i] != Busy && i !in s.cb
       case _ => false
  }

  // The transfers are freed while a callback is between its two stores and has yet to read one.
  ghost predicate FreedTooEarly(s: State) { s.pc.Freed? && s.cb != {} }

  // ---------- the inductive invariant ----------

  ghost predicate ListInv(s: State) {
    && |s.list.next| == |s.xfer| >= 1
    && s.popped <= |s.submitted|
    && NoDup(s.submitted[s.popped..])
    && if s.pc.Releasing? then Reaches(s.list, Active(s)) && InBounds(s.list) else IsList(s.list, Active(s))
  }

  ghost predicate StateInv(s: State)
    requires s.popped <= |s.submitted|
  {
    && NonIdleExactly(s.xfer, Active(s), MidSubmission(s.pc), MidRemoval(s.pc))
    && BusyExactly(s.xfer, s.inflight, NotYetCalled(s.pc))
  }

  // submit_transfers goes through the array in index order.
  ghost predicate ScanLog(s: State, i: nat) {
    s.popped == 0 && i <= |s.xfer| && |s.submitted| == i && forall k :: 0 <= k < i ==> s.submitted[k] == k
  }

  ghost predicate HeadIs(s: State, t: nat, x: XferState)
    requires s.popped <= |s.submitted|
  {
    Active(s) != [] && Active(s)[0] == t && StateIs(s.xfer, t, x)
  }

  ghost predicate PcInv(s: State)
    requires s.popped <= |s.submitted|
  {
    match s.pc
    case SubmitScan(i) => ScanLog(s, i)
    case SubmitCall(t, origin) => StateIs(s.xfer, t, Busy) && t !in Active(s) && (origin.FromScan? ==> ScanLog(s, t))
    case Appending(t, origin) =>
      && t < |s.xfer| && s.popped < |s.submitted| && s.submitted[|s.submitted| - 1] == t
      && (origin.FromScan? ==> ScanLog(s, t + 1))
    case LoopTop => Active(s) != []
    case CheckDraining => Active(s) != []
    case CheckHead => Active(s) != [] && !s.draining
    case Unlock => Active(s) != [] && !s.draining
    case Waiting => Active(s) != []
    case Examine(t) => HeadIs(s, t, Completed)
    case Dispatch(t) => HeadIs(s, t, Completed)
    case SetIdle(t) => HeadIs(s, t, Completed)
    case PopHead(t) => HeadIs(s, t, Idle)
    case Resubmit(t) => StateIs(s.xfer, t, Idle)
    case DrainScan(i) => i <= |s.xfer| && NoneBusy(s.xfer, i)
    case DrainUnlock(i) => i < |s.xfer|
    case DrainWait(i) => i < |s.xfer|
    case Releasing => NoneBusy(s.xfer, |s.xfer|)
    case Freed => Active(s) == [] && !s.streaming
    case BadState => false
    case Crashed => false
    case _ => true
  }

  predicate InMainPhase(pc: Pc) {
    pc.SubmitScan? || pc.SubmitCall? || pc.Appending? || pc.LoopTop? || pc.CheckDraining? || pc.CheckHead? ||
    pc.Unlock? || pc.Waiting? || pc.Examine? || pc.Dispatch? || pc.Resubmit?
  }

  ghost predicate OrderInv(s: State)
    requires s.popped <= |s.submitted|
  {
    && (InMainPhase(s.pc) ==> s.dispatched == s.submitted[..s.popped])
    && (s.pc.SetIdle? || s.pc.PopHead? ==> s.popped < |s.submitted| && s.dispatched == s.submitted[..s.popped + 1])
    && s.dispatched <= s.submitted
  }

  ghost predicate MutexInv(fenced: bool, s: State) {
    && (s.stop ==> s.pc.Waiting? || s.pc.DrainWait?)
    && (s.pc.Waiting? || s.pc.DrainWait? ==> !s.clearPending)
    && (fenced ==> !s.clearPending)
  }

  // Transfer i will still raise the flag.
  ghost predicate WillSignal(s: State, i: nat) {
    i < |s.xfer| && (s.xfer[i] == Busy || i in s.cb)
  }

  ghost predicate WakeInv(fenced: bool, s: State) {
    fenced && !s.flag ==>
      match s.pc
      case Unlock => s.list.head.Some? && WillSignal(s, s.list.head.value)
      case Waiting => s.list.head.Some? && WillSignal(s, s.list.head.value) && (s.draining ==> s.stop)
      case DrainUnlock(i) => WillSignal(s, i)
      case DrainWait(i) => WillSignal(s, i)
      case _ => true
  }

  ghost predicate Inv(fenced: bool, s: State) {
    ListInv(s) && StateInv(s) && PcInv(s) && OrderInv(s) && MutexInv(fenced, s) && WakeInv(fenced, s)
  }

  // ---------- preservation ----------

  lemma InitInv(fenced: bool, n: nat)
    requires n >= 1
    ensures Inv(fenced, Init(n))
  {
  }

  // What a step of another thread does to the fields it shares with the streaming thread:
  // at most one transfer goes from Busy to Completed.
  ghost predicate Outside(s: State, s': State) {
    && s'.pc == s.pc && s'.submitted == s.submitted && s'.popped == s.popped && s'.dispatched == s.dispatched
    && s'.list == s.list && s'.streaming == s.streaming
    && |s'.xfer| == |s.xfer|
    && (forall t :: 0 <= t < |s.xfer| ==> s'.xfer[t] == s.xfer[t] || (s.xfer[t] == Busy && s'.xfer[t] == Completed))
    && (s'.draining == s.draining || s.pc.Waiting? || s.pc.DrainWait?)
  }

  lemma OutsideListInv(fenced: bool, s: State, s': State)
    requires Inv(fenced, s) && Outside(s, s')
    ensures Active(s') == Active(s) && ListInv(s') && OrderInv(s')
  {
  }

  lemma OutsidePcInv(fenced: bool, s: State, s': State)
    requires Inv(fenced, s) && Outside(s, s')
    requires s.pc.SubmitCall? ==> StateIs(s'.xfer, s.pc.t, Busy)
    ensures PcInv(s')
  {
    hide NoDup, IsList, Reaches, InBounds, NonIdleExactly, BusyExactly;
    assert Active(s') == Active(s);
    match s.pc
    case SubmitScan(i) => assert ScanLog(s, i);
    case SubmitCall(t, origin) => assert origin.FromScan? ==> ScanLog(s, t);
    case Appending(t, origin) => assert origin.FromScan? ==> ScanLog(s, t + 1);
    case _ =>
  }

  lemma MarkStateInv(fenced: bool, s: State, t: nat)
    requires Inv(fenced, s) && Enabled(s, CallbackMark(t))
    ensures Outside(s, Exec(fenced, s, CallbackMark(t))) && Active(Exec(fenced, s, CallbackMark(t))) == Active(s)
    ensures StateInv(Exec(fenced, s, CallbackMark(t)))
  {
    hide NoDup, IsList, Reaches, InBounds;
    var s' := Exec(fenced, s, CallbackMark(t));
    assert s.xfer[t] == Busy && t !in NotYetCalled(s.pc);
    assert NonIdleExactly(s'.xfer, Active(s), MidSubmission(s.pc), MidRemoval(s.pc));
    assert BusyExactly(s'.xfer, s'.inflight, NotYetCalled(s.pc));
  }

  lemma CallbackPreserves(fenced: bool, s: State, e: Event)
    requires Inv(fenced, s) && Enabled(s, e) && (e.CallbackMark? || e.CallbackSignal?)
    ensures Inv(fenced, Exec(fenced, s, e))
  {
    var s' := Exec(fenced, s, e);
    if e.CallbackMark? { MarkStateInv(fenced, s, e.t); }
    OutsideListInv(fenced, s, s');
    OutsidePcInv(fenced, s, s');
  }

  lemma StopPreserves(fenced: bool, s: State, e: Event)
    requires Inv(fenced, s) && Enabled(s, e) && (e.StopRequest? || e.StopSignal? || e.Flush?)
    ensures Inv(fenced, Exec(fenced, s, e))
  {
    var s' := Exec(fenced, s, e);
    OutsideListInv(fenced, s, s');
    OutsidePcInv(fenced, s, s');
  }

  // Statements that move no transfer and touch no link leave the list, the transfers and the log alone.
  ghost predicate SameTransfers(s: State, s': State) {
    && s'.xfer == s.xfer && s'.list == s.list
    && s'.inflight == s.inflight && s'.cb == s.cb
    && s'.submitted == s.submitted && s'.popped == s.popped
    && !s.pc.Appending? && !s'.pc.Appending? && !s.pc.Releasing?
    && MidSubmission(s'.pc) == MidSubmission(s.pc) && MidRemoval(s'.pc) == MidRemoval(s.pc)
    && NotYetCalled(s'.pc) == NotYetCalled(s.pc)
  }

  lemma SameTransfersKeep(fenced: bool, s: State, s': State)
    requires Inv(fenced, s) && SameTransfers(s, s')
    ensures ListInv(s') && StateInv(s') && Active(s') == Active(s) == s.submitted[s.popped..]
  {
  }

  // One lemma a statement: the state it produces keeps the invariant.

  lemma LoopTopPreserves(fenced: bool, s: State)
    requires Inv(fenced, s) && s.pc.LoopTop?
    ensures Inv(fenced, ClearFlag(fenced, s).(pc := CheckDraining))
  {
    hide NoDup, IsList, Reaches, InBounds, NonIdleExactly, BusyExactly;
    SameTransfersKeep(fenced, s, ClearFlag(fenced, s).(pc := CheckDraining));
  }

  lemma CheckDrainingPreserves(fenced: bool, s: State)
    requires Inv(fenced, s) && s.pc.CheckDraining?
    ensures Inv(fenced, s.(pc := if s.draining then DrainBegin else CheckHead))
  {
    hide NoDup, IsList, Reaches, InBounds, NonIdleExactly, BusyExactly;
    SameTransfersKeep(fenced, s, s.(pc := if s.draining then DrainBegin else CheckHead));
  }

  lemma CheckHeadPreserves(fenced: bool, s: State)
    requires Inv(fenced, s) && s.pc.CheckHead?
    ensures s.list.head.Some? && s.list.head.value < |s.xfer|
    ensures Inv(fenced, if s.xfer[s.list.head.value] == Busy then s.(pc := Unlock) else s.(pc := Examine(s.list.head.value)))
  {
    hide NoDup;
    assert s.list.head == Some(Active(s)[0]);
    var h := s.list.head.value;
    assert s.xfer[h] != Idle;
    if s.xfer[h] == Busy {
      SameTransfersKeep(fenced, s, s.(pc := Unlock));
    } else {
      SameTransfersKeep(fenced, s, s.(pc := Examine(h)));
    }
  }

  lemma UnlockPreserves(fenced: bool, s: State)
    requires Inv(fenced, s) && s.pc.Unlock?
    ensures Inv(fenced, FlushClear(s).(pc := Waiting))
  {
    hide NoDup, IsList, Reaches, InBounds, NonIdleExactly, BusyExactly;
    SameTransfersKeep(fenced, s, FlushClear(s).(pc := Waiting));
  }

  lemma WaitingPreserves(fenced: bool, s: State, ok: bool)
    requires Inv(fenced, s) && s.pc.Waiting? && !s.stop
    ensures Inv(fenced, s.(pc := if ok then LoopTop else DrainBegin))
  {
    hide NoDup, IsList, Reaches, InBounds, NonIdleExactly, BusyExactly;
    SameTransfersKeep(fenced, s, s.(pc := if ok then LoopTop else DrainBegin));
  }

  lemma ExaminePreserves(fenced: bool, s: State, ok: bool)
    requires Inv(fenced, s) && s.pc.Examine?
    ensures StateIs(s.xfer, s.pc.t, Completed)
    ensures Inv(fenced, s.(pc := if ok then Dispatch(s.pc.t) else DrainBegin))
  {
    hide NoDup, IsList, Reaches, InBounds, NonIdleExactly, BusyExactly;
    SameTransfersKeep(fenced, s, s.(pc := if ok then Dispatch(s.pc.t) else DrainBegin));
  }

  lemma CallbackStopPreserves(fenced: bool, s: State)
    requires Inv(fenced, s) && s.pc.Dispatch?
    ensures Inv(fenced, RaiseFlagSelf(s).(draining := true))
  {
    hide NoDup, IsList, Reaches, InBounds, NonIdleExactly, BusyExactly;
    SameTransfersKeep(fenced, s, RaiseFlagSelf(s).(draining := true));
  }

  lemma DispatchedPreserves(fenced: bool, s: State)
    requires Inv(fenced, s) && s.pc.Dispatch?
    ensures Inv(fenced, s.(dispatched := s.dispatched + [s.pc.t], pc := SetIdle(s.pc.t)))
  {
    hide NoDup, IsList, Reaches, InBounds, NonIdleExactly, BusyExactly;
    var s' := s.(dispatched := s.dispatched + [s.pc.t], pc := SetIdle(s.pc.t));
    SameTransfersKeep(fenced, s, s');
    assert s.submitted[s.popped] == Active(s)[0] == s.pc.t;
    assert s'.dispatched == s.submitted[..s.popped + 1];
  }

  lemma DispatchFailedPreserves(fenced: bool, s: State)
    requires Inv(fenced, s) && s.pc.Dispatch?
    ensures Inv(fenced, s.(pc := DrainBegin))
  {
    hide NoDup, IsList, Reaches, InBounds, NonIdleExactly, BusyExactly;
    SameTransfersKeep(fenced, s, s.(pc := DrainBegin));
  }

  lemma DrainBeginPreserves(fenced: bool, s: State)
    requires Inv(fenced, s) && s.pc.DrainBegin?
    ensures Inv(fenced, s.(draining := true, pc := DrainClear))
  {
    hide NoDup, IsList, Reaches, InBounds, NonIdleExactly, BusyExactly;
    SameTransfersKeep(fenced, s, s.(draining := true, pc := DrainClear));
  }

  lemma DrainClearPreserves(fenced: bool, s: State)
    requires Inv(fenced, s) && s.pc.DrainClear?
    ensures Inv(fenced, ClearFlag(fenced, s).(pc := DrainScan(0)))
  {
    hide NoDup, IsList, Reaches, InBounds, NonIdleExactly, BusyExactly;
    SameTransfersKeep(fenced, s, ClearFlag(fenced, s).(pc := DrainScan(0)));
  }

  lemma DrainScanEndPreserves(fenced: bool, s: State)
    requires Inv(fenced, s) && s.pc.DrainScan? && s.pc.i >= |s.xfer|
    ensures Inv(fenced, s.(pc := Releasing))
  {
    hide NoDup, IsList, Reaches, InBounds, NonIdleExactly, BusyExactly;
    SameTransfersKeep(fenced, s, s.(pc := Releasing));
  }

  lemma DrainScanPreserves(fenced: bool, s: State)
    requires Inv(fenced, s) && s.pc.DrainScan? && s.pc.i < |s.xfer|
    ensures Inv(fenced, s.(pc := if s.xfer[s.pc.i] == Busy then DrainUnlock(s.pc.i) else DrainScan(s.pc.i + 1)))
  {
    hide NoDup, IsList, Reaches, InBounds, NonIdleExactly, BusyExactly;
    SameTransfersKeep(fenced, s, s.(pc := if s.xfer[s.pc.i] == Busy then DrainUnlock(s.pc.i) else DrainScan(s.pc.i + 1)));
  }

  lemma DrainUnlockPreserves(fenced: bool, s: State)
    requires Inv(fenced, s) && s.pc.DrainUnlock?
    ensures Inv(fenced, FlushClear(s).(pc := DrainWait(s.pc.i)))
  {
    hide NoDup, IsList, Reaches, InBounds, NonIdleExactly, BusyExactly;
    SameTransfersKeep(fenced, s, FlushClear(s).(pc := DrainWait(s.pc.i)));
  }

  lemma DrainWaitPreserves(fenced: bool, s: State)
    requires Inv(fenced, s) && s.pc.DrainWait? && !s.stop
    ensures Inv(fenced, s.(pc := DrainClear))
    ensures Inv(fenced, s.(draining := false, streaming := false, pc := DrainFailed))
  {
    hide NoDup, IsList, Reaches, InBounds, NonIdleExactly, BusyExactly;
    SameTransfersKeep(fenced, s, s.(pc := DrainClear));
    SameTransfersKeep(fenced, s, s.(draining := false, streaming := false, pc := DrainFailed));
  }

  lemma BeginSubmitPreserves(fenced: bool, s: State, t: nat, origin: Origin)
    requires Inv(fenced, s) && (s.pc.SubmitScan? || s.pc.Resubmit?)
    requires StateIs(s.xfer, t, Idle)
    requires origin.FromScan? ==> ScanLog(s, t)
    ensures Inv(fenced, BeginSubmit(s, t, origin))
  {
    hide NoDup, IsList, Reaches, InBounds;
    var s' := BeginSubmit(s, t, origin);
    assert Active(s') == Active(s);
    assert t !in Active(s);
    assert t !in s.inflight;
    assert NonIdleExactly(s'.xfer, Active(s), {t}, {});
    assert BusyExactly(s'.xfer, s.inflight, {t});
  }

  lemma ResubmitPreserves(fenced: bool, s: State)
    requires Inv(fenced, s) && s.pc.Resubmit?
    ensures StateIs(s.xfer, s.pc.t, Idle) && Inv(fenced, BeginSubmit(s, s.pc.t, FromLoop))
  {
    hide NoDup, IsList, Reaches, InBounds, NonIdleExactly, BusyExactly;
    BeginSubmitPreserves(fenced, s, s.pc.t, FromLoop);
  }

  // submit_transfers finds every transfer Idle, and ends with a non-empty list.
  lemma SubmitScanPreserves(fenced: bool, s: State)
    requires Inv(fenced, s) && s.pc.SubmitScan?
    ensures s.pc.i < |s.xfer| ==> s.xfer[s.pc.i] == Idle && Inv(fenced, BeginSubmit(s, s.pc.i, FromScan))
    ensures s.pc.i >= |s.xfer| ==> Inv(fenced, s.(streaming := true, pc := LoopTop))
  {
    var i := s.pc.i;
    assert Active(s) == s.submitted;
    if i < |s.xfer| {
      assert i !in Active(s);
      BeginSubmitPreserves(fenced, s, i, FromScan);
    } else {
      var s' := s.(streaming := true, pc := LoopTop);
      SameTransfersKeep(fenced, s, s');
      assert s.submitted[0] == 0;
    }
  }

  lemma NoDupMore(a: seq<nat>, t: nat)
    requires NoDup(a) && t !in a
    ensures NoDup(a + [t])
  {
  }

  lemma BusyAccepted(xfer: seq<XferState>, inflight: set<nat>, t: nat)
    requires BusyExactly(xfer, inflight, {t}) && StateIs(xfer, t, Busy)
    ensures BusyExactly(xfer, inflight + {t}, {})
  {
  }

  lemma SubmitAcceptedPreserves(fenced: bool, s: State)
    requires Inv(fenced, s) && s.pc.SubmitCall?
    ensures Inv(fenced, CallSubmit(s, s.pc.t, s.pc.origin, true))
  {
    hide NoDup, IsList, Reaches, InBounds, NonIdleExactly, BusyExactly;
    var t := s.pc.t;
    var s' := CallSubmit(s, t, s.pc.origin, true);
    var a := Active(s);
    assert s.submitted[s.popped..] == a;
    assert s'.submitted[s'.popped..] == a + [t];
    NoDupMore(a, t);
    assert Active(s') == a;
    BusyAccepted(s.xfer, s.inflight, t);
  }

  lemma SubmitRefusedPreserves(fenced: bool, s: State)
    requires Inv(fenced, s) && s.pc.SubmitCall?
    ensures Inv(fenced, CallSubmit(s, s.pc.t, s.pc.origin, false))
  {
    hide NoDup, IsList, Reaches, InBounds;
    var s' := CallSubmit(s, s.pc.t, s.pc.origin, false);
    var a := Active(s);
    assert Active(s') == a;
    assert NonIdleExactly(s'.xfer, a, {}, {});
    assert BusyExactly(s'.xfer, s.inflight, {});
  }

  lemma NonIdleAppend(xfer: seq<XferState>, a: seq<nat>, t: nat)
    requires NonIdleExactly(xfer, a, {t}, {})
    ensures NonIdleExactly(xfer, a + [t], {}, {})
  {
  }

  lemma NonIdlePop(xfer: seq<XferState>, a: seq<nat>)
    requires a != [] && a[0] !in a[1..] && NonIdleExactly(xfer, a, {}, {a[0]})
    ensures NonIdleExactly(xfer, a[1..], {}, {})
  {
    assert a == [a[0]] + a[1..];
  }

  lemma NonIdleRelease(xfer: seq<XferState>, a: seq<nat>)
    requires a != [] && a[0] !in a[1..] && a[0] < |xfer| && NonIdleExactly(xfer, a, {}, {})
    ensures NonIdleExactly(xfer[a[0] := Idle], a[1..], {}, {})
  {
    assert a == [a[0]] + a[1..];
  }

  lemma AppendKeepsState(fenced: bool, s: State)
    requires Inv(fenced, s) && s.pc.Appending?
    ensures s.pc.t < |s.xfer| && InBounds(s.list)
    ensures ListInv(AppendTransfer(s, s.pc.t, s.pc.origin)) && StateInv(AppendTransfer(s, s.pc.t, s.pc.origin))
    ensures Active(AppendTransfer(s, s.pc.t, s.pc.origin)) == Active(s) + [s.pc.t]
  {
    hide NoDup, Reaches, InBounds, NonIdleExactly, BusyExactly;
    var t := s.pc.t;
    var a := Active(s);
    assert s.submitted[s.popped..] == a + [t];
    AppendIsLast(s.list, a, t);
    NonIdleAppend(s.xfer, a, t);
    var s' := AppendTransfer(s, t, s.pc.origin);
    assert Active(s') == a + [t];
    assert MidSubmission(s'.pc) == MidRemoval(s'.pc) == NotYetCalled(s'.pc) == {};
  }

  lemma AppendInScanPreserves(fenced: bool, s: State)
    requires Inv(fenced, s) && s.pc.Appending? && s.pc.origin.FromScan?
    ensures s.pc.t < |s.xfer| && InBounds(s.list) && Inv(fenced, AppendTransfer(s, s.pc.t, FromScan))
  {
    hide ListInv, StateInv, Active, Append, InBounds;
    AppendKeepsState(fenced, s);
    assert ScanLog(s, s.pc.t + 1);
  }

  lemma AppendInLoopPreserves(fenced: bool, s: State)
    requires Inv(fenced, s) && s.pc.Appending? && s.pc.origin.FromLoop?
    ensures s.pc.t < |s.xfer| && InBounds(s.list) && Inv(fenced, AppendTransfer(s, s.pc.t, FromLoop))
  {
    hide ListInv, StateInv, Active, Append, InBounds;
    AppendKeepsState(fenced, s);
  }

  lemma SetIdlePreserves(fenced: bool, s: State)
    requires Inv(fenced, s) && s.pc.SetIdle?
    ensures s.pc.t < |s.xfer| && Inv(fenced, s.(xfer := s.xfer[s.pc.t := Idle], pc := PopHead(s.pc.t)))
  {
    hide NoDup, IsList, Reaches, InBounds;
    var s' := s.(xfer := s.xfer[s.pc.t := Idle], pc := PopHead(s.pc.t));
    assert Active(s') == Active(s);
    assert NonIdleExactly(s'.xfer, Active(s), {}, {s.pc.t});
    assert BusyExactly(s'.xfer, s.inflight, {});
  }

  lemma PopPreserves(fenced: bool, s: State)
    requires Inv(fenced, s) && s.pc.PopHead?
    ensures s.pc.t < |s.xfer| && Inv(fenced, PopTransfer(s, s.pc.t))
  {
    hide NoDup, Reaches, InBounds, NonIdleExactly, BusyExactly;
    var a := Active(s);
    assert a == s.submitted[s.popped..];
    assert s.submitted[s.popped + 1..] == a[1..];
    PopIsRest(s.list, a);
    TailOfReaches(s.list, a);
    NonIdlePop(s.xfer, a);
  }

  lemma ReleasePreserves(fenced: bool, s: State)
    requires Inv(fenced, s) && s.pc.Releasing? && WellFormed(s) && s.list.head.Some?
    ensures Inv(fenced, ReleaseOne(s))
  {
    hide NoDup, InBounds, NonIdleExactly, BusyExactly;
    var a := Active(s);
    assert a == s.submitted[s.popped..] && s.list.head == Some(a[0]);
    assert s.submitted[s.popped + 1..] == a[1..];
    hide Reaches;
    TailOfReaches(s.list, a);
    NonIdleRelease(s.xfer, a);
    BusyRelease(s.xfer, s.inflight, a[0]);
  }

  lemma BusyRelease(xfer: seq<XferState>, inflight: set<nat>, t: nat)
    requires t < |xfer| && xfer[t] != Busy && BusyExactly(xfer, inflight, {})
    ensures BusyExactly(xfer[t := Idle], inflight, {})
  {
  }

  lemma ReleaseEndPreserves(fenced: bool, s: State)
    requires Inv(fenced, s) && s.pc.Releasing? && WellFormed(s) && s.list.head.None?
    ensures Inv(fenced, ReleaseOne(s))
  {
    var s' := ReleaseOne(s);
    assert Active(s) == [];
    assert Active(s') == [];
    assert NonIdleExactly(s'.xfer, [], {}, {});
  }

  lemma MainPhasePreserves(fenced: bool, s: State, ok: bool, stop: bool)
    requires Inv(fenced, s) && Enabled(s, Step(ok, stop)) && InMainPhase(s.pc) && !s.pc.Dispatch?
    ensures Inv(fenced, StepThread(fenced, s, ok, stop))
  {
    hide Inv;
    match s.pc
    case SubmitScan(i) => SubmitScanPreserves(fenced, s);
    case SubmitCall(t, origin) => if ok { SubmitAcceptedPreserves(fenced, s); } else { SubmitRefusedPreserves(fenced, s); }
    case Appending(t, origin) => if origin.FromScan? { AppendInScanPreserves(fenced, s); } else { AppendInLoopPreserves(fenced, s); }
    case LoopTop => LoopTopPreserves(fenced, s);
    case CheckDraining => CheckDrainingPreserves(fenced, s);
    case CheckHead => CheckHeadPreserves(fenced, s);
    case Unlock => UnlockPreserves(fenced, s);
    case Waiting => WaitingPreserves(fenced, s, ok);
    case Examine(t) => ExaminePreserves(fenced, s, ok);
    case Resubmit(t) => ResubmitPreserves(fenced, s);
  }

  lemma DrainPhasePreserves(fenced: bool, s: State, ok: bool, stop: bool)
    requires Inv(fenced, s) && Enabled(s, Step(ok, stop)) && (!InMainPhase(s.pc) || s.pc.Dispatch?)
    ensures Inv(fenced, StepThread(fenced, s, ok, stop))
  {
    hide Inv;
    match s.pc
    case Dispatch(t) =>
      var s1 := if stop then RaiseFlagSelf(s).(draining := true) else s;
      if stop { CallbackStopPreserves(fenced, s); }
      if ok { DispatchedPreserves(fenced, s1); } else { DispatchFailedPreserves(fenced, s1); }
    case SetIdle(t) => SetIdlePreserves(fenced, s);
    case PopHead(t) => PopPreserves(fenced, s);
    case DrainBegin => DrainBeginPreserves(fenced, s);
    case DrainClear => DrainClearPreserves(fenced, s);
    case DrainScan(i) => if i >= |s.xfer| { DrainScanEndPreserves(fenced, s); } else { DrainScanPreserves(fenced, s); }
    case DrainUnlock(i) => DrainUnlockPreserves(fenced, s);
    case DrainWait(i) => DrainWaitPreserves(fenced, s);
    case Releasing => if s.list.head.Some? { ReleasePreserves(fenced, s); } else { ReleaseEndPreserves(fenced, s); }
  }

  // Every event, from every actor, keeps the invariant.
  lemma StepPreserves(fenced: bool, s: State, e: Event)
    requires Inv(fenced, s) && Enabled(s, e)
    ensures Inv(fenced, Exec(fenced, s, e))
  {
    hide Inv, StepThread;
    match e
    case Step(ok, stop) =>
      if InMainPhase(s.pc) && !s.pc.Dispatch? { MainPhasePreserves(fenced, s, ok, stop); } else { DrainPhasePreserves(fenced, s, ok, stop); }
    case CallbackMark(_) => CallbackPreserves(fenced, s, e);
    case CallbackSignal(_) => CallbackPreserves(fenced, s, e);
    case _ => StopPreserves(fenced, s, e);
  }

  // ---------- a thread that handles its own events ----------

  // Callbacks run inside waits only, and a wait whose flag is clear, or about to be, is for a
  // transfer that will still raise it.
  ghost predicate OwnInv(s: State) {
    && (s.cb != {} ==> s.pc.Waiting? || s.pc.DrainWait?)
    && (!s.flag || s.clearPending ==>
          match s.pc
          case Unlock => s.list.head.Some? && WillSignal(s, s.list.head.value)
          case Waiting => s.list.head.Some? && WillSignal(s, s.list.head.value) && (s.draining ==> s.stop)
          case DrainUnlock(i) => WillSignal(s, i)
          case DrainWait(i) => WillSignal(s, i)
          case _ => true)
  }

  predicate Parked(pc: Pc) { pc.Unlock? || pc.Waiting? || pc.DrainUnlock? || pc.DrainWait? }

  lemma OwnElsewhere(s: State)
    requires s.cb == {} && !Parked(s.pc)
    ensures OwnInv(s)
  {
  }

  lemma SubmitStatements(s: State, t: nat, origin: Origin, ok: bool)
    requires t < |s.xfer|
    ensures !Parked(BeginSubmit(s, t, origin).pc) && BeginSubmit(s, t, origin).cb == s.cb
    ensures !Parked(CallSubmit(s, t, origin, ok).pc) && CallSubmit(s, t, origin, ok).cb == s.cb
  {
  }

  lemma ListStatements(s: State, t: nat, origin: Origin)
    requires t < |s.xfer| == |s.list.next| && InBounds(s.list)
    ensures !Parked(AppendTransfer(s, t, origin).pc) && AppendTransfer(s, t, origin).cb == s.cb
    ensures !Parked(PopTransfer(s, t).pc) && PopTransfer(s, t).cb == s.cb
  {
    hide InBounds, Append, Pop;
  }

  lemma ReleaseStatement(s: State)
    requires WellFormed(s) && s.pc.Releasing?
    ensures !Parked(ReleaseOne(s).pc) && ReleaseOne(s).cb == s.cb
  {
    hide ActiveList.Release;
  }

  predicate Submitting(pc: Pc) { pc.SubmitScan? || pc.SubmitCall? || pc.Appending? || pc.Resubmit? }

  lemma SubmittingElsewhere(fenced: bool, s: State, ok: bool, stop: bool)
    requires Enabled(s, Step(ok, stop)) && Submitting(s.pc)
    ensures !Parked(StepThread(fenced, s, ok, stop).pc) && StepThread(fenced, s, ok, stop).cb == s.cb
  {
    hide InBounds, BeginSubmit, CallSubmit, AppendTransfer, Parked;
    match s.pc
    case SubmitScan(i) =>
      if i < |s.xfer| { SubmitStatements(s, i, FromScan, ok); }
      NotParked(LoopTop);
      NotParked(SubmitScan(i + 1));
    case SubmitCall(t, origin) => SubmitStatements(s, t, origin, ok);
    case Appending(t, origin) => ListStatements(s, t, origin);
    case Resubmit(t) => SubmitStatements(s, t, FromLoop, ok);
  }

  lemma NotParked(pc: Pc)
    requires pc.LoopTop? || pc.SubmitScan?
    ensures !Parked(pc)
  {
  }

  lemma HandlingElsewhere(fenced: bool, s: State, ok: bool, stop: bool)
    requires Enabled(s, Step(ok, stop))
    requires s.pc.LoopTop? || s.pc.CheckDraining? || s.pc.Waiting? || s.pc.Examine? || s.pc.Dispatch? || s.pc.SetIdle?
    ensures !Parked(StepThread(fenced, s, ok, stop).pc) && StepThread(fenced, s, ok, stop).cb == s.cb
  {
    hide InBounds, WellFormed;
  }

  lemma RemovingElsewhere(fenced: bool, s: State, ok: bool, stop: bool)
    requires Enabled(s, Step(ok, stop)) && (s.pc.PopHead? || s.pc.Releasing?)
    ensures !Parked(StepThread(fenced, s, ok, stop).pc) && StepThread(fenced, s, ok, stop).cb == s.cb
  {
    hide InBounds, PopTransfer, ReleaseOne, Parked;
    if s.pc.PopHead? { ListStatements(s, s.pc.t, FromLoop); } else { ReleaseStatement(s); }
  }

  lemma DrainingElsewhere(fenced: bool, s: State, ok: bool, stop: bool)
    requires Enabled(s, Step(ok, stop)) && (s.pc.DrainBegin? || s.pc.DrainClear? || s.pc.DrainWait?)
    ensures !Parked(StepThread(fenced, s, ok, stop).pc) && StepThread(fenced, s, ok, stop).cb == s.cb
  {
    hide InBounds, WellFormed;
  }

  // Only four statements lead to a wait.
  lemma StaysElsewhere(fenced: bool, s: State, ok: bool, stop: bool)
    requires Enabled(s, Step(ok, stop))
    requires !s.pc.CheckHead? && !s.pc.Unlock? && !s.pc.DrainScan? && !s.pc.DrainUnlock?
    ensures !Parked(StepThread(fenced, s, ok, stop).pc) && StepThread(fenced, s, ok, stop).cb == s.cb
  {
    hide StepThread, WellFormed, Parked;
    if Submitting(s.pc) {
      SubmittingElsewhere(fenced, s, ok, stop);
    } else if s.pc.PopHead? || s.pc.Releasing? {
      RemovingElsewhere(fenced, s, ok, stop);
    } else if s.pc.DrainBegin? || s.pc.DrainClear? || s.pc.DrainWait? {
      DrainingElsewhere(fenced, s, ok, stop);
    } else {
      HandlingElsewhere(fenced, s, ok, stop);
    }
  }

  lemma TowardsWait(fenced: bool, s: State, ok: bool, stop: bool)
    requires Inv(fenced, s) && OwnInv(s) && Enabled(s, Step(ok, stop)) && s.cb == {}
    requires s.pc.CheckHead? || s.pc.Unlock? || s.pc.DrainScan? || s.pc.DrainUnlock?
    ensures OwnInv(StepThread(fenced, s, ok, stop))
  {
    hide ListInv, StateInv, OrderInv, NoDup, IsList, Reaches, Append, Pop, ActiveList.Release;
  }

  lemma OwnThreadPreserves(fenced: bool, s: State, ok: bool, stop: bool)
    requires Inv(fenced, s) && OwnInv(s) && Enabled(s, Step(ok, stop)) && s.cb == {}
    ensures OwnInv(StepThread(fenced, s, ok, stop))
  {
    hide Inv, OwnInv, StepThread, Enabled, Parked;
    if s.pc.CheckHead? || s.pc.Unlock? || s.pc.DrainScan? || s.pc.DrainUnlock? {
      TowardsWait(fenced, s, ok, stop);
    } else {
      StaysElsewhere(fenced, s, ok, stop);
      OwnElsewhere(StepThread(fenced, s, ok, stop));
    }
  }

  lemma OwnStepPreserves(fenced: bool, s: State, e: Event)
    requires Inv(fenced, s) && OwnInv(s) && Possible(true, s, e)
    ensures OwnInv(Exec(fenced, s, e))
  {
    hide ListInv, StateInv, PcInv, OrderInv, NoDup, IsList, Reaches, StepThread;
    if e.Step? { OwnThreadPreserves(fenced, s, e.ok, e.stopInCallback); }
  }

  // The invariant holds in every state of every run.
  lemma {:induction false} RunPreserves(ownEvents: bool, fenced: bool, s: State, events: seq<Event>)
    requires Inv(fenced, s) && (ownEvents ==> OwnInv(s))
    ensures Run(ownEvents, fenced, s, events).Some? ==>
              Inv(fenced, Run(ownEvents, fenced, s, events).value) &&
              (ownEvents ==> OwnInv(Run(ownEvents, fenced, s, events).value))
    decreases events
  {
    hide Inv, Enabled, StepThread, OwnInv;
    if events != [] && Possible(ownEvents, s, events[0]) {
      StepPreserves(fenced, s, events[0]);
      if ownEvents { OwnStepPreserves(fenced, s, events[0]); }
      RunPreserves(ownEvents, fenced, Exec(fenced, s, events[0]), events[1..]);
    }
  }

  // ---------- the claims, for every number of transfers and every interleaving ----------

  lemma ReachableInv(n: nat, own: bool, fenced: bool, events: seq<Event>) returns (s: State)
    requires n >= 1 && Run(own, fenced, Init(n), events).Some?
    ensures s == Run(own, fenced, Init(n), events).value && Inv(fenced, s) && (own ==> OwnInv(s))
  {
    InitInv(fenced, n);
    RunPreserves(own, fenced, Init(n), events);
    s := Run(own, fenced, Init(n), events).value;
  }

  // The active list is duplicate-free, correctly ended, and holds the non-Idle
  // transfers apart from one in mid-submission or mid-removal.
  lemma ActiveListCorrect(n: nat, own: bool, fenced: bool, events: seq<Event>)
    requires n >= 1 && Run(own, fenced, Init(n), events).Some?
    ensures var s := Run(own, fenced, Init(n), events).value;
            s.popped <= |s.submitted| &&
            NoDup(Active(s)) && (!s.pc.Releasing? ==> IsList(s.list, Active(s))) &&
            NonIdleExactly(s.xfer, Active(s), MidSubmission(s.pc), MidRemoval(s.pc)) &&
            BusyExactly(s.xfer, s.inflight, NotYetCalled(s.pc))
  {
    var s := ReachableInv(n, own, fenced, events);
  }

  // The list head is never NULL where it is dereferenced, and the
  // "active transfer has state" branch is never taken.
  lemma NoDeadBranch(n: nat, own: bool, fenced: bool, events: seq<Event>)
    requires n >= 1 && Run(own, fenced, Init(n), events).Some?
    ensures var s := Run(own, fenced, Init(n), events).value;
            !s.pc.Crashed? && !s.pc.BadState? && (s.pc.CheckHead? ==> s.list.head.Some?)
  {
    hide Run, NonIdleExactly, BusyExactly, NoDup, InBounds;
    var s := ReachableInv(n, own, fenced, events);
  }

  // Transfers reach user code in the order in which libusb accepted them.
  lemma DispatchOrder(n: nat, own: bool, fenced: bool, events: seq<Event>)
    requires n >= 1 && Run(own, fenced, Init(n), events).Some?
    ensures var s := Run(own, fenced, Init(n), events).value; s.dispatched <= s.submitted
  {
    var s := ReachableInv(n, own, fenced, events);
  }

  // When the transfers are freed, none is in flight and each is Idle.
  lemma FreedWhenIdle(n: nat, own: bool, fenced: bool, events: seq<Event>)
    requires n >= 1 && Run(own, fenced, Init(n), events).Some?
    requires Run(own, fenced, Init(n), events).value.pc.Freed?
    ensures var s := Run(own, fenced, Init(n), events).value;
            s.inflight == {} && s.list.head.None? && s.list.tail.None? && !s.streaming &&
            forall t :: 0 <= t < |s.xfer| ==> s.xfer[t] == Idle
  {
    var s := ReachableInv(n, own, fenced, events);
    assert Active(s) == [] && MidSubmission(s.pc) == {};
    assert IsList(s.list, []);
  }

  // No wake-up is lost given an ordering barrier, or callbacks in the thread's own waits.
  lemma NoLostWakeup(n: nat, own: bool, fenced: bool, events: seq<Event>)
    requires n >= 1 && (own || fenced) && Run(own, fenced, Init(n), events).Some?
    ensures !LostWakeup(Run(own, fenced, Init(n), events).value)
  {
    hide Run, ListInv, StateInv, OrderInv, NoDup, IsList, Reaches;
    var s := ReachableInv(n, own, fenced, events);
  }

  lemma {:induction false} RunOneMore(own: bool, fenced: bool, s: State, events: seq<Event>, e: Event)
    requires Run(own, fenced, s, events).Some? && Possible(own, Run(own, fenced, s, events).value, e)
    ensures Run(own, fenced, s, events + [e]) == Some(Exec(fenced, Run(own, fenced, s, events).value, e))
    decreases events
  {
    hide Enabled, Exec;
    if events == [] {
      assert events + [e] == [e];
      assert Run(own, fenced, Exec(fenced, s, e), []) == Some(Exec(fenced, s, e));
    } else {
      assert (events + [e])[1..] == events[1..] + [e];
      RunOneMore(own, fenced, Exec(fenced, s, events[0]), events[1..], e);
    }
  }

  // ---------- concrete runs with one transfer and another thread's callbacks ----------

  function RunOne(fenced: bool, events: seq<Event>): Option<State> { Run(false, fenced, Init(1), events) }

  lemma Advance(fenced: bool, events: seq<Event>, s: State, e: Event) returns (s': State)
    requires RunOne(fenced, events) == Some(s) && Enabled(s, e)
    ensures s' == Exec(fenced, s, e) && RunOne(fenced, events + [e]) == Some(s')
  {
    RunOneMore(false, fenced, Init(1), events, e);
    s' := Exec(fenced, s, e);
  }

  // libusb has accepted the transfer.
  lemma AcceptedRun(fenced: bool) returns (events: seq<Event>, s: State)
    ensures RunOne(fenced, events) == Some(s) && WellFormed(s)
    ensures s.pc == Appending(0, FromScan) && s.list == Init(1).list && s.xfer == [Busy] && s.inflight == {0}
    ensures s.cb == {} && !s.draining && !s.stop && !s.clearPending
  {
    hide RunOne;
    var go := Step(true, false);
    assert RunOne(fenced, []) == Some(Init(1)) by { StartOfRun(fenced); }
    var s1 := Advance(fenced, [], Init(1), go);
    assert s1.pc == SubmitCall(0, FromScan) && s1.xfer == [Busy];
    s := Advance(fenced, [] + [go], s1, go);
    events := [] + [go] + [go];
  }

  // The transfer is submitted and the main loop is about to start.
  lemma SubmittedRun(fenced: bool) returns (events: seq<Event>, s: State)
    ensures RunOne(fenced, events) == Some(s) && WellFormed(s)
    ensures s.pc == LoopTop && s.list == Append(Init(1).list, 0) && s.xfer == [Busy] && s.inflight == {0} && s.cb == {}
    ensures !s.draining && !s.stop && !s.clearPending
  {
    hide RunOne;
    var go := Step(true, false);
    var es, s2 := AcceptedRun(fenced);
    var s3 := Advance(fenced, es, s2, go);
    assert s3.pc == SubmitScan(1) && s3.list == Append(Init(1).list, 0);
    s := Advance(fenced, es + [go], s3, go);
    events := es + [go] + [go];
  }

  lemma StartOfRun(fenced: bool)
    ensures RunOne(fenced, []) == Some(Init(1))
  {
  }

  // The head is seen Busy. Without ordering the clear is still in the store buffer.
  lemma AboutToWaitRun(fenced: bool) returns (events: seq<Event>, s: State)
    ensures RunOne(fenced, events) == Some(s) && WellFormed(s)
    ensures s.pc == Unlock && s.list == Append(Init(1).list, 0) && s.xfer == [Busy] && s.inflight == {0} && s.cb == {}
    ensures s.clearPending == !fenced && !s.stop
  {
    hide RunOne;
    var go := Step(true, false);
    var es, s4 := SubmittedRun(fenced);
    var s5 := Advance(fenced, es, s4, go);
    assert s5.pc == CheckDraining && s5.clearPending == !fenced;
    var s6 := Advance(fenced, es + [go], s5, go);
    assert s6.pc == CheckHead && s6.list.head == Some(0);
    s := Advance(fenced, es + [go] + [go], s6, go);
    events := es + [go] + [go] + [go];
  }

  // A run that ends with the thread parked although its only transfer has completed: the
  // clear leaves the store buffer after the callback has raised the flag.
  lemma UnfencedRun() returns (events: seq<Event>)
    ensures RunOne(false, events).Some? && LostWakeup(RunOne(false, events).value)
  {
    hide RunOne;
    var go := Step(true, false);
    var es, s7 := AboutToWaitRun(false);
    var s8 := Advance(false, es, s7, CallbackMark(0));
    assert s8.xfer == [Completed] && 0 in s8.cb;
    var s9 := Advance(false, es + [CallbackMark(0)], s8, CallbackSignal(0));
    assert s9.pc == Unlock && s9.flag && 0 !in s9.cb;
    var s10 := Advance(false, es + [CallbackMark(0)] + [CallbackSignal(0)], s9, go);
    assert s10.pc == Waiting && !s10.flag && s10.list.head == Some(0);
    events := es + [CallbackMark(0)] + [CallbackSignal(0)] + [go];
  }

  // A wait fails and the thread turns to draining.
  lemma FailedWaitRun(fenced: bool) returns (events: seq<Event>, s: State)
    ensures RunOne(fenced, events) == Some(s) && WellFormed(s)
    ensures s.pc == DrainBegin && s.list == Append(Init(1).list, 0) && s.xfer == [Busy] && s.inflight == {0} && s.cb == {}
  {
    hide RunOne, InBounds, Append;
    var go, fail := Step(true, false), Step(false, false);
    var es, s7 := AboutToWaitRun(fenced);
    var s8 := Advance(fenced, es, s7, go);
    assert s8.pc == Waiting && !s8.stop;
    s := Advance(fenced, es + [go], s8, fail);
    events := es + [go] + [fail];
  }

  // Meanwhile another thread's callback marks the transfer.
  lemma MarkedRun(fenced: bool) returns (events: seq<Event>, s: State)
    ensures RunOne(fenced, events) == Some(s) && WellFormed(s)
    ensures s.pc == DrainClear && s.list == Append(Init(1).list, 0) && s.xfer == [Completed] && s.cb == {0}
  {
    hide RunOne, InBounds, Append;
    var go := Step(true, false);
    var es, s9 := FailedWaitRun(fenced);
    var s10 := Advance(fenced, es, s9, go);
    assert s10.pc == DrainClear && s10.xfer == [Busy] && s10.inflight == {0};
    s := Advance(fenced, es + [go], s10, CallbackMark(0));
    events := es + [go] + [CallbackMark(0)];
  }

  // The drain sees nothing busy.
  lemma DrainedRun(fenced: bool) returns (events: seq<Event>, s: State)
    ensures RunOne(fenced, events) == Some(s) && WellFormed(s)
    ensures s.pc == Releasing && s.list == Append(Init(1).list, 0) && s.cb == {0}
  {
    hide RunOne, InBounds, Append;
    var go := Step(true, false);
    var es, s0 := MarkedRun(fenced);
    var s1 := Advance(fenced, es, s0, go);
    assert s1.pc == DrainScan(0) && s1.xfer == [Completed];
    var s2 := Advance(fenced, es + [go], s1, go);
    assert s2.pc == DrainScan(1);
    s := Advance(fenced, es + [go] + [go], s2, go);
    events := es + [go] + [go] + [go];
  }

  // So everything is freed, with the callback still to read the transfer.
  lemma FreedInCallbackRun(fenced: bool) returns (events: seq<Event>)
    ensures RunOne(fenced, events).Some? && FreedTooEarly(RunOne(fenced, events).value)
  {
    hide RunOne;
    var go := Step(true, false);
    var es, s3 := DrainedRun(fenced);
    assert s3.list.head == Some(0) && s3.list.next == [None];
    var s4 := Advance(fenced, es, s3, go);
    assert s4.pc == Releasing && s4.list.head == None && s4.cb == {0};
    var s5 := Advance(fenced, es + [go], s4, go);
    events := es + [go] + [go];
  }

  // ---------- exact conditions ----------

  /** Wake-ups are never lost exactly when the barrier orders the clear before the checks, or
      callbacks run in the thread's own waits only. */
  lemma WakeupsKeptIff(own: bool, fenced: bool)
    ensures (forall n: nat, events :: n >= 1 && Run(own, fenced, Init(n), events).Some? ==>
               !LostWakeup(Run(own, fenced, Init(n), events).value)) <==> fenced || own
  {
    hide LostWakeup, Run;
    if fenced || own {
      forall n: nat, events | n >= 1 && Run(own, fenced, Init(n), events).Some?
        ensures !LostWakeup(Run(own, fenced, Init(n), events).value)
      {
        NoLostWakeup(n, own, fenced, events);
      }
    } else {
      var events := UnfencedRun();
      assert LostWakeup(Run(false, false, Init(1), events).value);
    }
  }

  lemma NotFreedTooEarly(n: nat, fenced: bool, events: seq<Event>)
    requires n >= 1 && Run(true, fenced, Init(n), events).Some?
    ensures !FreedTooEarly(Run(true, fenced, Init(n), events).value)
  {
    hide Run, Inv;
    var s := ReachableInv(n, true, fenced, events);
  }

  /** No transfer is freed under a running callback exactly when callbacks run in the thread's
      own waits only: a barrier does not help. */
  lemma FreedAfterCallbacksIff(own: bool, fenced: bool)
    ensures (forall n: nat, events :: n >= 1 && Run(own, fenced, Init(n), events).Some? ==>
               !FreedTooEarly(Run(own, fenced, Init(n), events).value)) <==> own
  {
    hide Run, FreedTooEarly;
    if own {
      forall n: nat, events | n >= 1 && Run(own, fenced, Init(n), events).Some?
        ensures !FreedTooEarly(Run(own, fenced, Init(n), events).value)
      {
        NotFreedTooEarly(n, fenced, events);
      }
    } else {
      var events := FreedInCallbackRun(fenced);
      assert FreedTooEarly(Run(false, fenced, Init(1), events).value);
    }
  }
}
