/** What the streaming engine achieves, not only what it avoids: transfers are submitted,
    delivered and submitted again, a stop request is obeyed, and draining ends. */
module StreamProgress {
  import opened Wrappers
  import opened ActiveList
  import opened StreamEngine

  const GO := Step(true, false)

  // The thread's next k statements, with nothing going wrong.
  function Go(k: nat): (r: seq<Event>)
    ensures |r| == k
  {
    if k == 0 then [] else Go(k - 1) + [GO]
  }

  // Nothing goes wrong and nobody asks to stop.
  predicate Quiet(events: seq<Event>) {
    forall k :: 0 <= k < |events| ==>
      (events[k].Step? ==> events[k] == GO) && !events[k].StopRequest?
  }

  // ---------- undisturbed, the thread keeps streaming ----------

  predicate Streams(s: State) {
    !s.draining && (InMainPhase(s.pc) || s.pc.SetIdle? || s.pc.PopHead?)
  }

  lemma SubmitStreams(fenced: bool, s: State)
    requires Inv(fenced, s) && Streams(s) && Enabled(s, GO)
    requires s.pc.SubmitScan? || s.pc.SubmitCall? || s.pc.Appending? || s.pc.Resubmit?
    ensures Streams(Exec(fenced, s, GO))
  {
    hide NoDup, IsList, Reaches, InBounds, NonIdleExactly, BusyExactly, ScanLog, Append;
  }

  lemma LoopStreams(fenced: bool, s: State)
    requires Inv(fenced, s) && Streams(s) && Enabled(s, GO)
    requires s.pc.LoopTop? || s.pc.CheckDraining? || s.pc.CheckHead? || s.pc.Unlock? || s.pc.Waiting?
    ensures Streams(Exec(fenced, s, GO))
  {
    hide NoDup, Reaches, NonIdleExactly, BusyExactly;
    if s.pc.CheckHead? { CheckHeadPreserves(fenced, s); }
  }

  lemma DeliverStreams(fenced: bool, s: State)
    requires Inv(fenced, s) && Streams(s) && Enabled(s, GO)
    requires s.pc.Examine? || s.pc.Dispatch? || s.pc.SetIdle? || s.pc.PopHead?
    ensures Streams(Exec(fenced, s, GO))
  {
    hide NoDup, IsList, Reaches, InBounds, NonIdleExactly, BusyExactly, Pop;
  }

  lemma StepStreams(fenced: bool, s: State, e: Event)
    requires Inv(fenced, s) && Streams(s) && Enabled(s, e) && (e.Step? ==> e == GO) && !e.StopRequest?
    ensures Streams(Exec(fenced, s, e))
  {
    hide Inv, StepThread, WellFormed;
    if e.Step? {
      if s.pc.SubmitScan? || s.pc.SubmitCall? || s.pc.Appending? || s.pc.Resubmit? { SubmitStreams(fenced, s); }
      else if s.pc.Examine? || s.pc.Dispatch? || s.pc.SetIdle? || s.pc.PopHead? { DeliverStreams(fenced, s); }
      else { LoopStreams(fenced, s); }
    }
  }

  lemma {:induction false} RunStreams(own: bool, fenced: bool, s: State, events: seq<Event>)
    requires Inv(fenced, s) && Streams(s) && Quiet(events)
    ensures Run(own, fenced, s, events).Some? ==> Streams(Run(own, fenced, s, events).value)
    decreases events
  {
    hide Inv, Enabled, StepThread, Streams;
    if events != [] && Possible(own, s, events[0]) {
      StepStreams(fenced, s, events[0]);
      StepPreserves(fenced, s, events[0]);
      assert Quiet(events[1..]) by { QuietRest(events); }
      RunStreams(own, fenced, Exec(fenced, s, events[0]), events[1..]);
    }
  }

  lemma QuietRest(events: seq<Event>)
    requires events != [] && Quiet(events)
    ensures Quiet(events[1..])
  {
  }

  /** As long as nothing fails and nobody asks to stop, the thread never starts to drain. */
  lemma QuietRunStreams(n: nat, own: bool, fenced: bool, events: seq<Event>)
    requires n >= 1 && Quiet(events) && Run(own, fenced, Init(n), events).Some?
    ensures Streams(Run(own, fenced, Init(n), events).value)
  {
    hide Run, Inv;
    InitInv(fenced, n);
    RunStreams(own, fenced, Init(n), events);
  }

  // ---------- running statement by statement ----------

  lemma {:induction false} RunMore(own: bool, fenced: bool, s: State, a: seq<Event>, b: seq<Event>)
    requires Run(own, fenced, s, a).Some?
    ensures Run(own, fenced, s, a + b) == Run(own, fenced, Run(own, fenced, s, a).value, b)
    decreases a
  {
    hide Enabled, Exec;
    if a == [] {
      assert a + b == b;
    } else {
      assert (a + b)[1..] == a[1..] + b;
      RunMore(own, fenced, Exec(fenced, s, a[0]), a[1..], b);
    }
  }

  // From s, the events lead to t.
  ghost predicate Leads(own: bool, fenced: bool, s: State, events: seq<Event>, t: State) {
    Run(own, fenced, s, events) == Some(t)
  }

  lemma LeadsNowhere(own: bool, fenced: bool, s: State)
    ensures Leads(own, fenced, s, Go(0), s)
  {
  }

  lemma Then(own: bool, fenced: bool, s: State, a: seq<Event>, t: State, b: seq<Event>, u: State)
    requires Leads(own, fenced, s, a, t) && Leads(own, fenced, t, b, u)
    ensures Leads(own, fenced, s, a + b, u)
  {
    RunMore(own, fenced, s, a, b);
  }

  lemma ThenStep(own: bool, fenced: bool, s: State, k: nat, t: State)
    requires Leads(own, fenced, s, Go(k), t) && Possible(own, t, GO)
    ensures Leads(own, fenced, s, Go(k + 1), Exec(fenced, t, GO))
  {
    hide Possible, Exec, Run;
    RunOneMore(own, fenced, s, Go(k), GO);
  }

  lemma InvWellFormed(fenced: bool, s: State)
    requires Inv(fenced, s)
    ensures WellFormed(s)
  {
    hide NoDup, Reaches, NonIdleExactly, ScanLog;
  }

  // A statement can be executed in every state of a run that has not ended.
  lemma CanStep(own: bool, fenced: bool, s: State)
    requires Inv(fenced, s) && (own ==> s.cb == {})
    requires !s.pc.Freed? && !s.pc.DrainFailed? && !s.pc.Waiting? && !s.pc.DrainWait?
    ensures Possible(own, s, GO)
  {
    hide ListInv, StateInv, OrderInv, MutexInv, WakeInv, WellFormed;
    InvWellFormed(fenced, s);
  }

  // One statement, with the invariant.
  lemma OneStep(own: bool, fenced: bool, s: State, k: nat, t: State) returns (u: State)
    requires Leads(own, fenced, s, Go(k), t) && Inv(fenced, t) && (own ==> t.cb == {})
    requires !t.pc.Freed? && !t.pc.DrainFailed? && !t.pc.Waiting? && !t.pc.DrainWait?
    ensures Enabled(t, GO) && u == Exec(fenced, t, GO) && Leads(own, fenced, s, Go(k + 1), u) && Inv(fenced, u)
  {
    hide Inv, Leads, StepThread, WellFormed;
    CanStep(own, fenced, t);
    ThenStep(own, fenced, s, k, t);
    StepPreserves(fenced, t, GO);
    u := Exec(fenced, t, GO);
  }

  // ---------- a completed transfer is delivered and submitted again ----------

  // At the top of the loop, streaming, with the head completed.
  ghost predicate HeadCompleted(own: bool, fenced: bool, s: State, h: nat) {
    && Inv(fenced, s) && s.pc == LoopTop && !s.draining && (own ==> s.cb == {})
    && s.list.head == Some(h) && StateIs(s.xfer, h, Completed)
  }

  lemma FoundHead(own: bool, fenced: bool, s: State, h: nat) returns (t: State)
    requires HeadCompleted(own, fenced, s, h)
    ensures Leads(own, fenced, s, Go(3), t) && Inv(fenced, t) && t.pc == Examine(h)
    ensures t.xfer == s.xfer && t.list == s.list && t.cb == s.cb && t.inflight == s.inflight && !t.draining
    ensures t.submitted == s.submitted && t.popped == s.popped && t.dispatched == s.dispatched
  {
    hide Inv, Leads, WellFormed;
    LeadsNowhere(own, fenced, s);
    var a := OneStep(own, fenced, s, 0, s);
    var b := OneStep(own, fenced, s, 1, a);
    t := OneStep(own, fenced, s, 2, b);
  }

  lemma ExamineGo(fenced: bool, s: State, h: nat)
    requires Enabled(s, GO) && s.pc == Examine(h) && StateIs(s.xfer, h, Completed)
    ensures Exec(fenced, s, GO) == s.(pc := Dispatch(h))
  {
    hide WellFormed;
  }

  lemma DispatchGo(fenced: bool, s: State, h: nat)
    requires Enabled(s, GO) && s.pc == Dispatch(h)
    ensures Exec(fenced, s, GO) == s.(pc := SetIdle(h), dispatched := s.dispatched + [h])
  {
    hide WellFormed;
  }

  lemma HandedOver(own: bool, fenced: bool, s: State, h: nat) returns (t: State)
    requires Inv(fenced, s) && s.pc == Examine(h) && (own ==> s.cb == {})
    ensures StateIs(s.xfer, h, Completed)
    ensures Leads(own, fenced, s, Go(2), t) && Inv(fenced, t)
    ensures t == s.(pc := SetIdle(h), dispatched := s.dispatched + [h])
  {
    ExaminePreserves(fenced, s, true);
    hide Inv, Leads, Enabled, Exec;
    LeadsNowhere(own, fenced, s);
    var a := OneStep(own, fenced, s, 0, s);
    ExamineGo(fenced, s, h);
    t := OneStep(own, fenced, s, 1, a);
    DispatchGo(fenced, a, h);
  }

  lemma SetIdleGo(fenced: bool, s: State, h: nat)
    requires Enabled(s, GO) && s.pc == SetIdle(h)
    ensures h < |s.xfer| && Exec(fenced, s, GO) == s.(xfer := s.xfer[h := Idle], pc := PopHead(h))
  {
    hide InBounds;
  }

  lemma PopHeadGo(fenced: bool, s: State, h: nat)
    requires Enabled(s, GO) && s.pc == PopHead(h)
    ensures h < |s.list.next| == |s.xfer|
    ensures Exec(fenced, s, GO) == s.(list := Pop(s.list, h), popped := s.popped + 1, pc := Resubmit(h))
  {
    hide InBounds, Pop;
  }

  lemma TakenOff(own: bool, fenced: bool, s: State, h: nat) returns (t: State)
    requires Inv(fenced, s) && s.pc == SetIdle(h) && (own ==> s.cb == {})
    ensures h < |s.list.next| == |s.xfer|
    ensures Leads(own, fenced, s, Go(2), t) && Inv(fenced, t)
    ensures t == s.(xfer := s.xfer[h := Idle], list := Pop(s.list, h), popped := s.popped + 1, pc := Resubmit(h))
  {
    hide Inv, Leads, Enabled, Exec, Pop;
    LeadsNowhere(own, fenced, s);
    var a := OneStep(own, fenced, s, 0, s);
    SetIdleGo(fenced, s, h);
    t := OneStep(own, fenced, s, 1, a);
    PopHeadGo(fenced, a, h);
  }

  lemma Handed(own: bool, fenced: bool, s: State, h: nat) returns (t: State)
    requires Inv(fenced, s) && s.pc == Examine(h) && (own ==> s.cb == {})
    ensures StateIs(s.xfer, h, Completed) && h < |s.list.next|
    ensures Leads(own, fenced, s, Go(4), t) && Inv(fenced, t)
    ensures t == s.(xfer := s.xfer[h := Idle], list := Pop(s.list, h), popped := s.popped + 1,
                    dispatched := s.dispatched + [h], pc := Resubmit(h))
  {
    hide Inv, Leads, Pop;
    var a := HandedOver(own, fenced, s, h);
    t := TakenOff(own, fenced, a, h);
    Then(own, fenced, s, Go(2), a, Go(2), t);
    GoJoins(2, 2);
  }

  lemma ResubmitGo(fenced: bool, s: State, h: nat)
    requires Inv(fenced, s) && Enabled(s, GO) && s.pc == Resubmit(h)
    ensures h < |s.xfer| && Exec(fenced, s, GO) == s.(xfer := s.xfer[h := Busy], pc := SubmitCall(h, FromLoop))
  {
    hide InBounds, ListInv, StateInv, OrderInv;
  }

  lemma SubmitCallGo(fenced: bool, s: State, h: nat, origin: Origin)
    requires Enabled(s, GO) && s.pc == SubmitCall(h, origin)
    ensures Exec(fenced, s, GO) ==
              s.(inflight := s.inflight + {h}, submitted := s.submitted + [h], pc := Appending(h, origin))
  {
    hide InBounds;
  }

  lemma AppendingGo(fenced: bool, s: State, h: nat)
    requires Enabled(s, GO) && s.pc == Appending(h, FromLoop)
    ensures WellFormed(s) && Exec(fenced, s, GO) == s.(list := Append(s.list, h), pc := LoopTop)
  {
    hide InBounds, Append;
  }

  lemma Resubmitted(own: bool, fenced: bool, s: State, h: nat) returns (t: State)
    requires Inv(fenced, s) && s.pc == Resubmit(h) && (own ==> s.cb == {})
    ensures Leads(own, fenced, s, Go(3), t) && Inv(fenced, t) && t.pc == LoopTop
    ensures h < |s.xfer| && t.xfer == s.xfer[h := Busy] && t.cb == s.cb && t.inflight == s.inflight + {h}
    ensures t.submitted == s.submitted + [h] && t.popped == s.popped && t.dispatched == s.dispatched
    ensures t.draining == s.draining
  {
    hide Inv, Leads, Enabled, Exec, WellFormed, Append;
    LeadsNowhere(own, fenced, s);
    var a := OneStep(own, fenced, s, 0, s);
    ResubmitGo(fenced, s, h);
    var b := OneStep(own, fenced, s, 1, a);
    SubmitCallGo(fenced, a, h, FromLoop);
    t := OneStep(own, fenced, s, 2, b);
    AppendingGo(fenced, b, h);
  }

  lemma GoJoins(j: nat, k: nat)
    ensures Go(j) + Go(k) == Go(j + k)
    decreases k
  {
    if k > 0 {
      GoJoins(j, k - 1);
      assert Go(j) + Go(k) == (Go(j) + Go(k - 1)) + [GO];
    }
  }

  lemma HeadIsFirst(fenced: bool, s: State, h: nat)
    requires Inv(fenced, s) && s.pc == LoopTop && s.list.head == Some(h)
    ensures s.popped < |s.submitted| && Active(s) == s.submitted[s.popped..] && Active(s)[0] == h
  {
    hide NoDup, NonIdleExactly, BusyExactly;
  }

  /** Ten statements after the thread finds its head completed, the head has been handed to
      user code and submitted again: it is in flight and last on the active list. */
  lemma Delivers(own: bool, fenced: bool, s: State, h: nat) returns (t: State)
    requires HeadCompleted(own, fenced, s, h)
    ensures Leads(own, fenced, s, Go(10), t) && Inv(fenced, t) && t.pc == LoopTop && !t.draining && t.cb == s.cb
    ensures t.dispatched == s.dispatched + [h] && t.submitted == s.submitted + [h]
    ensures s.popped <= |s.submitted| && t.popped <= |t.submitted|
    ensures Active(s) != [] && Active(s)[0] == h && Active(t) == Active(s)[1..] + [h]
    ensures h in t.inflight && StateIs(t.xfer, h, Busy) && |t.xfer| == |s.xfer|
    ensures forall i :: 0 <= i < |s.xfer| && i != h ==> t.xfer[i] == s.xfer[i]
    ensures t.inflight == s.inflight + {h}
  {
    hide Inv, Leads, Pop, InBounds;
    HeadIsFirst(fenced, s, h);
    var a := FoundHead(own, fenced, s, h);
    var b := Handed(own, fenced, a, h);
    t := Resubmitted(own, fenced, b, h);
    Then(own, fenced, s, Go(3), a, Go(4), b);
    GoJoins(3, 4);
    Then(own, fenced, s, Go(7), b, Go(3), t);
    GoJoins(7, 3);
    assert t.submitted[t.popped..] == s.submitted[s.popped..][1..] + [h];
  }

  // ---------- starting ----------

  // After i transfers of n have been submitted.
  ghost predicate Submitted(fenced: bool, s: State, n: nat, i: nat) {
    && Inv(fenced, s) && s.pc == SubmitScan(i) && i <= n == |s.xfer|
    && s.cb == {} && !s.draining && !s.stop && s.dispatched == [] && s.popped == 0 && |s.submitted| == i
    && (forall k :: 0 <= k < i ==> s.submitted[k] == k && s.xfer[k] == Busy && k in s.inflight)
    && (forall k :: i <= k < n ==> s.xfer[k] == Idle)
  }

  lemma SubmitsOne(own: bool, fenced: bool, s: State, n: nat, i: nat) returns (t: State)
    requires Submitted(fenced, s, n, i) && i < n
    ensures Leads(own, fenced, s, Go(3), t) && Submitted(fenced, t, n, i + 1)
  {
    hide Inv, Leads, InBounds, Append;
    LeadsNowhere(own, fenced, s);
    var a := OneStep(own, fenced, s, 0, s);
    var b := OneStep(own, fenced, s, 1, a);
    t := OneStep(own, fenced, s, 2, b);
  }

  lemma {:induction false} SubmitsSome(n: nat, own: bool, fenced: bool, i: nat) returns (t: State)
    requires n >= 1 && i <= n
    ensures Leads(own, fenced, Init(n), Go(3 * i), t) && Submitted(fenced, t, n, i)
  {
    hide Inv, Leads;
    if i == 0 {
      InitInv(fenced, n);
      LeadsNowhere(own, fenced, Init(n));
      t := Init(n);
    } else {
      var s := SubmitsSome(n, own, fenced, i - 1);
      hide Submitted;
      t := SubmitsOne(own, fenced, s, n, i - 1);
      Then(own, fenced, Init(n), Go(3 * (i - 1)), s, Go(3), t);
      GoJoins(3 * (i - 1), 3);
    }
  }

  /** Started with n transfers, the thread submits all of them, in order, and then streams. */
  lemma Starts(n: nat, own: bool, fenced: bool) returns (t: State)
    requires n >= 1
    ensures Leads(own, fenced, Init(n), Go(3 * n + 1), t) && Inv(fenced, t)
    ensures t.pc == LoopTop && t.streaming && !t.draining && !t.stop && t.cb == {} && t.dispatched == []
    ensures |t.submitted| == n && |t.xfer| == n && t.popped == 0
    ensures forall k :: 0 <= k < n ==> t.submitted[k] == k && t.xfer[k] == Busy && k in t.inflight
  {
    var s := SubmitsSome(n, own, fenced, n);
    hide Inv, Leads, WellFormed;
    t := OneStep(own, fenced, Init(n), 3 * n, s);
  }

  // ---------- waiting for the head ----------

  ghost predicate HeadBusy(own: bool, fenced: bool, s: State, h: nat) {
    && Inv(fenced, s) && s.pc == LoopTop && !s.draining && !s.stop && s.cb == {}
    && s.list.head == Some(h) && StateIs(s.xfer, h, Busy) && h in s.inflight
  }

  /** With the head still busy the thread releases the mutex and waits. */
  lemma Parks(own: bool, fenced: bool, s: State, h: nat) returns (t: State)
    requires HeadBusy(own, fenced, s, h)
    ensures Leads(own, fenced, s, Go(4), t) && Inv(fenced, t) && t.pc == Waiting && !t.stop
    ensures t.xfer == s.xfer && t.list == s.list && t.cb == s.cb && t.inflight == s.inflight
    ensures t.draining == s.draining && t.streaming == s.streaming
    ensures t.submitted == s.submitted && t.popped == s.popped && t.dispatched == s.dispatched
  {
    hide Inv, Leads, WellFormed;
    LeadsNowhere(own, fenced, s);
    var a := OneStep(own, fenced, s, 0, s);
    var b := OneStep(own, fenced, s, 1, a);
    var c := OneStep(own, fenced, s, 2, b);
    t := OneStep(own, fenced, s, 3, c);
  }

  // ---------- a whole round ----------

  lemma OneEvent(own: bool, fenced: bool, s: State, e: Event)
    requires Possible(own, s, e)
    ensures Leads(own, fenced, s, [e], Exec(fenced, s, e))
  {
    hide Enabled, Exec;
    assert Run(own, fenced, Exec(fenced, s, e), []) == Some(Exec(fenced, s, e));
    assert [e][1..] == [];
  }

  lemma Happens(own: bool, fenced: bool, s: State, e: Event) returns (t: State)
    requires Inv(fenced, s) && Possible(own, s, e)
    ensures Leads(own, fenced, s, [e], t) && Inv(fenced, t) && t == Exec(fenced, s, e)
  {
    hide Inv, Leads, Enabled, Exec;
    OneEvent(own, fenced, s, e);
    StepPreserves(fenced, s, e);
    t := Exec(fenced, s, e);
  }

  lemma CanMark(own: bool, fenced: bool, s: State, h: nat)
    requires Inv(fenced, s) && s.pc == Waiting && s.cb == {} && h in s.inflight
    ensures Possible(own, s, CallbackMark(h)) && h < |s.xfer|
    ensures Exec(fenced, s, CallbackMark(h)) ==
              s.(xfer := s.xfer[h := Completed], inflight := s.inflight - {h}, cb := {h})
  {
    hide Inv, InBounds, StepThread;
    InvWellFormed(fenced, s);
    assert s.cb + {h} == {h};
  }

  lemma CanSignal(own: bool, fenced: bool, s: State, h: nat)
    requires Inv(fenced, s) && s.cb == {h}
    ensures Possible(own, s, CallbackSignal(h))
    ensures Exec(fenced, s, CallbackSignal(h)) == s.(flag := true, cb := {})
  {
    hide Inv, WellFormed, StepThread;
    InvWellFormed(fenced, s);
    assert s.cb - {h} == {};
  }

  lemma Called(own: bool, fenced: bool, s: State, h: nat) returns (t: State)
    requires Inv(fenced, s) && s.pc == Waiting && s.cb == {} && h in s.inflight
    ensures Leads(own, fenced, s, [CallbackMark(h)] + [CallbackSignal(h)], t) && Inv(fenced, t)
    ensures h < |s.xfer| && t == s.(xfer := s.xfer[h := Completed], inflight := s.inflight - {h}, flag := true)
  {
    hide Inv, Leads, Possible, Exec;
    CanMark(own, fenced, s, h);
    var a := Happens(own, fenced, s, CallbackMark(h));
    CanSignal(own, fenced, a, h);
    t := Happens(own, fenced, a, CallbackSignal(h));
    Then(own, fenced, s, [CallbackMark(h)], a, [CallbackSignal(h)], t);
  }

  lemma WaitingGo(fenced: bool, s: State)
    requires Enabled(s, GO) && s.pc == Waiting
    ensures Exec(fenced, s, GO) == s.(pc := LoopTop)
  {
    hide WellFormed;
  }

  lemma Returns(own: bool, fenced: bool, s: State) returns (t: State)
    requires Inv(fenced, s) && s.pc == Waiting && !s.stop && s.cb == {}
    ensures Leads(own, fenced, s, [GO], t) && Inv(fenced, t) && t == s.(pc := LoopTop)
  {
    hide Inv, Leads, WellFormed, Exec;
    InvWellFormed(fenced, s);
    t := Happens(own, fenced, s, GO);
    WaitingGo(fenced, s);
  }

  // The callback for the head runs while the thread waits, and the thread comes back.
  lemma Woken(own: bool, fenced: bool, s: State, h: nat) returns (t: State)
    requires Inv(fenced, s) && s.pc == Waiting && !s.stop && !s.draining && s.cb == {}
    requires s.list.head == Some(h) && StateIs(s.xfer, h, Busy) && h in s.inflight
    ensures Leads(own, fenced, s, [CallbackMark(h)] + [CallbackSignal(h)] + [GO], t)
    ensures HeadCompleted(own, fenced, t, h)
    ensures t.xfer == s.xfer[h := Completed] && t.list == s.list && t.cb == {} && t.inflight == s.inflight - {h}
    ensures t.streaming == s.streaming && !t.stop
    ensures t.submitted == s.submitted && t.popped == s.popped && t.dispatched == s.dispatched
  {
    hide Inv, Leads;
    var a := Called(own, fenced, s, h);
    t := Returns(own, fenced, a);
    Then(own, fenced, s, [CallbackMark(h)] + [CallbackSignal(h)], a, [GO], t);
  }

  // All transfers in flight, between rounds.
  ghost predicate Flowing(fenced: bool, s: State) {
    && Inv(fenced, s) && s.pc == LoopTop && !s.draining && !s.stop && s.cb == {}
    && forall i :: 0 <= i < |s.xfer| ==> s.xfer[i] == Busy && i in s.inflight
  }

  lemma HeadExists(fenced: bool, s: State) returns (h: nat)
    requires Inv(fenced, s) && s.pc == LoopTop
    ensures s.list.head == Some(h) && h < |s.xfer|
  {
    hide NoDup, NonIdleExactly, BusyExactly;
    h := Active(s)[0];
  }

  lemma StopUntouched(fenced: bool, s: State)
    requires Inv(fenced, s) && s.pc == LoopTop
    ensures !s.stop
  {
    hide ListInv, StateInv, OrderInv;
  }

  /** A round: the thread waits, the oldest transfer completes, and it is delivered and in
      flight again. */
  lemma Round(own: bool, fenced: bool, s: State) returns (events: seq<Event>, t: State)
    requires Flowing(fenced, s)
    ensures Leads(own, fenced, s, events, t) && Flowing(fenced, t)
    ensures |t.dispatched| == |s.dispatched| + 1 && |t.xfer| == |s.xfer|
  {
    hide Inv, Leads;
    var h := HeadExists(fenced, s);
    var a := Parks(own, fenced, s, h);
    var b := Woken(own, fenced, a, h);
    t := Delivers(own, fenced, b, h);
    StopUntouched(fenced, t);
    var wake := [CallbackMark(h)] + [CallbackSignal(h)] + [GO];
    Then(own, fenced, s, Go(4), a, wake, b);
    Then(own, fenced, s, Go(4) + wake, b, Go(10), t);
    events := Go(4) + wake + Go(10);
  }

  /** However many transfers there are, and with or without ordering or own events, some run
      delivers any number of them. */
  lemma {:induction false} DeliversAny(n: nat, own: bool, fenced: bool, k: nat) returns (events: seq<Event>, t: State)
    requires n >= 1
    ensures Leads(own, fenced, Init(n), events, t) && Flowing(fenced, t) && |t.dispatched| == k
  {
    hide Inv, Leads;
    if k == 0 {
      t := Starts(n, own, fenced);
      events := Go(3 * n + 1);
    } else {
      var before, s := DeliversAny(n, own, fenced, k - 1);
      var round;
      round, t := Round(own, fenced, s);
      Then(own, fenced, Init(n), before, s, round, t);
      events := before + round;
    }
  }

  // ---------- stopping ----------

  lemma MayAsk(fenced: bool, s: State)
    requires WellFormed(s) && s.pc == Waiting && s.streaming && !s.stop
    ensures Enabled(s, StopRequest) && Exec(fenced, s, StopRequest) == s.(draining := true, stop := true)
  {
    hide WellFormed, StepThread;
  }

  lemma CanAsk(own: bool, fenced: bool, s: State)
    requires Inv(fenced, s) && s.pc == Waiting && s.streaming && !s.stop
    ensures Possible(own, s, StopRequest)
    ensures Exec(fenced, s, StopRequest) == s.(draining := true, stop := true)
  {
    hide Inv, WellFormed, Enabled, Exec;
    InvWellFormed(fenced, s);
    MayAsk(fenced, s);
  }

  lemma CanFinishAsking(own: bool, fenced: bool, s: State)
    requires Inv(fenced, s) && s.stop
    ensures Possible(own, s, StopSignal)
    ensures Exec(fenced, s, StopSignal) == s.(flag := true, stop := false)
  {
    hide Inv, WellFormed, StepThread;
    InvWellFormed(fenced, s);
  }

  lemma StopAsked(own: bool, fenced: bool, s: State) returns (t: State)
    requires Inv(fenced, s) && s.pc == Waiting && s.streaming && !s.stop
    ensures Leads(own, fenced, s, [StopRequest] + [StopSignal], t) && Inv(fenced, t)
    ensures t == s.(draining := true, flag := true)
  {
    hide Inv, Leads, Possible, Exec;
    CanAsk(own, fenced, s);
    var a := Happens(own, fenced, s, StopRequest);
    CanFinishAsking(own, fenced, a);
    t := Happens(own, fenced, a, StopSignal);
    Then(own, fenced, s, [StopRequest], a, [StopSignal], t);
  }

  lemma LoopTopGo(fenced: bool, s: State)
    requires Enabled(s, GO) && s.pc == LoopTop
    ensures var t := Exec(fenced, s, GO);
            t.pc == CheckDraining && t.draining == s.draining && t.cb == s.cb && t.xfer == s.xfer && t.list == s.list &&
            t.inflight == s.inflight && t.submitted == s.submitted && t.popped == s.popped && t.dispatched == s.dispatched
  {
    hide WellFormed;
  }

  lemma CheckDrainingGo(fenced: bool, s: State)
    requires Enabled(s, GO) && s.pc == CheckDraining && s.draining
    ensures Exec(fenced, s, GO) == s.(pc := DrainBegin)
  {
    hide WellFormed;
  }

  lemma StopSeen(own: bool, fenced: bool, s: State) returns (t: State)
    requires Inv(fenced, s) && s.pc == LoopTop && s.draining && (own ==> s.cb == {})
    ensures Leads(own, fenced, s, Go(2), t) && Inv(fenced, t)
    ensures t.pc == DrainBegin && t.dispatched == s.dispatched && t.submitted == s.submitted
  {
    hide Inv, Leads, Enabled, Exec;
    LeadsNowhere(own, fenced, s);
    var a := OneStep(own, fenced, s, 0, s);
    LoopTopGo(fenced, s);
    t := OneStep(own, fenced, s, 1, a);
    CheckDrainingGo(fenced, a);
  }

  /** A stop request made while the thread waits brings it to draining three statements
      later. */
  lemma StopIsObeyed(own: bool, fenced: bool, s: State) returns (t: State)
    requires Inv(fenced, s) && s.pc == Waiting && s.streaming && !s.stop && s.cb == {}
    ensures Leads(own, fenced, s, [StopRequest] + [StopSignal] + [GO] + Go(2), t)
    ensures t.pc == DrainBegin && t.dispatched == s.dispatched && t.submitted == s.submitted && Inv(fenced, t)
  {
    hide Inv, Leads;
    var a := StopAsked(own, fenced, s);
    var b := Returns(own, fenced, a);
    t := StopSeen(own, fenced, b);
    Then(own, fenced, s, [StopRequest] + [StopSignal], a, [GO], b);
    Then(own, fenced, s, [StopRequest] + [StopSignal] + [GO], b, Go(2), t);
  }

  lemma StoppingDispatch(own: bool, fenced: bool, s: State, h: nat)
    requires WellFormed(s) && s.pc == Dispatch(h) && (own ==> s.cb == {})
    ensures Possible(own, s, Step(true, true))
    ensures var t := Exec(fenced, s, Step(true, true));
            t.pc == SetIdle(h) && t.draining && t.cb == s.cb && t.submitted == s.submitted && t.dispatched == s.dispatched + [h]
  {
    hide InBounds;
  }

  /** When user code asks to stop from within its callback, the transfer it was given is
      still submitted again, and then the thread drains. */
  lemma StopInCallbackIsObeyed(own: bool, fenced: bool, s: State, h: nat) returns (t: State)
    requires Inv(fenced, s) && s.pc == Dispatch(h) && (own ==> s.cb == {})
    ensures Leads(own, fenced, s, [Step(true, true)] + Go(2) + Go(3) + Go(2), t)
    ensures t.pc == DrainBegin && t.dispatched == s.dispatched + [h] && t.submitted == s.submitted + [h] && Inv(fenced, t)
  {
    hide Inv, Leads, WellFormed, Exec, Possible, Pop;
    InvWellFormed(fenced, s);
    StoppingDispatch(own, fenced, s, h);
    var a := Happens(own, fenced, s, Step(true, true));
    var b := TakenOff(own, fenced, a, h);
    var c := Resubmitted(own, fenced, b, h);
    t := StopSeen(own, fenced, c);
    Then(own, fenced, s, [Step(true, true)], a, Go(2), b);
    Then(own, fenced, s, [Step(true, true)] + Go(2), b, Go(3), c);
    Then(own, fenced, s, [Step(true, true)] + Go(2) + Go(3), c, Go(2), t);
  }

  /** When the outside world refuses a submission, a wait fails, a transfer has failed or its
      contents are rejected, the thread turns to draining and has delivered and submitted
      nothing more. */
  lemma FailureDrains(fenced: bool, s: State, stop: bool)
    requires Enabled(s, Step(false, stop))
    requires s.pc.SubmitCall? || s.pc.Waiting? || s.pc.Dispatch? || (s.pc.Examine? && StateIs(s.xfer, s.pc.t, Completed))
    ensures var t := Exec(fenced, s, Step(false, stop));
            t.pc == DrainBegin && t.dispatched == s.dispatched && t.submitted == s.submitted && t.inflight == s.inflight
    ensures s.pc.SubmitCall? ==> StateIs(Exec(fenced, s, Step(false, stop)).xfer, s.pc.t, Idle)
  {
    hide InBounds;
  }

  /** When a wait fails while draining, the thread gives up and frees nothing. */
  lemma DrainGivesUp(fenced: bool, s: State, stop: bool)
    requires Enabled(s, Step(false, stop)) && s.pc.DrainWait?
    ensures Exec(fenced, s, Step(false, stop)) == s.(draining := false, streaming := false, pc := DrainFailed)
  {
    hide WellFormed;
  }

  // On the way out: draining has begun, or will before the next delivery.
  predicate Stopping(s: State) {
    || s.pc.DrainBegin? || s.pc.DrainClear? || s.pc.DrainScan? || s.pc.DrainUnlock? || s.pc.DrainWait?
    || s.pc.Releasing? || s.pc.Freed? || s.pc.DrainFailed?
    || (s.draining && (s.pc.Waiting? || s.pc.LoopTop? || s.pc.CheckDraining?))
  }

  ghost predicate SameLogs(s: State, t: State) {
    t.dispatched == s.dispatched && t.submitted == s.submitted
  }

  lemma StoppingOutside(fenced: bool, s: State, e: Event)
    requires Stopping(s) && Enabled(s, e) && !e.Step?
    ensures Stopping(Exec(fenced, s, e)) && SameLogs(s, Exec(fenced, s, e))
  {
    hide InBounds;
  }

  lemma StoppingInLoop(fenced: bool, s: State, ok: bool, stop: bool)
    requires Stopping(s) && Enabled(s, Step(ok, stop)) && (s.pc.Waiting? || s.pc.LoopTop? || s.pc.CheckDraining?)
    ensures Stopping(StepThread(fenced, s, ok, stop)) && SameLogs(s, StepThread(fenced, s, ok, stop))
  {
    hide WellFormed;
  }

  lemma StoppingRelease(fenced: bool, s: State, ok: bool, stop: bool)
    requires Enabled(s, Step(ok, stop)) && s.pc.Releasing?
    ensures Stopping(StepThread(fenced, s, ok, stop)) && SameLogs(s, StepThread(fenced, s, ok, stop))
  {
    hide InBounds, ActiveList.Release;
  }

  lemma StoppingDrain(fenced: bool, s: State, ok: bool, stop: bool)
    requires Enabled(s, Step(ok, stop))
    requires s.pc.DrainBegin? || s.pc.DrainClear? || s.pc.DrainScan? || s.pc.DrainUnlock? || s.pc.DrainWait?
    ensures Stopping(StepThread(fenced, s, ok, stop)) && SameLogs(s, StepThread(fenced, s, ok, stop))
  {
    hide WellFormed;
  }

  lemma StoppingStep(fenced: bool, s: State, e: Event)
    requires Stopping(s) && Enabled(s, e)
    ensures Stopping(Exec(fenced, s, e)) && SameLogs(s, Exec(fenced, s, e))
  {
    hide StepThread, WellFormed, SameLogs;
    if !e.Step? {
      StoppingOutside(fenced, s, e);
    } else if s.pc.Waiting? || s.pc.LoopTop? || s.pc.CheckDraining? {
      StoppingInLoop(fenced, s, e.ok, e.stopInCallback);
    } else if s.pc.Releasing? {
      StoppingRelease(fenced, s, e.ok, e.stopInCallback);
    } else {
      StoppingDrain(fenced, s, e.ok, e.stopInCallback);
    }
  }

  /** From then on nothing is delivered or submitted any more, whatever happens. */
  lemma {:induction false} StoppingIsFinal(own: bool, fenced: bool, s: State, events: seq<Event>)
    requires Stopping(s) && Run(own, fenced, s, events).Some?
    ensures var t := Run(own, fenced, s, events).value;
            Stopping(t) && t.dispatched == s.dispatched && t.submitted == s.submitted
    decreases events
  {
    hide Stopping, Enabled, Exec;
    if events != [] {
      StoppingStep(fenced, s, events[0]);
      StoppingIsFinal(own, fenced, Exec(fenced, s, events[0]), events[1..]);
    }
  }

  // ---------- draining ends ----------

  ghost predicate NothingBusy(s: State) { NoneBusy(s.xfer, |s.xfer|) }

  lemma {:induction false} Scans(own: bool, fenced: bool, s: State, i: nat) returns (t: State)
    requires Inv(fenced, s) && s.pc == DrainScan(0) && NothingBusy(s) && (own ==> s.cb == {}) && i <= |s.xfer|
    ensures Leads(own, fenced, s, Go(i), t) && Inv(fenced, t) && t.pc == DrainScan(i)
    ensures t.xfer == s.xfer && t.list == s.list && t.cb == s.cb && t.submitted == s.submitted && t.popped == s.popped
  {
    hide Inv, Leads, WellFormed;
    if i == 0 {
      LeadsNowhere(own, fenced, s);
      t := s;
    } else {
      var a := Scans(own, fenced, s, i - 1);
      t := OneStep(own, fenced, s, i - 1, a);
    }
  }

  lemma ReleaseShortens(fenced: bool, s: State)
    requires Inv(fenced, s) && s.pc.Releasing?
    ensures s.popped <= |s.submitted| && (s.list.head.None? <==> s.popped == |s.submitted|)
  {
    hide NonIdleExactly, BusyExactly;
  }

  lemma ReleaseGo(fenced: bool, s: State)
    requires Enabled(s, GO) && s.pc == Releasing
    ensures var t := Exec(fenced, s, GO);
            t.cb == s.cb && t.submitted == s.submitted &&
            if s.list.head.None? then t.pc == Freed else t.pc == Releasing && t.popped == s.popped + 1
  {
    hide InBounds, ActiveList.Release;
  }

  lemma ReleasingGo(fenced: bool, s: State)
    requires Inv(fenced, s) && Enabled(s, GO) && s.pc == Releasing
    ensures var t := Exec(fenced, s, GO);
            t.cb == s.cb && t.submitted == s.submitted &&
            if s.popped == |s.submitted| then t.pc == Freed else t.pc == Releasing && t.popped == s.popped + 1
  {
    hide Inv, Enabled, Exec;
    ReleaseShortens(fenced, s);
    ReleaseGo(fenced, s);
  }

  lemma {:induction false} Releases(own: bool, fenced: bool, s: State, k: nat) returns (t: State)
    requires Inv(fenced, s) && s.pc == Releasing && (own ==> s.cb == {}) && s.popped + k == |s.submitted|
    ensures Leads(own, fenced, s, Go(k + 1), t) && t.pc == Freed
    decreases k
  {
    hide Inv, Leads, Enabled, Exec;
    LeadsNowhere(own, fenced, s);
    var a := OneStep(own, fenced, s, 0, s);
    ReleasingGo(fenced, s);
    if k == 0 {
      t := a;
    } else {
      t := Releases(own, fenced, a, k - 1);
      Then(own, fenced, s, Go(1), a, Go(k), t);
      GoJoins(1, k);
    }
  }

  lemma ScanStarts(own: bool, fenced: bool, s: State) returns (t: State)
    requires Inv(fenced, s) && s.pc == DrainBegin && (own ==> s.cb == {})
    ensures Leads(own, fenced, s, Go(2), t) && Inv(fenced, t) && t.pc == DrainScan(0)
    ensures t.xfer == s.xfer && t.cb == s.cb && t.submitted == s.submitted && t.popped == s.popped
  {
    hide Inv, Leads, WellFormed;
    LeadsNowhere(own, fenced, s);
    var a := OneStep(own, fenced, s, 0, s);
    t := OneStep(own, fenced, s, 1, a);
  }

  lemma ScanIsOver(fenced: bool, s: State)
    requires Enabled(s, GO) && s.pc == DrainScan(|s.xfer|)
    ensures Exec(fenced, s, GO) == s.(pc := Releasing)
  {
    hide WellFormed;
  }

  lemma ScanEnds(own: bool, fenced: bool, s: State) returns (t: State)
    requires Inv(fenced, s) && s.pc == DrainScan(0) && NothingBusy(s) && (own ==> s.cb == {})
    ensures Leads(own, fenced, s, Go(|s.xfer| + 1), t) && Inv(fenced, t) && t.pc == Releasing
    ensures t.cb == s.cb && t.submitted == s.submitted && t.popped == s.popped
  {
    hide Inv, Leads, Enabled, Exec, NothingBusy;
    var a := Scans(own, fenced, s, |s.xfer|);
    t := OneStep(own, fenced, s, |s.xfer|, a);
    ScanIsOver(fenced, a);
  }

  lemma NotYetReleased(fenced: bool, s: State)
    requires Inv(fenced, s)
    ensures s.popped <= |s.submitted|
  {
    hide NoDup, IsList, Reaches, InBounds;
  }

  /** Once no transfer is busy, draining ends in freeing: after two statements, one for each
      transfer, one for each that is still listed, and two more. */
  lemma DrainEnds(own: bool, fenced: bool, s: State) returns (t: State)
    requires Inv(fenced, s) && s.pc == DrainBegin && NothingBusy(s) && (own ==> s.cb == {})
    ensures s.popped <= |s.submitted|
    ensures Leads(own, fenced, s, Go(2 + (|s.xfer| + 1) + (|s.submitted| - s.popped + 1)), t) && t.pc == Freed
  {
    hide Inv, Leads;
    NotYetReleased(fenced, s);
    var n, k := |s.xfer| + 1, |s.submitted| - s.popped + 1;
    var a := ScanStarts(own, fenced, s);
    var b := ScanEnds(own, fenced, a);
    t := Releases(own, fenced, b, k - 1);
    Then(own, fenced, s, Go(2), a, Go(n), b);
    GoJoins(2, n);
    Then(own, fenced, s, Go(2 + n), b, Go(k), t);
    GoJoins(2 + n, k);
  }
}
