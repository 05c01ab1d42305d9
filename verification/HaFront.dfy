// The HTTP front of an HA member and the role loop that opens and closes Apps behind it
// (internal/app/ha_front.go, internal/app/ha.go): a slot per attached App, with its
// requests in progress, refused, aborted and drained under the slot's mutex.
module HaFront {
  import opened Decimal

  type Request = nat

  /** A slot. cancelled is its context; idles counts how often its idle channel was closed. */
  datatype Slot = Slot(app: nat, refused: bool, inflight: set<Request>, aborted: set<Request>, closed: bool, cancelled: bool, idles: nat)

  function NewSlot(app: nat): Slot { Slot(app, false, {}, {}, false, false, 0) }

  /** closeIdleLocked. */
  function CloseIdle(s: Slot): Slot {
    if s.refused && s.inflight == {} && !s.closed then s.(closed := true, idles := s.idles + 1) else s
  }

  function Acquired(s: Slot, r: Request): Slot { if s.refused then s else s.(inflight := s.inflight + {r}) }

  function Released(s: Slot, r: Request): Slot { CloseIdle(s.(inflight := s.inflight - {r})) }

  function Refused(s: Slot): Slot { CloseIdle(s.(refused := true)) }

  /** The part of abortAll under the mutex. */
  function Marked(s: Slot): Slot { s.(aborted := s.aborted + s.inflight) }

  /** frontSlot. */
  class FrontSlot {
    const app: nat
    var refused: bool
    var inflight: set<Request>
    var aborted: set<Request>
    var closed: bool
    var cancelled: bool
    ghost var idles: nat

    ghost function View(): Slot
      reads this
    {
      Slot(app, refused, inflight, aborted, closed, cancelled, idles)
    }

    constructor (app: nat)
      ensures View() == NewSlot(app)
    {
      this.app := app;
      refused, inflight, aborted, closed, cancelled, idles := false, {}, {}, false, false, 0;
    }

    method CloseIdleLocked()
      modifies this
      ensures View() == CloseIdle(old(View()))
    {
      if refused && |inflight| == 0 && !closed {
        closed := true;
        idles := idles + 1;
      }
    }

    method Acquire(r: Request) returns (ok: bool)
      modifies this
      ensures View() == Acquired(old(View()), r) && ok == !old(refused)
    {
      if refused { return false; }
      inflight := inflight + {r};
      return true;
    }

    method Release(r: Request) returns (wasAborted: bool)
      modifies this
      ensures View() == Released(old(View()), r) && wasAborted == (r in old(aborted))
    {
      inflight := inflight - {r};
      CloseIdleLocked();
      return r in aborted;
    }

    method Refuse()
      modifies this
      ensures View() == Refused(old(View()))
    {
      refused := true;
      CloseIdleLocked();
    }

    /** abortAll: every request in progress is marked before the context is cancelled. */
    method AbortAll() returns (n: nat)
      modifies this
      ensures View() == Marked(old(View())).(cancelled := true) && n == |old(inflight)|
    {
      var left := inflight;
      while left != {}
        invariant left <= inflight && inflight == old(inflight)
        invariant aborted == old(aborted) + (inflight - left)
        invariant refused == old(refused) && closed == old(closed) && cancelled == old(cancelled) && idles == old(idles)
        decreases |left|
      {
        var r :| r in left;
        aborted, left := aborted + {r}, left - {r};
      }
      n := |inflight|;
      cancelled := true;
    }
  }

  // ---- Requests, the front and the role loop ----

  /** A request: loaded the slot, runs its handler, the handler returned, released, or answered by the switching handler. */
  datatype Req = Loaded(slot: nat) | Running(slot: nat) | Returned(slot: nat) | Done(slot: nat, aborted: bool) | Switching

  /** Where the role loop is with its App. */
  datatype Phase =
    | NoApp
    | Opened(app: nat)
    | Serving(app: nat, slot: nat)
    | Taken(app: nat, slot: nat)
    | Detached(app: nat, slot: nat)
    | Aborting(app: nat, slot: nat)
    | Aborted(app: nat, slot: nat)
    | Settled(app: nat, slot: nat)
    | Exited

  datatype State = State(slots: seq<Slot>, cur: Option<nat>, reqs: seq<Req>, phase: Phase, open: set<nat>, started: nat)

  const START := State([], None, [], NoApp, {}, 0)

  datatype Step =
    | Arrive
    | Acquire(r: Request)
    | Return(r: Request)
    | Release(r: Request)
    | OpenApp
    | Attach
    | Take
    | Refuse
    | MarkAborted
    | CancelContext
    | SeeIdle
    | CloseApp
    | Exit

  predicate InSlot(p: Phase) { p.Serving? || p.Taken? || p.Detached? || p.Aborting? || p.Aborted? || p.Settled? }

  predicate Enabled(s: State, step: Step) {
    match step
    case Arrive => true
    case Acquire(r) => r < |s.reqs| && s.reqs[r].Loaded? && s.reqs[r].slot < |s.slots|
    case Return(r) => r < |s.reqs| && s.reqs[r].Running?
    case Release(r) => r < |s.reqs| && s.reqs[r].Returned? && s.reqs[r].slot < |s.slots|
    case OpenApp => s.phase.NoApp?
    case Attach => s.phase.Opened?
    case Take => s.phase.Serving?
    case Refuse => s.phase.Taken? && s.phase.slot < |s.slots|
    // cut, or settle when its drain is over, and settle once more after cut
    case MarkAborted => (s.phase.Detached? || s.phase.Aborted?) && s.phase.slot < |s.slots|
    case CancelContext => s.phase.Aborting? && s.phase.slot < |s.slots|
    case SeeIdle => (s.phase.Detached? || s.phase.Aborted?) && s.phase.slot < |s.slots| && s.slots[s.phase.slot].closed
    // a settled App, or one that was never attached
    case CloseApp => s.phase.Settled? || s.phase.Opened?
    // the requests did not end in time, the runs were abandoned, or nothing is open
    case Exit => s.phase.Aborted? || s.phase.Settled? || s.phase.NoApp?
  }

  function WithSlot(s: State, k: nat, slot: Slot): State
    requires k < |s.slots|
  {
    s.(slots := s.slots[k := slot])
  }

  function Apply(s: State, step: Step): State
    requires Enabled(s, step)
  {
    match step
    case Arrive => s.(reqs := s.reqs + [if s.cur.Some? then Loaded(s.cur.value) else Switching])
    case Acquire(r) =>
      var k := s.reqs[r].slot;
      WithSlot(s, k, Acquired(s.slots[k], r)).(reqs := s.reqs[r := if s.slots[k].refused then Switching else Running(k)])
    case Return(r) => s.(reqs := s.reqs[r := Returned(s.reqs[r].slot)])
    case Release(r) =>
      var k := s.reqs[r].slot;
      WithSlot(s, k, Released(s.slots[k], r)).(reqs := s.reqs[r := Done(k, r in s.slots[k].aborted)])
    case OpenApp => s.(phase := Opened(s.started), open := s.open + {s.started}, started := s.started + 1)
    case Attach => s.(slots := s.slots + [NewSlot(s.phase.app)], cur := Some(|s.slots|), phase := Serving(s.phase.app, |s.slots|))
    case Take => s.(cur := None, phase := Taken(s.phase.app, s.phase.slot))
    case Refuse => WithSlot(s, s.phase.slot, Refused(s.slots[s.phase.slot])).(phase := Detached(s.phase.app, s.phase.slot))
    case MarkAborted => WithSlot(s, s.phase.slot, Marked(s.slots[s.phase.slot])).(phase := Aborting(s.phase.app, s.phase.slot))
    case CancelContext => WithSlot(s, s.phase.slot, s.slots[s.phase.slot].(cancelled := true)).(phase := Aborted(s.phase.app, s.phase.slot))
    case SeeIdle => WithSlot(s, s.phase.slot, s.slots[s.phase.slot].(cancelled := true)).(phase := Settled(s.phase.app, s.phase.slot))
    case CloseApp => s.(open := s.open - {s.phase.app}, phase := NoApp)
    case Exit => s.(phase := Exited)
  }

  ghost predicate Runs(s: State, steps: seq<Step>, s': State)
    decreases |steps|
  {
    if steps == [] then s == s' else Enabled(s, steps[0]) && Runs(Apply(s, steps[0]), steps[1..], s')
  }

  // ---- The invariant ----

  ghost predicate SlotInv(slot: Slot) {
    && (slot.closed <==> slot.refused && slot.inflight == {})
    && slot.idles == (if slot.closed then 1 else 0)
    && (slot.cancelled ==> slot.refused && slot.inflight <= slot.aborted)
  }

  /** The slots a request of which may run: the one of the phase; all others are drained. */
  ghost predicate SlotsInv(s: State) {
    && (forall k :: 0 <= k < |s.slots| ==> SlotInv(s.slots[k]))
    && (forall k :: 0 <= k < |s.slots| && s.slots[k].app !in s.open ==> s.slots[k].closed)
    && forall k :: 0 <= k < |s.slots| ==> s.slots[k].app < s.started
  }

  ghost predicate PhaseInv(s: State) {
    && (s.cur.Some? <==> s.phase.Serving?)
    && (s.phase.NoApp? ==> s.open == {})
    && (s.phase.Exited? ==> |s.open| <= 1)
    && (s.phase.Opened? ==> s.open == {s.phase.app} && s.phase.app < s.started && forall k :: 0 <= k < |s.slots| ==> s.slots[k].app != s.phase.app)
    && (InSlot(s.phase) ==>
          && s.open == {s.phase.app} && s.phase.slot < |s.slots| && s.slots[s.phase.slot].app == s.phase.app
          && (forall k :: 0 <= k < |s.slots| && k != s.phase.slot ==> s.slots[k].app != s.phase.app)
          && var slot := s.slots[s.phase.slot];
             && (s.phase.Serving? ==> s.cur == Some(s.phase.slot) && !slot.refused && slot.aborted == {})
             && (!s.phase.Serving? && !s.phase.Taken? ==> slot.refused)
             && (s.phase.Aborting? ==> slot.inflight <= slot.aborted)
             && (s.phase.Settled? ==> slot.closed))
  }

  ghost predicate ReqInv(s: State, r: Request)
    requires r < |s.reqs|
  {
    && (s.reqs[r].Switching? || s.reqs[r].slot < |s.slots|)
    && forall k :: 0 <= k < |s.slots| ==> (r in s.slots[k].inflight <==> s.reqs[r] == Running(k) || s.reqs[r] == Returned(k))
  }

  ghost predicate ReqsInv(s: State) {
    && (forall r :: 0 <= r < |s.reqs| ==> ReqInv(s, r))
    && forall k, r: Request :: 0 <= k < |s.slots| && r in s.slots[k].inflight ==> r < |s.reqs|
  }

  ghost predicate Inv(s: State) { SlotsInv(s) && PhaseInv(s) && ReqsInv(s) }

  predicate OfRequest(step: Step) { step.Arrive? || step.Acquire? || step.Return? || step.Release? }

  predicate OfSlot(step: Step) { step.Refuse? || step.MarkAborted? || step.CancelContext? || step.SeeIdle? }

  lemma RequestKeepsSlots(s: State, step: Step)
    requires Inv(s) && Enabled(s, step) && OfRequest(step)
    ensures SlotsInv(Apply(s, step))
  {
  }

  lemma RequestKeepsPhase(s: State, step: Step)
    requires Inv(s) && Enabled(s, step) && OfRequest(step)
    ensures PhaseInv(Apply(s, step))
  {
  }

  lemma RequestKeepsReqs(s: State, step: Step)
    requires Inv(s) && Enabled(s, step) && OfRequest(step)
    ensures ReqsInv(Apply(s, step))
  {
    var s' := Apply(s, step);
    forall r | 0 <= r < |s'.reqs|
      ensures ReqInv(s', r)
    {
      if r < |s.reqs| { assert ReqInv(s, r); }
    }
  }

  lemma SlotStepKeeps(s: State, step: Step)
    requires Inv(s) && Enabled(s, step) && OfSlot(step)
    ensures SlotsInv(Apply(s, step)) && PhaseInv(Apply(s, step))
  {
    assert SlotInv(s.slots[s.phase.slot]);
  }

  lemma AppStepKeeps(s: State, step: Step)
    requires Inv(s) && Enabled(s, step) && (step.OpenApp? || step.Take? || step.CloseApp? || step.Exit?)
    ensures SlotsInv(Apply(s, step)) && PhaseInv(Apply(s, step))
  {
  }

  lemma AttachKeeps(s: State)
    requires Inv(s) && Enabled(s, Attach)
    ensures SlotsInv(Apply(s, Attach)) && PhaseInv(Apply(s, Attach))
  {
  }

  lemma LoopKeepsReqs(s: State, step: Step)
    requires Inv(s) && Enabled(s, step) && !OfRequest(step)
    ensures ReqsInv(Apply(s, step))
  {
    var s' := Apply(s, step);
    assert forall k :: 0 <= k < |s.slots| ==> s'.slots[k].inflight == s.slots[k].inflight;
    assert forall k :: |s.slots| <= k < |s'.slots| ==> s'.slots[k].inflight == {};
    forall r | 0 <= r < |s'.reqs|
      ensures ReqInv(s', r)
    {
      assert ReqInv(s, r);
    }
  }

  lemma InvStep(s: State, step: Step)
    requires Inv(s) && Enabled(s, step)
    ensures Inv(Apply(s, step))
  {
    if OfRequest(step) {
      RequestKeepsSlots(s, step);
      RequestKeepsPhase(s, step);
      RequestKeepsReqs(s, step);
    } else {
      LoopKeepsReqs(s, step);
      if OfSlot(step) {
        SlotStepKeeps(s, step);
      } else if step.Attach? {
        AttachKeeps(s);
      } else {
        AppStepKeeps(s, step);
      }
    }
  }

  lemma {:induction false} RunsInv(s: State, steps: seq<Step>, s': State)
    requires Inv(s) && Runs(s, steps, s')
    ensures Inv(s')
    decreases |steps|
  {
    if steps != [] {
      InvStep(s, steps[0]);
      RunsInv(Apply(s, steps[0]), steps[1..], s');
    }
  }

  // ---- Drain safety ----

  /** A slot keeps its App, and once idle it is idle for good: it refuses, and nothing is in flight again. */
  lemma IdleStep(s: State, step: Step, k: nat)
    requires Inv(s) && Enabled(s, step) && k < |s.slots|
    ensures k < |Apply(s, step).slots| && Apply(s, step).slots[k].app == s.slots[k].app
    ensures s.slots[k].closed ==> Apply(s, step).slots[k].closed
  {
  }

  /** In every run the idle channel of a slot is closed once, when it refuses with nothing in flight, and stays so. */
  lemma {:induction false} IdleForGood(s: State, steps: seq<Step>, s': State, k: nat)
    requires Inv(s) && Runs(s, steps, s') && k < |s.slots|
    ensures Inv(s') && k < |s'.slots| && s'.slots[k].app == s.slots[k].app
    ensures s'.slots[k].idles <= 1 && (s'.slots[k].idles == 1 <==> s'.slots[k].refused && s'.slots[k].inflight == {})
    ensures s.slots[k].closed ==> s'.slots[k].closed
    decreases |steps|
  {
    if steps == [] {
      assert SlotInv(s.slots[k]);
    } else {
      InvStep(s, steps[0]);
      IdleStep(s, steps[0], k);
      IdleForGood(Apply(s, steps[0]), steps[1..], s', k);
    }
  }

  /** A handler of the App is running, or has returned and not been released. */
  ghost predicate HandlerOf(s: State, r: Request, app: nat) {
    && r < |s.reqs| && (s.reqs[r].Running? || s.reqs[r].Returned?)
    && s.reqs[r].slot < |s.slots| && s.slots[s.reqs[r].slot].app == app
  }

  lemma QuietWhenClosed(s: State, app: nat, r: Request)
    requires Inv(s) && app !in s.open
    ensures !HandlerOf(s, r, app)
  {
    if r < |s.reqs| && !s.reqs[r].Switching? {
      assert ReqInv(s, r) && SlotInv(s.slots[s.reqs[r].slot]);
    }
  }

  lemma {:induction false} StaysClosed(s: State, steps: seq<Step>, s': State, app: nat)
    requires Inv(s) && Runs(s, steps, s') && app < s.started && app !in s.open
    ensures Inv(s') && app !in s'.open
    decreases |steps|
  {
    if steps != [] {
      InvStep(s, steps[0]);
      StaysClosed(Apply(s, steps[0]), steps[1..], s', app);
    }
  }

  /**
   * In every run of the role loop an App is closed only when none of its handlers runs, and
   * none ever will: neither at the close nor in any state after it.
   */
  lemma ClosedUnderNoHandler(before: seq<Step>, s: State, after: seq<Step>, s': State, r: Request)
    requires Runs(START, before, s) && Enabled(s, CloseApp) && Runs(Apply(s, CloseApp), after, s')
    ensures !HandlerOf(s, r, s.phase.app) && !HandlerOf(s', r, s.phase.app)
  {
    RunsInv(START, before, s);
    InvStep(s, CloseApp);
    QuietWhenClosed(Apply(s, CloseApp), s.phase.app, r);
    assert Apply(s, CloseApp).reqs == s.reqs && Apply(s, CloseApp).slots == s.slots;
    StaysClosed(Apply(s, CloseApp), after, s', s.phase.app);
    QuietWhenClosed(s', s.phase.app, r);
  }

  /** At most one App is open at a time, requests go to an open one only, and an App is attached when no other is. */
  lemma OneAppOpen(steps: seq<Step>, s: State)
    requires Runs(START, steps, s)
    ensures |s.open| <= 1
    ensures s.cur.Some? ==> s.cur.value < |s.slots| && s.slots[s.cur.value].app in s.open
    ensures Enabled(s, Attach) ==> s.cur.None?
  {
    RunsInv(START, steps, s);
    if s.phase.Opened? || InSlot(s.phase) { assert s.open == {s.phase.app}; }
  }

  // ---- Aborted requests ----

  /** The request was in flight on the slot and is marked: its answer will be cut. */
  ghost predicate Doomed(s: State, r: Request, k: nat) {
    && r < |s.reqs| && k < |s.slots|
    && (s.reqs[r] == Done(k, true) || ((s.reqs[r] == Running(k) || s.reqs[r] == Returned(k)) && r in s.slots[k].aborted))
  }

  lemma DoomedStep(s: State, step: Step, r: Request, k: nat)
    requires Inv(s) && Enabled(s, step) && Doomed(s, r, k)
    ensures Doomed(Apply(s, step), r, k)
  {
  }

  lemma {:induction false} DoomedRuns(s: State, steps: seq<Step>, s': State, r: Request, k: nat)
    requires Inv(s) && Runs(s, steps, s') && Doomed(s, r, k)
    ensures Doomed(s', r, k)
    decreases |steps|
  {
    if steps != [] {
      InvStep(s, steps[0]);
      DoomedStep(s, steps[0], r, k);
      DoomedRuns(Apply(s, steps[0]), steps[1..], s', r, k);
    }
  }

  /**
   * Each request still in flight when the context of its slot is cancelled is reported aborted:
   * whenever it ends, in whatever continuation of the run, release says so.
   */
  lemma CancelledIsAborted(before: seq<Step>, s: State, after: seq<Step>, s': State, r: Request, k: nat)
    requires Runs(START, before, s) && k < |s.slots| && s.slots[k].cancelled && r in s.slots[k].inflight
    requires Runs(s, after, s')
    ensures r < |s'.reqs| && (s'.reqs[r].Done? ==> s'.reqs[r] == Done(k, true))
  {
    RunsInv(START, before, s);
    assert SlotInv(s.slots[k]) && ReqInv(s, r);
    DoomedRuns(s, after, s', r, k);
  }

  /** A request that ended before its App was detached is never reported aborted. */
  lemma ServedIsNotAborted(steps: seq<Step>, s: State, r: Request)
    requires Runs(START, steps, s) && s.phase.Serving? && Enabled(s, Release(r)) && s.reqs[r].slot == s.phase.slot
    ensures Apply(s, Release(r)).reqs[r] == Done(s.phase.slot, false)
  {
    RunsInv(START, steps, s);
  }
}
