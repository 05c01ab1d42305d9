// Soft quit, cancel, force quit and close of the desktop app (internal/desktop/background.go)
// as critical sections of one mutex, with the goroutines that wait and that call back.
module QuitMachine {
  import opened Decimal

  /**
   * A soft quit that waits: its WaitIdle runs, returned nil, or returned an error; then it has
   * left the critical section and is about to quit; or it ended, by resuming the runs, by
   * quitting, or because the app quits already.
   */
  datatype Wait = Waiting(cancelled: bool) | SawIdle | SawCancel | GoesToQuit | Resumed | Quitted | LeftToQuit

  /**
   * direct counts the soft quits on their way to quit without a wait; toQuit and toForce the
   * callbacks that are decided but not called yet; quits and forces those called; resumes how
   * often the runs were resumed. ended is the context of the Background, which Close ends.
   */
  datatype State = State(closed: bool, quitting: bool, waitCancel: Option<nat>, waits: seq<Wait>, paused: bool, ended: bool,
                         direct: nat, toQuit: nat, toForce: nat, quits: nat, forces: nat, resumes: nat)

  /** NewBackground. */
  predicate Init(s: State) {
    && !s.closed && !s.quitting && s.waitCancel.None? && s.waits == [] && !s.paused && !s.ended
    && s.direct == s.toQuit == s.toForce == s.quits == s.forces == s.resumes == 0
  }

  datatype Step =
    | SoftQuit(busy: bool)
    | WaitReturns(w: nat, idle: bool)
    | WaitEnds(w: nat)
    | DirectQuit
    | WaitQuits(w: nat)
    | CallQuit
    | CancelQuit
    | ForceQuit
    | CallForce
    | Close
    | EndContext

  predicate Enabled(s: State, step: Step) {
    match step
    case WaitReturns(w, idle) => w < |s.waits| && s.waits[w].Waiting? && (!idle ==> s.waits[w].cancelled || s.ended)
    case WaitEnds(w) => w < |s.waits| && (s.waits[w].SawIdle? || s.waits[w].SawCancel?)
    case DirectQuit => s.direct > 0
    case WaitQuits(w) => w < |s.waits| && s.waits[w].GoesToQuit?
    case CallQuit => s.toQuit > 0
    case CallForce => s.toForce > 0
    case EndContext => s.closed
    case _ => true
  }

  /** waitCancel(ErrQuitCancelled), when a soft quit waits. */
  function CancelWait(s: State): State {
    if s.waitCancel.Some? && s.waitCancel.value < |s.waits| && s.waits[s.waitCancel.value].Waiting?
    then s.(waits := s.waits[s.waitCancel.value := Waiting(true)]) else s
  }

  /** The critical section of quit. */
  function Quit(s: State): State { if s.quitting then s else s.(quitting := true, toQuit := s.toQuit + 1) }

  function Apply(s: State, step: Step): State
    requires Enabled(s, step)
  {
    match step
    case SoftQuit(busy) =>
      if s.closed || s.quitting || s.waitCancel.Some? then s
      else if !busy then s.(direct := s.direct + 1)
      else s.(waitCancel := Some(|s.waits|), waits := s.waits + [Waiting(false)], paused := true)
    case WaitReturns(w, idle) => s.(waits := s.waits[w := if idle then SawIdle else SawCancel])
    case WaitEnds(w) =>
      var s' := s.(waitCancel := None);
      if s.waits[w].SawIdle? then s'.(waits := s.waits[w := GoesToQuit])
      else if !s.quitting then s'.(waits := s.waits[w := Resumed], paused := false, resumes := s.resumes + 1)
      else s'.(waits := s.waits[w := LeftToQuit])
    case DirectQuit => Quit(s).(direct := s.direct - 1)
    case WaitQuits(w) => Quit(s).(waits := s.waits[w := Quitted])
    case CallQuit => s.(toQuit := s.toQuit - 1, quits := s.quits + 1)
    case CancelQuit => CancelWait(s)
    case ForceQuit => if s.quitting || s.closed then s else CancelWait(s.(quitting := true, toForce := s.toForce + 1))
    case CallForce => s.(toForce := s.toForce - 1, forces := s.forces + 1)
    case Close => CancelWait(s.(closed := true))
    case EndContext => s.(ended := true)
  }

  ghost predicate Runs(s: State, steps: seq<Step>, s': State)
    decreases |steps|
  {
    if steps == [] then s == s' else Enabled(s, steps[0]) && Runs(Apply(s, steps[0]), steps[1..], s')
  }

  // ---- The invariant ----

  /** The wait holds waitCancel. */
  predicate Held(w: Wait) { w.Waiting? || w.SawIdle? || w.SawCancel? }

  predicate Over(w: Wait) { w.Resumed? || w.Quitted? || w.LeftToQuit? }

  /** One callback in total, once quitting is set. */
  ghost predicate OneCallback(s: State) { s.toQuit + s.toForce + s.quits + s.forces == if s.quitting then 1 else 0 }

  /** Exactly the wait that holds waitCancel is before its critical section. */
  ghost predicate HeldInv(s: State) {
    && (forall w :: 0 <= w < |s.waits| ==> (Held(s.waits[w]) <==> s.waitCancel == Some(w)))
    && (s.waitCancel.Some? ==> s.waitCancel.value < |s.waits|)
  }

  /** A wait that ended either resumed the runs or left to a quit. */
  ghost predicate EndInv(s: State) {
    forall w :: 0 <= w < |s.waits| && (s.waits[w].Quitted? || s.waits[w].LeftToQuit?) ==> s.quitting
  }

  /** Runs stay paused only for a wait that is not over, or for good. */
  ghost predicate PauseInv(s: State) { s.paused && !s.quitting ==> exists w :: 0 <= w < |s.waits| && !Over(s.waits[w]) }

  ghost predicate Inv(s: State) { OneCallback(s) && HeldInv(s) && EndInv(s) && PauseInv(s) }

  lemma Alive(s: State, w: int)
    requires 0 <= w < |s.waits| && !Over(s.waits[w])
    ensures exists v :: 0 <= v < |s.waits| && !Over(s.waits[v])
  {
  }

  lemma CallbackKept(s: State, step: Step)
    requires OneCallback(s) && Enabled(s, step)
    ensures OneCallback(Apply(s, step))
  {
  }

  lemma HeldKept(s: State, step: Step)
    requires HeldInv(s) && Enabled(s, step)
    ensures HeldInv(Apply(s, step))
  {
  }

  lemma EndKept(s: State, step: Step)
    requires EndInv(s) && Enabled(s, step)
    ensures EndInv(Apply(s, step))
  {
  }

  lemma PausedKept(s: State, step: Step)
    requires PauseInv(s) && Enabled(s, step) && Apply(s, step).paused && !Apply(s, step).quitting
    ensures exists w :: 0 <= w < |Apply(s, step).waits| && !Over(Apply(s, step).waits[w])
  {
    var s' := Apply(s, step);
    if step.SoftQuit? && |s'.waits| > |s.waits| {
      Alive(s', |s.waits|);
    } else {
      var w :| 0 <= w < |s.waits| && !Over(s.waits[w]);
      if step.WaitEnds? { Alive(s', step.w); } else { Alive(s', w); }
    }
  }

  lemma InvStep(s: State, step: Step)
    requires Inv(s) && Enabled(s, step)
    ensures Inv(Apply(s, step))
  {
    CallbackKept(s, step);
    HeldKept(s, step);
    EndKept(s, step);
    if Apply(s, step).paused && !Apply(s, step).quitting { PausedKept(s, step); }
  }

  lemma {:induction false} RunsInv(s: State, steps: seq<Step>, s': State)
    requires Inv(s) && Runs(s, steps, s')
    ensures Inv(s')
    decreases |steps|
  {
    if steps != [] {
      InvStep(s, steps[0]);
      RunsInv(Apply(s, steps[0]), steps[1..], s');
    }
  }

  // ---- The promises ----

  /**
   * In every interleaving the quit and force-quit callbacks run at most once in total, only when
   * quitting is set, and exactly one of them runs or is about to once it is.
   */
  lemma CallbacksOnce(s0: State, steps: seq<Step>, s: State)
    requires Init(s0) && Runs(s0, steps, s)
    ensures s.quits + s.forces <= 1
    ensures s.quitting <==> s.quits + s.forces + s.toQuit + s.toForce == 1
  {
    RunsInv(s0, steps, s);
  }

  /** Once quitting is set it stays so, and the runs are never resumed again. */
  lemma {:induction false} NeverResumedAfterQuitting(s: State, steps: seq<Step>, s': State)
    requires Runs(s, steps, s') && s.quitting
    ensures s'.quitting && s'.resumes == s.resumes && (s.paused ==> s'.paused)
    decreases |steps|
  {
    if steps != [] { NeverResumedAfterQuitting(Apply(s, steps[0]), steps[1..], s'); }
  }

  /** Every wait that is over ended in a resume or in a quit, and none is over twice. */
  lemma WaitsEndInResumeOrQuit(s0: State, steps: seq<Step>, s: State, w: nat)
    requires Init(s0) && Runs(s0, steps, s) && w < |s.waits| && Over(s.waits[w])
    ensures s.waits[w].Resumed? || s.quitting
  {
    RunsInv(s0, steps, s);
  }

  lemma OverStep(s: State, step: Step, w: nat)
    requires Enabled(s, step) && w < |s.waits| && Over(s.waits[w])
    ensures w < |Apply(s, step).waits| && Apply(s, step).waits[w] == s.waits[w]
  {
  }

  lemma {:induction false} OverIsFinal(s: State, steps: seq<Step>, s': State, w: nat)
    requires Runs(s, steps, s') && w < |s.waits| && Over(s.waits[w])
    ensures w < |s'.waits| && s'.waits[w] == s.waits[w]
    decreases |steps|
  {
    if steps != [] {
      OverStep(s, steps[0], w);
      OverIsFinal(Apply(s, steps[0]), steps[1..], s', w);
    }
  }

  /** Runs are not left paused: with every wait over and the app not quitting, they are accepted again. */
  lemma NotLeftPaused(s0: State, steps: seq<Step>, s: State)
    requires Init(s0) && Runs(s0, steps, s) && !s.quitting && forall w :: 0 <= w < |s.waits| ==> Over(s.waits[w])
    ensures !s.paused && s.quits == s.forces == 0
  {
    RunsInv(s0, steps, s);
  }

  /** At most one soft quit waits at a time, and it is the one CancelQuit stops. */
  lemma OneWaits(s0: State, steps: seq<Step>, s: State, v: nat, w: nat)
    requires Init(s0) && Runs(s0, steps, s) && v < |s.waits| && w < |s.waits| && s.waits[v].Waiting? && s.waits[w].Waiting?
    ensures v == w && Apply(s, CancelQuit).waits[w] == Waiting(true)
  {
    RunsInv(s0, steps, s);
  }

  // ---- Close ----

  /** A wait that may still decide to quit: it did not see its cancellation. */
  predicate MayQuit(w: Wait) { w.Waiting? || w.SawIdle? || w.GoesToQuit? }

  ghost predicate QuitAhead(s: State) { s.direct > 0 || exists w :: 0 <= w < |s.waits| && MayQuit(s.waits[w]) }

  lemma ClosedStep(s: State, step: Step)
    requires Enabled(s, step) && s.closed && !s.quitting && !QuitAhead(s)
    ensures Apply(s, step).closed && !Apply(s, step).quitting && !QuitAhead(Apply(s, step))
  {
  }

  /** A closed Background never quits any more, unless a quit was on its way when it was closed. */
  lemma {:induction false} ClosedNeverQuits(s: State, steps: seq<Step>, s': State)
    requires Runs(s, steps, s') && s.closed && !s.quitting && !QuitAhead(s)
    ensures !s'.quitting
    decreases |steps|
  {
    if steps != [] {
      ClosedStep(s, steps[0]);
      ClosedNeverQuits(Apply(s, steps[0]), steps[1..], s');
    }
  }

  lemma GoesOnToQuit(s: State, w: nat) returns (steps: seq<Step>, s': State)
    requires w < |s.waits| && s.waits[w].GoesToQuit? && !s.quitting
    ensures Runs(s, steps, s') && s'.quitting
  {
    steps, s' := [WaitQuits(w)], Apply(s, WaitQuits(w));
    assert steps[1..] == [];
  }

  lemma SawIdleQuits(s: State, w: nat) returns (steps: seq<Step>, s': State)
    requires w < |s.waits| && s.waits[w].SawIdle? && !s.quitting
    ensures Runs(s, steps, s') && s'.quitting
  {
    var more;
    more, s' := GoesOnToQuit(Apply(s, WaitEnds(w)), w);
    steps := [WaitEnds(w)] + more;
    assert steps[1..] == more;
  }

  /** With a quit on its way, a closed Background may still quit: the close does not stop it. */
  lemma ClosedMayStillQuit(s: State) returns (steps: seq<Step>, s': State)
    requires s.closed && !s.quitting && QuitAhead(s)
    ensures Runs(s, steps, s') && s'.quitting && (s.direct > 0 ==> steps == [DirectQuit])
  {
    if s.direct > 0 {
      steps, s' := [DirectQuit], Apply(s, DirectQuit);
      assert steps[1..] == [];
      return;
    }
    var w :| 0 <= w < |s.waits| && MayQuit(s.waits[w]);
    match s.waits[w]
    case GoesToQuit => steps, s' := GoesOnToQuit(s, w);
    case SawIdle => steps, s' := SawIdleQuits(s, w);
    case Waiting(_) =>
      var more;
      more, s' := SawIdleQuits(Apply(s, WaitReturns(w, true)), w);
      steps := [WaitReturns(w, true)] + more;
      assert steps[1..] == more;
  }

  lemma Prepended(s: State, step: Step, steps: seq<Step>, s': State)
    requires Enabled(s, step) && Runs(Apply(s, step), steps, s')
    ensures Runs(s, [step] + steps, s')
  {
    assert ([step] + steps)[1..] == steps;
  }

  /** A soft quit of an idle app, and a close before it quits: a quit is ahead. */
  lemma ClosedBeforeQuit(s0: State) returns (s1: State, s2: State)
    requires Init(s0)
    ensures s1 == Apply(s0, SoftQuit(false)) && s2 == Apply(s1, Close) && s2.closed && !s2.quitting && s2.direct == 1
  {
    s1 := Apply(s0, SoftQuit(false));
    s2 := Apply(s1, Close);
  }

  /** ... and the app quits although it is closed. */
  lemma QuitsAfterClose(s0: State) returns (steps: seq<Step>, s: State)
    requires Init(s0)
    ensures Runs(s0, [SoftQuit(false)] + ([Close] + steps), s) && steps == [DirectQuit] && s.quitting
  {
    var s1, s2 := ClosedBeforeQuit(s0);
    steps, s := ClosedMayStillQuit(s2);
    Prepended(s1, Close, steps, s);
    Prepended(s0, SoftQuit(false), [Close] + steps, s);
  }

  // ---- Background ----

  /** The fields of Background that the mutex guards; the rest of the state belongs to its goroutines. */
  class Background {
    var closed: bool
    var quitting: bool
    var waitCancel: Option<nat>
    var rest: State

    ghost function View(): State
      reads this
    {
      rest.(closed := closed, quitting := quitting, waitCancel := waitCancel)
    }

    constructor ()
      ensures Init(View())
    {
      closed, quitting, waitCancel := false, false, None;
      rest := State(false, false, None, [], false, false, 0, 0, 0, 0, 0, 0);
    }

    method StopWait()
      modifies this
      ensures View() == CancelWait(old(View()))
    {
      if waitCancel.Some? && waitCancel.value < |rest.waits| && rest.waits[waitCancel.value].Waiting? {
        rest := rest.(waits := rest.waits[waitCancel.value := Waiting(true)]);
      }
    }

    method SoftQuit(busy: bool)
      modifies this
      ensures View() == Apply(old(View()), Step.SoftQuit(busy))
    {
      if closed || quitting || waitCancel.Some? { return; }
      if !busy {
        rest := rest.(direct := rest.direct + 1);
        return;
      }
      waitCancel := Some(|rest.waits|);
      rest := rest.(waits := rest.waits + [Waiting(false)], paused := true);
    }

    /** The critical section after WaitIdle returned. */
    method WaitEnds(w: nat)
      requires Enabled(View(), Step.WaitEnds(w))
      modifies this
      ensures View() == Apply(old(View()), Step.WaitEnds(w))
    {
      waitCancel := None;
      if rest.waits[w].SawIdle? {
        rest := rest.(waits := rest.waits[w := GoesToQuit]);
      } else if !quitting {
        rest := rest.(waits := rest.waits[w := Resumed], paused := false, resumes := rest.resumes + 1);
      } else {
        rest := rest.(waits := rest.waits[w := LeftToQuit]);
      }
    }

    method CancelQuit()
      modifies this
      ensures View() == Apply(old(View()), Step.CancelQuit)
    {
      StopWait();
    }

    method ForceQuit()
      modifies this
      ensures View() == Apply(old(View()), Step.ForceQuit)
    {
      if quitting || closed { return; }
      quitting := true;
      rest := rest.(toForce := rest.toForce + 1);
      StopWait();
    }

    method QuitNow()
      modifies this
      ensures View() == Quit(old(View()))
    {
      if quitting { return; }
      quitting := true;
      rest := rest.(toQuit := rest.toQuit + 1);
    }

    method Close()
      modifies this
      ensures View() == Apply(old(View()), Step.Close)
    {
      closed := true;
      StopWait();
    }
  }
}
