// The audit log's writer as a state machine: callers of Record and Flush, the gate,
// the bounded queue and the phases of Run, in every interleaving of their atomic
// steps (internal/auditlog/auditlog.go). The maintenance goroutine is one more
// caller; that Run waits for it only removes interleavings.
module AuditWriter {
  import opened AuditEvent
  import opened Coalesce
  import opened Refusals

  /** Where a call of Record or Flush is. */
  datatype Caller =
    | Recording(e: Event)
    | Submitting(todo: seq<Event>)
    | InGate(sawRunning: bool, todo: seq<Event>)
    | Writing(e: Event, todo: seq<Event>)
    | Done

  /** The entry Run has received and not written yet. */
  datatype Hand = Empty | Holding(e: Event)

  /** Where Run is; Flushing names the caller that is Run itself. */
  datatype Phase = Idle | Serving | Flushing(caller: nat) | Draining

  /**
   * The service. The last four fields are history: the entries appended and those
   * reported as write failures, the counts passed to Record, and every event handed
   * to submit.
   */
  datatype State = State(
    capacity: nat,
    running: bool,
    phase: Phase,
    queue: seq<Event>,
    hand: Hand,
    windows: Windows,
    callers: seq<Caller>,
    stored: seq<Event>,
    failed: seq<Event>,
    recorded: int,
    submitted: multiset<Event>)

  datatype Step =
    | Record(e: Event)
    | Coalesce(c: nat, keys: seq<string>, windows: Windows, flush: seq<Event>)
    | Flush(closed: set<string>, keys: seq<string>, out: seq<Event>)
    | Enter(c: nat)
    | Offer(c: nat)
    | Write(c: nat, ok: bool)
    | Start
    | Receive
    | WriteReceived(ok: bool)
    | Cancel(keys: seq<string>, out: seq<Event>)
    | Stop
    | Return

  function Init(capacity: nat): State {
    State(capacity, false, Idle, [], Empty, map[], [], [], [], 0, multiset{})
  }

  predicate GateFree(callers: seq<Caller>) { forall i :: 0 <= i < |callers| ==> !callers[i].InGate? }

  ghost predicate Enabled(s: State, step: Step) {
    match step
    case Record(e) => e.count >= 0
    case Coalesce(c, keys, windows, flush) =>
      && c < |s.callers| && s.callers[c].Recording? && s.callers[c].e.count >= 0
      && (if IsRefusal(s.callers[c].e) then Coalesced(s.windows, s.callers[c].e, keys, windows, flush)
          else windows == s.windows && flush == [])
    case Flush(closed, keys, out) => Taken(s.windows, closed, keys, out)
    case Enter(c) => c < |s.callers| && s.callers[c].Submitting?
    case Offer(c) => c < |s.callers| && s.callers[c].InGate? && s.callers[c].todo != []
    case Write(c, ok) => c < |s.callers| && s.callers[c].Writing?
    case Start => s.phase.Idle? && GateFree(s.callers)
    case Receive => (s.phase.Serving? || s.phase.Draining?) && s.hand.Empty? && s.queue != []
    case WriteReceived(ok) => s.hand.Holding?
    case Cancel(keys, out) => s.phase.Serving? && s.hand.Empty? && Taken(s.windows, s.windows.Keys, keys, out)
    case Stop => s.phase.Flushing? && s.phase.caller < |s.callers| && s.callers[s.phase.caller].Done? && GateFree(s.callers)
    case Return => s.phase.Draining? && s.queue == [] && s.hand.Empty?
  }

  /** What a caller does next after coalescing its event. */
  function AfterCoalesce(joins: bool, flush: seq<Event>, e: Event): Caller {
    if joins then Done else Submitting(flush + [e])
  }

  ghost function Apply(s: State, step: Step): State
    requires Enabled(s, step)
  {
    match step
    case Record(e) => s.(callers := s.callers + [Recording(e)], recorded := s.recorded + e.count)
    case Coalesce(c, keys, windows, flush) =>
      var e := s.callers[c].e;
      s.(windows := windows, callers := s.callers[c := AfterCoalesce(IsRefusal(e) && Joins(s.windows, e), flush, e)])
    case Flush(closed, keys, out) => s.(windows := s.windows - closed, callers := s.callers + [Submitting(out)])
    case Enter(c) =>
      var todo := s.callers[c].todo;
      s.(callers := s.callers[c := if todo == [] then Done else InGate(s.running, todo)])
    case Offer(c) =>
      var e, rest := s.callers[c].todo[0], s.callers[c].todo[1..];
      var handed := s.(submitted := s.submitted + multiset{e});
      if s.callers[c].sawRunning && |s.queue| < s.capacity then
        handed.(queue := s.queue + [e], callers := s.callers[c := Submitting(rest)])
      else
        handed.(callers := s.callers[c := Writing(e, rest)])
    case Write(c, ok) =>
      var e := s.callers[c].e;
      var written := s.(callers := s.callers[c := Submitting(s.callers[c].todo)]);
      if ok then written.(stored := s.stored + [e]) else written.(failed := s.failed + [e])
    case Start => s.(running := true, phase := Serving)
    case Receive => s.(hand := Holding(s.queue[0]), queue := s.queue[1..])
    case WriteReceived(ok) =>
      if ok then s.(hand := Empty, stored := s.stored + [s.hand.e]) else s.(hand := Empty, failed := s.failed + [s.hand.e])
    case Cancel(keys, out) =>
      s.(phase := Flushing(|s.callers|), windows := s.windows - s.windows.Keys, callers := s.callers + [Submitting(out)])
    case Stop => s.(running := false, phase := Draining)
    case Return => s.(phase := Idle)
  }

  ghost predicate Runs(s: State, steps: seq<Step>, s': State)
    decreases |steps|
  {
    if steps == [] then s' == s else Enabled(s, steps[0]) && Runs(Apply(s, steps[0]), steps[1..], s')
  }

  // ---- What the callers hold ----

  function Sum(callers: seq<Caller>, f: Caller -> int): int {
    if callers == [] then 0 else Sum(callers[..|callers| - 1], f) + f(callers[|callers| - 1])
  }

  lemma SumAppend(callers: seq<Caller>, c: Caller, f: Caller -> int)
    ensures Sum(callers + [c], f) == Sum(callers, f) + f(c)
  {
    assert (callers + [c])[..|callers|] == callers;
  }

  lemma {:induction false} SumUpdate(callers: seq<Caller>, i: nat, c: Caller, f: Caller -> int)
    requires i < |callers|
    ensures Sum(callers[i := c], f) == Sum(callers, f) - f(callers[i]) + f(c)
  {
    var n := |callers| - 1;
    if i == n {
      assert callers[i := c][..n] == callers[..n];
    } else {
      SumUpdate(callers[..n], i, c, f);
      assert callers[i := c][..n] == callers[..n][i := c];
    }
  }

  lemma {:induction false} SumZero(callers: seq<Caller>, f: Caller -> int)
    requires forall i :: 0 <= i < |callers| ==> f(callers[i]) == 0
    ensures Sum(callers, f) == 0
  {
    if callers != [] { SumZero(callers[..|callers| - 1], f); }
  }

  /** The counts in the hands of a caller. */
  function Weight(c: Caller): int {
    match c
    case Recording(e) => e.count
    case Submitting(todo) => TotalCount(todo)
    case InGate(_, todo) => TotalCount(todo)
    case Writing(e, todo) => e.count + TotalCount(todo)
    case Done => 0
  }

  /** Whether a caller is writing x itself. */
  function Directly(x: Event): Caller -> int { (c: Caller) => if c.Writing? && c.e == x then 1 else 0 }

  lemma TotalAppend(s: seq<Event>, e: Event)
    ensures TotalCount(s + [e]) == TotalCount(s) + e.count
  {
    assert (s + [e])[..|s|] == s;
  }

  lemma {:induction false} TotalHead(s: seq<Event>)
    requires s != []
    ensures TotalCount(s) == s[0].count + TotalCount(s[1..])
  {
    if |s| > 1 {
      TotalHead(s[..|s| - 1]);
      assert s[..|s| - 1][1..] == s[1..][..|s| - 2];
    }
  }

  lemma {:induction false} TotalIsCount(s: seq<Event>)
    ensures TotalCount(s) == Count(multiset(s))
  {
    if s != [] {
      var n := |s| - 1;
      TotalIsCount(s[..n]);
      CountOne(multiset(s[..n]), s[n]);
      assert s == s[..n] + [s[n]];
      assert multiset(s) == multiset(s[..n]) + multiset{s[n]};
    }
  }

  // ---- The invariant ----

  function HandOccurs(h: Hand, x: Event): int { if h == Holding(x) then 1 else 0 }

  function HandCount(h: Hand): int { if h.Holding? then h.e.count else 0 }

  /** How often x is stored, reported as failed, queued or in the writer's hand. */
  ghost function Settled(s: State, x: Event): int {
    multiset(s.stored)[x] + multiset(s.failed)[x] + multiset(s.queue)[x] + HandOccurs(s.hand, x)
  }

  ghost predicate OncePlacedAt(s: State, x: Event) { s.submitted[x] == Settled(s, x) + Sum(s.callers, Directly(x)) }

  /** Every event handed to submit is in exactly one place. */
  ghost predicate OncePlaced(s: State) { forall x :: OncePlacedAt(s, x) }

  /** The counts of the entries written, failed, queued and in the writer's hand. */
  ghost function SettledCount(s: State): int {
    TotalCount(s.stored) + TotalCount(s.failed) + TotalCount(s.queue) + HandCount(s.hand)
  }

  /** Recorded counts are written, failed, on their way or suppressed in open windows. */
  ghost predicate Conserved(s: State) { s.recorded == SettledCount(s) + Sum(s.callers, Weight) + Suppressed(s.windows) }

  predicate GateSound(s: State) {
    !s.running ==> forall i :: 0 <= i < |s.callers| && s.callers[i].InGate? ==> !s.callers[i].sawRunning
  }

  predicate Bounded(s: State) {
    && |s.queue| <= s.capacity
    && (s.phase.Idle? ==> s.queue == [] && s.hand.Empty?)
    && (s.running <==> s.phase.Serving? || s.phase.Flushing?)
    && (s.phase.Flushing? ==> s.hand.Empty?)
  }

  ghost predicate Inv(s: State) { OncePlaced(s) && Conserved(s) && GateSound(s) && Bounded(s) && |s.windows| <= MAX_COALESCE_KEYS }

  lemma OccursAppend(s: seq<Event>, e: Event, x: Event)
    ensures multiset(s + [e])[x] == multiset(s)[x] + if x == e then 1 else 0
  {
  }

  lemma OccursHead(s: seq<Event>, x: Event)
    requires s != []
    ensures multiset(s)[x] == multiset(s[1..])[x] + if x == s[0] then 1 else 0
  {
    assert s == [s[0]] + s[1..];
  }

  /** One more event handed to submit. */
  lemma SubmittedOne(m: multiset<Event>, e: Event, x: Event)
    ensures (m + multiset{e})[x] == m[x] + if x == e then 1 else 0
  {
  }

  lemma PlacedQueued(s: State, step: Step, x: Event)
    requires Enabled(s, step) && step.Offer? && OncePlacedAt(s, x) && s.callers[step.c].sawRunning && |s.queue| < s.capacity
    ensures OncePlacedAt(Apply(s, step), x)
  {
    var e := s.callers[step.c].todo[0];
    SumUpdate(s.callers, step.c, Submitting(s.callers[step.c].todo[1..]), Directly(x));
    OccursAppend(s.queue, e, x);
    SubmittedOne(s.submitted, e, x);
  }

  lemma PlacedDirect(s: State, step: Step, x: Event)
    requires Enabled(s, step) && step.Offer? && OncePlacedAt(s, x) && !(s.callers[step.c].sawRunning && |s.queue| < s.capacity)
    ensures OncePlacedAt(Apply(s, step), x)
  {
    var e := s.callers[step.c].todo[0];
    SumUpdate(s.callers, step.c, Writing(e, s.callers[step.c].todo[1..]), Directly(x));
    SubmittedOne(s.submitted, e, x);
  }

  lemma PlacedOffer(s: State, step: Step, x: Event)
    requires Enabled(s, step) && step.Offer? && OncePlacedAt(s, x)
    ensures OncePlacedAt(Apply(s, step), x)
  {
    if s.callers[step.c].sawRunning && |s.queue| < s.capacity {
      PlacedQueued(s, step, x);
    } else {
      PlacedDirect(s, step, x);
    }
  }

  lemma PlacedWrite(s: State, step: Step, x: Event)
    requires Enabled(s, step) && step.Write? && OncePlacedAt(s, x)
    ensures OncePlacedAt(Apply(s, step), x)
  {
    SumUpdate(s.callers, step.c, Apply(s, step).callers[step.c], Directly(x));
    OccursAppend(s.stored, s.callers[step.c].e, x);
    OccursAppend(s.failed, s.callers[step.c].e, x);
  }

  lemma PlacedReceive(s: State, step: Step, x: Event)
    requires Enabled(s, step) && step.Receive? && OncePlacedAt(s, x)
    ensures OncePlacedAt(Apply(s, step), x)
  {
    OccursHead(s.queue, x);
  }

  lemma PlacedReceived(s: State, step: Step, x: Event)
    requires Enabled(s, step) && step.WriteReceived? && OncePlacedAt(s, x)
    ensures OncePlacedAt(Apply(s, step), x)
  {
    if step.ok { OccursAppend(s.stored, s.hand.e, x); } else { OccursAppend(s.failed, s.hand.e, x); }
  }

  lemma PlacedCall(s: State, step: Step, x: Event)
    requires Enabled(s, step) && OncePlacedAt(s, x) && (step.Record? || step.Flush? || step.Cancel?)
    ensures OncePlacedAt(Apply(s, step), x)
  {
    match step
    case Record(e) => SumAppend(s.callers, Recording(e), Directly(x));
    case Flush(_, _, out) => SumAppend(s.callers, Submitting(out), Directly(x));
    case Cancel(_, out) => SumAppend(s.callers, Submitting(out), Directly(x));
  }

  /** The steps that submit nothing and write nothing. */
  lemma PlacedIdle(s: State, step: Step, x: Event)
    requires Enabled(s, step) && OncePlacedAt(s, x)
    requires !step.Offer? && !step.Write? && !step.Receive? && !step.WriteReceived?
    ensures OncePlacedAt(Apply(s, step), x)
  {
    if step.Coalesce? || step.Enter? {
      SumUpdate(s.callers, step.c, Apply(s, step).callers[step.c], Directly(x));
    } else if step.Record? || step.Flush? || step.Cancel? {
      PlacedCall(s, step, x);
    }
  }

  lemma PlacedStep(s: State, step: Step)
    requires OncePlaced(s) && Enabled(s, step)
    ensures OncePlaced(Apply(s, step))
  {
    forall x
      ensures OncePlacedAt(Apply(s, step), x)
    {
      assert OncePlacedAt(s, x);
      if step.Offer? {
        PlacedOffer(s, step, x);
      } else if step.Write? {
        PlacedWrite(s, step, x);
      } else if step.Receive? {
        PlacedReceive(s, step, x);
      } else if step.WriteReceived? {
        PlacedReceived(s, step, x);
      } else {
        PlacedIdle(s, step, x);
      }
    }
  }

  lemma ConservedCoalesce(s: State, step: Step)
    requires Conserved(s) && Enabled(s, step) && step.Coalesce?
    ensures Conserved(Apply(s, step))
  {
    var e := s.callers[step.c].e;
    SumUpdate(s.callers, step.c, Apply(s, step).callers[step.c], Weight);
    TotalAppend(step.flush, e);
    TotalIsCount(step.flush);
    if IsRefusal(e) { CoalescedCount(s.windows, e, step.keys, step.windows, step.flush); }
  }

  lemma WeightHead(todo: seq<Event>, saw: bool)
    requires todo != []
    ensures Weight(InGate(saw, todo)) == todo[0].count + Weight(Submitting(todo[1..])) == Weight(Writing(todo[0], todo[1..]))
  {
    TotalHead(todo);
  }

  /** A caller that gives up the weight of e, and e appended to one of the sequences. */
  lemma Moved(before: int, after: int, was: seq<Event>, e: Event, w: int)
    requires after == before - w + (w - e.count)
    ensures TotalCount(was + [e]) + after == TotalCount(was) + before
  {
    TotalAppend(was, e);
  }

  lemma ConservedOffer(s: State, step: Step)
    requires Conserved(s) && Enabled(s, step) && step.Offer?
    ensures Conserved(Apply(s, step))
  {
    var c := s.callers[step.c];
    var s' := Apply(s, step);
    var before, after := Sum(s.callers, Weight), Sum(s'.callers, Weight);
    SumUpdate(s.callers, step.c, s'.callers[step.c], Weight);
    WeightHead(c.todo, c.sawRunning);
    if s'.callers[step.c].Submitting? {
      Moved(before, after, s.queue, c.todo[0], Weight(c));
      assert SettledCount(s') + after == SettledCount(s) + before;
    } else {
      assert SettledCount(s') == SettledCount(s) && after == before;
    }
  }

  lemma ConservedWrite(s: State, step: Step)
    requires Conserved(s) && Enabled(s, step) && step.Write?
    ensures Conserved(Apply(s, step))
  {
    var c := s.callers[step.c];
    var s' := Apply(s, step);
    var before, after := Sum(s.callers, Weight), Sum(s'.callers, Weight);
    SumUpdate(s.callers, step.c, s'.callers[step.c], Weight);
    assert Weight(c) == c.e.count + Weight(s'.callers[step.c]);
    if step.ok {
      Moved(before, after, s.stored, c.e, Weight(c));
    } else {
      Moved(before, after, s.failed, c.e, Weight(c));
    }
    assert SettledCount(s') + after == SettledCount(s) + before;
  }

  lemma ConservedWriter(s: State, step: Step)
    requires Enabled(s, step) && (step.Receive? || step.WriteReceived?)
    ensures SettledCount(Apply(s, step)) == SettledCount(s)
  {
    if step.Receive? {
      TotalHead(s.queue);
    } else {
      TotalAppend(s.stored, s.hand.e);
      TotalAppend(s.failed, s.hand.e);
    }
  }

  lemma ConservedTake(s: State, closed: set<string>, keys: seq<string>, out: seq<Event>)
    requires Taken(s.windows, closed, keys, out)
    ensures Sum(s.callers + [Submitting(out)], Weight) + Suppressed(s.windows - closed) == Sum(s.callers, Weight) + Suppressed(s.windows)
  {
    SumAppend(s.callers, Submitting(out), Weight);
    TotalIsCount(out);
    TakenCount(s.windows, closed, keys, out);
  }

  lemma ConservedStep(s: State, step: Step)
    requires Conserved(s) && Enabled(s, step)
    ensures Conserved(Apply(s, step))
  {
    match step
    case Record(e) => SumAppend(s.callers, Recording(e), Weight);
    case Coalesce(_, _, _, _) => ConservedCoalesce(s, step);
    case Flush(closed, keys, out) => ConservedTake(s, closed, keys, out);
    case Cancel(keys, out) => ConservedTake(s, s.windows.Keys, keys, out);
    case Enter(c) => SumUpdate(s.callers, c, Apply(s, step).callers[c], Weight);
    case Offer(_) => ConservedOffer(s, step);
    case Write(_, _) => ConservedWrite(s, step);
    case Receive => ConservedWriter(s, step);
    case WriteReceived(_) => ConservedWriter(s, step);
    case _ =>
  }

  lemma WindowsBounded(s: State, step: Step)
    requires Enabled(s, step) && |s.windows| <= MAX_COALESCE_KEYS
    ensures |Apply(s, step).windows| <= MAX_COALESCE_KEYS
  {
    match step
    case Coalesce(c, keys, windows, flush) =>
      if IsRefusal(s.callers[c].e) { CoalescedBounded(s.windows, s.callers[c].e, keys, windows, flush); }
    case Flush(closed, keys, out) => WithoutShrinks(s.windows, closed);
    case Cancel(keys, out) => WithoutShrinks(s.windows, s.windows.Keys);
    case _ =>
  }

  lemma WithoutShrinks(ws: Windows, closed: set<string>)
    ensures |ws - closed| <= |ws|
  {
    assert (ws - closed).Keys == ws.Keys - closed;
    assert |ws.Keys - closed| <= |ws.Keys|;
    assert |ws| == |ws.Keys| && |ws - closed| == |(ws - closed).Keys|;
  }

  lemma GateStep(s: State, step: Step)
    requires GateSound(s) && Bounded(s) && Enabled(s, step)
    ensures GateSound(Apply(s, step)) && Bounded(Apply(s, step))
  {
  }

  /** Every step keeps the invariant. */
  lemma InvStep(s: State, step: Step)
    requires Inv(s) && Enabled(s, step)
    ensures Inv(Apply(s, step))
  {
    PlacedStep(s, step);
    ConservedStep(s, step);
    GateStep(s, step);
    WindowsBounded(s, step);
  }

  lemma InitInv(capacity: nat)
    ensures Inv(Init(capacity))
  {
  }

  /**
   * In every run: each event handed to submit is stored, reported as failed, queued or
   * in one hand, once; counts are conserved; and the queue is empty whenever Run is
   * not active.
   */
  lemma {:induction false} RunsInv(s: State, steps: seq<Step>, s': State)
    requires Inv(s) && Runs(s, steps, s')
    ensures Inv(s')
    decreases |steps|
  {
    if steps != [] {
      InvStep(s, steps[0]);
      RunsInv(Apply(s, steps[0]), steps[1..], s');
    }
  }

  /** Once Run returned the queue stays empty, whatever is recorded or flushed. */
  lemma {:induction false} ReturnedStaysEmpty(s: State, steps: seq<Step>, s': State)
    requires Inv(s) && s.phase.Idle? && Runs(s, steps, s') && Start !in steps
    ensures s'.phase.Idle? && s'.queue == [] && s'.hand.Empty?
    decreases |steps|
  {
    if steps != [] {
      assert steps[0] in steps;
      InvStep(s, steps[0]);
      assert forall x :: x in steps[1..] ==> x in steps;
      ReturnedStaysEmpty(Apply(s, steps[0]), steps[1..], s');
    }
  }

  predicate AllDone(callers: seq<Caller>) { forall i :: 0 <= i < |callers| ==> callers[i].Done? }

  /**
   * At rest after any run, every submitted event was stored or reported as failed, once,
   * and every recorded count is in them or in a window opened after the last flush.
   */
  lemma AtRest(capacity: nat, steps: seq<Step>, s: State)
    requires Runs(Init(capacity), steps, s) && s.phase.Idle? && AllDone(s.callers)
    ensures s.submitted == multiset(s.stored) + multiset(s.failed)
    ensures s.recorded == TotalCount(s.stored) + TotalCount(s.failed) + Suppressed(s.windows)
  {
    InitInv(capacity);
    RunsInv(Init(capacity), steps, s);
    SumZero(s.callers, Weight);
    forall x
      ensures s.submitted[x] == (multiset(s.stored) + multiset(s.failed))[x]
    {
      SumZero(s.callers, Directly(x));
      assert OncePlacedAt(s, x);
    }
  }
}
