/**
 * Starting and stopping the scheduler host's worker. A start runs under the slot lock. A stop takes the handle
 * out under the lock, lets go of it while it cancels and waits, looks once more whether the worker has finished,
 * and only then takes the lock again to finish, so other calls and the worker itself can come in between.
 */
module SchedulerWorker {
  import opened Wrappers

  /** Worker n has signal n. */
  datatype Worker = Worker(finished: bool, cancelled: bool)

  datatype Slot = Slot(handle: Option<nat>, signal: Option<nat>)

  /** A stop that released the slot lock: what it took out, whether it has cancelled, and what its last look saw. */
  datatype Stopping = Stopping(handle: Option<nat>, signal: Option<nat>, cancelled: bool, seen: Option<bool>)

  datatype System = System(slot: Slot, workers: seq<Worker>, stops: map<nat, Stopping>)

  const INITIAL := System(Slot(None, None), [], map[])

  datatype Action =
    | EnsureStarted
    | BeginStop(caller: nat)
    | CancelSignal(caller: nat)
    | Look(caller: nat)
    | EndStop(caller: nat)
    | Finish(worker: nat)

  predicate Finished(s: System, w: nat) { w < |s.workers| && s.workers[w].finished }

  predicate Enabled(s: System, a: Action) {
    match a
    case EnsureStarted => true
    case BeginStop(c) => c !in s.stops
    case CancelSignal(c) => c in s.stops && !s.stops[c].cancelled
    case Look(c) => c in s.stops && s.stops[c].cancelled && s.stops[c].handle.Some? && s.stops[c].seen.None?
    case EndStop(c) => c in s.stops && s.stops[c].cancelled && (s.stops[c].handle.Some? ==> s.stops[c].seen.Some?)
    case Finish(w) => w < |s.workers| && !s.workers[w].finished
  }

  /** A running worker is only woken; a finished one is joined and replaced. */
  function Ensured(s: System): System {
    if s.slot.handle.Some? && !Finished(s, s.slot.handle.value) then s
    else s.(slot := Slot(Some(|s.workers|), Some(|s.workers|)), workers := s.workers + [Worker(false, false)])
  }

  function Cancelled(s: System, signal: Option<nat>): seq<Worker> {
    if signal.Some? && signal.value < |s.workers|
    then s.workers[signal.value := s.workers[signal.value].(cancelled := true)]
    else s.workers
  }

  /**
   * No handle, or a worker seen finished: the signal is dropped. Otherwise the time was up: both are put back, even
   * if the worker has finished since.
   */
  function Ended(s: System, stop: Stopping): Slot {
    if stop.handle.None? || stop.seen == Some(true) then s.slot.(signal := None)
    else Slot(stop.handle, stop.signal)
  }

  function Next(s: System, a: Action): System
    requires Enabled(s, a)
  {
    match a
    case EnsureStarted => Ensured(s)
    case BeginStop(c) =>
      s.(slot := s.slot.(handle := None), stops := s.stops[c := Stopping(s.slot.handle, s.slot.signal, false, None)])
    case CancelSignal(c) =>
      s.(workers := Cancelled(s, s.stops[c].signal), stops := s.stops[c := s.stops[c].(cancelled := true)])
    case Look(c) => s.(stops := s.stops[c := s.stops[c].(seen := Some(Finished(s, s.stops[c].handle.value)))])
    case EndStop(c) => s.(slot := Ended(s, s.stops[c]), stops := s.stops - {c})
    case Finish(w) => s.(workers := s.workers[w := s.workers[w].(finished := true)])
  }

  function Execute(schedule: seq<Action>): System {
    if schedule == [] then INITIAL
    else
      var before := Execute(schedule[..|schedule| - 1]);
      var a := schedule[|schedule| - 1];
      if Enabled(before, a) then Next(before, a) else before
  }

  // ---------- Who can still reach a running worker ----------

  predicate Unfinished(s: System, w: nat) { w < |s.workers| && !s.workers[w].finished }

  /** The handle and the signal that belong to a worker, together in the slot. */
  predicate InSlot(s: System, w: nat) { s.slot == Slot(Some(w), Some(w)) }

  predicate HeldBy(s: System, c: nat, w: nat) {
    c in s.stops && s.stops[c].handle == Some(w) && s.stops[c].signal == Some(w)
  }

  ghost predicate AtMostOne(s: System) {
    forall v: nat, w: nat :: Unfinished(s, v) && Unfinished(s, w) ==> v == w
  }

  ghost predicate HandlesKnown(s: System) {
    && (s.slot.handle.Some? ==> s.slot.handle.value < |s.workers|)
    && (forall c :: c in s.stops && s.stops[c].handle.Some? ==> s.stops[c].handle.value < |s.workers|)
  }

  /** A handle that is out with a stop is in no other hands. */
  ghost predicate HandlesDistinct(s: System) {
    && (forall c :: c in s.stops && s.stops[c].handle.Some? ==> s.stops[c].handle != s.slot.handle)
    && (forall c, d ::
          c in s.stops && d in s.stops && s.stops[c].handle.Some? && s.stops[c].handle == s.stops[d].handle ==> c == d)
  }

  /** Every running worker can be cancelled and joined by whoever holds its handle. */
  ghost predicate Reachable(s: System) {
    forall w: nat :: Unfinished(s, w) ==> InSlot(s, w) || exists c: nat :: HeldBy(s, c, w)
  }

  /** What a stop saw finished is finished. */
  ghost predicate LooksTrue(s: System) {
    forall c :: c in s.stops && s.stops[c].handle.Some? && s.stops[c].seen == Some(true) ==>
                  Finished(s, s.stops[c].handle.value)
  }

  ghost predicate Inv(s: System) {
    AtMostOne(s) && HandlesKnown(s) && HandlesDistinct(s) && LooksTrue(s) && Reachable(s)
  }

  /** A start comes in while some stop is between its two critical sections with a running worker in hand. */
  ghost predicate Overlaps(s: System, a: Action) {
    a.EnsureStarted? && exists c: nat, w: nat :: HeldBy(s, c, w) && Unfinished(s, w)
  }

  lemma EnsureKeepsInv(s: System)
    requires Inv(s) && !Overlaps(s, EnsureStarted)
    ensures Inv(Ensured(s))
  {
    var after := Ensured(s);
    if after != s {
      var newest := |s.workers|;
      assert forall w: nat :: !Unfinished(s, w);
      assert forall w: nat :: w < newest ==> after.workers[w] == s.workers[w];
      forall w: nat | Unfinished(after, w) ensures w == newest {
        assert w < newest ==> Unfinished(s, w);
      }
      assert InSlot(after, newest);
    }
  }

  lemma BeginStopKeepsInv(s: System, c: nat)
    requires Inv(s) && Enabled(s, BeginStop(c))
    ensures Inv(Next(s, BeginStop(c)))
  {
    var after := Next(s, BeginStop(c));
    assert forall w: nat :: Unfinished(after, w) <==> Unfinished(s, w);
    forall w: nat | Unfinished(after, w) ensures exists d :: HeldBy(after, d, w) {
      assert Unfinished(s, w);
      if InSlot(s, w) {
        assert HeldBy(after, c, w);
      } else {
        var d :| HeldBy(s, d, w);
        assert HeldBy(after, d, w);
      }
    }
  }

  lemma CancelKeepsInv(s: System, c: nat)
    requires Inv(s) && Enabled(s, CancelSignal(c))
    ensures Inv(Next(s, CancelSignal(c)))
  {
    var after := Next(s, CancelSignal(c));
    assert forall w: nat :: Unfinished(after, w) <==> Unfinished(s, w);
    forall w: nat | Unfinished(after, w) ensures InSlot(after, w) || exists d :: HeldBy(after, d, w) {
      if !InSlot(s, w) {
        var d :| HeldBy(s, d, w);
        assert HeldBy(after, d, w);
      }
    }
  }

  lemma LookKeepsInv(s: System, c: nat)
    requires Inv(s) && Enabled(s, Look(c))
    ensures Inv(Next(s, Look(c)))
  {
    var after := Next(s, Look(c));
    assert forall w: nat :: Unfinished(after, w) <==> Unfinished(s, w);
    forall w: nat | Unfinished(after, w) ensures InSlot(after, w) || exists d :: HeldBy(after, d, w) {
      if !InSlot(s, w) {
        var d :| HeldBy(s, d, w);
        assert HeldBy(after, d, w);
      }
    }
  }

  lemma FinishKeepsInv(s: System, v: nat)
    requires Inv(s) && Enabled(s, Finish(v))
    ensures Inv(Next(s, Finish(v)))
  {
    var after := Next(s, Finish(v));
    assert Unfinished(s, v);
    assert forall w: nat :: Unfinished(after, w) ==> Unfinished(s, w) && w != v;
    assert forall w: nat :: !Unfinished(after, w);
  }

  /** Ending a stop loses a running worker exactly when that worker sits in the slot by then. */
  predicate LosesSlot(s: System, a: Action) {
    a.EndStop? && s.slot.handle.Some? && Unfinished(s, s.slot.handle.value)
  }

  lemma EndStopKeepsInv(s: System, c: nat)
    requires Inv(s) && Enabled(s, EndStop(c)) && !LosesSlot(s, EndStop(c))
    ensures Inv(Next(s, EndStop(c)))
  {
    var after := Next(s, EndStop(c));
    assert forall w: nat :: Unfinished(after, w) <==> Unfinished(s, w);
    forall w: nat | Unfinished(after, w) ensures InSlot(after, w) || exists d :: HeldBy(after, d, w) {
      assert Unfinished(s, w);
      assert !InSlot(s, w);
      var d :| HeldBy(s, d, w);
      if d != c { assert HeldBy(after, d, w); } else { assert InSlot(after, w); }
    }
  }

  /**
   * The exact step condition: from a state in which at most one worker runs and can be reached, a step leads
   * to another such state if and only if it is neither a start over a stop in progress that holds a running
   * worker, nor the end of a stop over a running worker in the slot.
   */
  lemma StepKeepsInvExactlyWhen(s: System, a: Action)
    requires Inv(s) && Enabled(s, a)
    ensures Inv(Next(s, a)) <==> !Overlaps(s, a) && !LosesSlot(s, a)
  {
    match a
    case EnsureStarted =>
      if !Overlaps(s, a) { EnsureKeepsInv(s); } else { OverlappingStartRunsTwo(s); }
    case BeginStop(c) => BeginStopKeepsInv(s, c);
    case CancelSignal(c) => CancelKeepsInv(s, c);
    case Look(c) => LookKeepsInv(s, c);
    case EndStop(c) =>
      if !LosesSlot(s, a) { EndStopKeepsInv(s, c); } else { EndOverRunningWorkerCutsIt(s, c); }
    case Finish(v) => FinishKeepsInv(s, v);
  }

  /** A start that overlaps such a stop puts a second worker beside the running one. */
  lemma OverlappingStartRunsTwo(s: System)
    requires Inv(s) && Overlaps(s, EnsureStarted)
    ensures !AtMostOne(Ensured(s))
  {
    var c: nat, w: nat :| HeldBy(s, c, w) && Unfinished(s, w);
    assert s.slot.handle != Some(w);
    var h := if s.slot.handle.Some? then s.slot.handle.value else |s.workers|;
    assert Unfinished(s, h) ==> h == w;
    var after := Ensured(s);
    assert Unfinished(after, w) && Unfinished(after, |s.workers|);
  }

  /** The end of a late stop takes the signal, or the whole place, of the worker in the slot. */
  lemma EndOverRunningWorkerCutsIt(s: System, c: nat)
    requires Inv(s) && Enabled(s, EndStop(c)) && LosesSlot(s, EndStop(c))
    ensures !Reachable(Next(s, EndStop(c)))
  {
    var w := s.slot.handle.value;
    var after := Next(s, EndStop(c));
    assert Unfinished(after, w);
    assert !InSlot(after, w);
    forall d ensures !HeldBy(after, d, w) {
      if d in s.stops { assert s.stops[d].handle != s.slot.handle; }
    }
  }

  /** Starts and stops do not overlap: no start, and no second stop, between the two halves of a stop. */
  predicate Orderly(schedule: seq<Action>) {
    forall i :: 0 <= i < |schedule| && (schedule[i].EnsureStarted? || schedule[i].BeginStop?) ==>
                  Execute(schedule[..i]).stops == map[]
  }

  /** While a stop is between its halves the slot holds no handle. */
  predicate SlotEmptied(s: System) {
    s.stops != map[] ==> s.slot.handle.None?
  }

  /** With non-overlapping calls at most one worker runs, and it can always be cancelled and joined. */
  lemma {:induction false} OrderlyCallsRunOneWorker(schedule: seq<Action>)
    requires Orderly(schedule)
    ensures Inv(Execute(schedule)) && SlotEmptied(Execute(schedule)) && |Execute(schedule).stops| <= 1
  {
    if schedule != [] {
      var front := schedule[..|schedule| - 1];
      var a := schedule[|schedule| - 1];
      forall i | 0 <= i < |front| ensures front[..i] == schedule[..i] {}
      OrderlyCallsRunOneWorker(front);
      var s := Execute(front);
      if Enabled(s, a) {
        if a.EndStop? {
          OnlyStop(s.stops, a.caller);
          assert s.slot.handle.None?;
        }
        StepKeepsInvExactlyWhen(s, a);
      }
    }
  }

  lemma OnlyStop(stops: map<nat, Stopping>, c: nat)
    requires c in stops && |stops| <= 1
    ensures stops - {c} == map[]
  {
    assert |stops.Keys| == |stops|;
    if exists d :: d in stops && d != c {
      var d :| d in stops && d != c;
      assert |{c, d}| == 2 && {c, d} <= stops.Keys;
      SubsetSize({c, d}, stops.Keys);
    }
  }

  lemma {:induction false} SubsetSize(a: set<nat>, b: set<nat>)
    requires a <= b
    ensures |a| <= |b|
  {
    if a != {} {
      var x :| x in a;
      SubsetSize(a - {x}, b - {x});
    }
  }

  // ---------- What starts and stops do ----------

  /** A start replaces the worker exactly when the slot holds none or a finished one; a running one stays. */
  lemma StartExactlyWhen(s: System)
    ensures s.slot.handle.None? || Finished(s, s.slot.handle.value) ==>
              Ensured(s).slot == Slot(Some(|s.workers|), Some(|s.workers|))
              && Ensured(s).workers == s.workers + [Worker(false, false)] && Ensured(s).stops == s.stops
    ensures s.slot.handle.Some? && !Finished(s, s.slot.handle.value) ==> Ensured(s) == s
  {}

  /** A stop that nothing comes between cancels the worker; if that finishes in time the slot is empty afterwards. */
  lemma StopOfRunningWorker(s: System, c: nat, w: nat)
    requires InSlot(s, w) && Unfinished(s, w) && c !in s.stops
    ensures var taken := Next(s, BeginStop(c));
            Enabled(taken, CancelSignal(c))
            && var cancelled := Next(taken, CancelSignal(c));
            && cancelled.workers[w].cancelled && !cancelled.workers[w].finished
            && Enabled(cancelled, Look(c)) && !Enabled(cancelled, EndStop(c))
            && Next(Next(cancelled, Look(c)), EndStop(c)).slot == s.slot
            && var done := Next(cancelled, Finish(w));
            Next(Next(done, Look(c)), EndStop(c)).slot == Slot(None, None)
            && Next(Next(done, Look(c)), EndStop(c)).stops == s.stops
  {
    var taken := Next(s, BeginStop(c));
    var cancelled := Next(taken, CancelSignal(c));
    var done := Next(cancelled, Finish(w));
    assert Finished(done, w);
    assert s.stops[c := Stopping(Some(w), Some(w), true, Some(true))] - {c} == s.stops;
    assert Next(done, Look(c)).stops == s.stops[c := Stopping(Some(w), Some(w), true, Some(true))];
  }

  /** The action at a position cancels the worker: it belongs to a stop that took the worker's signal. */
  predicate CancelsAt(schedule: seq<Action>, i: nat, w: nat) {
    i < |schedule| && schedule[i].CancelSignal?
    && var s := Execute(schedule[..i]);
    Enabled(s, schedule[i]) && s.stops[schedule[i].caller].signal == Some(w)
  }

  ghost predicate EverCancels(schedule: seq<Action>, w: nat) { exists i: nat :: CancelsAt(schedule, i, w) }

  ghost predicate SignalsKnown(s: System) {
    && (s.slot.signal.Some? ==> s.slot.signal.value < |s.workers|)
    && (forall c :: c in s.stops && s.stops[c].signal.Some? ==> s.stops[c].signal.value < |s.workers|)
  }

  lemma CancelStep(s: System, a: Action)
    requires SignalsKnown(s) && Enabled(s, a)
    ensures SignalsKnown(Next(s, a)) && |s.workers| <= |Next(s, a).workers|
    ensures forall w: nat :: w < |Next(s, a).workers| ==>
              (Next(s, a).workers[w].cancelled
               <==> || (w < |s.workers| && s.workers[w].cancelled)
                    || (a.CancelSignal? && s.stops[a.caller].signal == Some(w)))
  {}

  lemma EverCancelsNext(schedule: seq<Action>, n: nat, w: nat)
    requires |schedule| == n + 1
    ensures EverCancels(schedule, w) <==> EverCancels(schedule[..n], w) || CancelsAt(schedule, n, w)
  {
    forall i: nat | i < n ensures CancelsAt(schedule[..n], i, w) == CancelsAt(schedule, i, w) {
      assert schedule[..n][..i] == schedule[..i];
    }
    if EverCancels(schedule[..n], w) {
      var i: nat :| CancelsAt(schedule[..n], i, w);
      assert CancelsAt(schedule, i, w);
    }
    if EverCancels(schedule, w) && !CancelsAt(schedule, n, w) {
      var i: nat :| CancelsAt(schedule, i, w);
      assert CancelsAt(schedule[..n], i, w);
    }
  }

  /** In every schedule a worker is cancelled exactly if a stop that took its signal got to cancelling. */
  lemma {:induction false} CancelledExactlyWhen(schedule: seq<Action>)
    ensures SignalsKnown(Execute(schedule))
    ensures forall w: nat :: w < |Execute(schedule).workers| ==>
              (Execute(schedule).workers[w].cancelled <==> EverCancels(schedule, w))
    ensures forall w: nat :: w >= |Execute(schedule).workers| ==> !EverCancels(schedule, w)
  {
    if schedule != [] {
      var n := |schedule| - 1;
      var before := Execute(schedule[..n]);
      CancelledExactlyWhen(schedule[..n]);
      forall w: nat ensures EverCancels(schedule, w) <==> EverCancels(schedule[..n], w) || CancelsAt(schedule, n, w) {
        EverCancelsNext(schedule, n, w);
      }
      if Enabled(before, schedule[n]) { CancelStep(before, schedule[n]); }
    }
  }

  // ---------- A worker that was cut off ----------

  /** Nothing holds the worker's signal any more, though something may still hold its handle. */
  ghost predicate Unsignalled(s: System, w: nat) {
    && w < |s.workers| && s.slot.signal != Some(w)
    && forall c :: c in s.stops ==> s.stops[c].signal != Some(w)
  }

  /** Nothing holds its handle either: it cannot even be joined. */
  ghost predicate Lost(s: System, w: nat) {
    Unsignalled(s, w) && s.slot.handle != Some(w) && forall c :: c in s.stops ==> s.stops[c].handle != Some(w)
  }

  /** A stop of an empty slot that a start overlaps drops the new worker's signal, though the slot keeps its handle. */
  lemma EmptyStopCutsSignal(c: nat)
    ensures var cut := Execute([BeginStop(c), CancelSignal(c), EnsureStarted, EndStop(c)]);
            && cut.stops == map[] && cut.slot == Slot(Some(0), None)
            && Unfinished(cut, 0) && !cut.workers[0].cancelled && Unsignalled(cut, 0) && !Reachable(cut)
  {
    var run := [BeginStop(c), CancelSignal(c), EnsureStarted, EndStop(c)];
    var s1 := Next(INITIAL, BeginStop(c));
    var s2 := Next(s1, CancelSignal(c));
    var s3 := Next(s2, EnsureStarted);
    assert run[..0] == [] && run[..1][..0] == [] && Execute(run[..1]) == s1;
    assert run[..2][..1] == run[..1] && Execute(run[..2]) == s2;
    assert run[..3][..2] == run[..2] && Execute(run[..3]) == s3;
    assert Execute(run) == Next(s3, EndStop(c));
    assert Unfinished(Execute(run), 0) && !InSlot(Execute(run), 0);
  }

  /** A start between the halves of a stop leaves two workers, and the timed-out stop then cuts off the newer. */
  lemma OverlapLosesAWorker(c: nat)
    ensures var two := Execute([EnsureStarted, BeginStop(c), CancelSignal(c), EnsureStarted]);
            && Unfinished(two, 0) && Unfinished(two, 1)
            && var lost := Execute([EnsureStarted, BeginStop(c), CancelSignal(c), EnsureStarted, Look(c), EndStop(c)]);
            lost.stops == map[] && Unfinished(lost, 1) && !lost.workers[1].cancelled && Lost(lost, 1)
  {
    var run := [EnsureStarted, BeginStop(c), CancelSignal(c), EnsureStarted, Look(c), EndStop(c)];
    var s1 := Next(INITIAL, EnsureStarted);
    var s2 := Next(s1, BeginStop(c));
    var s3 := Next(s2, CancelSignal(c));
    var s4 := Next(s3, EnsureStarted);
    var s5 := Next(s4, Look(c));
    assert run[..0] == [] && run[..1][..0] == [] && Execute(run[..1]) == s1;
    assert run[..2][..1] == run[..1] && Execute(run[..2]) == s2;
    assert run[..3][..2] == run[..2] && Execute(run[..3]) == s3;
    assert run[..4][..3] == run[..3] && Execute(run[..4]) == s4;
    assert run[..5][..4] == run[..4] && Execute(run[..5]) == s5;
    assert run[..4] == [EnsureStarted, BeginStop(c), CancelSignal(c), EnsureStarted];
    assert Execute(run) == Next(s5, EndStop(c));
  }

  lemma UnsignalledStep(s: System, w: nat, a: Action)
    requires Unsignalled(s, w) && Enabled(s, a)
    ensures Unsignalled(Next(s, a), w) && Next(s, a).workers[w].cancelled == s.workers[w].cancelled
  {}

  /** Whatever is called afterwards, a worker whose signal was dropped is never cancelled. */
  lemma {:induction false} UnsignalledWorkerIsNeverCancelled(schedule: seq<Action>, more: seq<Action>, w: nat)
    requires Unsignalled(Execute(schedule), w)
    ensures var after := Execute(schedule + more);
            Unsignalled(after, w) && after.workers[w].cancelled == Execute(schedule).workers[w].cancelled
  {
    if more == [] {
      assert schedule + more == schedule;
    } else {
      var front := more[..|more| - 1];
      var run := schedule + more;
      UnsignalledWorkerIsNeverCancelled(schedule, front, w);
      assert run[..|run| - 1] == schedule + front && run[|run| - 1] == more[|more| - 1];
      if Enabled(Execute(schedule + front), more[|more| - 1]) {
        UnsignalledStep(Execute(schedule + front), w, more[|more| - 1]);
      }
    }
  }

  lemma LostStep(s: System, w: nat, a: Action)
    requires Lost(s, w) && Enabled(s, a)
    ensures Lost(Next(s, a), w)
  {}

  /** A worker whose handle is gone too is, moreover, never joined. */
  lemma {:induction false} LostWorkerIsNeverJoined(schedule: seq<Action>, more: seq<Action>, w: nat)
    requires Lost(Execute(schedule), w)
    ensures Lost(Execute(schedule + more), w)
  {
    if more == [] {
      assert schedule + more == schedule;
    } else {
      var front := more[..|more| - 1];
      var run := schedule + more;
      LostWorkerIsNeverJoined(schedule, front, w);
      assert run[..|run| - 1] == schedule + front && run[|run| - 1] == more[|more| - 1];
      if Enabled(Execute(schedule + front), more[|more| - 1]) {
        LostStep(Execute(schedule + front), w, more[|more| - 1]);
      }
    }
  }
}
