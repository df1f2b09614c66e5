/** The scheduler host's wake signal: a flag pair under a mutex, a condition variable, and one waiting worker. */
module WakeSignal {
  import opened Wrappers

  datatype Reason =
    StatusReconciliation | SamplerDue | Cancellation | StopRequested | ShutdownRequested | OtherReason(code: nat)

  datatype Outcome = Cancelled(reason: Reason) | Woken(reason: Reason) | TimedOut

  datatype Signal = Signal(cancelled: bool, pendingWake: bool, reason: Reason)

  const NEW_SIGNAL := Signal(false, false, StatusReconciliation)

  // ---------- The critical sections ----------

  function Notified(s: Signal, reason: Reason): Signal {
    if s.cancelled then s else s.(pendingWake := true, reason := reason)
  }

  function CancelledBy(s: Signal, reason: Reason): Signal {
    Signal(true, true, reason)
  }

  /** What a look at the flags returns, if anything, and the flags after it. */
  function Look(s: Signal): (Option<Outcome>, Signal) {
    if s.cancelled then (Some(Cancelled(s.reason)), s)
    else if s.pendingWake then (Some(Woken(s.reason)), s.(pendingWake := false))
    else (None, s)
  }

  /** The look after the condition variable let go, with or without its time being up. */
  function LookAgain(s: Signal, timedOut: bool): (Outcome, Signal) {
    var (seen, after) := Look(s);
    if seen.Some? then (seen.value, after)
    else (if timedOut then TimedOut else Woken(StatusReconciliation), after)
  }

  /** The signal object; a wait is two critical sections with the condition variable between them. */
  class TaskSignal {
    var cancelled: bool
    var pendingWake: bool
    var reason: Reason

    function View(): Signal
      reads this
    {
      Signal(cancelled, pendingWake, reason)
    }

    constructor ()
      ensures View() == NEW_SIGNAL
    {
      cancelled, pendingWake, reason := false, false, StatusReconciliation;
    }

    method Notify(r: Reason)
      modifies this
      ensures View() == Notified(old(View()), r)
    {
      if !cancelled {
        pendingWake := true;
        reason := r;
      }
    }

    method Cancel(r: Reason)
      modifies this
      ensures View() == CancelledBy(old(View()), r)
    {
      cancelled := true;
      pendingWake := true;
      reason := r;
    }

    method EnterWait() returns (seen: Option<Outcome>)
      modifies this
      ensures (seen, View()) == Look(old(View()))
    {
      if cancelled { return Some(Cancelled(reason)); }
      if pendingWake {
        pendingWake := false;
        return Some(Woken(reason));
      }
      return None;
    }

    method ResumeWait(timedOut: bool) returns (outcome: Outcome)
      modifies this
      ensures (outcome, View()) == LookAgain(old(View()), timedOut)
    {
      if cancelled { return Cancelled(reason); }
      if pendingWake {
        pendingWake := false;
        return Woken(reason);
      }
      if timedOut { return TimedOut; }
      return Woken(StatusReconciliation);
    }
  }

  // ---------- Interleavings ----------

  datatype Event =
    | Notify(reason: Reason)
    | Cancel(reason: Reason)
    | Return(outcome: Outcome, spurious: bool)

  /** `signalled` says that the condition variable was notified since the worker blocked on it. */
  datatype System = System(signal: Signal, blocked: bool, signalled: bool, history: seq<Event>)

  const INITIAL := System(NEW_SIGNAL, false, false, [])

  datatype Action = DoNotify(reason: Reason) | DoCancel(reason: Reason) | Enter | Resume(timedOut: bool)

  predicate Enabled(s: System, a: Action) {
    match a
    case DoNotify(_) => true
    case DoCancel(_) => true
    case Enter => !s.blocked
    case Resume(_) => s.blocked
  }

  /** A resumption that is neither signalled nor due to time is a spurious one, which the library allows. */
  function Next(s: System, a: Action): System
    requires Enabled(s, a)
  {
    match a
    case DoNotify(reason) =>
      s.(signal := Notified(s.signal, reason), signalled := true, history := s.history + [Notify(reason)])
    case DoCancel(reason) =>
      s.(signal := CancelledBy(s.signal, reason), signalled := true, history := s.history + [Cancel(reason)])
    case Enter =>
      var (seen, after) := Look(s.signal);
      if seen.Some? then s.(signal := after, history := s.history + [Return(seen.value, false)])
      else s.(signal := after, blocked := true, signalled := false)
    case Resume(timedOut) =>
      var (outcome, after) := LookAgain(s.signal, timedOut);
      s.(signal := after, blocked := false,
      history := s.history + [Return(outcome, !timedOut && !s.signalled)])
  }

  function Execute(schedule: seq<Action>): System {
    if schedule == [] then INITIAL
    else
      var before := Execute(schedule[..|schedule| - 1]);
      var a := schedule[|schedule| - 1];
      if Enabled(before, a) then Next(before, a) else before
  }

  // ---------- What each return must be ----------

  datatype Kind = AnyCancel | AnyNotify | AnyReturn

  predicate Is(kind: Kind, e: Event) {
    match kind
    case AnyCancel => e.Cancel?
    case AnyNotify => e.Notify?
    case AnyReturn => e.Return?
  }

  /** The last of the first n events that is of a kind, or -1. */
  function LastIndex(history: seq<Event>, n: nat, kind: Kind): (i: int)
    requires n <= |history|
    ensures -1 <= i < n
    ensures i >= 0 ==> Is(kind, history[i])
    ensures forall j :: i < j < n ==> !Is(kind, history[j])
  {
    if n == 0 then -1
    else if Is(kind, history[n - 1]) then n - 1
    else LastIndex(history, n - 1, kind)
  }

  /** A return is fixed by the history before it, but for a wait that nothing happened to. */
  predicate Justified(history: seq<Event>, k: nat)
    requires k < |history| && history[k].Return?
  {
    var cancel := LastIndex(history, k, AnyCancel);
    var notify := LastIndex(history, k, AnyNotify);
    var earlier := LastIndex(history, k, AnyReturn);
    if cancel >= 0 then history[k].outcome == Cancelled(history[cancel].reason)
    else if notify > earlier then history[k].outcome == Woken(history[notify].reason)
    else if history[k].spurious then history[k].outcome == Woken(StatusReconciliation)
    else history[k].outcome == TimedOut
  }

  predicate AllJustified(history: seq<Event>) {
    forall k :: 0 <= k < |history| && history[k].Return? ==> Justified(history, k)
  }

  // ---------- The invariant ----------

  /** The flags are what the history says they are. */
  predicate FlagsFit(signal: Signal, history: seq<Event>) {
    var cancel := LastIndex(history, |history|, AnyCancel);
    var notify := LastIndex(history, |history|, AnyNotify);
    var earlier := LastIndex(history, |history|, AnyReturn);
    if signal.cancelled then cancel >= 0 && signal.reason == history[cancel].reason
    else
      && cancel < 0
      && (signal.pendingWake <==> notify > earlier)
      && (signal.pendingWake ==> signal.reason == history[notify].reason)
  }

  predicate Inv(s: System) {
    && FlagsFit(s.signal, s.history)
    && (s.blocked ==> (s.signalled <==> s.signal.pendingWake || s.signal.cancelled))
    && AllJustified(s.history)
  }

  lemma {:induction false} LastIndexOfPrefix(history: seq<Event>, more: seq<Event>, n: nat, kind: Kind)
    requires n <= |history|
    ensures LastIndex(history + more, n, kind) == LastIndex(history, n, kind)
  {
    if n > 0 { LastIndexOfPrefix(history, more, n - 1, kind); }
  }

  lemma Appended(history: seq<Event>, e: Event, kind: Kind)
    ensures LastIndex(history + [e], |history|, kind) == LastIndex(history, |history|, kind)
    ensures LastIndex(history + [e], |history| + 1, kind)
            == if Is(kind, e) then |history| else LastIndex(history, |history|, kind)
  {
    LastIndexOfPrefix(history, [e], |history|, kind);
  }

  lemma AppendKeepsFlags(signal: Signal, history: seq<Event>, e: Event, after: Signal)
    requires FlagsFit(signal, history)
    requires match e
             case Notify(reason) => after == Notified(signal, reason)
             case Cancel(reason) => after == CancelledBy(signal, reason)
             case Return(_, _) => after == if signal.cancelled then signal else signal.(pendingWake := false)
    ensures FlagsFit(after, history + [e])
  {
    Appended(history, e, AnyCancel);
    Appended(history, e, AnyNotify);
    Appended(history, e, AnyReturn);
  }

  lemma ReturnIsJustified(signal: Signal, history: seq<Event>, outcome: Outcome, spurious: bool)
    requires FlagsFit(signal, history)
    requires if Look(signal).0.Some? then outcome == Look(signal).0.value
             else outcome == if spurious then Woken(StatusReconciliation) else TimedOut
    ensures Justified(history + [Return(outcome, spurious)], |history|)
  {
    var e := Return(outcome, spurious);
    Appended(history, e, AnyCancel);
    Appended(history, e, AnyNotify);
    Appended(history, e, AnyReturn);
  }

  /** What a return is justified by lies before it. */
  lemma JustifiedByPrefix(history: seq<Event>, e: Event, k: nat)
    requires k < |history| && history[k].Return? && Justified(history, k)
    ensures Justified(history + [e], k)
  {
    LastIndexOfPrefix(history, [e], k, AnyCancel);
    LastIndexOfPrefix(history, [e], k, AnyNotify);
    LastIndexOfPrefix(history, [e], k, AnyReturn);
  }

  lemma AppendKeepsJustified(history: seq<Event>, e: Event)
    requires AllJustified(history) && (e.Return? ==> Justified(history + [e], |history|))
    ensures AllJustified(history + [e])
  {
    var longer := history + [e];
    forall k | 0 <= k < |longer| && longer[k].Return? ensures Justified(longer, k) {
      if k < |history| { JustifiedByPrefix(history, e, k); }
    }
  }

  lemma ReturnKeepsInv(s: System, outcome: Outcome, after: Signal, spurious: bool)
    requires Inv(s) && after == Look(s.signal).1
    requires if Look(s.signal).0.Some? then outcome == Look(s.signal).0.value
             else outcome == if spurious then Woken(StatusReconciliation) else TimedOut
    ensures Inv(s.(signal := after, blocked := false, history := s.history + [Return(outcome, spurious)]))
  {
    AppendKeepsFlags(s.signal, s.history, Return(outcome, spurious), after);
    ReturnIsJustified(s.signal, s.history, outcome, spurious);
    AppendKeepsJustified(s.history, Return(outcome, spurious));
  }

  lemma NextKeepsInv(s: System, a: Action)
    requires Inv(s) && Enabled(s, a)
    ensures Inv(Next(s, a))
  {
    match a
    case DoNotify(reason) =>
      AppendKeepsFlags(s.signal, s.history, Notify(reason), Notified(s.signal, reason));
      AppendKeepsJustified(s.history, Notify(reason));
    case DoCancel(reason) =>
      AppendKeepsFlags(s.signal, s.history, Cancel(reason), CancelledBy(s.signal, reason));
      AppendKeepsJustified(s.history, Cancel(reason));
    case Enter =>
      var (seen, after) := Look(s.signal);
      if seen.Some? { ReturnKeepsInv(s, seen.value, after, false); }
    case Resume(timedOut) =>
      var (outcome, after) := LookAgain(s.signal, timedOut);
      ReturnKeepsInv(s, outcome, after, !timedOut && !s.signalled);
  }

  /**
   * Under every interleaving of notifications, cancellations and waits: once cancelled, every return is
   * Cancelled with the last cancellation's reason; a notification since the last return yields exactly one
   * Woken, with the last notification's reason; TimedOut is returned only when nothing was pending.
   */
  lemma {:induction false} EveryReturnIsJustified(schedule: seq<Action>)
    ensures Inv(Execute(schedule)) && AllJustified(Execute(schedule).history)
  {
    if schedule != [] {
      var before := Execute(schedule[..|schedule| - 1]);
      EveryReturnIsJustified(schedule[..|schedule| - 1]);
      var a := schedule[|schedule| - 1];
      if Enabled(before, a) { NextKeepsInv(before, a); }
    }
  }

  /** A wake is never lost to a blocked worker: if anything is pending, its condition variable was signalled. */
  lemma NoWakeIsLost(schedule: seq<Action>)
    ensures var s := Execute(schedule);
            && (s.blocked && (s.signal.pendingWake || s.signal.cancelled) ==> s.signalled)
            && (s.blocked && s.signalled ==> Look(s.signal).0.Some?)
  {
    EveryReturnIsJustified(schedule);
  }

  /** Two returns with nothing between them cannot both answer the same notification. */
  lemma OneWakePerBurst(schedule: seq<Action>, j: nat, k: nat)
    requires var h := Execute(schedule).history;
             && j < k < |h| && h[j].Return? && h[k].Return?
             && forall i :: j < i < k ==> !h[i].Notify?
    requires forall i :: 0 <= i < k ==> !Execute(schedule).history[i].Cancel?
    ensures var h := Execute(schedule).history;
            h[k].outcome == if h[k].spurious then Woken(StatusReconciliation) else TimedOut
  {
    EveryReturnIsJustified(schedule);
    var h := Execute(schedule).history;
    assert Justified(h, k);
  }
}
