/** What callers can rely on in every schedule: strangers reach no thread, and a drain hands over what was drained. */
module LifecycleCallers {
  import opened Wrappers
  import opened LifecycleCalls
  import opened LifecycleInvariants
  import opened LifecycleThreads
  import opened LifecycleProtocol
  import opened LifecycleTheorems

  // ---------- Strangers ----------

  /** A context with another category, service ownership, reference or epoch than the owner's. */
  predicate Stranger(owner: Owner, ctx: Owner) {
    || ctx.category != ServiceHost || !ctx.serviceOwned
    || ctx.ownershipRef != owner.ownershipRef || ctx.ownershipEpoch != owner.ownershipEpoch
  }

  /** Every activation in the schedule comes from a stranger. */
  predicate OnlyStrangersActivate(owner: Owner, schedule: seq<Action>) {
    forall i :: 0 <= i < |schedule| && schedule[i].Begin? && schedule[i].call.Activate? ==>
                  Stranger(owner, schedule[i].call.ctx)
  }

  predicate Threadless(s: System) { s.threads == [] && s.waiting.Idle? && s.runtime.sender.None? }

  lemma ThreadlessStep(s: System, a: Action)
    requires Inv(s) && Threadless(s) && Enabled(s, a)
    requires a.Begin? && a.call.Activate? ==> Stranger(s.runtime.owner, a.call.ctx)
    ensures Threadless(Next(s, a)) && Next(s, a).runtime.owner == s.runtime.owner
  {
    ReplayConsistent(s.start, s.history);
    OpeningKeepsSlot(s.runtime, a.call);
    OpeningKeepsOwner(s.runtime, a.call);
  }

  /** In a schedule in which only strangers activate, no thread is ever spawned, so no adapter is ever called. */
  lemma {:induction false} StrangersSpawnNothing(
    profile: Profile, owner: Owner, fallback: Fallback, schedule: seq<Action>)
    requires OnlyStrangersActivate(owner, schedule)
    ensures var s := Execute(Initial(profile, owner, fallback), schedule);
            Inv(s) && Threadless(s) && s.runtime.owner == owner
  {
    InitialInv(profile, owner, fallback);
    if schedule != [] {
      var before := Execute(Initial(profile, owner, fallback), Front(schedule));
      var a := Last(schedule);
      assert a == schedule[|schedule| - 1];
      StrangersSpawnNothing(profile, owner, fallback, Front(schedule));
      if Enabled(before, a) {
        NextKeepsInv(before, a);
        ThreadlessStep(before, a);
      }
    }
  }

  /** Whatever state an owner is in, a stranger's call changes nothing but the record that it was made. */
  lemma StrangerChangesNothing(s: System, call: Call)
    requires s.waiting.Idle? && !call.Shutdown? && Stranger(s.runtime.owner, call.ctx)
    ensures var after := BeginNext(s, call);
            && after.runtime == s.runtime && after.threads == s.threads && after.waiting.Idle?
            && after.replies == s.replies && after.requests == s.requests
            && after.last.Some? && after.last.value in {Fails(OwnerMismatch), Fails(StaleEpoch)}
  {}

  // ---------- Drains ----------

  /** An adapter returned the outcome from a drain of so many batches. */
  ghost predicate Drained(th: Thread, maxBatches: nat, o: Outcome) {
    exists id: nat :: Entry(CommandCall(Drain(maxBatches)), Some(id), Some(Ok(o))) in th.trace
  }

  ghost predicate SomeDrained(s: System, maxBatches: nat, o: Outcome) {
    exists t: nat :: t < |s.threads| && Drained(s.threads[t], maxBatches, o)
  }

  /** What the call at a position of the history returned to its caller. */
  function ResultAt(s: System, i: nat): CallResult
    requires i < |s.history|
  {
    var (after, ending) := Perform(Replay(s.start, s.history[..i]), s.history[i].call, s.history[i].env);
    Report(after, ending)
  }

  /**
   * A drain that returned Ok found the runtime not Active and returned nothing, or it returned exactly the batches
   * of an outcome with which an adapter answered a drain of as many batches as the caller asked for.
   */
  ghost predicate DrainTold(s: System, i: nat)
    requires i < |s.history|
  {
    var call := s.history[i].call;
    call.DrainCall? && ResultAt(s, i).Ok? ==>
      if Replay(s.start, s.history[..i]).status.lifecycle != Active then ResultAt(s, i).value == BatchesReturned([])
      else
        exists o :: SomeDrained(s, call.maxBatches, o) && ResultAt(s, i).value == BatchesReturned(o.batches)
  }

  ghost predicate DrainsTold(s: System) { forall i: nat :: i < |s.history| ==> DrainTold(s, i) }

  /** No thread forgets an adapter call, and no call is taken out of the history. */
  predicate Extends(s: System, after: System) {
    && s.start == after.start && s.history <= after.history && |s.threads| <= |after.threads|
    && forall t :: 0 <= t < |s.threads| ==> s.threads[t].trace <= after.threads[t].trace
  }

  lemma NextExtends(s: System, a: Action)
    requires Enabled(s, a)
    ensures Extends(s, Next(s, a))
  {}

  lemma DrainedStays(s: System, after: System, maxBatches: nat, o: Outcome)
    requires Extends(s, after) && SomeDrained(s, maxBatches, o)
    ensures SomeDrained(after, maxBatches, o)
  {
    var t: nat :| t < |s.threads| && Drained(s.threads[t], maxBatches, o);
    var id: nat :| Entry(CommandCall(Drain(maxBatches)), Some(id), Some(Ok(o))) in s.threads[t].trace;
    assert Entry(CommandCall(Drain(maxBatches)), Some(id), Some(Ok(o))) in after.threads[t].trace;
    assert Drained(after.threads[t], maxBatches, o);
  }

  lemma ToldStays(s: System, after: System, i: nat)
    requires Extends(s, after) && i < |s.history| && DrainTold(s, i)
    ensures DrainTold(after, i)
  {
    assert after.history[..i] == s.history[..i] && after.history[i] == s.history[i];
    var call := s.history[i].call;
    if call.DrainCall? && ResultAt(s, i).Ok? && Replay(s.start, s.history[..i]).status.lifecycle == Active {
      var o :| SomeDrained(s, call.maxBatches, o) && ResultAt(s, i).value == BatchesReturned(o.batches);
      DrainedStays(s, after, call.maxBatches, o);
    }
  }

  /** The drain just completed tells what the adapter returned for this very request. */
  lemma DrainCompletes(s: System)
    requires Inv(s) && Enabled(s, TakeReply) && s.waiting.call.DrainCall?
    ensures var after := TakeReplyNext(s);
            && s.waiting.request.command == Drain(s.waiting.call.maxBatches)
            && s.runtime.status.lifecycle == Active && after.waiting.Idle? && after.last.Some?
            && match AnswerTaken(s)
               case Answered(reply) =>
                 && Entry(CommandCall(Drain(s.waiting.call.maxBatches)), Some(s.waiting.request.id), Some(reply))
                    in s.threads[s.waiting.thread].trace
                 && after.last.value
                    == (match reply
                        case Ok(o) => Checked(BatchesReturned(o.batches))
                        case Err(reason) => Fails(AdapterError(reason)))
               case ResponseLost => after.last.value == Fails(ResponseUnavailable)
               case SendRejected => false
  {
    ReplayConsistent(s.start, s.history);
    OpeningKeepsSlot(Replay(s.start, s.history), s.waiting.call);
    ReplyIsOwn(s);
  }

  /** What a drain without a reply returns. */
  lemma DrainBegun(s: System, call: Call)
    requires Inv(s) && s.waiting.Idle? && call.DrainCall? && BeginNext(s, call).waiting.Idle?
    ensures var after := BeginNext(s, call);
            && |after.history| == |s.history| + 1 && after.last.Some?
            && (s.runtime.status.lifecycle != Active ==>
                  && after.runtime == s.runtime && after.threads == s.threads && after.requests == s.requests
                  && (after.last.value.Fails? || after.last.value == Returns(BatchesReturned([]))))
            && (s.runtime.status.lifecycle == Active ==> after.last.value.Fails?)
  {
    ReplayConsistent(s.start, s.history);
    OpeningKeepsSlot(s.runtime, call);
  }

  /** What the last call returned stands in the owner's last result. */
  lemma LastResult(s: System)
    requires Inv(s) && s.waiting.Idle? && s.history != []
    ensures s.last.Some? && ResultAt(s, |s.history| - 1) == Report(s.runtime, s.last.value)
  {
    assert s.history[..|s.history| - 1] == Front(s.history);
  }

  lemma LastTold(s: System, a: Action)
    requires Inv(s) && Enabled(s, a) && |Next(s, a).history| == |s.history| + 1
    ensures DrainTold(Next(s, a), |s.history|)
  {
    var after := Next(s, a);
    var n := |s.history|;
    NextKeepsInv(s, a);
    NextExtends(s, a);
    assert after.history[..n] == s.history;
    LastResult(after);
    if after.history[n].call.DrainCall? && ResultAt(after, n).Ok? {
      match a
      case Begin(call) => DrainBegun(s, call);
      case TakeReply => DrainReplyTold(s);
      case _ => CompletesNoDrain(s, a);
    }
  }

  lemma CompletesNoDrain(s: System, a: Action)
    requires Inv(s) && Enabled(s, a) && (a.TakeStart? || a.TakeJoin?)
    ensures !s.waiting.call.DrainCall?
  {
  }

  /** The adapter's answer stands in the trace. */
  lemma AnswerIsDrained(s: System, o: Outcome)
    requires Inv(s) && Enabled(s, TakeReply) && s.waiting.call.DrainCall? && AnswerTaken(s) == Answered(Ok(o))
    ensures SomeDrained(s, s.waiting.call.maxBatches, o)
  {
    DrainCompletes(s);
    assert Drained(s.threads[s.waiting.thread], s.waiting.call.maxBatches, o);
  }

  lemma DrainReplyTold(s: System)
    requires Inv(s) && Enabled(s, TakeReply) && s.waiting.call.DrainCall?
    requires Report(TakeReplyNext(s).runtime, TakeReplyNext(s).last.value).Ok?
    ensures Replay(s.start, s.history).status.lifecycle == Active
    ensures exists o :: SomeDrained(TakeReplyNext(s), s.waiting.call.maxBatches, o)
                        && Report(TakeReplyNext(s).runtime, TakeReplyNext(s).last.value).value
                           == BatchesReturned(o.batches)
  {
    DrainCompletes(s);
    DrainedWhileActive(s);
    var o := AnswerTaken(s).reply.value;
    AnswerIsDrained(s, o);
    NextExtends(s, TakeReply);
    DrainedStays(s, TakeReplyNext(s), s.waiting.call.maxBatches, o);
  }

  /** A drain is under way only on a runtime that was Active when it began. */
  lemma DrainedWhileActive(s: System)
    requires Inv(s) && s.waiting.AwaitReply? && s.waiting.call.DrainCall?
    ensures Replay(s.start, s.history).status.lifecycle == Active
  {}

  lemma NextTold(s: System, a: Action)
    requires Inv(s) && DrainsTold(s) && Enabled(s, a)
    ensures DrainsTold(Next(s, a))
  {
    var after := Next(s, a);
    NextExtends(s, a);
    HistoryGrowsByOne(s, a);
    forall i: nat | i < |after.history| ensures DrainTold(after, i) {
      if i < |s.history| { ToldStays(s, after, i); } else { LastTold(s, a); }
    }
  }

  lemma HistoryGrowsByOne(s: System, a: Action)
    requires Enabled(s, a)
    ensures |Next(s, a).history| <= |s.history| + 1
  {}

  /** In every schedule, every drain that returned Ok returned what an adapter drained for it, and nothing else. */
  lemma {:induction false} DrainsHandOver(profile: Profile, owner: Owner, fallback: Fallback, schedule: seq<Action>)
    ensures var s := Execute(Initial(profile, owner, fallback), schedule); Inv(s) && DrainsTold(s)
  {
    InitialInv(profile, owner, fallback);
    if schedule != [] {
      var s := Execute(Initial(profile, owner, fallback), Front(schedule));
      var a := Last(schedule);
      DrainsHandOver(profile, owner, fallback, Front(schedule));
      if Enabled(s, a) {
        NextKeepsInv(s, a);
        NextTold(s, a);
      }
    }
  }
}
