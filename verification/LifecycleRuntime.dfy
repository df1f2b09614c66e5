/** The owner object as the program has it: fields that its methods update, one call at a time. */
module LifecycleRuntime {
  import opened Wrappers
  import opened LifecycleCalls

  /** Each method is proved to do what `Perform` does; its last argument is what the outside answers. */
  class ServiceOwnedRuntime {
    const profile: Profile
    const owner: Owner
    var status: Status
    var sender: Option<nat>
    var handle: Option<nat>

    function View(): Runtime
      reads this
    {
      Runtime(profile, owner, status, sender, handle)
    }

    constructor (profile: Profile, owner: Owner, fallback: Fallback)
      ensures View() == New(profile, owner, fallback)
    {
      this.profile := profile;
      this.owner := owner;
      status := New(profile, owner, fallback).status;
      sender, handle := None, None;
    }

    method ApplyRuntimeOutcome(o: Outcome)
      modifies this`status
      ensures status == LifecycleCalls.ApplyRuntimeOutcome(old(status), o)
    {
      status := status.(collection := CollectionOf(o));
      status := status.(events := EventsOf(o));
      status := status.(notes := status.notes.(degradedReason := o.degradedReason));
    }

    method ApplyOutcome(reply: Reply, success: Lifecycle, countGeneration: bool)
      modifies this`status
      ensures status == LifecycleCalls.ApplyOutcome(old(status), reply, success, countGeneration)
    {
      match reply {
        case Ok(o) =>
          status := status.(lifecycle := success);
          status := status.(session := SessionOf(o.state));
          ApplyRuntimeOutcome(o);
          if countGeneration && OpensSession(o) {
            status := status.(tally := status.tally.(generation := Bump(status.tally.generation)));
          }
        case Err(reason) =>
          status := status.(lifecycle := Degraded, session := SessionUnavailable, collection := JOINED);
          status := status.(notes := status.notes.(degradedReason := Some(reason)));
      }
    }

    method Audit(entry: string)
      modifies this`status
      ensures status == old(status).(notes := Audited(old(status.notes), entry))
    {
      status := status.(notes := Audited(status.notes, entry));
    }

    /** What every command stores before it is sent. */
    method BeginCommand(transit: Lifecycle, refs: seq<string>, fallback: Fallback)
      modifies this`status
      ensures status == LifecycleCalls.BeginCommand(profile, old(status), transit, refs, fallback)
    {
      status := status.(lifecycle := transit);
      status := status.(authorizationRefs := BoundedRefs(refs));
      if profile.kind == Etw { status := status.(notes := status.notes.(fallback := fallback)); }
    }

    method BeginActivation(refs: seq<string>, fallback: Fallback)
      modifies this`status
      ensures status == LifecycleCalls.BeginActivation(profile, old(status), refs, fallback)
    {
      BeginCommand(Activating, refs, fallback);
      status := status.(authorization := Authorized);
      status := status.(threadJoined := false);
    }

    method FinishActivation(started: Reply)
      modifies this`status
      ensures status == LifecycleCalls.FinishActivation(profile, old(status), started)
    {
      status := status.(threadActive := true);
      ApplyOutcome(started, Active, true);
      status := status.(tally := status.tally.(activations := Bump(status.tally.activations)));
      Audit(profile.activationEntry);
    }

    method FinishPause(o: Outcome)
      modifies this`status
      ensures status == LifecycleCalls.FinishPause(profile, old(status), o)
    {
      ApplyOutcome(Ok(o), Paused, false);
      status := status.(tally := status.tally.(pauses := Bump(status.tally.pauses)));
      if profile.kind == Etw { Audit(profile.pauseEntry); }
    }

    method FinishResume(o: Outcome)
      modifies this`status
      ensures status == LifecycleCalls.FinishResume(profile, old(status), o)
    {
      ApplyOutcome(Ok(o), Active, true);
      status := status.(tally := status.tally.(resumes := Bump(status.tally.resumes)));
      if profile.kind == Etw { Audit(profile.resumeEntry); }
    }

    method Clear()
      modifies this`status
      ensures status == Cleared(old(status))
    {
      status := status.(lifecycle := Stopped);
      status := status.(session := SessionStopped);
      status := status.(authorization := Invalidated);
      status := status.(threadActive := false, threadJoined := true);
      status := status.(collection := JOINED);
    }

    method StopWithoutThread(refs: seq<string>, fallback: Fallback)
      modifies this`status
      ensures status == LifecycleCalls.StopWithoutThread(profile, old(status), refs, fallback)
    {
      Clear();
      if profile.kind == Etw {
        status := status.(notes := status.notes.(fallback := fallback));
      } else {
        status := status.(notes := status.notes.(degradedReason := Some(profile.stopReason)));
      }
      status := status.(authorizationRefs := BoundedRefs(refs));
    }

    method FinishStop()
      modifies this`status
      ensures status == LifecycleCalls.FinishStop(profile, old(status))
    {
      Clear();
      if profile.kind != Etw { status := status.(authorizationRefs := BoundedRefs(status.authorizationRefs)); }
      status := status.(notes := status.notes.(degradedReason := Some(profile.stopReason)));
      status := status.(tally := status.tally.(stops := Bump(status.tally.stops)));
      Audit(profile.stopEntry);
    }

    method FailStop()
      modifies this`status
      ensures status == LifecycleCalls.FailStop(profile, old(status))
    {
      status := status.(lifecycle := Failed, session := SessionUnavailable);
      status := status.(threadActive := false, threadJoined := false);
      if profile.kind == Etw {
        status := status.(collection := status.collection.(traceSession := false, workerActive := false));
      }
      status := status.(notes := status.notes.(degradedReason := Some(profile.joinReason)));
    }

    function Checked(value: Returned): CallResult
      reads this
    {
      Report(View(), Ending.Checked(value))
    }

    method Activate(ctx: Owner, refs: seq<string>, fallback: Fallback, env: Env) returns (result: CallResult)
      modifies this
      ensures var (after, ending) := Perform(old(View()), Call.Activate(ctx, refs, fallback), env);
              View() == after && result == Report(after, ending)
    {
      var refused := OwnerError(View(), ctx);
      if refused.Some? { return Err(refused.value); }
      if handle.Some? && status.lifecycle in {Active, Degraded} { return Ok(StatusReturned(status)); }
      BeginActivation(refs, fallback);
      if env.started.None? { return Err(StartFailed); }
      sender := Some(env.spawned);
      handle := Some(env.spawned);
      FinishActivation(env.started.value);
      return Checked(StatusReturned(status));
    }

    method Pause(ctx: Owner, refs: seq<string>, fallback: Fallback, env: Env) returns (result: CallResult)
      modifies this
      ensures var (after, ending) := Perform(old(View()), Call.PauseCall(ctx, refs, fallback), env);
              View() == after && result == Report(after, ending)
    {
      var refused := OwnerError(View(), ctx);
      if refused.Some? { return Err(refused.value); }
      if status.lifecycle == Paused { return Ok(StatusReturned(status)); }
      BeginCommand(Pausing, refs, fallback);
      var sent := SendResult(sender, env.answer);
      if sent.Err? { return Err(sent.error); }
      FinishPause(sent.value);
      return Checked(StatusReturned(status));
    }

    method Resume(ctx: Owner, refs: seq<string>, fallback: Fallback, env: Env) returns (result: CallResult)
      modifies this
      ensures var (after, ending) := Perform(old(View()), Call.ResumeCall(ctx, refs, fallback), env);
              View() == after && result == Report(after, ending)
    {
      var refused := OwnerError(View(), ctx);
      if refused.Some? { return Err(refused.value); }
      if status.lifecycle == Active { return Ok(StatusReturned(status)); }
      BeginCommand(Resuming, refs, fallback);
      var sent := SendResult(sender, env.answer);
      if sent.Err? { return Err(sent.error); }
      FinishResume(sent.value);
      return Checked(StatusReturned(status));
    }

    method StopInternal(refs: seq<string>, fallback: Fallback, env: Env) returns (result: CallResult)
      modifies this
      ensures var (after, ending) := DoStop(old(View()), refs, fallback, env);
              View() == after && result == Report(after, ending)
    {
      if handle.None? {
        StopWithoutThread(refs, fallback);
        return Checked(StatusReturned(status));
      }
      BeginCommand(Stopping, refs, fallback);
      var sent := SendResult(sender, env.answer);
      if sent.Err? { return Err(sent.error); }
      ApplyRuntimeOutcome(sent.value);
      sender := None;
      handle := None;
      if !env.joined {
        FailStop();
        return Err(JoinFailed);
      }
      FinishStop();
      return Checked(StatusReturned(status));
    }

    method Stop(ctx: Owner, refs: seq<string>, fallback: Fallback, env: Env) returns (result: CallResult)
      modifies this
      ensures var (after, ending) := Perform(old(View()), Call.StopCall(ctx, refs, fallback), env);
              View() == after && result == Report(after, ending)
    {
      var refused := OwnerError(View(), ctx);
      if refused.Some? { return Err(refused.value); }
      result := StopInternal(refs, fallback, env);
    }

    method ShutdownJoin(fallback: Fallback, env: Env) returns (result: CallResult)
      modifies this
      ensures var (after, ending) := Perform(old(View()), Call.Shutdown(fallback), env);
              View() == after && result == Report(after, ending)
    {
      result := StopInternal(SHUTDOWN_REFS, fallback, env);
    }

    method DrainLiveBatches(ctx: Owner, maxBatches: nat, env: Env) returns (result: CallResult)
      modifies this
      ensures var (after, ending) := Perform(old(View()), Call.DrainCall(ctx, maxBatches), env);
              View() == after && result == Report(after, ending)
    {
      var refused := OwnerError(View(), ctx);
      if refused.Some? { return Err(refused.value); }
      if status.lifecycle != Active { return Ok(BatchesReturned([])); }
      var sent := SendResult(sender, env.answer);
      if sent.Err? { return Err(sent.error); }
      ApplyOutcome(Ok(sent.value), Active, false);
      return Checked(BatchesReturned(sent.value.batches));
    }

    method RecordLiveHandoff(ctx: Owner, batches: u32, publications: u32, facts: u32, env: Env)
      returns (result: CallResult)
      modifies this
      ensures var (after, ending) := Perform(old(View()), Call.RecordHandoff(ctx, batches, publications, facts), env);
              View() == after && result == Report(after, ending)
    {
      var refused := OwnerError(View(), ctx);
      if refused.Some? { return Err(refused.value); }
      status := status.(handoff := status.handoff.(batches := SaturatingAdd(status.handoff.batches, batches)));
      status := status.(
      handoff := status.handoff.(publications := SaturatingAdd(status.handoff.publications, publications)));
      status := status.(handoff := status.handoff.(facts := SaturatingAdd(status.handoff.facts, facts)));
      return Checked(StatusReturned(status));
    }
  }
}
