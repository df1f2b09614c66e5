/** What the owner's calls leave behind: whom they let in, what they return, and what every field then says. */
module LifecycleEffects {
  import opened Wrappers
  import opened LifecycleCalls
  import opened LifecycleInvariants

  // ---------- Whose calls are let in ----------

  predicate SameName(owner: Owner, ctx: Owner) {
    ctx.category == ServiceHost && ctx.serviceOwned && ctx.ownershipRef == owner.ownershipRef
  }

  predicate SameOwner(owner: Owner, ctx: Owner) {
    SameName(owner, ctx) && ctx.ownershipEpoch == owner.ownershipEpoch
  }

  predicate LetIn(r: Runtime, call: Call) { call.Shutdown? || SameOwner(r.owner, call.ctx) }

  /** Category, service ownership and reference come first, then the epoch; a caller turned away changes nothing. */
  lemma OwnerIsChecked(r: Runtime, call: Call, env: Env)
    requires !call.Shutdown?
    ensures Perform(r, call, env).1 == Fails(OwnerMismatch)
            <==> || call.ctx.category != ServiceHost || !call.ctx.serviceOwned
                 || call.ctx.ownershipRef != r.owner.ownershipRef
    ensures Perform(r, call, env).1 == Fails(StaleEpoch)
            <==> && call.ctx.category == ServiceHost && call.ctx.serviceOwned
                 && call.ctx.ownershipRef == r.owner.ownershipRef
                 && call.ctx.ownershipEpoch != r.owner.ownershipEpoch
    ensures Perform(r, call, env).1 in {Fails(OwnerMismatch), Fails(StaleEpoch)} ==> Perform(r, call, env).0 == r
  {}

  lemma LetInExactlyWhen(r: Runtime, call: Call)
    ensures LetIn(r, call) <==> Refusal(r, call).None?
  {}

  // ---------- What a call hears of its thread ----------

  function OkAnswer(r: Runtime, env: Env): Option<Reply> {
    if r.sender.Some? && env.answer.Answered? && env.answer.reply.Ok? then Some(env.answer.reply) else None
  }

  /** The call goes further than a check: it says in the status what it is about to do. */
  predicate Begins(r: Runtime, call: Call) {
    LetIn(r, call)
    && match call
       case Activate(_, _, _) => r.handle.None? || (r.status.lifecycle != Active && r.status.lifecycle != Degraded)
       case PauseCall(_, _, _) => r.status.lifecycle != Paused
       case ResumeCall(_, _, _) => r.status.lifecycle != Active
       case StopCall(_, _, _) => true
       case Shutdown(_) => true
       case DrainCall(_, _) => false
       case RecordHandoff(_, _, _, _) => false
  }

  /** The reply that makes it into the status: any reply to a start, and an outcome in answer to a command. */
  function Heard(r: Runtime, call: Call, env: Env): Option<Reply> {
    match call
    case Activate(_, _, _) => if Begins(r, call) then env.started else None
    case PauseCall(_, _, _) => if Begins(r, call) then OkAnswer(r, env) else None
    case ResumeCall(_, _, _) => if Begins(r, call) then OkAnswer(r, env) else None
    case StopCall(_, _, _) => if LetIn(r, call) && r.handle.Some? then OkAnswer(r, env) else None
    case Shutdown(_) => if r.handle.Some? then OkAnswer(r, env) else None
    case DrainCall(_, _) => if LetIn(r, call) && r.status.lifecycle == Active then OkAnswer(r, env) else None
    case RecordHandoff(_, _, _, _) => None
  }

  /** The stop of a runtime without a thread, or an acknowledged stop whose thread was joined. */
  predicate Ends(r: Runtime, call: Call, env: Env) {
    IsStop(call) && LetIn(r, call) && (r.handle.None? || (Heard(r, call, env).Some? && env.joined))
  }

  predicate LosesJoin(r: Runtime, call: Call, env: Env) {
    IsStop(call) && Heard(r, call, env).Some? && !env.joined
  }

  // ---------- What a call returns ----------

  /** What a command that got no outcome fails with. */
  predicate SendFails(r: Runtime, env: Env, error: Error) {
    if r.sender.None? then error == ThreadUnavailable
    else
      match env.answer
      case SendRejected => error == CommandRejected
      case ResponseLost => error == ResponseUnavailable
      case Answered(reply) => reply.Err? && error == AdapterError(reply.error)
  }

  /** How a call that was let in ends. */
  predicate EndsWith(r: Runtime, call: Call, env: Env, after: Runtime, ending: Ending) {
    match call
    case Activate(_, _, _) =>
      if !Begins(r, call) then ending == Returns(StatusReturned(r.status))
      else if env.started.None? then ending == Fails(StartFailed)
      else ending == Checked(StatusReturned(after.status))
    case PauseCall(_, _, _) => CommandEndsWith(r, call, env, after, ending)
    case ResumeCall(_, _, _) => CommandEndsWith(r, call, env, after, ending)
    case StopCall(_, _, _) => StopEndsWith(r, env, after, ending)
    case Shutdown(_) => StopEndsWith(r, env, after, ending)
    case DrainCall(_, _) =>
      if r.status.lifecycle != Active then ending == Returns(BatchesReturned([]))
      else if OkAnswer(r, env).None? then ending.Fails? && SendFails(r, env, ending.error)
      else ending == Checked(BatchesReturned(OkAnswer(r, env).value.value.batches))
    case RecordHandoff(_, _, _, _) => ending == Checked(StatusReturned(after.status))
  }

  predicate CommandEndsWith(r: Runtime, call: Call, env: Env, after: Runtime, ending: Ending) {
    if !Begins(r, call) then ending == Returns(StatusReturned(r.status))
    else if OkAnswer(r, env).None? then ending.Fails? && SendFails(r, env, ending.error)
    else ending == Checked(StatusReturned(after.status))
  }

  predicate StopEndsWith(r: Runtime, env: Env, after: Runtime, ending: Ending) {
    if r.handle.None? then ending == Checked(StatusReturned(after.status))
    else if OkAnswer(r, env).None? then ending.Fails? && SendFails(r, env, ending.error)
    else if env.joined then ending == Checked(StatusReturned(after.status))
    else ending == Fails(JoinFailed)
  }

  /** Every call that is let in ends as its answers say, and only a start or an acknowledged stop moves the slot. */
  lemma EndingTells(r: Runtime, call: Call, env: Env)
    requires LetIn(r, call)
    ensures var (after, ending) := Perform(r, call, env); EndsWith(r, call, env, after, ending)
    ensures var (after, ending) := Perform(r, call, env);
            if call.Activate? && Heard(r, call, env).Some?
            then after.sender == Some(env.spawned) && after.handle == Some(env.spawned)
            else if IsStop(call) && Heard(r, call, env).Some? then after.sender.None? && after.handle.None?
            else after.sender == r.sender && after.handle == r.handle
  {
    match call
    case Activate(_, _, _) =>
    case PauseCall(_, _, _) =>
    case ResumeCall(_, _, _) =>
    case StopCall(_, _, _) =>
    case Shutdown(_) =>
    case DrainCall(_, _) =>
    case RecordHandoff(_, _, _, _) =>
  }

  // ---------- What a field says after a call that writes it ----------

  datatype Field =
    | LifecycleField | SessionField | AuthorizationField | ActiveField | JoinedField | CollectionField | EventsField
    | ReasonField | RefsField | FallbackField

  predicate Writes(f: Field, r: Runtime, call: Call, env: Env) {
    match f
    case LifecycleField => Begins(r, call)
    case SessionField => Heard(r, call, env).Some? || Ends(r, call, env)
    case AuthorizationField => (call.Activate? && Begins(r, call)) || Ends(r, call, env)
    case ActiveField =>
      (call.Activate? && Heard(r, call, env).Some?) || Ends(r, call, env) || LosesJoin(r, call, env)
    case JoinedField => (call.Activate? && Begins(r, call)) || Ends(r, call, env) || LosesJoin(r, call, env)
    case CollectionField => Heard(r, call, env).Some? || Ends(r, call, env)
    case EventsField => Heard(r, call, env).Some? && Heard(r, call, env).value.Ok?
    case ReasonField =>
      Heard(r, call, env).Some? || (Ends(r, call, env) && r.profile.kind != Etw)
    case RefsField => Begins(r, call)
    case FallbackField => Begins(r, call) && r.profile.kind == Etw
  }

  predicate ShowsLifecycle(l: Lifecycle, r: Runtime, call: Call, env: Env) {
    match call
    case Activate(_, _, _) =>
      l == (if env.started.None? then Activating else if env.started.value.Ok? then Active else Degraded)
    case PauseCall(_, _, _) => l == (if Heard(r, call, env).Some? then Paused else Pausing)
    case ResumeCall(_, _, _) => l == (if Heard(r, call, env).Some? then Active else Resuming)
    case StopCall(_, _, _) => ShowsStop(l, r, call, env)
    case Shutdown(_) => ShowsStop(l, r, call, env)
    case DrainCall(_, _) => true
    case RecordHandoff(_, _, _, _) => true
  }

  predicate ShowsStop(l: Lifecycle, r: Runtime, call: Call, env: Env) {
    l == (if Ends(r, call, env) then Stopped else if LosesJoin(r, call, env) then Lifecycle.Failed else Stopping)
  }

  predicate NamesState(s: Session, c: ControlState) {
    match c
    case ControlActive => s == SessionActive
    case ControlPaused => s == SessionPaused
    case ControlStopped => s == SessionStopped
    case ControlInactive => s == NotCreated
    case ControlUnavailable => s == SessionUnavailable
  }

  /** The flags are the outcome's; an event log's enabled provider stands for the trace session. */
  predicate ShowsFlags(c: Collection, o: Outcome) {
    && c.provider == o.providerEnabled && c.collecting == o.collectionStarted && c.consumer == o.consumerStarted
    && c.workerActive == o.workerActive && c.workerJoined == o.workerJoined
    && c.traceSession == if o.TraceOutcome? then o.traceSessionCreated else o.providerEnabled
  }

  /** The counts are the outcome's; of an event log's two kinds of observations the more frequent one counts. */
  predicate ShowsCounts(e: Events, o: Outcome) {
    match o
    case TraceOutcome(_, _, _, _, _, _, _, raw, normalized, dropped, rate, schema, _, _) =>
      e.raw == raw && e.normalized == normalized && e.dropped == dropped && e.rateLimited == rate
      && e.schemaRejected == schema
    case EventLogOutcome(_, _, _, _, _, _, raw, auth, remote, dropped, rate, schema, _, _) =>
      && e.raw == raw && e.dropped == dropped && e.rateLimited == rate && e.schemaRejected == schema
      && auth <= e.normalized && remote <= e.normalized && (e.normalized == auth || e.normalized == remote)
  }

  predicate NothingRuns(c: Collection) {
    !c.traceSession && !c.provider && !c.collecting && !c.consumer && !c.workerActive && c.workerJoined
  }

  /** After a failed join the ETW runtime clears two of the outcome's flags. */
  predicate ShowsLostFlags(c: Collection, o: Outcome, kind: Kind) {
    if kind == Etw then
      && c.provider == o.providerEnabled && c.collecting == o.collectionStarted && c.consumer == o.consumerStarted
      && c.workerJoined == o.workerJoined && !c.traceSession && !c.workerActive
    else ShowsFlags(c, o)
  }

  predicate Shows(f: Field, s: Status, r: Runtime, call: Call, env: Env)
    requires Writes(f, r, call, env)
  {
    var heard := Heard(r, call, env);
    match f
    case LifecycleField => ShowsLifecycle(s.lifecycle, r, call, env)
    case SessionField =>
      if Ends(r, call, env) then s.session == SessionStopped
      else if LosesJoin(r, call, env) || heard.value.Err? then s.session == SessionUnavailable
      else NamesState(s.session, heard.value.value.state)
    case AuthorizationField => s.authorization == if call.Activate? then Authorized else Invalidated
    case ActiveField => s.threadActive <==> call.Activate?
    case JoinedField => s.threadJoined <==> Ends(r, call, env)
    case CollectionField =>
      if Ends(r, call, env) || heard.value.Err? then NothingRuns(s.collection)
      else if LosesJoin(r, call, env) then ShowsLostFlags(s.collection, heard.value.value, r.profile.kind)
      else ShowsFlags(s.collection, heard.value.value)
    case EventsField => ShowsCounts(s.events, heard.value.value)
    case ReasonField =>
      s.notes.degradedReason ==
      if Ends(r, call, env) then Some(r.profile.stopReason)
      else if LosesJoin(r, call, env) then Some(r.profile.joinReason)
      else if heard.value.Err? then Some(heard.value.error)
      else heard.value.value.degradedReason
    case RefsField =>
      s.authorizationRefs == BoundedRefs(if call.Shutdown? then ["servicehost_shutdown"] else call.refs)
    case FallbackField => s.notes.fallback == call.fallback
  }

  predicate Kept(f: Field, s: Status, t: Status) {
    match f
    case LifecycleField => s.lifecycle == t.lifecycle
    case SessionField => s.session == t.session
    case AuthorizationField => s.authorization == t.authorization
    case ActiveField => s.threadActive == t.threadActive
    case JoinedField => s.threadJoined == t.threadJoined
    case CollectionField => s.collection == t.collection
    case EventsField => s.events == t.events
    case ReasonField => s.notes.degradedReason == t.notes.degradedReason
    case RefsField => s.authorizationRefs == t.authorizationRefs
    case FallbackField => s.notes.fallback == t.notes.fallback
  }

  predicate Fits(f: Field, r: Runtime, call: Call, env: Env, s: Status) {
    if Writes(f, r, call, env) then Shows(f, s, r, call, env) else Kept(f, r.status, s)
  }

  lemma ShutdownRefs()
    ensures SHUTDOWN_REFS == ["servicehost_shutdown"]
  {
    assert SERVICEHOST_ + SHUTDOWN == "servicehost_shutdown";
  }

  /** What an outcome does to the fields, when a command or a start applies it. */
  lemma AppliedShows(s: Status, o: Outcome, success: Lifecycle, count: bool)
    ensures var t := ApplyOutcome(s, Ok(o), success, count);
            && t.lifecycle == success && NamesState(t.session, o.state) && ShowsFlags(t.collection, o)
            && ShowsCounts(t.events, o) && t.notes == s.notes.(degradedReason := o.degradedReason)
            && t.authorization == s.authorization && t.threadActive == s.threadActive
            && t.threadJoined == s.threadJoined && t.authorizationRefs == s.authorizationRefs
  {}

  lemma RefusedShows(s: Status, reason: string, success: Lifecycle, count: bool)
    ensures var t := ApplyOutcome(s, Err(reason), success, count);
            && t.lifecycle == Degraded && t.session == SessionUnavailable && NothingRuns(t.collection)
            && t.events == s.events && t.notes == s.notes.(degradedReason := Some(reason))
            && t.authorization == s.authorization && t.threadActive == s.threadActive
            && t.threadJoined == s.threadJoined && t.authorizationRefs == s.authorizationRefs
  {}

  /** A start leaves besides its reply only counts and an entry. */
  lemma StartedShows(p: Profile, s: Status, reply: Reply)
    ensures var t := FinishActivation(p, s, reply);
            && t.threadActive && t.authorization == s.authorization && t.threadJoined == s.threadJoined
            && t.authorizationRefs == s.authorizationRefs && t.notes.fallback == s.notes.fallback
            && match reply
               case Ok(o) =>
                 && t.lifecycle == Active && NamesState(t.session, o.state) && ShowsFlags(t.collection, o)
                 && ShowsCounts(t.events, o) && t.notes.degradedReason == o.degradedReason
               case Err(reason) =>
                 && t.lifecycle == Degraded && t.session == SessionUnavailable && NothingRuns(t.collection)
                 && t.events == s.events && t.notes.degradedReason == Some(reason)
  {
    match reply
    case Ok(o) => AppliedShows(s.(threadActive := true), o, Active, true);
    case Err(reason) => RefusedShows(s.(threadActive := true), reason, Active, true);
  }

  lemma ActivateFits(f: Field, r: Runtime, call: Call, env: Env)
    requires call.Activate? && LetIn(r, call)
    ensures Fits(f, r, call, env, DoActivate(r, call.refs, call.fallback, env).0.status)
  {
    if Begins(r, call) && env.started.Some? {
      var begun := BeginActivation(r.profile, r.status, call.refs, call.fallback);
      StartedShows(r.profile, begun, env.started.value);
      assert DoActivate(r, call.refs, call.fallback, env).0.status
          == FinishActivation(r.profile, begun, env.started.value);
    }
  }

  /** A pause or a resume leaves besides its outcome only a count and an entry. */
  lemma FinishedShows(p: Profile, s: Status, o: Outcome)
    ensures var t := FinishPause(p, s, o);
            && t.lifecycle == Paused && NamesState(t.session, o.state) && ShowsFlags(t.collection, o)
            && ShowsCounts(t.events, o) && t.notes.degradedReason == o.degradedReason
            && t.notes.fallback == s.notes.fallback && t.authorization == s.authorization
            && t.threadActive == s.threadActive && t.threadJoined == s.threadJoined
            && t.authorizationRefs == s.authorizationRefs
    ensures var t := FinishResume(p, s, o);
            && t.lifecycle == Active && NamesState(t.session, o.state) && ShowsFlags(t.collection, o)
            && ShowsCounts(t.events, o) && t.notes.degradedReason == o.degradedReason
            && t.notes.fallback == s.notes.fallback && t.authorization == s.authorization
            && t.threadActive == s.threadActive && t.threadJoined == s.threadJoined
            && t.authorizationRefs == s.authorizationRefs
  {
    AppliedShows(s, o, Paused, false);
    AppliedShows(s, o, Active, true);
  }

  lemma PauseFits(f: Field, r: Runtime, call: Call, env: Env)
    requires call.PauseCall? && LetIn(r, call)
    ensures Fits(f, r, call, env, DoPause(r, call.refs, call.fallback, env).0.status)
  {
    var begun := BeginCommand(r.profile, r.status, Pausing, call.refs, call.fallback);
    if Heard(r, call, env).Some? {
      var o := env.answer.reply.value;
      FinishedShows(r.profile, begun, o);
      assert DoPause(r, call.refs, call.fallback, env).0.status == FinishPause(r.profile, begun, o);
    }
  }

  lemma ResumeFits(f: Field, r: Runtime, call: Call, env: Env)
    requires call.ResumeCall? && LetIn(r, call)
    ensures Fits(f, r, call, env, DoResume(r, call.refs, call.fallback, env).0.status)
  {
    var begun := BeginCommand(r.profile, r.status, Resuming, call.refs, call.fallback);
    if Heard(r, call, env).Some? {
      var o := env.answer.reply.value;
      FinishedShows(r.profile, begun, o);
      assert DoResume(r, call.refs, call.fallback, env).0.status == FinishResume(r.profile, begun, o);
    }
  }

  /** The stop of a runtime without a thread. */
  lemma DetachedStopFits(f: Field, r: Runtime, call: Call, env: Env, refs: seq<string>)
    requires IsStop(call) && LetIn(r, call) && r.handle.None?
    requires refs == if call.Shutdown? then ["servicehost_shutdown"] else call.refs
    ensures Fits(f, r, call, env, StopWithoutThread(r.profile, r.status, refs, call.fallback))
  {}

  /** A stop that its thread acknowledged and that was joined. */
  lemma JoinedStopFits(f: Field, r: Runtime, call: Call, env: Env, refs: seq<string>, o: Outcome)
    requires IsStop(call) && LetIn(r, call) && Heard(r, call, env) == Some(Ok(o)) && env.joined
    requires refs == if call.Shutdown? then ["servicehost_shutdown"] else call.refs
    ensures var begun := BeginCommand(r.profile, r.status, Stopping, refs, call.fallback);
            Fits(f, r, call, env, FinishStop(r.profile, ApplyRuntimeOutcome(begun, o)))
  {
    BoundedRefsIdempotent(refs);
    assert Ends(r, call, env) && !LosesJoin(r, call, env);
  }

  lemma LostStopFits(f: Field, r: Runtime, call: Call, env: Env, refs: seq<string>, o: Outcome)
    requires IsStop(call) && LetIn(r, call) && Heard(r, call, env) == Some(Ok(o)) && !env.joined
    requires refs == if call.Shutdown? then ["servicehost_shutdown"] else call.refs
    ensures var begun := BeginCommand(r.profile, r.status, Stopping, refs, call.fallback);
            Fits(f, r, call, env, FailStop(r.profile, ApplyRuntimeOutcome(begun, o)))
  {
    assert !Ends(r, call, env) && LosesJoin(r, call, env);
  }

  lemma UnheardStopFits(f: Field, r: Runtime, call: Call, env: Env, refs: seq<string>)
    requires IsStop(call) && LetIn(r, call) && r.handle.Some? && Heard(r, call, env).None?
    requires refs == if call.Shutdown? then ["servicehost_shutdown"] else call.refs
    ensures Fits(f, r, call, env, BeginCommand(r.profile, r.status, Stopping, refs, call.fallback))
  {
    assert !Ends(r, call, env) && !LosesJoin(r, call, env);
  }

  lemma StopFits(f: Field, r: Runtime, call: Call, env: Env)
    requires IsStop(call) && LetIn(r, call)
    ensures var refs := if call.Shutdown? then SHUTDOWN_REFS else call.refs;
            Fits(f, r, call, env, DoStop(r, refs, call.fallback, env).0.status)
  {
    var refs := if call.Shutdown? then SHUTDOWN_REFS else call.refs;
    ShutdownRefs();
    var begun := BeginCommand(r.profile, r.status, Stopping, refs, call.fallback);
    var after := DoStop(r, refs, call.fallback, env).0.status;
    if r.handle.None? {
      DetachedStopFits(f, r, call, env, refs);
    } else if Heard(r, call, env).None? {
      assert after == begun;
      UnheardStopFits(f, r, call, env, refs);
    } else {
      var o := env.answer.reply.value;
      if env.joined {
        assert after == FinishStop(r.profile, ApplyRuntimeOutcome(begun, o));
        JoinedStopFits(f, r, call, env, refs, o);
      } else {
        assert after == FailStop(r.profile, ApplyRuntimeOutcome(begun, o));
        LostStopFits(f, r, call, env, refs, o);
      }
    }
  }

  lemma DrainFits(f: Field, r: Runtime, call: Call, env: Env)
    requires call.DrainCall? && LetIn(r, call)
    ensures Fits(f, r, call, env, DoDrain(r, env).0.status)
  {
    if Heard(r, call, env).Some? { AppliedShows(r.status, env.answer.reply.value, Active, false); }
  }

  lemma CallFits(f: Field, r: Runtime, call: Call, env: Env)
    ensures Fits(f, r, call, env, Perform(r, call, env).0.status)
  {
    LetInExactlyWhen(r, call);
    if LetIn(r, call) {
      match call
      case Activate(_, _, _) => ActivateFits(f, r, call, env);
      case PauseCall(_, _, _) => PauseFits(f, r, call, env);
      case ResumeCall(_, _, _) => ResumeFits(f, r, call, env);
      case StopCall(_, _, _) => StopFits(f, r, call, env);
      case Shutdown(_) => StopFits(f, r, call, env);
      case DrainCall(_, _) => DrainFits(f, r, call, env);
      case RecordHandoff(_, _, _, _) =>
    }
  }

  // ---------- Over whole histories ----------

  predicate WritesAt(f: Field, start: Runtime, history: seq<Step>, i: nat)
    requires i < |history|
  {
    Writes(f, Replay(start, history[..i]), history[i].call, history[i].env)
  }

  /** The last call that writes the field. */
  predicate LastWriter(f: Field, start: Runtime, history: seq<Step>, i: nat) {
    i < |history| && WritesAt(f, start, history, i)
    && forall j :: i < j < |history| ==> !WritesAt(f, start, history, j)
  }

  predicate NeverWritten(f: Field, start: Runtime, history: seq<Step>) {
    forall j :: 0 <= j < |history| ==> !WritesAt(f, start, history, j)
  }

  lemma WritesAtPrefix(f: Field, start: Runtime, history: seq<Step>, n: nat, i: nat)
    requires i < n <= |history|
    ensures WritesAt(f, start, history[..n], i) == WritesAt(f, start, history, i)
  {
    assert history[..n][..i] == history[..i];
  }

  lemma NextFits(f: Field, start: Runtime, history: seq<Step>, n: nat)
    requires |history| == n + 1
    ensures Fits(f, Replay(start, history[..n]), history[n].call, history[n].env, Replay(start, history).status)
  {
    CallFits(f, Replay(start, history[..n]), history[n].call, history[n].env);
  }

  lemma LastWriterOfPrefix(f: Field, start: Runtime, history: seq<Step>, n: nat, i: nat)
    requires |history| == n + 1 && i < n && LastWriter(f, start, history, i)
    ensures LastWriter(f, start, history[..n], i) && !WritesAt(f, start, history, n)
  {
    forall j: nat | j < n ensures WritesAt(f, start, history[..n], j) == WritesAt(f, start, history, j) {
      WritesAtPrefix(f, start, history, n, j);
    }
  }

  lemma KeptShows(f: Field, s: Status, t: Status, r: Runtime, call: Call, env: Env)
    requires Writes(f, r, call, env) && Kept(f, s, t) && Shows(f, s, r, call, env)
    ensures Shows(f, t, r, call, env)
  {}

  /** After any history every field says what the last call to write it wrote. */
  lemma {:induction false} FieldIsLastWritten(f: Field, start: Runtime, history: seq<Step>, i: nat)
    requires LastWriter(f, start, history, i)
    ensures Shows(f, Replay(start, history).status, Replay(start, history[..i]), history[i].call, history[i].env)
  {
    var n := |history| - 1;
    NextFits(f, start, history, n);
    if i < n {
      LastWriterOfPrefix(f, start, history, n, i);
      FieldIsLastWritten(f, start, history[..n], i);
      assert history[..n][..i] == history[..i];
      KeptShows(f, Replay(start, history[..n]).status, Replay(start, history).status, Replay(start, history[..i]),
                history[i].call, history[i].env);
    }
  }

  /** A field that no call writes says what it began with. */
  lemma {:induction false} UnwrittenFieldIsKept(f: Field, start: Runtime, history: seq<Step>)
    requires NeverWritten(f, start, history)
    ensures Kept(f, start.status, Replay(start, history).status)
  {
    if history != [] {
      var n := |history| - 1;
      NextFits(f, start, history, n);
      forall j: nat | j < n ensures !WritesAt(f, start, history[..n], j) { WritesAtPrefix(f, start, history, n, j); }
      UnwrittenFieldIsKept(f, start, history[..n]);
      assert !WritesAt(f, start, history, n);
      KeptOn(f, start.status, Replay(start, history[..n]).status, Replay(start, history).status);
    }
  }

  lemma KeptOn(f: Field, s: Status, t: Status, u: Status)
    requires Kept(f, s, t) && Kept(f, t, u)
    ensures Kept(f, s, u)
  {}

  /** What a new runtime says. */
  lemma NewSays(profile: Profile, owner: Owner, fallback: Fallback)
    ensures var s := New(profile, owner, fallback).status;
            && s.lifecycle == Inactive && s.session == NotCreated && s.authorization == Required
            && !s.threadActive && !s.threadJoined && s.authorizationRefs == []
            && !s.collection.traceSession && !s.collection.provider && !s.collection.collecting
            && !s.collection.consumer && !s.collection.workerActive && !s.collection.workerJoined
            && s.events == Events(0, 0, 0, 0, 0)
            && s.notes.degradedReason == Some("explicit_authorization_required")
            && s.notes.fallback == if profile.kind == Etw then fallback else PortableMetadataOnly
  {}

  // ---------- Counters ----------

  datatype Counter = Sessions | Activations | Pauses | Resumes | Stops | Batches | Publications | Facts

  /** How much a call adds to a counter. */
  function Adds(c: Counter, r: Runtime, call: Call, env: Env): nat {
    var heard := Heard(r, call, env);
    match c
    case Sessions =>
      if (call.Activate? || call.ResumeCall?) && heard.Some? && heard.value.Ok?
         && (if heard.value.value.TraceOutcome? then heard.value.value.traceSessionCreated
             else heard.value.value.providerEnabled) then 1 else 0
    case Activations => if call.Activate? && heard.Some? then 1 else 0
    case Pauses => if call.PauseCall? && heard.Some? then 1 else 0
    case Resumes => if call.ResumeCall? && heard.Some? then 1 else 0
    case Stops => if IsStop(call) && heard.Some? && env.joined then 1 else 0
    case Batches => if call.RecordHandoff? && SameOwner(r.owner, call.ctx) then call.batches else 0
    case Publications => if call.RecordHandoff? && SameOwner(r.owner, call.ctx) then call.publications else 0
    case Facts => if call.RecordHandoff? && SameOwner(r.owner, call.ctx) then call.facts else 0
  }

  function CounterOf(c: Counter, s: Status): nat {
    match c
    case Sessions => s.tally.generation
    case Activations => s.tally.activations
    case Pauses => s.tally.pauses
    case Resumes => s.tally.resumes
    case Stops => s.tally.stops
    case Batches => s.handoff.batches
    case Publications => s.handoff.publications
    case Facts => s.handoff.facts
  }

  function Capped(n: nat): nat { if n <= 0xFFFF_FFFF then n else 0xFFFF_FFFF }

  function Total(c: Counter, start: Runtime, history: seq<Step>): nat {
    if history == [] then 0
    else
      var n := |history| - 1;
      Total(c, start, history[..n]) + Adds(c, Replay(start, history[..n]), history[n].call, history[n].env)
  }

  lemma ActivateAdds(c: Counter, r: Runtime, call: Call, env: Env)
    requires call.Activate? && LetIn(r, call)
    ensures CounterOf(c, DoActivate(r, call.refs, call.fallback, env).0.status)
            == Capped(CounterOf(c, r.status) + Adds(c, r, call, env))
  {}

  /** What a completed pause and a completed resume count. */
  lemma FinishedCounts(c: Counter, p: Profile, s: Status, o: Outcome)
    ensures CounterOf(c, FinishPause(p, s, o)) == Capped(CounterOf(c, s) + if c.Pauses? then 1 else 0)
    ensures CounterOf(c, FinishResume(p, s, o))
            == Capped(CounterOf(c, s) + if c.Resumes? || (c.Sessions? && OpensSession(o)) then 1 else 0)
  {}

  lemma PauseAdds(c: Counter, r: Runtime, call: Call, env: Env)
    requires call.PauseCall? && LetIn(r, call)
    ensures CounterOf(c, DoPause(r, call.refs, call.fallback, env).0.status)
            == Capped(CounterOf(c, r.status) + Adds(c, r, call, env))
  {
    var begun := BeginCommand(r.profile, r.status, Pausing, call.refs, call.fallback);
    if Heard(r, call, env).Some? {
      assert DoPause(r, call.refs, call.fallback, env).0.status
          == FinishPause(r.profile, begun, env.answer.reply.value);
      FinishedCounts(c, r.profile, begun, env.answer.reply.value);
    }
  }

  lemma ResumeAdds(c: Counter, r: Runtime, call: Call, env: Env)
    requires call.ResumeCall? && LetIn(r, call)
    ensures CounterOf(c, DoResume(r, call.refs, call.fallback, env).0.status)
            == Capped(CounterOf(c, r.status) + Adds(c, r, call, env))
  {
    var begun := BeginCommand(r.profile, r.status, Resuming, call.refs, call.fallback);
    if Heard(r, call, env).Some? {
      assert DoResume(r, call.refs, call.fallback, env).0.status
          == FinishResume(r.profile, begun, env.answer.reply.value);
      FinishedCounts(c, r.profile, begun, env.answer.reply.value);
    }
  }

  lemma StopAdds(c: Counter, r: Runtime, call: Call, env: Env)
    requires IsStop(call) && LetIn(r, call)
    ensures var refs := if call.Shutdown? then SHUTDOWN_REFS else call.refs;
            CounterOf(c, DoStop(r, refs, call.fallback, env).0.status)
            == Capped(CounterOf(c, r.status) + Adds(c, r, call, env))
  {}

  lemma DrainAdds(c: Counter, r: Runtime, call: Call, env: Env)
    requires call.DrainCall? && LetIn(r, call)
    ensures CounterOf(c, DoDrain(r, env).0.status) == Capped(CounterOf(c, r.status) + Adds(c, r, call, env))
  {}

  lemma CallAdds(c: Counter, r: Runtime, call: Call, env: Env)
    ensures CounterOf(c, Perform(r, call, env).0.status) == Capped(CounterOf(c, r.status) + Adds(c, r, call, env))
  {
    LetInExactlyWhen(r, call);
    if LetIn(r, call) {
      match call
      case Activate(_, _, _) => ActivateAdds(c, r, call, env);
      case PauseCall(_, _, _) => PauseAdds(c, r, call, env);
      case ResumeCall(_, _, _) => ResumeAdds(c, r, call, env);
      case StopCall(_, _, _) => StopAdds(c, r, call, env);
      case Shutdown(_) => StopAdds(c, r, call, env);
      case DrainCall(_, _) => DrainAdds(c, r, call, env);
      case RecordHandoff(_, _, _, _) =>
    }
  }

  /** After any history of a new runtime each counter is the sum of what the calls added, up to the 32-bit maximum. */
  lemma {:induction false} CountersAreTotals(
    c: Counter, profile: Profile, owner: Owner, fallback: Fallback, history: seq<Step>)
    ensures var start := New(profile, owner, fallback);
            CounterOf(c, Replay(start, history).status) == Capped(Total(c, start, history))
  {
    if history != [] {
      var n := |history| - 1;
      CountersAreTotals(c, profile, owner, fallback, history[..n]);
      CallAdds(c, Replay(New(profile, owner, fallback), history[..n]), history[n].call, history[n].env);
    }
  }
}
