/** The audit trail of a runtime, over every history of calls. */
module LifecycleTrail {
  import opened Wrappers
  import opened Text
  import opened LifecycleCalls
  import opened LifecycleInvariants
  import opened LifecycleReports
  import opened LifecycleEffects

  /** The entry that a call leaves: for a completed start or stop, and for the ETW runtime's pauses and resumes. */
  function EntryLeft(r: Runtime, call: Call, env: Env): Option<string> {
    if Heard(r, call, env).None? then None
    else
      match call
      case Activate(_, _, _) => Some(r.profile.activationEntry)
      case PauseCall(_, _, _) => if r.profile.kind == Etw then Some(r.profile.pauseEntry) else None
      case ResumeCall(_, _, _) => if r.profile.kind == Etw then Some(r.profile.resumeEntry) else None
      case StopCall(_, _, _) => if env.joined then Some(r.profile.stopEntry) else None
      case Shutdown(_) => if env.joined then Some(r.profile.stopEntry) else None
      case DrainCall(_, _) => None
      case RecordHandoff(_, _, _, _) => None
  }

  predicate Leaves(r: Runtime, call: Call, env: Env, entry: string) { EntryLeft(r, call, env) == Some(entry) }

  function Trail(r: Runtime): seq<string> { r.status.notes.auditRefs }

  predicate TrailFits(r: Runtime, call: Call, env: Env, trail: seq<string>) {
    var left := EntryLeft(r, call, env);
    trail == if left.Some? then BoundedRefs(Trail(r) + [left.value]) else Trail(r)
  }

  lemma ActivateTrail(r: Runtime, call: Call, env: Env)
    requires call.Activate? && LetIn(r, call)
    ensures TrailFits(r, call, env, Trail(DoActivate(r, call.refs, call.fallback, env).0))
  {}

  lemma PauseTrail(r: Runtime, call: Call, env: Env)
    requires call.PauseCall? && LetIn(r, call)
    ensures TrailFits(r, call, env, Trail(DoPause(r, call.refs, call.fallback, env).0))
  {}

  lemma ResumeTrail(r: Runtime, call: Call, env: Env)
    requires call.ResumeCall? && LetIn(r, call)
    ensures TrailFits(r, call, env, Trail(DoResume(r, call.refs, call.fallback, env).0))
  {}

  lemma StopTrail(r: Runtime, call: Call, env: Env)
    requires IsStop(call) && LetIn(r, call)
    ensures var refs := if call.Shutdown? then SHUTDOWN_REFS else call.refs;
            TrailFits(r, call, env, Trail(DoStop(r, refs, call.fallback, env).0))
  {}

  lemma CallTrail(r: Runtime, call: Call, env: Env)
    ensures TrailFits(r, call, env, Trail(Perform(r, call, env).0))
  {
    LetInExactlyWhen(r, call);
    if LetIn(r, call) {
      match call
      case Activate(_, _, _) => ActivateTrail(r, call, env);
      case PauseCall(_, _, _) => PauseTrail(r, call, env);
      case ResumeCall(_, _, _) => ResumeTrail(r, call, env);
      case StopCall(_, _, _) => StopTrail(r, call, env);
      case Shutdown(_) => StopTrail(r, call, env);
      case DrainCall(_, _) =>
      case RecordHandoff(_, _, _, _) =>
    }
  }

  // ---------- The trail never fills up ----------

  function Entries(p: Profile): set<string> {
    {p.initialEntry, p.activationEntry, p.pauseEntry, p.resumeEntry, p.stopEntry}
  }

  predicate Few(p: Profile, trail: seq<string>) {
    StrictlyAscending(trail) && forall x :: x in trail ==> x in Entries(p) && !IsBlank(x)
  }

  lemma {:induction false} DistinctCount(xs: seq<string>, s: set<string>)
    requires forall x :: x in xs ==> x in s
    requires forall i, j :: 0 <= i < j < |xs| ==> xs[i] != xs[j]
    ensures |xs| <= |s|
  {
    if xs != [] {
      var rest := xs[1..];
      forall x | x in rest ensures x in s - {xs[0]} {
        var i :| 0 <= i < |rest| && rest[i] == x;
        assert xs[i + 1] != xs[0];
      }
      DistinctCount(rest, s - {xs[0]});
    }
  }

  lemma AtMostFive(p: Profile, trail: seq<string>)
    requires Few(p, trail)
    ensures |trail| <= 5
  {
    DistinctCount(trail, Entries(p));
    var a := {p.initialEntry, p.activationEntry};
    var b := a + {p.pauseEntry};
    var c := b + {p.resumeEntry};
    assert Entries(p) == c + {p.stopEntry};
  }

  /** One more entry is never cut off. */
  lemma EntryIsAdded(p: Profile, trail: seq<string>, entry: string)
    requires Few(p, trail) && entry in Entries(p) && !IsBlank(entry)
    ensures var after := BoundedRefs(trail + [entry]);
            Few(p, after) && forall x :: x in after <==> x in trail || x == entry
  {
    var values := trail + [entry];
    AtMostFive(p, trail);
    DropBlankFixed(values);
    BoundedRefsShape(values);
    assert Take(DropBlank(values), MAX_LIFECYCLE_REFS) == values;
  }

  lemma LabelNotBlank(s: string)
    requires Label(s)
    ensures !IsBlank(s)
  {
    assert !IsWhitespace(s[0]);
  }

  lemma EntryLeftIsKnown(r: Runtime, call: Call, env: Env)
    requires LabelledProfile(r.profile) && EntryLeft(r, call, env).Some?
    ensures EntryLeft(r, call, env).value in Entries(r.profile) && !IsBlank(EntryLeft(r, call, env).value)
  {
    LabelNotBlank(EntryLeft(r, call, env).value);
  }

  /** Some call of the history left the entry. */
  predicate EverLeft(kind: Kind, owner: Owner, fallback: Fallback, history: seq<Step>, entry: string) {
    history != []
    && var n := |history| - 1;
       || EverLeft(kind, owner, fallback, history[..n], entry)
       || Leaves(Reached(kind, owner, fallback, history[..n]), history[n].call, history[n].env, entry)
  }

  /**
   * After any history the trail ascends strictly and holds exactly the entry of the new runtime and those that some
   * call left: cut to 16 after every call, it never loses one.
   */
  lemma {:induction false} TrailHoldsExactly(
    kind: Kind, owner: Owner, fallback: Fallback, history: seq<Step>, entry: string)
    ensures var r := Reached(kind, owner, fallback, history);
            && Few(r.profile, Trail(r))
            && (entry in Trail(r)
                <==> entry == ProfileOf(kind).initialEntry || EverLeft(kind, owner, fallback, history, entry))
  {
    ProfilesAreLabelled(kind);
    LabelNotBlank(ProfileOf(kind).initialEntry);
    if history != [] {
      var n := |history| - 1;
      var before := Reached(kind, owner, fallback, history[..n]);
      TrailHoldsExactly(kind, owner, fallback, history[..n], entry);
      ReachedKnown(kind, owner, fallback, history[..n]);
      ReachedKnown(kind, owner, fallback, history);
      CallTrail(before, history[n].call, history[n].env);
      var left := EntryLeft(before, history[n].call, history[n].env);
      if left.Some? {
        EntryLeftIsKnown(before, history[n].call, history[n].env);
        EntryIsAdded(before.profile, Trail(before), left.value);
      }
    }
  }
}
