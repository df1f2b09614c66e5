/**
 * The read model is a copy of the mutation core, taken under the core's lock and stored after it is released.
 * The scheduler worker mutates and copies in one critical section; commands mutate in one and copy in another.
 */
module Publication {
  import opened Wrappers

  /** A copy of the core, with the number of the core state it was taken of. */
  datatype Copy<T> = Copy(state: T, version: nat)

  /** `held` lists every state the core has had; a refresh under way is kept per process. */
  datatype System<T> = System(core: T, read: Option<Copy<T>>, held: seq<T>, taken: map<nat, Copy<T>>)

  datatype Action<T> =
    | Mutate(to: T)
    | WorkerMutates(process: nat, to: T, ok: bool)
    | Snapshot(process: nat)
    | Publish(process: nat)

  function Initial<T>(core: T): System<T> { System(core, None, [core], map[]) }

  predicate Enabled<T>(s: System<T>, a: Action<T>) {
    match a
    case Mutate(_) => true
    case WorkerMutates(process, _, _) => process !in s.taken
    case Snapshot(process) => process !in s.taken
    case Publish(process) => process in s.taken
  }

  function Changed<T>(s: System<T>, to: T): System<T> {
    s.(core := to, held := s.held + [to])
  }

  function Took<T>(s: System<T>, process: nat): System<T>
    requires s.held != []
  {
    s.(taken := s.taken[process := Copy(s.core, |s.held| - 1)])
  }

  /** A worker mutation that fails has changed what it has changed, and takes no copy. */
  function Next<T>(s: System<T>, a: Action<T>): System<T>
    requires Enabled(s, a) && s.held != []
  {
    match a
    case Mutate(to) => Changed(s, to)
    case WorkerMutates(process, to, ok) => if ok then Took(Changed(s, to), process) else Changed(s, to)
    case Snapshot(process) => Took(s, process)
    case Publish(process) => s.(read := Some(s.taken[process]), taken := s.taken - {process})
  }

  function Execute<T>(s: System<T>, schedule: seq<Action<T>>): (after: System<T>)
    requires s.held != []
    ensures after.held != []
  {
    if schedule == [] then s
    else
      var before := Execute(s, schedule[..|schedule| - 1]);
      var a := schedule[|schedule| - 1];
      if Enabled(before, a) then Next(before, a) else before
  }

  predicate Genuine<T(==)>(s: System<T>, copy: Copy<T>) {
    copy.version < |s.held| && s.held[copy.version] == copy.state
  }

  predicate Inv<T(==)>(s: System<T>) {
    && s.held != [] && s.core == s.held[|s.held| - 1]
    && (s.read.Some? ==> Genuine(s, s.read.value))
    && (forall p :: p in s.taken ==> Genuine(s, s.taken[p]))
  }

  lemma NextKeepsInv<T>(s: System<T>, a: Action<T>)
    requires Inv(s) && Enabled(s, a)
    ensures Inv(Next(s, a))
    ensures s.held <= Next(s, a).held
  {}

  /** However refreshes interleave, what readers see is a state the core really had. */
  lemma {:induction false} ReadersSeeGenuineStates<T>(s: System<T>, schedule: seq<Action<T>>)
    requires Inv(s)
    ensures Inv(Execute(s, schedule)) && s.held <= Execute(s, schedule).held
  {
    if schedule != [] {
      var before := Execute(s, schedule[..|schedule| - 1]);
      ReadersSeeGenuineStates(s, schedule[..|schedule| - 1]);
      if Enabled(before, schedule[|schedule| - 1]) { NextKeepsInv(before, schedule[|schedule| - 1]); }
    }
  }

  /** A copy is taken of the core as it is then, by a snapshot and by a worker's mutation that succeeds. */
  lemma CopyIsCurrent<T>(s: System<T>, a: Action<T>)
    requires Inv(s) && Enabled(s, a) && (a.Snapshot? || (a.WorkerMutates? && a.ok))
    ensures var after := Next(s, a);
            && a.process in after.taken
            && after.taken[a.process] == Copy(after.core, |after.held| - 1)
            && after.core == (if a.WorkerMutates? then a.to else s.core) && after.read == s.read
  {}

  predicate Mutates<T>(a: Action<T>) { a.Mutate? || a.WorkerMutates? }

  /** How many times the core changes in a run from a state. */
  function Changes<T>(s: System<T>, schedule: seq<Action<T>>): nat
    requires s.held != []
  {
    if schedule == [] then 0
    else
      var front := schedule[..|schedule| - 1];
      var a := schedule[|schedule| - 1];
      Changes(s, front) + if Mutates(a) && Enabled(Execute(s, front), a) then 1 else 0
  }

  /** Process p publishes nothing between its copy and the end of the run. */
  predicate Holds<T>(schedule: seq<Action<T>>, p: nat) {
    forall i :: 0 <= i < |schedule| ==> schedule[i] != Publish(p)
  }

  lemma {:induction false} CopyIsKept<T>(s: System<T>, schedule: seq<Action<T>>, p: nat)
    requires Inv(s) && p in s.taken && Holds(schedule, p)
    ensures var after := Execute(s, schedule);
            && p in after.taken && after.taken[p] == s.taken[p]
            && |after.held| == |s.held| + Changes(s, schedule)
  {
    if schedule != [] {
      CopyIsKept(s, schedule[..|schedule| - 1], p);
      assert schedule[|schedule| - 1] != Publish(p);
    }
  }

  /**
   * A refresh that took its copy now and stores it after a run makes the read model the current state of the
   * core, as of the number of the state, exactly when the core did not change in between: refreshes that do
   * not overlap a mutation are always current, and one that does is always behind by the changes it missed.
   */
  lemma RefreshIsCurrentExactlyWhen<T>(s: System<T>, schedule: seq<Action<T>>, p: nat)
    requires Inv(s) && p in s.taken && Holds(schedule, p) && s.taken[p].version == |s.held| - 1
    ensures var before := Execute(s, schedule);
            && Enabled(before, Publish(p))
            && var after := Next(before, Publish(p));
            && after.read.Some?
            && after.read.value.version + Changes(s, schedule) == |after.held| - 1
            && (Changes(s, schedule) == 0 <==> after.read.value.version == |after.held| - 1)
            && (Changes(s, schedule) == 0 ==> after.read.value.state == after.core)
  {
    CopyIsKept(s, schedule, p);
    ReadersSeeGenuineStates(s, schedule);
  }

  /** A command that is overtaken by the worker puts an old state over the worker's newer one, and it stays. */
  lemma OvertakenRefreshRegresses<T>(old0: T, new0: T, command: nat, worker: nat)
    requires old0 != new0 && command != worker
    ensures var published :=
              Execute(Initial(old0), [Snapshot(command), WorkerMutates(worker, new0, true), Publish(worker)]);
            var after := Execute(Initial(old0), [Snapshot(command), WorkerMutates(worker, new0, true),
                                                 Publish(worker), Publish(command)]);
            && published.read == Some(Copy(new0, 1)) && published.core == new0
            && after.read == Some(Copy(old0, 0)) && after.core == new0 && after.taken == map[]
  {
    var a0: Action<T> := Snapshot(command);
    var a1 := WorkerMutates(worker, new0, true);
    var a2: Action<T> := Publish(worker);
    var a3: Action<T> := Publish(command);
    var s0 := Initial(old0);
    var s1 := Next(s0, a0);
    var s2 := Next(s1, a1);
    var s3 := Next(s2, a2);
    assert [a0][..0] == [] && Execute(s0, [a0]) == s1;
    assert [a0, a1][..1] == [a0] && Execute(s0, [a0, a1]) == s2;
    assert [a0, a1, a2][..2] == [a0, a1] && Execute(s0, [a0, a1, a2]) == s3;
    assert [a0, a1, a2, a3][..3] == [a0, a1, a2] && Execute(s0, [a0, a1, a2, a3]) == Next(s3, a3);
  }
}
