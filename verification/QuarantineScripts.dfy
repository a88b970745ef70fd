/**
 Undisturbed runs of the quarantine protocol, step by step: that a VM can be quarantined, and that a
 quarantined one can be restored and its generation resolved, with the exact state that results.
 */
module QuarantineScripts {
  import opened Options
  import opened QuarantineProtocol
  import opened QuarantineInvariant
  import Nic

  /** The process gives up a restoring task that has not ended. */
  predicate Abandons(s: State, e: Event) {
    && (e.Stop? || (e.Restore? && e.r.RestoreError?))
    && e.p in s.procs && s.procs[e.p].Working? && s.procs[e.p].pc.RestoreWaiting?
    && s.procs[e.p].pc.task < |s.tasks| && s.tasks[s.procs[e.p].pc.task].status.Running?
  }

  /** A run in which every submitted restore is waited for until it is decided. */
  ghost predicate Patient(s: State, events: seq<Event>)
    requires CanRun(s, events)
    decreases |events|
  {
    events == [] || (!Abandons(s, events[0]) && Patient(Next(s, events[0]), events[1..]))
  }

  /** A restoring task of generation `g` that has not ended. */
  predicate UndecidedRestore(s: State, k: TaskId, g: GenId) {
    k < |s.tasks| && s.tasks[k].kind.RestoreTask? && s.tasks[k].gen == g && s.tasks[k].status.Running?
  }

  lemma {:induction false} Then(s: State, events: seq<Event>, e: Event)
    requires CanRun(s, events) && Enabled(Run(s, events), e)
    ensures CanRun(s, events + [e]) && Run(s, events + [e]) == Next(Run(s, events), e)
    ensures Patient(s, events) && !Abandons(Run(s, events), e) ==> Patient(s, events + [e])
    decreases |events|
  {
    if events == [] {
      assert events + [e] == [e];
      assert CanRun(s, [e]);
    } else {
      assert (events + [e])[1..] == events[1..] + [e];
      Then(Next(s, events[0]), events[1..], e);
    }
  }

  lemma {:induction false} Append(s: State, first: seq<Event>, second: seq<Event>)
    requires CanRun(s, first) && CanRun(Run(s, first), second)
    ensures CanRun(s, first + second) && Run(s, first + second) == Run(Run(s, first), second)
    ensures Patient(s, first) && Patient(Run(s, first), second) ==> Patient(s, first + second)
    decreases |first|
  {
    if first == [] {
      assert first + second == second;
    } else {
      assert (first + second)[1..] == first[1..] + second;
      Append(Next(s, first[0]), first[1..], second);
    }
  }

  // --- scripts ------------------------------------------------------------------------------

  function Placed(s: State, p: Pid, g: GenId, role: Role, pc: Pc): State {
    s.(procs := s.procs[p := Working(g, role, pc)])
  }

  /** Target `t` can be quarantined by process `p`: it is unowned, and its preflight allows it. */
  ghost predicate Preparable(s: State, p: Pid, t: Target) {
    p !in s.procs && t in s.remote && PreflightAllows(s.remote[t]) && NoActive(s, t)
  }

  ghost predicate Isolable(s: State, p: Pid, t: Target) {
    Preparable(s, p, t) && t.Vm? && s.remote[t].VmConfig?
  }

  /** The state after a complete, undisturbed quarantine of VM `t`. */
  function Quarantined(s: State, t: Target): State
    requires t in s.remote && s.remote[t].VmConfig?
  {
    var config := s.remote[t];
    var g, k := |s.gens|, |s.tasks|;
    State(s.gens + [Generation(t, NicPlan(config.net0), Completed, Some(k), 1, 0)],
          s.tasks + [Task(g, IsolateTask, config, Nic.Isolate(config.net0), SucceededOk)],
          s.remote[t := config.(net0 := Nic.Isolate(config.net0))],
          s.procs,
          s.effects[t := Effect(g, config)])
  }

  lemma PrepareScript(s: State, p: Pid, t: Target) returns (events: seq<Event>)
    requires Inv(s) && Preparable(s, p, t)
    ensures CanRun(s, events) && Run(s, events) == Placed(Begun(s, t), p, |s.gens|, Applier, Guarded)
  {
    var g := |s.gens|;
    events := IntendScript(s, p, t);
    var s2 := Placed(Begun(s, t), p, g, Applier, Intended);
    NewRowUnlocked(s, p, t);
    Then(s, events, Apply(p, AcquireApply));
    events := events + [Apply(p, AcquireApply)];
  }

  lemma IntendScript(s: State, p: Pid, t: Target) returns (events: seq<Event>)
    requires Preparable(s, p, t)
    ensures CanRun(s, events) && Run(s, events) == Placed(Begun(s, t), p, |s.gens|, Applier, Intended)
  {
    events := [];
    Then(s, events, Apply(p, Preflight(t)));
    events := events + [Apply(p, Preflight(t))];
    Then(s, events, Apply(p, Prepare));
    events := events + [Apply(p, Prepare)];
  }

  lemma NewRowUnlocked(s: State, p: Pid, t: Target)
    requires Inv(s) && t in s.remote
    ensures !Locked(Placed(Begun(s, t), p, |s.gens|, Applier, Intended), |s.gens|)
  {
    forall q | q in s.procs && q != p && HoldsGuard(s.procs[q]) ensures s.procs[q].gen != |s.gens| {
      assert ProcOk(s, q);
    }
  }

  lemma IsolateScript(s: State, p: Pid, g: GenId) returns (events: seq<Event>)
    requires g < |s.gens| && s.gens[g].target in s.remote && p in s.procs && s.procs[p] == Working(g, Applier, Guarded)
    requires s.remote[s.gens[g].target].VmConfig? && s.gens[g].plan == NicPlan(s.remote[s.gens[g].target].net0)
    requires !Nic.IsIsolated(s.gens[g].plan.net0)
    ensures CanRun(s, events)
    ensures var t, k := s.gens[g].target, |s.tasks|;
            var config := s.remote[t];
            Run(s, events) == Placed(s.(tasks := s.tasks
                                        + [Task(g, IsolateTask, config, Nic.Isolate(config.net0), SucceededOk)],
                                        remote := s.remote[t := config.(net0 := Nic.Isolate(config.net0))],
                                        effects := s.effects[t := Effect(g, config)]), p, g, Applier, Waiting(k))
  {
    var t, k := s.gens[g].target, |s.tasks|;
    var config := s.remote[t];
    events := [];
    Then(s, events, Apply(p, ReadFence));
    events := events + [Apply(p, ReadFence)];
    assert Run(s, events) == Placed(s, p, g, Applier, Fenced(config));
    Then(s, events, Apply(p, Submit));
    events := events + [Apply(p, Submit)];
    var running := Task(g, IsolateTask, config, Nic.Isolate(config.net0), Running);
    assert Run(s, events) == Placed(s.(tasks := s.tasks + [running]), p, g, Applier, Waiting(k));
    Then(s, events, RunTask(k, true));
    events := events + [RunTask(k, true)];
  }

  lemma RecordScript(s: State, p: Pid, g: GenId, k: TaskId) returns (events: seq<Event>)
    requires g < |s.gens| && s.gens[g].target in s.remote && p in s.procs
             && s.procs[p] == Working(g, Applier, Waiting(k))
    requires k < |s.tasks| && s.tasks[k].status.SucceededOk?
    ensures CanRun(s, events) && Run(s, events) == Placed(s, p, g, Applier, Recorded(k))
  {
    events := [];
    Then(s, events, Apply(p, AwaitOk));
    events := events + [Apply(p, AwaitOk)];
    assert Run(s, events) == Placed(s, p, g, Applier, Returned(k));
    Then(s, events, Apply(p, RecordUpid));
    events := events + [Apply(p, RecordUpid)];
  }

  lemma FinishScript(s: State, p: Pid, g: GenId, k: TaskId) returns (events: seq<Event>)
    requires g < |s.gens| && s.gens[g].target in s.remote && p in s.procs
             && s.procs[p] == Working(g, Applier, Waiting(k))
    requires IsolationSeen(s.remote[s.gens[g].target]) && k < |s.tasks| && s.tasks[k].status.SucceededOk?
    ensures CanRun(s, events)
    ensures var row := s.gens[g];
            Run(s, events) == s.(gens := s.gens[g := row.(status := Completed, upid := Some(k),
                                                          applyReceipts := row.applyReceipts + 1)],
                                 procs := s.procs - {p})
  {
    events := VerifyScript(s, p, g, k);
    FinishState(s, p, g, Some(k));
    Then(s, events, Apply(p, Finish));
    events := events + [Apply(p, Finish)];
  }

  lemma VerifyScript(s: State, p: Pid, g: GenId, k: TaskId) returns (events: seq<Event>)
    requires g < |s.gens| && s.gens[g].target in s.remote && p in s.procs
             && s.procs[p] == Working(g, Applier, Waiting(k))
    requires IsolationSeen(s.remote[s.gens[g].target]) && k < |s.tasks| && s.tasks[k].status.SucceededOk?
    ensures CanRun(s, events) && Run(s, events) == Placed(s, p, g, Applier, Verified(Some(k)))
  {
    events := RecordScript(s, p, g, k);
    Then(s, events, Apply(p, Verify));
    events := events + [Apply(p, Verify)];
  }

  /** The atomic end of a verified application. */
  lemma FinishState(s: State, p: Pid, g: GenId, upid: Option<TaskId>)
    requires g < |s.gens| && s.gens[g].target in s.remote
    ensures var s1 := Placed(s, p, g, Applier, Verified(upid));
            var row := s.gens[g];
            && Enabled(s1, Apply(p, Finish))
            && Next(s1, Apply(p, Finish))
               == s.(gens := s.gens[g := row.(status := Completed, upid := upid,
                                              applyReceipts := row.applyReceipts + 1)],
                     procs := s.procs - {p})
  {
    assert s.procs[p := Working(g, Applier, Verified(upid))] - {p} == s.procs - {p};
  }

  /** The fresh row once its isolation has landed and the applier waits for it. */
  function Landing(s: State, p: Pid, t: Target): State
    requires t in s.remote && s.remote[t].VmConfig?
  {
    var config := s.remote[t];
    var g, k := |s.gens|, |s.tasks|;
    State(s.gens + [Generation(t, NicPlan(config.net0), Prepared, None, 0, 0)],
          s.tasks + [Task(g, IsolateTask, config, Nic.Isolate(config.net0), SucceededOk)],
          s.remote[t := config.(net0 := Nic.Isolate(config.net0))],
          s.procs[p := Working(g, Applier, Waiting(k))],
          s.effects[t := Effect(g, config)])
  }

  lemma LandingScript(s: State, p: Pid, t: Target) returns (events: seq<Event>)
    requires Inv(s) && Isolable(s, p, t)
    ensures CanRun(s, events) && Run(s, events) == Landing(s, p, t)
  {
    var g := |s.gens|;
    var first := PrepareScript(s, p, t);
    var s1 := Run(s, first);
    assert s1.gens[g] == Generation(t, NicPlan(s.remote[t].net0), Prepared, None, 0, 0);
    var second := IsolateScript(s1, p, g);
    Append(s, first, second);
    events := first + second;
    assert s1 == Placed(Begun(s, t), p, g, Applier, Guarded);
    LandingState(s, p, t);
  }

  /** The row of a fresh generation, nothing else. */
  function Begun(s: State, t: Target): State
    requires t in s.remote
  {
    s.(gens := s.gens + [Generation(t, PlanOf(s.remote[t]), Prepared, None, 0, 0)])
  }

  lemma LandingState(s: State, p: Pid, t: Target)
    requires t in s.remote && s.remote[t].VmConfig?
    ensures var g, config := |s.gens|, s.remote[t];
            var guarded := Placed(Begun(s, t), p, g, Applier, Guarded);
            Placed(guarded.(tasks := s.tasks + [Task(g, IsolateTask, config, Nic.Isolate(config.net0), SucceededOk)],
                            remote := s.remote[t := config.(net0 := Nic.Isolate(config.net0))],
                            effects := s.effects[t := Effect(g, config)]), p, g, Applier, Waiting(|s.tasks|))
            == Landing(s, p, t)
  {
    var g, waiting := |s.gens|, Working(|s.gens|, Applier, Waiting(|s.tasks|));
    assert s.procs[p := Working(g, Applier, Guarded)][p := waiting] == s.procs[p := waiting];
  }

  /** An unowned, not isolated VM can be quarantined by one undisturbed application. */
  lemma QuarantineScript(s: State, p: Pid, t: Target) returns (events: seq<Event>)
    requires Inv(s) && Isolable(s, p, t)
    ensures CanRun(s, events) && Run(s, events) == Quarantined(s, t)
  {
    var first := LandingScript(s, p, t);
    var second := LandedScript(s, p, t);
    Append(s, first, second);
    events := first + second;
  }

  /** From the landed isolation to the completed row. */
  lemma LandedScript(s: State, p: Pid, t: Target) returns (events: seq<Event>)
    requires t in s.remote && s.remote[t].VmConfig? && p !in s.procs
    ensures CanRun(Landing(s, p, t), events) && Run(Landing(s, p, t), events) == Quarantined(s, t)
  {
    var landed := Landing(s, p, t);
    LandingReady(s, p, t);
    events := FinishScript(landed, p, |s.gens|, |s.tasks|);
    QuarantinedState(s, p, t);
  }

  lemma LandingReady(s: State, p: Pid, t: Target)
    requires t in s.remote && s.remote[t].VmConfig?
    ensures var landed, g, k := Landing(s, p, t), |s.gens|, |s.tasks|;
            && g < |landed.gens| && landed.gens[g].target == t && t in landed.remote
            && p in landed.procs && landed.procs[p] == Working(g, Applier, Waiting(k))
            && IsolationSeen(landed.remote[t]) && k < |landed.tasks| && landed.tasks[k].status.SucceededOk?
  {
    Nic.IsolateIsIsolated(s.remote[t].net0);
  }

  lemma QuarantinedState(s: State, p: Pid, t: Target)
    requires t in s.remote && s.remote[t].VmConfig? && p !in s.procs
    ensures var g, s1 := |s.gens|, Landing(s, p, t);
            var row := s1.gens[g];
            s1.(gens := s1.gens[g := row.(status := Completed, upid := Some(|s.tasks|),
                                          applyReceipts := row.applyReceipts + 1)],
                procs := s1.procs - {p}) == Quarantined(s, t)
  {
    assert Landing(s, p, t).procs - {p} == s.procs;
  }

  // --- restoring ----------------------------------------------------------------------------

  /** Generation `g` can be taken up by recovery or by an operator, with process id `p`. */
  ghost predicate Resolvable(s: State, p: Pid, g: GenId) {
    && Inv(s) && p !in s.procs && g < |s.gens| && !Locked(s, g)
    && (|| s.gens[g].status.Completed?
        || (s.gens[g].status.RecoveryRequired? && (s.gens[g].target.Vm? ==> s.gens[g].upid.Some?)))
  }

  function RoleFor(s: State, g: GenId): Role
    requires g < |s.gens|
  {
    if s.gens[g].status.Completed? then Recoverer else Reconciler
  }

  /** A recovery or reconciliation up to the point where the restore may begin. */
  lemma OpenScript(s: State, p: Pid, g: GenId) returns (events: seq<Event>)
    requires Resolvable(s, p, g)
    ensures CanRun(s, events) && Patient(s, events) && Run(s, events) == Placed(s, p, g, RoleFor(s, g), Restoring)
  {
    var acquire := if s.gens[g].status.Completed? then AcquireRecover(g) else AcquireReconcile(g);
    var start := if s.gens[g].status.Completed? then StartRecovery else ProveCompletion;
    AcquireState(s, p, g);
    StartState(s, p, g);
    events := [];
    Then(s, events, Restore(p, acquire));
    events := events + [Restore(p, acquire)];
    Then(s, events, Restore(p, start));
    events := events + [Restore(p, start)];
  }

  lemma AcquireState(s: State, p: Pid, g: GenId)
    requires Resolvable(s, p, g)
    ensures var acquire := Restore(p, if s.gens[g].status.Completed? then AcquireRecover(g) else AcquireReconcile(g));
            && Enabled(s, acquire) && Next(s, acquire) == Placed(s, p, g, RoleFor(s, g), Guarded)
            && !Abandons(s, acquire)
  {
  }

  lemma StartState(s: State, p: Pid, g: GenId)
    requires Resolvable(s, p, g)
    ensures var s1 := Placed(s, p, g, RoleFor(s, g), Guarded);
            var start := Restore(p, if s.gens[g].status.Completed? then StartRecovery else ProveCompletion);
            && Enabled(s1, start) && Next(s1, start) == Placed(s, p, g, RoleFor(s, g), Restoring)
            && !Abandons(s1, start)
  {
    assert GenOk(s, g);
  }

  /** The rows after generation `g` has been resolved. */
  function ResolvedRows(gens: seq<Generation>, g: GenId): seq<Generation>
    requires g < |gens|
  {
    gens[g := gens[g].(status := RolledBack, rollbackReceipts := gens[g].rollbackReceipts + 1)]
  }

  /** With the original NIC already in place, the restore writes nothing and the generation is resolved. */
  lemma ConfirmScript(s: State, p: Pid, g: GenId) returns (events: seq<Event>)
    requires Resolvable(s, p, g) && s.gens[g].target in s.remote && s.remote[s.gens[g].target].VmConfig?
    requires s.gens[g].plan == NicPlan(s.remote[s.gens[g].target].net0)
    ensures CanRun(s, events) && Patient(s, events)
    ensures Run(s, events) == s.(gens := ResolvedRows(s.gens, g))
  {
    events := OpenScript(s, p, g);
    AlreadyRestored(s, p, g);
    Then(s, events, Restore(p, ReadRestore));
    events := events + [Restore(p, ReadRestore)];
    ResolveState(s, p, g, RoleFor(s, g));
    Then(s, events, Restore(p, Resolve));
    events := events + [Restore(p, Resolve)];
    assert s.procs - {p} == s.procs;
  }

  /** The restore finds the original NIC in place. */
  lemma AlreadyRestored(s: State, p: Pid, g: GenId)
    requires Resolvable(s, p, g) && s.gens[g].target in s.remote && s.remote[s.gens[g].target].VmConfig?
    requires s.gens[g].plan == NicPlan(s.remote[s.gens[g].target].net0)
    ensures var s1 := Placed(s, p, g, RoleFor(s, g), Restoring);
            && Enabled(s1, Restore(p, ReadRestore)) && !Abandons(s1, Restore(p, ReadRestore))
            && Next(s1, Restore(p, ReadRestore)) == Placed(s, p, g, RoleFor(s, g), Restored)
  {
    assert GenOk(s, g);
  }

  /** The atomic end of a confirmed restore. */
  lemma ResolveState(s: State, p: Pid, g: GenId, role: Role)
    requires g < |s.gens| && s.gens[g].target in s.remote
    ensures var s1 := Placed(s, p, g, role, Restored);
            && Enabled(s1, Restore(p, Resolve)) && !Abandons(s1, Restore(p, Resolve))
            && Next(s1, Restore(p, Resolve)) == s.(gens := ResolvedRows(s.gens, g), procs := s.procs - {p})
  {
    assert s.procs[p := Working(g, role, Restored)] - {p} == s.procs - {p};
  }

  /** With its isolation in place, the restore submits a task. */
  lemma FenceScript(s: State, p: Pid, g: GenId, role: Role) returns (events: seq<Event>)
    requires g < |s.gens| && s.gens[g].target in s.remote && s.remote[s.gens[g].target].VmConfig?
             && s.gens[g].plan.NicPlan?
    requires p in s.procs && s.procs[p] == Working(g, role, Restoring)
    requires s.remote[s.gens[g].target].net0 == Nic.Isolate(s.gens[g].plan.net0) && !Nic.IsIsolated(s.gens[g].plan.net0)
    ensures CanRun(s, events) && Patient(s, events)
    ensures var task := Task(g, RestoreTask, s.remote[s.gens[g].target], s.gens[g].plan.net0, Running);
            Run(s, events) == Placed(s.(tasks := s.tasks + [task]), p, g, role, RestoreWaiting(|s.tasks|))
  {
    var fence := s.remote[s.gens[g].target];
    FenceState(s, p, g, role);
    events := [];
    Then(s, events, Restore(p, ReadRestore));
    events := events + [Restore(p, ReadRestore)];
    assert Run(s, events) == Placed(s, p, g, role, RestoreFenced(fence));
    Then(s, events, Restore(p, SubmitRestore));
    events := events + [Restore(p, SubmitRestore)];
  }

  lemma FenceState(s: State, p: Pid, g: GenId, role: Role)
    requires g < |s.gens| && s.gens[g].target in s.remote && s.remote[s.gens[g].target].VmConfig?
    requires p in s.procs && s.procs[p] == Working(g, role, Restoring) && s.gens[g].plan.NicPlan?
    requires s.remote[s.gens[g].target].net0 == Nic.Isolate(s.gens[g].plan.net0) && !Nic.IsIsolated(s.gens[g].plan.net0)
    ensures Enabled(s, Restore(p, ReadRestore)) && !Abandons(s, Restore(p, ReadRestore))
    ensures Next(s, Restore(p, ReadRestore)) == Placed(s, p, g, role, RestoreFenced(s.remote[s.gens[g].target]))
  {
    Nic.IsolateIsIsolated(s.gens[g].plan.net0);
  }

  lemma SubmitScript(s: State, p: Pid, g: GenId) returns (events: seq<Event>)
    requires Resolvable(s, p, g) && s.gens[g].target in s.remote && s.remote[s.gens[g].target].VmConfig?
             && s.gens[g].plan.NicPlan?
    requires s.remote[s.gens[g].target].net0 == Nic.Isolate(s.gens[g].plan.net0)
    ensures CanRun(s, events) && Patient(s, events)
    ensures var task := Task(g, RestoreTask, s.remote[s.gens[g].target], s.gens[g].plan.net0, Running);
            Run(s, events) == Placed(s.(tasks := s.tasks + [task]), p, g, RoleFor(s, g), RestoreWaiting(|s.tasks|))
  {
    assert GenOk(s, g);
    var role := RoleFor(s, g);
    var first := OpenScript(s, p, g);
    var s1 := Placed(s, p, g, role, Restoring);
    var second := FenceScript(s1, p, g, role);
    Append(s, first, second);
    events := first + second;
    assert s1.procs[p := Working(g, role, RestoreWaiting(|s.tasks|))]
           == s.procs[p := Working(g, role, RestoreWaiting(|s.tasks|))];
  }

  /** A submitted restore lands, is awaited and read back, and resolves the generation. */
  lemma AwaitScript(s: State, p: Pid, g: GenId, k: TaskId, role: Role) returns (events: seq<Event>)
    requires g < |s.gens| && s.gens[g].target in s.remote && s.gens[g].plan.NicPlan?
    requires p in s.procs && s.procs[p] == Working(g, role, RestoreWaiting(k))
    requires UndecidedRestore(s, k, g) && s.tasks[k].fence.VmConfig? && s.remote[s.gens[g].target] == s.tasks[k].fence
    requires s.tasks[k].value == s.gens[g].plan.net0
    ensures CanRun(s, events) && Patient(s, events)
    ensures var t := s.gens[g].target;
            Run(s, events) == s.(gens := ResolvedRows(s.gens, g),
                                 tasks := s.tasks[k := s.tasks[k].(status := SucceededOk)],
                                 remote := s.remote[t := s.remote[t].(net0 := s.gens[g].plan.net0)],
                                 effects := s.effects - {t},
                                 procs := s.procs - {p})
  {
    var s1 := RestoreLanded(s, g, k);
    LandState(s, p, g, k, role);
    events := [];
    Then(s, events, RunTask(k, true));
    events := events + [RunTask(k, true)];
    var rest := ReadBackScript(s1, p, g, k, role);
    Append(s, events, rest);
    events := events + rest;
  }

  /** The restoring task has written the original NIC. */
  function RestoreLanded(s: State, g: GenId, k: TaskId): State
    requires g < |s.gens| && s.gens[g].target in s.remote && s.gens[g].plan.NicPlan?
    requires k < |s.tasks| && s.remote[s.gens[g].target].VmConfig?
  {
    var t := s.gens[g].target;
    s.(tasks := s.tasks[k := s.tasks[k].(status := SucceededOk)],
       remote := s.remote[t := s.remote[t].(net0 := s.gens[g].plan.net0)],
       effects := s.effects - {t})
  }

  lemma LandState(s: State, p: Pid, g: GenId, k: TaskId, role: Role)
    requires g < |s.gens| && s.gens[g].target in s.remote && s.gens[g].plan.NicPlan?
    requires UndecidedRestore(s, k, g) && s.tasks[k].fence.VmConfig? && s.remote[s.gens[g].target] == s.tasks[k].fence
    requires s.tasks[k].value == s.gens[g].plan.net0
    ensures Enabled(s, RunTask(k, true)) && Next(s, RunTask(k, true)) == RestoreLanded(s, g, k)
    ensures !Abandons(s, RunTask(k, true))
  {
  }

  /** A landed restore is awaited and read back, and resolves the generation. */
  lemma ReadBackScript(s: State, p: Pid, g: GenId, k: TaskId, role: Role) returns (events: seq<Event>)
    requires g < |s.gens| && s.gens[g].target in s.remote && s.remote[s.gens[g].target].VmConfig?
    requires s.gens[g].plan == NicPlan(s.remote[s.gens[g].target].net0)
    requires p in s.procs && s.procs[p] == Working(g, role, RestoreWaiting(k))
    requires k < |s.tasks| && s.tasks[k].status.SucceededOk?
    ensures CanRun(s, events) && Patient(s, events)
    ensures Run(s, events) == s.(gens := ResolvedRows(s.gens, g), procs := s.procs - {p})
  {
    events := [];
    Then(s, events, Restore(p, AwaitRestore));
    events := events + [Restore(p, AwaitRestore)];
    assert Run(s, events) == Placed(s, p, g, role, RestoreSubmitted);
    Then(s, events, Restore(p, Readback));
    events := events + [Restore(p, Readback)];
    assert Run(s, events) == Placed(s, p, g, role, Restored);
    ResolveState(s, p, g, role);
    Then(s, events, Restore(p, Resolve));
    events := events + [Restore(p, Resolve)];
  }

  /** One undisturbed recovery of an isolated VM restores the original NIC and resolves the generation. */
  lemma RestoreScript(s: State, p: Pid, g: GenId) returns (events: seq<Event>)
    requires Resolvable(s, p, g) && s.gens[g].target in s.remote && s.remote[s.gens[g].target].VmConfig?
             && s.gens[g].plan.NicPlan?
    requires s.remote[s.gens[g].target].net0 == Nic.Isolate(s.gens[g].plan.net0)
    ensures CanRun(s, events) && Patient(s, events)
    ensures var t := s.gens[g].target;
            var task := Task(g, RestoreTask, s.remote[t], s.gens[g].plan.net0, SucceededOk);
            Run(s, events) == s.(gens := ResolvedRows(s.gens, g),
                                 tasks := s.tasks + [task],
                                 remote := s.remote[t := s.remote[t].(net0 := s.gens[g].plan.net0)],
                                 effects := s.effects - {t})
  {
    var t, k, role := s.gens[g].target, |s.tasks|, RoleFor(s, g);
    var running := Task(g, RestoreTask, s.remote[t], s.gens[g].plan.net0, Running);
    var first := SubmitScript(s, p, g);
    var s1 := Placed(s.(tasks := s.tasks + [running]), p, g, role, RestoreWaiting(k));
    var second := AwaitScript(s1, p, g, k, role);
    Append(s, first, second);
    events := first + second;
    assert s1.procs - {p} == s.procs;
    assert s1.tasks[k := running.(status := SucceededOk)] == s.tasks + [running.(status := SucceededOk)];
  }
}
