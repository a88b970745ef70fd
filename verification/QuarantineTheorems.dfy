/** What the quarantine protocol guarantees over all runs. */
module QuarantineTheorems {
  import opened QuarantineProtocol
  import opened QuarantineInvariant

  // --- lifecycle and receipts ---------------------------------------------------------------

  /** The transitions that the runtime performs. */
  predicate Transition(was: Status, now: Status) {
    match was
    case Prepared => now.Completed? || now.RecoveryRequired?
    case Completed => now.RolledBack? || now.RecoveryRequired?
    case RecoveryRequired => now.RolledBack?
    case RolledBack => false
    case NotApplied => false
  }

  /** The order in which a generation can pass through its statuses. */
  function Rank(status: Status): nat {
    match status
    case Prepared => 0
    case Completed => 1
    case RecoveryRequired => 2
    case RolledBack => 3
    case NotApplied => 3
  }

  /** What a later row may differ in from an earlier one of the same generation. */
  predicate LaterRow(was: Generation, now: Generation) {
    && now.target == was.target && now.plan == was.plan
    && Rank(was.status) <= Rank(now.status)
    && was.applyReceipts <= now.applyReceipts && was.rollbackReceipts <= now.rollbackReceipts
    && (was.upid.Some? ==> now.upid == was.upid)
  }

  /** What one event may do to a row. */
  predicate StepRow(was: Generation, now: Generation) {
    && LaterRow(was, now)
    && (now == was || Transition(was.status, now.status))
    && now.applyReceipts == was.applyReceipts + (if now.status.Completed? && !was.status.Completed? then 1 else 0)
    && now.rollbackReceipts == was.rollbackReceipts
        + (if now.status.RolledBack? && !was.status.RolledBack? then 1 else 0)
  }

  predicate Commits(e: Event) {
    match e
    case Apply(_, a) => a.Finish?
    case Restore(_, r) => r.MarkRecovery? || r.Resolve?
    case _ => false
  }

  lemma ApplyKeepsRows(s: State, p: Pid, a: ApplyStep, g: GenId)
    requires ApplyEnabled(s, p, a) && !a.Finish? && g < |s.gens|
    ensures g < |ApplyNext(s, p, a).gens| && ApplyNext(s, p, a).gens[g] == s.gens[g]
  {
  }

  lemma RestoreKeepsRows(s: State, p: Pid, r: RestoreStep, g: GenId)
    requires RestoreEnabled(s, p, r) && !r.MarkRecovery? && !r.Resolve? && g < |s.gens|
    ensures g < |RestoreNext(s, p, r).gens| && RestoreNext(s, p, r).gens[g] == s.gens[g]
  {
  }

  lemma CommitStep(s: State, e: Event)
    requires Inv(s) && Enabled(s, e) && Commits(e)
    ensures e.p in s.procs && s.procs[e.p].Working? && s.procs[e.p].gen < |s.gens|
    ensures var g := s.procs[e.p].gen;
            && |Next(s, e).gens| == |s.gens|
            && StepRow(s.gens[g], Next(s, e).gens[g])
            && forall h :: 0 <= h < |s.gens| && h != g ==> Next(s, e).gens[h] == s.gens[h]
  {
    match e
    case Apply(p, a) => FinishStep(s, p);
    case Restore(p, r) => if r.Resolve? { ResolveStep(s, p); } else { MarkStep(s, p); }
    case _ =>
  }

  lemma FinishStep(s: State, p: Pid)
    requires Inv(s) && ApplyEnabled(s, p, Finish)
    ensures var row := ApplyNext(s, p, Finish).gens[s.procs[p].gen]; StepRow(GenOf(s, p), row)
  {
    assert ProcOk(s, p) && GenOk(s, s.procs[p].gen);
  }

  lemma ResolveStep(s: State, p: Pid)
    requires Inv(s) && RestoreEnabled(s, p, Resolve)
    ensures var row := RestoreNext(s, p, Resolve).gens[s.procs[p].gen]; StepRow(GenOf(s, p), row)
  {
    assert ProcOk(s, p) && GenOk(s, s.procs[p].gen);
  }

  lemma MarkStep(s: State, p: Pid)
    requires Inv(s) && RestoreEnabled(s, p, MarkRecovery)
    ensures var row := RestoreNext(s, p, MarkRecovery).gens[s.procs[p].gen]; StepRow(GenOf(s, p), row)
  {
    assert ProcOk(s, p) && GenOk(s, s.procs[p].gen);
  }

  /**
   One event changes at most one row, only along the allowed transitions, and writes a receipt
   exactly when it completes or rolls back.
   */
  lemma LifecycleStep(s: State, e: Event, g: GenId)
    requires Inv(s) && Enabled(s, e) && g < |s.gens|
    ensures g < |Next(s, e).gens| && StepRow(s.gens[g], Next(s, e).gens[g])
  {
    if Commits(e) {
      CommitStep(s, e);
    } else {
      match e
      case Apply(p, a) => ApplyKeepsRows(s, p, a, g);
      case Restore(p, r) => RestoreKeepsRows(s, p, r, g);
      case _ =>
    }
  }

  /**
   Over every run, a row keeps its target and its rollback plan, its status only advances, and the
   receipts match the status: one apply receipt while completed and never more than one, and one
   rollback receipt exactly when rolled back.
   */
  lemma {:induction false} Lifecycle(s: State, events: seq<Event>, g: GenId)
    requires Inv(s) && CanRun(s, events) && g < |s.gens|
    ensures g < |Run(s, events).gens|
    ensures LaterRow(s.gens[g], Run(s, events).gens[g])
    ensures var now := Run(s, events).gens[g];
            && now.applyReceipts <= 1 && now.rollbackReceipts <= 1
            && (now.status.Prepared? ==> now.applyReceipts == 0)
            && (now.status.Completed? ==> now.applyReceipts == 1)
            && (now.status.RolledBack? <==> now.rollbackReceipts == 1)
            && !now.status.NotApplied?
    decreases |events|
  {
    assert GenOk(s, g);
    if events != [] {
      LifecycleStep(s, events[0], g);
      NextInv(s, events[0]);
      Lifecycle(Next(s, events[0]), events[1..], g);
    }
  }

  // --- write-ahead ownership ----------------------------------------------------------------

  /** Generation `g` owns target `t`, alone. */
  ghost predicate Owns(s: State, g: GenId, t: Target) {
    && g < |s.gens| && s.gens[g].target == t && Active(s.gens[g].status)
    && forall h :: 0 <= h < |s.gens| && s.gens[h].target == t && Active(s.gens[h].status) ==> h == g
  }

  /** The rollback plan holds what was there before. */
  predicate Undoes(plan: Plan, before: Remote) {
    match (plan, before)
    case (NicPlan(original), VmConfig(net0, _)) => original == net0
    case (NetworkPlan(nets), Networks(lost)) => forall n :: n in lost ==> n in nets && nets[n] == lost[n]
    case (_, _) => false
  }

  /**
   In every state of every run, under every interleaving, crash and late task: an isolation that is
   in force belongs to the one active generation of its target, and that generation's committed
   plan equals what the isolation took away.
   */
  lemma WriteAheadOwnership(init: State, events: seq<Event>, t: Target)
    requires Init(init) && CanRun(init, events)
    requires t in Run(init, events).effects
    ensures var s := Run(init, events);
            var e := s.effects[t];
            Owns(s, e.gen, t) && Undoes(s.gens[e.gen].plan, e.before)
  {
    InitInv(init);
    RunInv(init, events);
    assert EffectOk(Run(init, events), t);
  }

  /**
   A submitted isolating task that is not known to have succeeded keeps its generation active,
   neither completed nor reconcilable, with the plan it is fenced on.
   */
  lemma UndecidedTaskOwned(init: State, events: seq<Event>, k: TaskId)
    requires Init(init) && CanRun(init, events)
    requires k < |Run(init, events).tasks|
    requires Run(init, events).tasks[k].kind.IsolateTask? && !Run(init, events).tasks[k].status.SucceededOk?
    ensures var s := Run(init, events);
            var task := s.tasks[k];
            && task.gen < |s.gens|
            && var row := s.gens[task.gen];
            && Owns(s, task.gen, row.target) && (row.status.Prepared? || row.status.RecoveryRequired?)
            && row.upid.None? && Undoes(row.plan, task.fence)
  {
    InitInv(init);
    RunInv(init, events);
    UndecidedIsolation(Run(init, events), k);
    assert TaskOk(Run(init, events), k);
  }

  /**
   A recorded task always ended OK, because it is recorded only after the adapter saw that. The
   completion proof of a reconciliation therefore never meets a running or failed recorded task.
   */
  lemma RecordedTaskSucceeded(init: State, events: seq<Event>, g: GenId)
    requires Init(init) && CanRun(init, events) && g < |Run(init, events).gens|
    requires Run(init, events).gens[g].upid.Some?
    ensures Landed(Run(init, events), g, Run(init, events).gens[g].upid.value)
  {
    InitInv(init);
    RunInv(init, events);
    assert GenOk(Run(init, events), g);
  }

  // --- exact restoration --------------------------------------------------------------------

  /** A VM has the saved NIC; a container has every saved network, with its settings and at least its aliases. */
  predicate AsSaved(plan: Plan, remote: Remote) {
    match (plan, remote)
    case (NicPlan(original), VmConfig(net0, _)) => net0 == original
    case (NetworkPlan(nets), Networks(now)) =>
      forall n :: n in nets ==>
        && n in now && now[n].endpoint == nets[n].endpoint
        && forall i :: 0 <= i < |nets[n].aliases| ==> nets[n].aliases[i] in now[n].aliases
    case (_, _) => false
  }

  /**
   Whenever a generation becomes rolled back, its target is configured as its plan says, no
   isolation of it is in force, no isolating task at that target can still land, and a VM
   generation has a recorded task that ended OK.
   */
  lemma ExactRestoration(init: State, events: seq<Event>, e: Event, g: GenId)
    requires Init(init) && CanRun(init, events) && Enabled(Run(init, events), e) && g < |Run(init, events).gens|
    requires !Run(init, events).gens[g].status.RolledBack?
    ensures g < |Next(Run(init, events), e).gens|
    ensures var s, s' := Run(init, events), Next(Run(init, events), e);
            var row := s'.gens[g];
            row.status.RolledBack? ==>
              && row.target in s'.remote && AsSaved(row.plan, s'.remote[row.target])
              && row.target !in s'.effects
              && (forall k :: 0 <= k < |s'.tasks| && s'.tasks[k].kind.IsolateTask? && s'.tasks[k].status.Running? ==>
                    s'.tasks[k].gen < |s'.gens| && s'.gens[s'.tasks[k].gen].target != row.target)
              && (row.target.Vm? ==> row.upid.Some? && Landed(s', g, row.upid.value))
  {
    var s := Run(init, events);
    InitInv(init);
    RunInv(init, events);
    LifecycleStep(s, e, g);
    NextInv(s, e);
    if Next(s, e).gens[g].status.RolledBack? {
      OnlyResolveRollsBack(s, e, g);
      Resolved(s, e.p, g);
    }
  }

  lemma OnlyResolveRollsBack(s: State, e: Event, g: GenId)
    requires Inv(s) && Enabled(s, e) && g < |s.gens| && !s.gens[g].status.RolledBack?
    requires g < |Next(s, e).gens| && Next(s, e).gens[g].status.RolledBack?
    ensures e.Restore? && e.r.Resolve? && s.procs[e.p].gen == g
  {
    if Commits(e) {
      CommitStep(s, e);
    } else {
      match e
      case Apply(p, a) => ApplyKeepsRows(s, p, a, g);
      case Restore(p, r) => RestoreKeepsRows(s, p, r, g);
      case _ =>
    }
  }

  lemma Resolved(s: State, p: Pid, g: GenId)
    requires Inv(s) && Enabled(s, Restore(p, Resolve)) && s.procs[p].gen == g
    ensures var s' := Next(s, Restore(p, Resolve));
            && g < |s'.gens|
            && var row := s'.gens[g];
            && row.target in s'.remote && AsSaved(row.plan, s'.remote[row.target]) && row.target !in s'.effects
            && (forall k :: 0 <= k < |s'.tasks| && s'.tasks[k].kind.IsolateTask? && s'.tasks[k].status.Running? ==>
                  s'.tasks[k].gen < |s'.gens| && s'.gens[s'.tasks[k].gen].target != row.target)
            && (row.target.Vm? ==> row.upid.Some? && Landed(s', g, row.upid.value))
  {
    assert ProcOk(s, p) && GenOk(s, g);
    RestoredHasNoEffect(s, p);
    forall k | 0 <= k < |s.tasks| && s.tasks[k].kind.IsolateTask? && s.tasks[k].status.Running?
      ensures s.tasks[k].gen < |s.gens| && s.gens[s.tasks[k].gen].target != s.gens[g].target
    {
      UndecidedIsolation(s, k);
      assert TaskOk(s, k);
    }
  }

  /** A VM generation that waits for recovery without a recorded task is never resolved by any run. */
  lemma {:induction false} UnrecordedIsNeverReconciled(s: State, events: seq<Event>, g: GenId)
    requires Inv(s) && CanRun(s, events) && g < |s.gens|
    requires s.gens[g].target.Vm? && s.gens[g].status.RecoveryRequired? && s.gens[g].upid.None?
    ensures g < |Run(s, events).gens| && Run(s, events).gens[g] == s.gens[g]
    decreases |events|
  {
    if events != [] {
      var e := events[0];
      LifecycleStep(s, e, g);
      NextInv(s, e);
      assert GenOk(Next(s, e), g);
      assert Next(s, e).gens[g] == s.gens[g] by { UnrecordedStep(s, e, g); }
      UnrecordedIsNeverReconciled(Next(s, e), events[1..], g);
    }
  }

  lemma UnrecordedStep(s: State, e: Event, g: GenId)
    requires Inv(s) && Enabled(s, e) && g < |s.gens|
    requires s.gens[g].target.Vm? && s.gens[g].status.RecoveryRequired? && s.gens[g].upid.None?
    ensures g < |Next(s, e).gens| && Next(s, e).gens[g] == s.gens[g]
  {
    LifecycleStep(s, e, g);
    NextInv(s, e);
    assert GenOk(Next(s, e), g);
    if Commits(e) {
      CommitStep(s, e);
      assert ProcOk(s, e.p);
    } else {
      match e
      case Apply(p, a) => ApplyKeepsRows(s, p, a, g);
      case Restore(p, r) => RestoreKeepsRows(s, p, r, g);
      case _ =>
    }
  }

  // --- no automatic replay, no unauthorized write -------------------------------------------

  /** Event `e` isolates something for generation `g`: submits its task or cuts a network. */
  predicate Isolates(s: State, e: Event, g: GenId) {
    e.Apply? && (e.a.Submit? || e.a.Disconnect?) && e.p in s.procs && s.procs[e.p].Working? && s.procs[e.p].gen == g
  }

  ghost predicate NoApplier(s: State, g: GenId) {
    forall p :: p in s.procs && s.procs[p].Working? && s.procs[p].role.Applier? ==> s.procs[p].gen != g
  }

  lemma NoApplierStep(s: State, e: Event, g: GenId)
    requires Enabled(s, e) && g < |s.gens| && NoApplier(s, g)
    ensures NoApplier(Next(s, e), g) && !Isolates(s, e, g)
  {
    match e
    case Apply(p, a) => NoApplierApply(s, p, a, g);
    case Restore(p, r) => NoApplierRestore(s, p, r, g);
    case _ =>
  }

  lemma NoApplierApply(s: State, p: Pid, a: ApplyStep, g: GenId)
    requires ApplyEnabled(s, p, a) && g < |s.gens| && NoApplier(s, g)
    ensures NoApplier(ApplyNext(s, p, a), g) && !Isolates(s, Apply(p, a), g)
  {
  }

  lemma NoApplierRestore(s: State, p: Pid, r: RestoreStep, g: GenId)
    requires RestoreEnabled(s, p, r) && NoApplier(s, g)
    ensures NoApplier(RestoreNext(s, p, r), g)
  {
  }

  /**
   Once the process that prepared a generation is gone, no event of any run submits an isolating task
   or cuts a network for it again. The one task that it may have submitted can still land.
   */
  lemma {:induction false} NoReplay(s: State, before: seq<Event>, e: Event, g: GenId)
    requires Inv(s) && CanRun(s, before) && Enabled(Run(s, before), e) && g < |s.gens| && NoApplier(s, g)
    ensures !Isolates(Run(s, before), e, g)
    decreases |before|
  {
    if before == [] {
      NoApplierStep(s, e, g);
    } else {
      NoApplierStep(s, before[0], g);
      LifecycleStep(s, before[0], g);
      NextInv(s, before[0]);
      NoReplay(Next(s, before[0]), before[1..], e, g);
    }
  }

  /** What entitles event `e` to change the configuration of the target of generation `g`. */
  ghost predicate Authorized(s: State, e: Event, g: GenId)
    requires g < |s.gens|
  {
    var row := s.gens[g];
    match e
    case Apply(p, a) =>
      a.Disconnect? && At(s, p, Applier) && s.procs[p].gen == g && row.status.Prepared? && Owns(s, g, row.target)
    case Restore(p, r) =>
      && r.Connect? && p in s.procs && s.procs[p].Working? && s.procs[p].gen == g && Owns(s, g, row.target)
      && (match s.procs[p].role
          case Applier => row.status.Prepared?
          case Recoverer => row.status.Completed? && row.applyReceipts == 1
          case Reconciler => row.status.RecoveryRequired?)
    case RunTask(k, _) =>
      && k < |s.tasks| && s.tasks[k].gen == g
      && (match s.tasks[k].kind
          case IsolateTask => Owns(s, g, row.target) && row.upid.None?
          case RestoreTask => row.upid.Some? && Landed(s, g, row.upid.value))
    case _ => false
  }

  lemma ApplyKeepsRemote(s: State, p: Pid, a: ApplyStep)
    requires ApplyEnabled(s, p, a) && !a.Disconnect?
    ensures ApplyNext(s, p, a).remote == s.remote && ApplyNext(s, p, a).effects == s.effects
  {
  }

  lemma RestoreKeepsRemote(s: State, p: Pid, r: RestoreStep)
    requires RestoreEnabled(s, p, r) && !r.Connect?
    ensures RestoreNext(s, p, r).remote == s.remote && RestoreNext(s, p, r).effects == s.effects
  {
  }

  lemma Writer(s: State, e: Event, t: Target) returns (g: GenId)
    requires Inv(s) && Enabled(s, e) && !e.Drift?
    requires t in s.remote && t in Next(s, e).remote && Next(s, e).remote[t] != s.remote[t]
    ensures g < |s.gens| && s.gens[g].target == t && Authorized(s, e, g)
  {
    match e
    case Apply(p, a) =>
      if !a.Disconnect? { ApplyKeepsRemote(s, p, a); }
      g := s.procs[p].gen;
      assert ProcOk(s, p) && GenOk(s, g);
    case Restore(p, r) =>
      if !r.Connect? { RestoreKeepsRemote(s, p, r); }
      g := s.procs[p].gen;
      assert ProcOk(s, p) && GenOk(s, g);
    case RunTask(k, ok) =>
      g := s.tasks[k].gen;
      assert TaskOk(s, k) && GenOk(s, g);
      if s.tasks[k].kind.IsolateTask? { UndecidedIsolation(s, k); }
    case Stop(p) =>
      assert false;
  }

  /** Every change of a target that is not an outside change is authorized by a generation of that target. */
  lemma WritesAreAuthorized(init: State, events: seq<Event>, e: Event, t: Target)
    requires Init(init) && CanRun(init, events) && Enabled(Run(init, events), e) && !e.Drift?
    requires t in Run(init, events).remote && t in Next(Run(init, events), e).remote
    requires Next(Run(init, events), e).remote[t] != Run(init, events).remote[t]
    ensures var s := Run(init, events);
            exists g :: 0 <= g < |s.gens| && s.gens[g].target == t && Authorized(s, e, g)
  {
    InitInv(init);
    RunInv(init, events);
    var g := Writer(Run(init, events), e, t);
  }

  /** A restoring task is only ever submitted for the active generation that was asked for. */
  lemma RestoreSubmissionIsAuthorized(init: State, events: seq<Event>, p: Pid)
    requires Init(init) && CanRun(init, events) && Enabled(Run(init, events), Restore(p, SubmitRestore))
    ensures var s := Run(init, events);
            && Bound(s, p) && Owns(s, s.procs[p].gen, GenOf(s, p).target)
            && var row := GenOf(s, p);
            && row.upid.Some? && Landed(s, s.procs[p].gen, row.upid.value)
            && (match s.procs[p].role
                case Applier => false
                case Recoverer => row.status.Completed? && row.applyReceipts == 1
                case Reconciler => row.status.RecoveryRequired?)
  {
    var s := Run(init, events);
    InitInv(init);
    RunInv(init, events);
    assert ProcOk(s, p) && GenOk(s, s.procs[p].gen);
  }
}
