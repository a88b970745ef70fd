/** The inductive invariant of the quarantine transition system and its proof, event by event. */
module QuarantineInvariant {
  import opened Options
  import opened QuarantineProtocol
  import Nic

  /** Task `k` is the isolating task of generation `g` and it ended OK. */
  predicate Landed(s: State, g: GenId, k: TaskId) {
    k < |s.tasks| && s.tasks[k].gen == g && s.tasks[k].kind.IsolateTask? && s.tasks[k].status.SucceededOk?
  }

  ghost predicate NoIsolateTask(s: State, g: GenId) {
    forall k :: 0 <= k < |s.tasks| && s.tasks[k].gen == g ==> !s.tasks[k].kind.IsolateTask?
  }

  predicate UsablePlan(t: Target, plan: Plan) {
    match plan
    case NicPlan(net0) => t.Vm? && !Nic.IsIsolated(net0)
    case NetworkPlan(nets) => t.Container? && nets != map[]
  }

  /** The rows: how status, recorded task and receipts hang together. */
  predicate RowOk(row: Generation) {
    && UsablePlan(row.target, row.plan)
    && row.applyReceipts <= 1
    && (row.upid.Some? ==> row.target.Vm?)
    && row.rollbackReceipts == (if row.status.RolledBack? then 1 else 0)
    && (match row.status
        case Prepared => row.applyReceipts == 0 && row.upid.None?
        case Completed => row.applyReceipts == 1 && (row.target.Vm? ==> row.upid.Some?)
        case RecoveryRequired => true
        case RolledBack => row.target.Vm? ==> row.upid.Some?
        case NotApplied => false)
  }

  predicate GenOk(s: State, g: GenId)
    requires g < |s.gens|
  {
    && RowOk(s.gens[g])
    && s.gens[g].target in s.remote
    && (s.gens[g].upid.Some? ==> Landed(s, g, s.gens[g].upid.value))
  }

  ghost predicate UniqueActive(s: State) {
    forall g, h ::
      (&& 0 <= g < |s.gens| && 0 <= h < |s.gens| && s.gens[g].target == s.gens[h].target
       && Active(s.gens[g].status) && Active(s.gens[h].status)) ==> g == h
  }

  /** The tasks: what each may write, and over what. */
  predicate TaskOk(s: State, k: TaskId)
    requires k < |s.tasks|
  {
    var task := s.tasks[k];
    && task.gen < |s.gens|
    && var row := s.gens[task.gen];
    && row.plan.NicPlan? && row.target.Vm? && task.fence.VmConfig?
    && (match task.kind
        case IsolateTask => task.fence.net0 == row.plan.net0 && task.value == Nic.Isolate(row.plan.net0)
        case RestoreTask =>
          task.fence.net0 == Nic.Isolate(row.plan.net0) && task.value == row.plan.net0 && row.upid.Some?)
  }

  ghost predicate OneIsolateTask(s: State) {
    forall j, k ::
      (&& 0 <= j < |s.tasks| && 0 <= k < |s.tasks| && s.tasks[j].gen == s.tasks[k].gen
       && s.tasks[j].kind.IsolateTask? && s.tasks[k].kind.IsolateTask?) ==> j == k
  }

  function Restricted(nets: Attachments, keep: set<string>): Attachments {
    map n | n in nets && n in keep :: nets[n]
  }

  /** What a role may be doing, given the status its guard froze. */
  ghost predicate RoleOk(s: State, g: GenId, role: Role, pc: Pc)
    requires g < |s.gens|
  {
    var status := s.gens[g].status;
    match role
    case Applier =>
      && (pc.Intended? || status.Prepared?)
      && (pc.Intended? || pc.Guarded? || pc.Fenced? ==> NoIsolateTask(s, g))
      && (InRestore(pc) ==> pc.Reconnecting?) && !pc.Restored?
    case Recoverer =>
      if pc.Guarded? then Active(status)
      else status.Completed? && (InRestore(pc) || pc.Restored? || pc == Uncertain(None))
    case Reconciler =>
      status.RecoveryRequired? && (pc.Guarded? || InRestore(pc) || pc.Restored?)
  }

  /** What is known at a program point. */
  predicate PcOk(s: State, g: GenId, pc: Pc)
    requires g < |s.gens| && s.gens[g].target in s.remote
  {
    var row := s.gens[g];
    var now := s.remote[row.target];
    && ((InRestore(pc) || pc.Restored?) && row.target.Vm? ==> row.upid.Some?)
    && (match pc
        case Fenced(fence) => row.plan.NicPlan? && fence.VmConfig? && fence.net0 == row.plan.net0
        case Waiting(k) => k < |s.tasks| && s.tasks[k].gen == g && s.tasks[k].kind.IsolateTask?
        case Returned(k) => Landed(s, g, k)
        case Recorded(k) => Landed(s, g, k)
        case Verified(upid) => if row.target.Vm? then upid.Some? && Landed(s, g, upid.value) else upid.None?
        case Uncertain(upid) => upid.Some? ==> Landed(s, g, upid.value)
        case Disconnecting(todo) =>
          row.plan.NetworkPlan? && todo <= row.plan.nets.Keys && now == Networks(Restricted(row.plan.nets, todo))
        case RestoreFenced(fence) =>
          row.plan.NicPlan? && fence.VmConfig? && fence.net0 == Nic.Isolate(row.plan.net0)
        case Reconnecting(todo, _, _) => row.plan.NetworkPlan? && todo <= row.plan.nets.Keys
        case Restored => RestoredTo(row.plan, now)
        case _ => true)
  }

  ghost predicate ProcOk(s: State, p: Pid)
    requires p in s.procs
  {
    match s.procs[p]
    case Preflighted(t, plan) => t in s.remote && UsablePlan(t, plan)
    case Working(g, role, pc) =>
      g < |s.gens| && s.gens[g].target in s.remote && RoleOk(s, g, role, pc) && PcOk(s, g, pc)
  }

  ghost predicate GuardExclusive(s: State) {
    forall p, q ::
      (&& p in s.procs && q in s.procs && HoldsGuard(s.procs[p]) && HoldsGuard(s.procs[q])
       && s.procs[p].gen == s.procs[q].gen) ==> p == q
  }

  ghost predicate OneApplier(s: State) {
    forall p, q ::
      (&& p in s.procs && q in s.procs && s.procs[p].Working? && s.procs[q].Working?
       && s.procs[p].role.Applier? && s.procs[q].role.Applier? && s.procs[p].gen == s.procs[q].gen) ==> p == q
  }

  /** An isolation in force is owned by an active generation that can undo it. */
  predicate EffectOk(s: State, t: Target)
    requires t in s.effects
  {
    var e := s.effects[t];
    && t in s.remote && e.gen < |s.gens|
    && var row := s.gens[e.gen];
    && row.target == t && Active(row.status)
    && (match (row.plan, e.before, s.remote[t])
        case (NicPlan(original), VmConfig(before, _), VmConfig(now, _)) =>
          before == original && now == Nic.Isolate(original)
        case (NetworkPlan(nets), Networks(before), Networks(now)) =>
          && before != map[]
          && forall n :: n in before ==> n in nets && before[n] == nets[n] && !IsBack(before, now, n)
        case (_, _, _) => false)
  }

  ghost predicate Inv(s: State) {
    && (forall t :: t in s.remote ==> Fits(t, s.remote[t]))
    && (forall g :: 0 <= g < |s.gens| ==> GenOk(s, g))
    && UniqueActive(s)
    && (forall k :: 0 <= k < |s.tasks| ==> TaskOk(s, k))
    && OneIsolateTask(s)
    && (forall p :: p in s.procs ==> ProcOk(s, p))
    && GuardExclusive(s)
    && OneApplier(s)
    && (forall t :: t in s.effects ==> EffectOk(s, t))
  }

  lemma InitInv(s: State)
    requires Init(s)
    ensures Inv(s)
  {
  }

  /** An isolating task that has not ended belongs to an active generation without a recorded task. */
  lemma UndecidedIsolation(s: State, k: TaskId)
    requires Inv(s) && k < |s.tasks| && s.tasks[k].kind.IsolateTask? && !s.tasks[k].status.SucceededOk?
    ensures s.tasks[k].gen < |s.gens|
    ensures var row := s.gens[s.tasks[k].gen]; Active(row.status) && !row.status.Completed? && row.upid.None?
  {
    assert TaskOk(s, k);
    assert GenOk(s, s.tasks[k].gen);
  }

  // --- the six ways in which an event changes the state ------------------------------------

  /** Rows, tasks, configurations and effects are as before. */
  lemma SameRest(s: State, s': State)
    requires Inv(s) && s' == s.(procs := s'.procs)
    ensures forall g :: 0 <= g < |s'.gens| ==> GenOk(s', g)
    ensures forall k :: 0 <= k < |s'.tasks| ==> TaskOk(s', k)
    ensures forall t :: t in s'.effects ==> EffectOk(s', t)
    ensures UniqueActive(s') && OneIsolateTask(s')
  {
    forall g | 0 <= g < |s'.gens| ensures GenOk(s', g) { assert GenOk(s, g); }
    forall k | 0 <= k < |s'.tasks| ensures TaskOk(s', k) { assert TaskOk(s, k); }
    forall t | t in s'.effects ensures EffectOk(s', t) { assert EffectOk(s, t); }
  }

  lemma SameProc(s: State, s': State, q: Pid)
    requires q in s.procs && q in s'.procs && s'.procs[q] == s.procs[q] && s' == s.(procs := s'.procs) && ProcOk(s, q)
    ensures ProcOk(s', q)
  {
  }

  /** A process moves to another program point. */
  lemma Moved(s: State, p: Pid, pc: Pc)
    requires Inv(s) && Bound(s, p)
    requires HoldsGuard(s.procs[p]) || !Locked(s, s.procs[p].gen)
    requires RoleOk(s, s.procs[p].gen, s.procs[p].role, pc) && PcOk(s, s.procs[p].gen, pc)
    ensures Inv(Goto(s, p, pc))
  {
    var s' := Goto(s, p, pc);
    forall q | q in s'.procs ensures ProcOk(s', q) {
      if q != p { SameProc(s, s', q); }
    }
    SameRest(s, s');
  }

  /** A process without a guard appears, or takes a free guard. */
  lemma Started(s: State, p: Pid, proc: Proc)
    requires Inv(s) && p !in s.procs
    requires proc.Working? ==> HoldsGuard(proc) && !Locked(s, proc.gen) && !proc.role.Applier?
    requires ProcOk(s.(procs := s.procs[p := proc]), p)
    ensures Inv(s.(procs := s.procs[p := proc]))
  {
    var s' := s.(procs := s.procs[p := proc]);
    forall q | q in s'.procs ensures ProcOk(s', q) {
      if q != p { SameProc(s, s', q); }
    }
    SameRest(s, s');
  }

  lemma Stopped(s: State, p: Pid)
    requires Inv(s)
    ensures Inv(s.(procs := s.procs - {p}))
  {
    var s' := s.(procs := s.procs - {p});
    forall q | q in s'.procs ensures ProcOk(s', q) { SameProc(s, s', q); }
    SameRest(s, s');
  }

  /** The holder of a guard commits a new row and ends. */
  lemma Committed(s: State, p: Pid, row: Generation)
    requires Inv(s) && Bound(s, p) && HoldsGuard(s.procs[p])
    requires var was := GenOf(s, p);
             && row.target == was.target && row.plan == was.plan && Active(was.status) && RowOk(row)
             && (was.upid.Some? ==> row.upid.Some?)
    requires row.upid.Some? ==> Landed(s, s.procs[p].gen, row.upid.value)
    requires Active(row.status) || (row.target in s.effects ==> s.effects[row.target].gen != s.procs[p].gen)
    ensures Inv(Commit(s, p, row))
  {
    var s' := Commit(s, p, row);
    CommittedProcs(s, p, row);
    forall h | 0 <= h < |s'.gens| ensures GenOk(s', h) { assert GenOk(s, h); }
    forall k | 0 <= k < |s'.tasks| ensures TaskOk(s', k) { assert TaskOk(s, k); }
    forall t | t in s'.effects ensures EffectOk(s', t) { assert EffectOk(s, t); }
  }

  /** The others go on: whoever works on the committed row has not yet read it. */
  lemma CommittedProcs(s: State, p: Pid, row: Generation)
    requires Inv(s) && Bound(s, p) && HoldsGuard(s.procs[p])
    requires row.target == GenOf(s, p).target && row.plan == GenOf(s, p).plan
    ensures var s' := Commit(s, p, row);
            (forall q :: q in s'.procs ==> ProcOk(s', q)) && GuardExclusive(s') && OneApplier(s')
  {
    var s' := Commit(s, p, row);
    forall q | q in s'.procs ensures ProcOk(s', q) {
      CommittedProc(s, p, row, q);
    }
  }

  lemma CommittedProc(s: State, p: Pid, row: Generation, q: Pid)
    requires Inv(s) && Bound(s, p) && HoldsGuard(s.procs[p]) && q in s.procs && q != p
    requires row.target == GenOf(s, p).target && row.plan == GenOf(s, p).plan
    ensures q in Commit(s, p, row).procs && ProcOk(Commit(s, p, row), q)
  {
    assert ProcOk(s, q);
    if s.procs[q].Working? && s.procs[q].gen == s.procs[p].gen { assert s.procs[q].pc.Intended?; }
  }

  /** A restoring task is submitted. */
  lemma SubmittedRestore(s: State, task: Task)
    requires Inv(s) && task.kind.RestoreTask? && TaskOk(s.(tasks := s.tasks + [task]), |s.tasks|)
    ensures Inv(s.(tasks := s.tasks + [task]))
  {
    var s' := s.(tasks := s.tasks + [task]);
    forall q | q in s'.procs ensures ProcOk(s', q) { assert ProcOk(s, q); }
    forall g | 0 <= g < |s'.gens| ensures GenOk(s', g) { assert GenOk(s, g); }
    forall k | 0 <= k < |s'.tasks| ensures TaskOk(s', k) { if k < |s.tasks| { assert TaskOk(s, k); } }
    forall t | t in s'.effects ensures EffectOk(s', t) { assert EffectOk(s, t); }
  }

  /** The applier submits the one isolating task of its generation and waits for it. */
  lemma SubmittedIsolation(s: State, p: Pid, task: Task)
    requires Inv(s) && At(s, p, Applier) && s.procs[p].pc.Fenced? && task.gen == s.procs[p].gen
             && task.kind.IsolateTask?
    requires TaskOk(s.(tasks := s.tasks + [task]), |s.tasks|)
    ensures Inv(Goto(s.(tasks := s.tasks + [task]), p, Waiting(|s.tasks|)))
  {
    var s' := Goto(s.(tasks := s.tasks + [task]), p, Waiting(|s.tasks|));
    SubmittedProcs(s, p, task);
    forall g | 0 <= g < |s'.gens| ensures GenOk(s', g) { assert GenOk(s, g); }
    forall k | 0 <= k < |s'.tasks| ensures TaskOk(s', k) { if k < |s.tasks| { assert TaskOk(s, k); } }
    forall t | t in s'.effects ensures EffectOk(s', t) { assert EffectOk(s, t); }
    assert OneIsolateTask(s') by { assert ProcOk(s, p) && NoIsolateTask(s, task.gen); }
  }

  lemma SubmittedProcs(s: State, p: Pid, task: Task)
    requires Inv(s) && At(s, p, Applier) && s.procs[p].pc.Fenced? && task.gen == s.procs[p].gen
             && task.kind.IsolateTask?
    ensures var s' := Goto(s.(tasks := s.tasks + [task]), p, Waiting(|s.tasks|));
            (forall q :: q in s'.procs ==> ProcOk(s', q)) && GuardExclusive(s') && OneApplier(s')
  {
    var s' := Goto(s.(tasks := s.tasks + [task]), p, Waiting(|s.tasks|));
    assert ProcOk(s, p);
    forall q | q in s'.procs ensures ProcOk(s', q) {
      if q != p {
        assert ProcOk(s, q);
        SubmittedFrame(s, s', p, q);
      }
    }
  }

  lemma SubmittedFrame(s: State, s': State, p: Pid, q: Pid)
    requires OneApplier(s) && p in s.procs && s.procs[p].Working? && s.procs[p].role.Applier?
    requires q in s.procs && q != p && ProcOk(s, q)
    requires |s'.tasks| == |s.tasks| + 1 && s'.tasks[..|s.tasks|] == s.tasks
             && s'.tasks[|s.tasks|].gen == s.procs[p].gen
    requires s'.gens == s.gens && s'.remote == s.remote && q in s'.procs && s'.procs[q] == s.procs[q]
    ensures ProcOk(s', q)
  {
    assert forall k :: 0 <= k < |s.tasks| ==> s'.tasks[k] == s'.tasks[..|s.tasks|][k];
    if s.procs[q].Working? {
      var g := s.procs[q].gen;
      if NoIsolateTask(s, g) && g != s.procs[p].gen { assert NoIsolateTask(s', g); }
    }
  }

  /** No process depends on the present configuration of target `t`. */
  ghost predicate Undepended(s: State, t: Target) {
    forall q :: q in s.procs && s.procs[q].Working? && s.procs[q].gen < |s.gens| && s.gens[s.procs[q].gen].target == t
                ==> !s.procs[q].pc.Disconnecting? && !s.procs[q].pc.Restored?
  }

  /** The configuration of a target changes; rows and processes stay. */
  lemma Reconfigured(s: State, t: Target, now: Remote, effects: map<Target, Effect>)
    requires Inv(s) && t in s.remote && Fits(t, now) && Undepended(s, t)
    requires forall u :: u != t ==> (u in effects <==> u in s.effects) && (u in effects ==> effects[u] == s.effects[u])
    requires t in effects ==> EffectOk(s.(remote := s.remote[t := now], effects := effects), t)
    ensures Inv(s.(remote := s.remote[t := now], effects := effects))
  {
    var s' := s.(remote := s.remote[t := now], effects := effects);
    forall q | q in s'.procs ensures ProcOk(s', q) { ReconfiguredProc(s, s', t, q); }
    forall g | 0 <= g < |s'.gens| ensures GenOk(s', g) { assert GenOk(s, g); }
    forall k | 0 <= k < |s'.tasks| ensures TaskOk(s', k) { assert TaskOk(s, k); }
    forall u | u in s'.effects ensures EffectOk(s', u) { if u != t { assert EffectOk(s, u); } }
  }

  lemma ReconfiguredProc(s: State, s': State, t: Target, q: Pid)
    requires Undepended(s, t) && t in s.remote && q in s.procs && ProcOk(s, q)
    requires s'.gens == s.gens && s'.tasks == s.tasks && s'.procs == s.procs && s'.remote.Keys == s.remote.Keys
    requires forall u :: u in s.remote && u != t ==> s'.remote[u] == s.remote[u]
    ensures ProcOk(s', q)
  {
    if s.procs[q].Working? && NoIsolateTask(s, s.procs[q].gen) { assert NoIsolateTask(s', s.procs[q].gen); }
  }

  /** A task ends. */
  lemma Ended(s: State, k: TaskId, status: TaskStatus)
    requires Inv(s) && k < |s.tasks| && s.tasks[k].status.Running?
    ensures Inv(s.(tasks := s.tasks[k := s.tasks[k].(status := status)]))
  {
    var s' := s.(tasks := s.tasks[k := s.tasks[k].(status := status)]);
    forall q | q in s'.procs ensures ProcOk(s', q) { EndedProc(s, s', k, status, q); }
    forall g | 0 <= g < |s'.gens| ensures GenOk(s', g) { assert GenOk(s, g); }
    forall j | 0 <= j < |s'.tasks| ensures TaskOk(s', j) { assert TaskOk(s, j); }
    forall t | t in s'.effects ensures EffectOk(s', t) { assert EffectOk(s, t); }
  }

  lemma EndedProc(s: State, s': State, k: TaskId, status: TaskStatus, q: Pid)
    requires k < |s.tasks| && s.tasks[k].status.Running?
             && s' == s.(tasks := s.tasks[k := s.tasks[k].(status := status)])
    requires q in s.procs && ProcOk(s, q)
    ensures ProcOk(s', q)
  {
    if s.procs[q].Working? && NoIsolateTask(s, s.procs[q].gen) {
      assert NoIsolateTask(s', s.procs[q].gen);
    }
  }

  // --- every event keeps the invariant ------------------------------------------------------

  /** Through the active row, a guard excludes every other guard at the same target. */
  lemma SoleGuard(s: State, p: Pid, q: Pid)
    requires Inv(s) && Bound(s, p) && HoldsGuard(s.procs[p]) && Bound(s, q) && HoldsGuard(s.procs[q])
    requires GenOf(s, p).target == GenOf(s, q).target
    ensures p == q
  {
    assert ProcOk(s, p) && ProcOk(s, q);
  }

  lemma PrepareInv(s: State, p: Pid)
    requires Inv(s) && ApplyEnabled(s, p, Prepare)
    ensures Inv(ApplyNext(s, p, Prepare))
  {
    var s' := ApplyNext(s, p, Prepare);
    assert ProcOk(s, p);
    PrepareProcs(s, p);
    forall g | 0 <= g < |s'.gens| ensures GenOk(s', g) { if g < |s.gens| { assert GenOk(s, g); } }
    forall k | 0 <= k < |s'.tasks| ensures TaskOk(s', k) { assert TaskOk(s, k); }
    forall t | t in s'.effects ensures EffectOk(s', t) { assert EffectOk(s, t); }
  }

  lemma PrepareProcs(s: State, p: Pid)
    requires Inv(s) && ApplyEnabled(s, p, Prepare)
    ensures var s' := ApplyNext(s, p, Prepare);
            (forall q :: q in s'.procs ==> ProcOk(s', q)) && GuardExclusive(s') && OneApplier(s')
  {
    var s' := ApplyNext(s, p, Prepare);
    assert ProcOk(s, p);
    assert NoIsolateTask(s', |s.gens|) by {
      forall k | 0 <= k < |s.tasks| ensures s.tasks[k].gen != |s.gens| { assert TaskOk(s, k); }
    }
    forall q | q in s'.procs ensures ProcOk(s', q) {
      if q != p { assert ProcOk(s, q); }
    }
    forall q | q in s.procs && s.procs[q].Working? ensures s.procs[q].gen != |s.gens| { assert ProcOk(s, q); }
  }

  /** While `p` holds a guard and does not itself rely on the configuration, nobody does. */
  lemma GuardUndepended(s: State, p: Pid)
    requires Inv(s) && Bound(s, p) && HoldsGuard(s.procs[p]) && !s.procs[p].pc.Disconnecting?
             && !s.procs[p].pc.Restored?
    ensures Undepended(s, GenOf(s, p).target)
  {
    forall q | q in s.procs && s.procs[q].Working? && s.procs[q].gen < |s.gens|
        && s.gens[s.procs[q].gen].target == GenOf(s, p).target
      ensures !s.procs[q].pc.Disconnecting? && !s.procs[q].pc.Restored?
    {
      if HoldsGuard(s.procs[q]) { SoleGuard(s, p, q); }
    }
  }

  lemma WidenedEffect(s: State, g: GenId, todo: set<string>, n: string)
    requires Inv(s) && g < |s.gens| && Active(s.gens[g].status) && s.gens[g].plan.NetworkPlan?
    requires s.gens[g].target in s.remote && todo <= s.gens[g].plan.nets.Keys && n in todo
    requires s.remote[s.gens[g].target] == Networks(Restricted(s.gens[g].plan.nets, todo))
    ensures var t := s.gens[g].target;
            var nets := s.remote[t].nets;
            && nets - {n} == Restricted(s.gens[g].plan.nets, todo - {n})
            && n in nets
            && EffectOk(s.(remote := s.remote[t := Networks(nets - {n})],
                           effects := Widened(s.effects, t, g, n, nets[n])), t)
  {
    var t := s.gens[g].target;
    var nets := s.remote[t].nets;
    var effects := Widened(s.effects, t, g, n, nets[n]);
    if t in s.effects {
      assert EffectOk(s, t);
      assert s.effects[t].gen == g;
    }
    assert n in effects[t].before.nets;
  }

  /** A disconnect seen from the point where the process no longer relies on the configuration. */
  lemma Disconnected(s: State, p: Pid, todo: set<string>, n: string)
    requires Inv(s) && At(s, p, Applier) && s.procs[p].pc == Uncertain(None)
    requires GenOf(s, p).plan.NetworkPlan? && todo <= GenOf(s, p).plan.nets.Keys && n in todo
    requires RemoteOf(s, p) == Networks(Restricted(GenOf(s, p).plan.nets, todo)) && n in RemoteOf(s, p).nets
    ensures var t := GenOf(s, p).target;
            var nets := s.remote[t].nets;
            Inv(Goto(s.(remote := s.remote[t := Networks(nets - {n})],
                        effects := Widened(s.effects, t, s.procs[p].gen, n, nets[n])), p, Disconnecting(todo - {n})))
  {
    var g, t := s.procs[p].gen, GenOf(s, p).target;
    var nets := s.remote[t].nets;
    var effects := Widened(s.effects, t, g, n, nets[n]);
    assert ProcOk(s, p) && GenOk(s, g);
    WidenedEffect(s, g, todo, n);
    GuardUndepended(s, p);
    Reconfigured(s, t, Networks(nets - {n}), effects);
    Moved(s.(remote := s.remote[t := Networks(nets - {n})], effects := effects), p, Disconnecting(todo - {n}));
  }

  lemma DisconnectInv(s: State, p: Pid, n: string)
    requires Inv(s) && ApplyEnabled(s, p, Disconnect(n))
    ensures Inv(ApplyNext(s, p, Disconnect(n)))
  {
    var s1 := Goto(s, p, Uncertain(None));
    var todo := s.procs[p].pc.todo;
    DisconnectReady(s, p, n);
    Disconnected(s1, p, todo, n);
    DisconnectState(s, p, n);
  }

  lemma DisconnectState(s: State, p: Pid, n: string)
    requires ApplyEnabled(s, p, Disconnect(n))
    ensures var s1, t, todo := Goto(s, p, Uncertain(None)), GenOf(s, p).target, s.procs[p].pc.todo;
            var nets := s.remote[t].nets;
            ApplyNext(s, p, Disconnect(n))
            == Goto(s1.(remote := s.remote[t := Networks(nets - {n})],
                        effects := Widened(s.effects, t, s.procs[p].gen, n, nets[n])), p, Disconnecting(todo - {n}))
  {
    var s1, todo := Goto(s, p, Uncertain(None)), s.procs[p].pc.todo;
    assert s1.procs[p := s1.procs[p].(pc := Disconnecting(todo - {n}))]
           == s.procs[p := s.procs[p].(pc := Disconnecting(todo - {n}))];
  }

  /** A disconnecting process no longer relies on the configuration once it may give up. */
  lemma DisconnectReady(s: State, p: Pid, n: string)
    requires Inv(s) && ApplyEnabled(s, p, Disconnect(n))
    ensures var s1, todo := Goto(s, p, Uncertain(None)), s.procs[p].pc.todo;
            && Inv(s1) && At(s1, p, Applier) && s1.procs[p].pc == Uncertain(None)
            && GenOf(s1, p).plan.NetworkPlan? && todo <= GenOf(s1, p).plan.nets.Keys && n in todo
            && RemoteOf(s1, p) == Networks(Restricted(GenOf(s1, p).plan.nets, todo)) && n in RemoteOf(s1, p).nets
  {
    assert ProcOk(s, p);
    Moved(s, p, Uncertain(None));
  }

  lemma ApplyVmInv(s: State, p: Pid, a: ApplyStep)
    requires Inv(s) && ApplyEnabled(s, p, a)
    requires a.ReadFence? || a.Submit? || a.AwaitOk? || a.RecordUpid?
    ensures Inv(ApplyNext(s, p, a))
  {
    assert ProcOk(s, p);
    match a {
      case ReadFence => Moved(s, p, Fenced(RemoteOf(s, p)));
      case Submit =>
        assert GenOk(s, s.procs[p].gen);
        var fence := s.procs[p].pc.fence;
        SubmittedIsolation(s, p, Task(s.procs[p].gen, IsolateTask, fence, Nic.Isolate(fence.net0), Running));
      case AwaitOk => Moved(s, p, Returned(s.procs[p].pc.task));
      case RecordUpid => Moved(s, p, Recorded(s.procs[p].pc.task));
    }
  }

  lemma ReadNetworksInv(s: State, p: Pid)
    requires Inv(s) && ApplyEnabled(s, p, ReadNetworks)
    ensures Inv(ApplyNext(s, p, ReadNetworks))
  {
    assert ProcOk(s, p);
    assert Restricted(RemoteOf(s, p).nets, RemoteOf(s, p).nets.Keys) == RemoteOf(s, p).nets;
    Moved(s, p, Disconnecting(RemoteOf(s, p).nets.Keys));
  }

  lemma CompensateInv(s: State, p: Pid)
    requires Inv(s) && ApplyEnabled(s, p, Compensate)
    ensures Inv(ApplyNext(s, p, Compensate))
  {
    assert ProcOk(s, p) && GenOk(s, s.procs[p].gen);
    Moved(s, p, Reconnecting(GenOf(s, p).plan.nets.Keys, RemoteOf(s, p).nets, false));
  }

  lemma VerifyInv(s: State, p: Pid)
    requires Inv(s) && ApplyEnabled(s, p, Verify)
    ensures Inv(ApplyNext(s, p, Verify))
  {
    assert ProcOk(s, p) && GenOk(s, s.procs[p].gen);
    if s.procs[p].pc.Recorded? { assert TaskOk(s, s.procs[p].pc.task); }
    Moved(s, p, Verified(if s.procs[p].pc.Recorded? then Some(s.procs[p].pc.task) else None));
  }

  lemma AdapterErrorInv(s: State, p: Pid)
    requires Inv(s) && ApplyEnabled(s, p, AdapterError)
    ensures Inv(ApplyNext(s, p, AdapterError))
  {
    assert ProcOk(s, p) && GenOk(s, s.procs[p].gen);
    Moved(s, p, Uncertain(if s.procs[p].pc.Recorded? then Some(s.procs[p].pc.task) else None));
  }

  lemma FinishInv(s: State, p: Pid)
    requires Inv(s) && ApplyEnabled(s, p, Finish)
    ensures Inv(ApplyNext(s, p, Finish))
  {
    assert ProcOk(s, p) && GenOk(s, s.procs[p].gen);
    var row := GenOf(s, p);
    Committed(s, p, row.(status := Completed, upid := s.procs[p].pc.upid, applyReceipts := row.applyReceipts + 1));
  }

  lemma ApplyInv(s: State, p: Pid, a: ApplyStep)
    requires Inv(s) && ApplyEnabled(s, p, a)
    ensures Inv(ApplyNext(s, p, a))
  {
    match a
    case Preflight(t) => Started(s, p, Preflighted(t, PlanOf(s.remote[t])));
    case Prepare => PrepareInv(s, p);
    case AcquireApply => assert ProcOk(s, p); Moved(s, p, Guarded);
    case ReadNetworks => ReadNetworksInv(s, p);
    case Disconnect(n) => DisconnectInv(s, p, n);
    case Compensate => CompensateInv(s, p);
    case Verify => VerifyInv(s, p);
    case AdapterError => AdapterErrorInv(s, p);
    case Finish => FinishInv(s, p);
    case _ => ApplyVmInv(s, p, a);
  }

  /**
   What is left of an effect after the configuration of its container changed is still owned and
   undone by the plan.
   */
  lemma SurvivingOk(s: State, t: Target, now: Remote)
    requires Inv(s) && t in s.remote && Fits(t, now)
    requires t in Surviving(s.effects, t, s.remote[t], now)
    ensures EffectOk(s.(remote := s.remote[t := now], effects := Surviving(s.effects, t, s.remote[t], now)), t)
  {
    assert EffectOk(s, t);
  }

  lemma SurvivingElsewhere(effects: map<Target, Effect>, t: Target, was: Remote, now: Remote)
    ensures var after := Surviving(effects, t, was, now);
            forall u :: u != t ==> (u in after <==> u in effects) && (u in after ==> after[u] == effects[u])
  {
  }

  /** A change of a target on which nobody depends. */
  lemma SurvivingInv(s: State, t: Target, now: Remote)
    requires Inv(s) && t in s.remote && Fits(t, now) && Undepended(s, t)
    ensures Inv(s.(remote := s.remote[t := now], effects := Surviving(s.effects, t, s.remote[t], now)))
  {
    var effects := Surviving(s.effects, t, s.remote[t], now);
    if t in effects { SurvivingOk(s, t, now); }
    SurvivingElsewhere(s.effects, t, s.remote[t], now);
    Reconfigured(s, t, now, effects);
  }

  lemma ConnectInv(s: State, p: Pid, n: string, now: Attachment, reported: bool)
    requires Inv(s) && RestoreEnabled(s, p, Connect(n, now, reported))
    ensures Inv(RestoreNext(s, p, Connect(n, now, reported)))
  {
    assert ProcOk(s, p);
    var t, pc := GenOf(s, p).target, s.procs[p].pc;
    var after := Networks(s.remote[t].nets[n := now]);
    GuardUndepended(s, p);
    SurvivingInv(s, t, after);
    var s1 := s.(remote := s.remote[t := after], effects := Surviving(s.effects, t, s.remote[t], after));
    ConnectMoved(s1, p, pc.(todo := pc.todo - {n}, failed := pc.failed || !reported));
  }

  /** A restore goes on with fewer networks to do. */
  lemma ConnectMoved(s: State, p: Pid, pc: Pc)
    requires Inv(s) && Bound(s, p) && s.procs[p].pc.Reconnecting? && pc.Reconnecting? && pc.todo <= s.procs[p].pc.todo
    ensures Inv(Goto(s, p, pc))
  {
    assert ProcOk(s, p);
    Moved(s, p, pc);
  }

  /** After a confirmed restore, nothing of the generation's isolation is left in force. */
  lemma RestoredHasNoEffect(s: State, p: Pid)
    requires Inv(s) && Bound(s, p) && s.procs[p].pc.Restored?
    ensures GenOf(s, p).target !in s.effects
  {
    assert ProcOk(s, p);
    var g, t := s.procs[p].gen, GenOf(s, p).target;
    assert GenOk(s, g);
    if t in s.effects {
      assert EffectOk(s, t);
      assert s.effects[t].gen == g;
      if t.Vm? {
        Nic.IsolateIsIsolated(s.gens[g].plan.net0);
      }
      assert false;
    }
  }

  lemma AcquireInv(s: State, p: Pid, r: RestoreStep)
    requires Inv(s) && RestoreEnabled(s, p, r) && (r.AcquireRecover? || r.AcquireReconcile?)
    ensures Inv(RestoreNext(s, p, r))
  {
    assert GenOk(s, r.g);
    Started(s, p, Working(r.g, if r.AcquireRecover? then Recoverer else Reconciler, Guarded));
  }

  lemma RestoreVmInv(s: State, p: Pid, r: RestoreStep)
    requires Inv(s) && RestoreEnabled(s, p, r)
    requires r.StartRecovery? || r.ProveCompletion? || r.AwaitRestore? || r.Readback? || r.RestoreError?
    ensures Inv(RestoreNext(s, p, r))
  {
    assert ProcOk(s, p) && GenOk(s, s.procs[p].gen);
    match r {
      case StartRecovery => Moved(s, p, Restoring);
      case ProveCompletion => Moved(s, p, Restoring);
      case AwaitRestore => Moved(s, p, RestoreSubmitted);
      case Readback => Moved(s, p, Restored);
      case RestoreError => Moved(s, p, Uncertain(None));
    }
  }

  lemma SubmitRestoreInv(s: State, p: Pid)
    requires Inv(s) && RestoreEnabled(s, p, SubmitRestore)
    ensures Inv(RestoreNext(s, p, SubmitRestore))
  {
    assert ProcOk(s, p) && GenOk(s, s.procs[p].gen);
    var task := Task(s.procs[p].gen, RestoreTask, s.procs[p].pc.fence, GenOf(s, p).plan.net0, Running);
    SubmittedRestore(s, task);
    WaitForRestore(s.(tasks := s.tasks + [task]), p, |s.tasks|);
  }

  lemma WaitForRestore(s: State, p: Pid, k: TaskId)
    requires Inv(s) && Bound(s, p) && s.procs[p].pc.RestoreFenced?
    ensures Inv(Goto(s, p, RestoreWaiting(k)))
  {
    assert ProcOk(s, p);
    Moved(s, p, RestoreWaiting(k));
  }

  lemma ReadRestoreInv(s: State, p: Pid)
    requires Inv(s) && RestoreEnabled(s, p, ReadRestore)
    ensures Inv(RestoreNext(s, p, ReadRestore))
  {
    assert ProcOk(s, p) && GenOk(s, s.procs[p].gen);
    if GenOf(s, p).plan.NetworkPlan? {
      Moved(s, p, Reconnecting(GenOf(s, p).plan.nets.Keys, RemoteOf(s, p).nets, false));
    } else if RemoteOf(s, p).net0 == GenOf(s, p).plan.net0 {
      Moved(s, p, Restored);
    } else {
      Moved(s, p, RestoreFenced(RemoteOf(s, p)));
    }
  }

  lemma SkipNetworkInv(s: State, p: Pid, n: string)
    requires Inv(s) && RestoreEnabled(s, p, SkipNetwork(n))
    ensures Inv(RestoreNext(s, p, SkipNetwork(n)))
  {
    assert ProcOk(s, p) && GenOk(s, s.procs[p].gen);
    var pc := s.procs[p].pc;
    ConnectMoved(s, p, pc.(todo := pc.todo - {n},
                           failed := pc.failed || !RestoredBy(GenOf(s, p).plan.nets[n], pc.seen[n])));
  }

  lemma ConnectFailedInv(s: State, p: Pid, n: string)
    requires Inv(s) && RestoreEnabled(s, p, ConnectFailed(n))
    ensures Inv(RestoreNext(s, p, ConnectFailed(n)))
  {
    var pc := s.procs[p].pc;
    ConnectMoved(s, p, pc.(todo := pc.todo - {n}, failed := true));
  }

  lemma CheckNetworksInv(s: State, p: Pid)
    requires Inv(s) && RestoreEnabled(s, p, CheckNetworks)
    ensures Inv(RestoreNext(s, p, CheckNetworks))
  {
    assert ProcOk(s, p) && GenOk(s, s.procs[p].gen);
    Moved(s, p, if s.procs[p].role.Applier? then Uncertain(None) else Restored);
  }

  lemma ResolveInv(s: State, p: Pid)
    requires Inv(s) && RestoreEnabled(s, p, Resolve)
    ensures Inv(RestoreNext(s, p, Resolve))
  {
    assert ProcOk(s, p) && GenOk(s, s.procs[p].gen);
    RestoredHasNoEffect(s, p);
    var row := GenOf(s, p);
    Committed(s, p, row.(status := RolledBack, rollbackReceipts := row.rollbackReceipts + 1));
  }

  lemma RestoreInv(s: State, p: Pid, r: RestoreStep)
    requires Inv(s) && RestoreEnabled(s, p, r)
    ensures Inv(RestoreNext(s, p, r))
  {
    match r
    case AcquireRecover(_) => AcquireInv(s, p, r);
    case AcquireReconcile(_) => AcquireInv(s, p, r);
    case ReadRestore => ReadRestoreInv(s, p);
    case SubmitRestore => SubmitRestoreInv(s, p);
    case SkipNetwork(n) => SkipNetworkInv(s, p, n);
    case ConnectFailed(n) => ConnectFailedInv(s, p, n);
    case CheckNetworks => CheckNetworksInv(s, p);
    case Connect(n, now, reported) => ConnectInv(s, p, n, now, reported);
    case MarkRecovery => MarkRecoveryInv(s, p);
    case Resolve => ResolveInv(s, p);
    case _ => RestoreVmInv(s, p, r);
  }

  lemma MarkRecoveryInv(s: State, p: Pid)
    requires Inv(s) && RestoreEnabled(s, p, MarkRecovery)
    ensures Inv(RestoreNext(s, p, MarkRecovery))
  {
    assert ProcOk(s, p) && GenOk(s, s.procs[p].gen);
    var row := GenOf(s, p);
    var recorded := if s.procs[p].pc.Uncertain? then s.procs[p].pc.upid else None;
    if recorded.Some? { assert TaskOk(s, recorded.value); }
    Committed(s, p, row.(status := RecoveryRequired, upid := if recorded.Some? then recorded else row.upid));
  }

  /** A task that lands cannot disturb a confirmed restore. */
  lemma LandingUndepended(s: State, k: TaskId)
    requires Inv(s) && Enabled(s, RunTask(k, true))
    ensures Undepended(s, s.gens[s.tasks[k].gen].target)
  {
    assert TaskOk(s, k);
    var t := s.gens[s.tasks[k].gen].target;
    forall q | q in s.procs && s.procs[q].Working? && s.procs[q].gen < |s.gens| && s.gens[s.procs[q].gen].target == t
      ensures !s.procs[q].pc.Disconnecting? && !s.procs[q].pc.Restored?
    {
      LandingSpares(s, k, q);
    }
  }

  lemma LandingSpares(s: State, k: TaskId, q: Pid)
    requires Inv(s) && Enabled(s, RunTask(k, true))
    requires q in s.procs && s.procs[q].Working? && s.procs[q].gen < |s.gens|
    requires s.gens[s.procs[q].gen].target == s.gens[s.tasks[k].gen].target
    ensures !s.procs[q].pc.Disconnecting? && !s.procs[q].pc.Restored?
  {
    assert TaskOk(s, k) && ProcOk(s, q);
    if s.tasks[k].kind.IsolateTask? {
      UndecidedIsolation(s, k);
      IsolationFindsNoRestore(s, k, q);
    } else {
      Nic.IsolateIsIsolated(s.gens[s.tasks[k].gen].plan.net0);
      RestoreFindsIsolation(s, k, q);
    }
  }

  /** An isolating task at a target belongs to its active row, which nobody restores yet. */
  lemma IsolationFindsNoRestore(s: State, k: TaskId, q: Pid)
    requires Inv(s) && k < |s.tasks| && s.tasks[k].kind.IsolateTask? && s.tasks[k].gen < |s.gens|
    requires Active(s.gens[s.tasks[k].gen].status) && s.gens[s.tasks[k].gen].upid.None?
             && s.gens[s.tasks[k].gen].target.Vm?
    requires q in s.procs && s.procs[q].Working? && s.procs[q].gen < |s.gens|
    requires s.gens[s.procs[q].gen].target == s.gens[s.tasks[k].gen].target
    ensures !s.procs[q].pc.Restored?
  {
    assert ProcOk(s, q);
  }

  /** A restoring task only lands on an isolated NIC, which no confirmed restore has. */
  lemma RestoreFindsIsolation(s: State, k: TaskId, q: Pid)
    requires Inv(s) && Enabled(s, RunTask(k, true)) && TaskOk(s, k) && s.tasks[k].kind.RestoreTask?
    requires Nic.IsIsolated(Nic.Isolate(s.gens[s.tasks[k].gen].plan.net0))
    requires q in s.procs && s.procs[q].Working? && s.procs[q].gen < |s.gens|
    requires s.gens[s.procs[q].gen].target == s.gens[s.tasks[k].gen].target
    ensures !s.procs[q].pc.Restored?
  {
    if s.procs[q].pc.Restored? {
      RestoredIsUsable(s, q);
      assert false;
    }
  }

  /** A confirmed restore of a VM shows a NIC that is not isolated. */
  lemma RestoredIsUsable(s: State, q: Pid)
    requires Inv(s) && Bound(s, q) && s.procs[q].pc.Restored? && GenOf(s, q).target.Vm?
    ensures RemoteOf(s, q).VmConfig? && !Nic.IsIsolated(RemoteOf(s, q).net0)
  {
    assert ProcOk(s, q) && GenOk(s, s.procs[q].gen);
  }

  lemma RunTaskInv(s: State, k: TaskId, ok: bool)
    requires Inv(s) && Enabled(s, RunTask(k, ok))
    ensures Inv(Next(s, RunTask(k, ok)))
  {
    Ended(s, k, if ok then SucceededOk else Failed);
    if ok {
      assert TaskOk(s, k);
      LandingUndepended(s, k);
      var task := s.tasks[k];
      var t := s.gens[task.gen].target;
      var s1 := s.(tasks := s.tasks[k := task.(status := SucceededOk)]);
      var effects := if task.kind.IsolateTask? then s.effects[t := Effect(task.gen, task.fence)] else s.effects - {t};
      if task.kind.IsolateTask? { UndecidedIsolation(s, k); }
      Reconfigured(s1, t, task.fence.(net0 := task.value), effects);
    }
  }

  lemma DriftInv(s: State, t: Target, now: Remote)
    requires Inv(s) && Enabled(s, Drift(t, now))
    ensures Inv(Next(s, Drift(t, now)))
  {
    forall q | q in s.procs && s.procs[q].Working? && s.procs[q].gen < |s.gens| && s.gens[s.procs[q].gen].target == t
      ensures !s.procs[q].pc.Disconnecting? && !s.procs[q].pc.Restored?
    {
      assert ProcOk(s, q);
    }
    SurvivingInv(s, t, now);
  }

  /** Every event keeps the invariant. */
  lemma NextInv(s: State, e: Event)
    requires Inv(s) && Enabled(s, e)
    ensures Inv(Next(s, e))
  {
    match e
    case Apply(p, a) => ApplyInv(s, p, a);
    case Restore(p, r) => RestoreInv(s, p, r);
    case Stop(p) => Stopped(s, p);
    case RunTask(k, ok) => RunTaskInv(s, k, ok);
    case Drift(t, now) => DriftInv(s, t, now);
  }

  /** Every state of every run satisfies the invariant. */
  lemma {:induction false} RunInv(s: State, events: seq<Event>)
    requires Inv(s) && CanRun(s, events)
    ensures Inv(Run(s, events))
    decreases |events|
  {
    if events != [] {
      NextInv(s, events[0]);
      RunInv(Next(s, events[0]), events[1..]);
    }
  }
}
