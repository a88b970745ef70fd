/**
 Native quarantine generations (`executor/src/quarantine_runtime.rs`) as a transition system.

 A state holds the durable rows of the store, the configuration of every target, the Proxmox
 configuration tasks, and the executor processes between two of their `await` points. An event
 is one step of one process, the execution of one remote task, or an outside change. A process
 that ends early (crash, error return, refused lease, dropped future) is one event, `Stop`: it
 drops the generation guard and everything that the guard's transaction had not committed.
 */
module QuarantineProtocol {
  import opened Options
  import Nic

  type Pid = nat
  type GenId = nat
  type TaskId = nat

  datatype Target = Container(id: string) | Vm(node: string, vmid: nat)

  /** A Docker network attachment; `endpoint` stands for the fields that are compared as a whole. */
  datatype Attachment = Attachment(name: string, aliases: seq<string>, endpoint: string)

  type Attachments = map<string, Attachment>

  predicate RestoredBy(saved: Attachment, now: Attachment) {
    saved.endpoint == now.endpoint && forall i :: 0 <= i < |saved.aliases| ==> saved.aliases[i] in now.aliases
  }

  /** What a target is configured to; a VM's whole configuration is what its digest covers. */
  datatype Remote = Networks(nets: Attachments) | VmConfig(net0: string, other: string)

  /** The rollback plan committed with a generation. */
  datatype Plan = NetworkPlan(nets: Attachments) | NicPlan(net0: string)

  datatype Status = Prepared | Completed | RecoveryRequired | RolledBack | NotApplied

  datatype Generation = Generation(
    target: Target,
    plan: Plan,
    status: Status,
    upid: Option<TaskId>,
    applyReceipts: nat,
    rollbackReceipts: nat)

  /** The statuses covered by the unique index on active generations. */
  predicate Active(status: Status) {
    status.Prepared? || status.Completed? || status.RecoveryRequired?
  }

  datatype TaskKind = IsolateTask | RestoreTask
  datatype TaskStatus = Running | SucceededOk | Failed

  /** A submitted `qmconfig` task: it writes `value` if the configuration still equals `fence`. */
  datatype Task = Task(gen: GenId, kind: TaskKind, fence: Remote, value: string, status: TaskStatus)

  datatype Role = Applier | Recoverer | Reconciler

  datatype Pc =
    | Intended                                   // intent committed, guard not yet taken
    | Guarded                                    // guard held, nothing sent
    | Fenced(fence: Remote)                      // fresh NIC equals the snapshot, digest read
    | Waiting(task: TaskId)                      // isolating task submitted
    | Returned(task: TaskId)                     // adapter saw the task end OK
    | Recorded(task: TaskId)                     // UPID written on the guard's transaction
    | Disconnecting(todo: set<string>)           // networks still to be disconnected
    | Verified(upid: Option<TaskId>)             // isolation confirmed by readback
    | Uncertain(upid: Option<TaskId>)            // outcome unknown, about to require recovery
    | Restoring                                  // restore allowed and lease held
    | RestoreFenced(fence: Remote)
    | RestoreWaiting(task: TaskId)
    | RestoreSubmitted                           // restore task ended OK, readback outstanding
    | Reconnecting(todo: set<string>, seen: Attachments, failed: bool)
    | Restored                                   // readback confirmed the snapshot

  datatype Proc = Preflighted(target: Target, plan: Plan) | Working(gen: GenId, role: Role, pc: Pc)

  /** The controller's isolation that is in force at a target: whose it is and what it took away. */
  datatype Effect = Effect(gen: GenId, before: Remote)

  datatype State = State(
    gens: seq<Generation>,
    tasks: seq<Task>,
    remote: map<Target, Remote>,
    procs: map<Pid, Proc>,
    effects: map<Target, Effect>)

  predicate Fits(target: Target, remote: Remote) {
    target.Vm? <==> remote.VmConfig?
  }

  ghost predicate Init(s: State) {
    && s.gens == [] && s.tasks == [] && s.procs == map[] && s.effects == map[]
    && forall t :: t in s.remote ==> Fits(t, s.remote[t])
  }

  predicate HoldsGuard(proc: Proc) {
    proc.Working? && !proc.pc.Intended?
  }

  /** `FOR UPDATE SKIP LOCKED`: the row is locked as long as some process holds its guard. */
  ghost predicate Locked(s: State, g: GenId) {
    exists p :: p in s.procs && HoldsGuard(s.procs[p]) && s.procs[p].gen == g
  }

  /** The configuration that the adapters' rollback accepts as restored. */
  predicate RestoredTo(plan: Plan, remote: Remote) {
    match (plan, remote)
    case (NicPlan(original), VmConfig(net0, _)) => net0 == original
    case (NetworkPlan(nets), Networks(now)) => forall n :: n in nets ==> n in now && RestoredBy(nets[n], now[n])
    case (_, _) => false
  }

  predicate PreflightAllows(remote: Remote) {
    match remote
    case Networks(nets) => nets != map[]
    case VmConfig(net0, _) => !Nic.IsIsolated(net0)
  }

  function PlanOf(remote: Remote): Plan {
    match remote
    case Networks(nets) => NetworkPlan(nets)
    case VmConfig(net0, _) => NicPlan(net0)
  }

  ghost predicate NoActive(s: State, t: Target) {
    forall g :: 0 <= g < |s.gens| && s.gens[g].target == t ==> !Active(s.gens[g].status)
  }

  /** The steps of `apply_prepared_observed`. */
  datatype ApplyStep =
    | Preflight(t: Target)
    | Prepare
    | AcquireApply
    | ReadFence
    | Submit
    | AwaitOk
    | RecordUpid
    | ReadNetworks
    | Disconnect(n: string)
    | Compensate
    | Verify
    | AdapterError
    | Finish

  /** The steps of `recover` and `reconcile`; the adapter's restore is common to both. */
  datatype RestoreStep =
    | AcquireRecover(g: GenId)
    | StartRecovery
    | AcquireReconcile(g: GenId)
    | ProveCompletion
    | ReadRestore
    | SubmitRestore
    | AwaitRestore
    | Readback
    | SkipNetwork(n: string)
    | Connect(n: string, now: Attachment, reported: bool)
    | ConnectFailed(n: string)
    | CheckNetworks
    | RestoreError
    | MarkRecovery
    | Resolve

  /** A step of a process, the end of one, the end of a remote task, or an outside change. */
  datatype Event =
    | Apply(p: Pid, a: ApplyStep)
    | Restore(p: Pid, r: RestoreStep)
    | Stop(p: Pid)
    | RunTask(k: TaskId, ok: bool)
    | Drift(t: Target, now: Remote)

  /** Process `p` works on a generation that exists and whose target exists. */
  predicate Bound(s: State, p: Pid) {
    && p in s.procs && s.procs[p].Working? && s.procs[p].gen < |s.gens|
    && s.gens[s.procs[p].gen].target in s.remote
  }

  predicate At(s: State, p: Pid, role: Role) {
    Bound(s, p) && s.procs[p].role == role
  }

  function GenOf(s: State, p: Pid): Generation
    requires Bound(s, p)
  {
    s.gens[s.procs[p].gen]
  }

  function RemoteOf(s: State, p: Pid): Remote
    requires Bound(s, p)
  {
    s.remote[GenOf(s, p).target]
  }

  /** A readback of the adapter finds its isolation in place. */
  predicate IsolationSeen(remote: Remote) {
    match remote
    case Networks(nets) => nets == map[]
    case VmConfig(net0, _) => Nic.IsIsolated(net0)
  }

  /** Program points of the adapter's isolating call and its verification. */
  predicate Applying(pc: Pc) {
    pc.Guarded? || pc.Fenced? || pc.Waiting? || pc.Returned? || pc.Recorded? || pc.Disconnecting?
  }

  /** Program points of the adapter's restoring call. */
  predicate InRestore(pc: Pc) {
    pc.Restoring? || pc.RestoreFenced? || pc.RestoreWaiting? || pc.RestoreSubmitted? || pc.Reconnecting?
  }

  /**
   Outside changes. A container must not be changed by others while a guard on it is held, and a
   VM not between the confirming readback and the end of the transaction; the digest fence makes
   every other outside change of a VM harmless, so those are all allowed.
   */
  ghost predicate DriftAllowed(s: State, t: Target) {
    forall p ::
      (p in s.procs && HoldsGuard(s.procs[p]) && s.procs[p].gen < |s.gens| && s.gens[s.procs[p].gen].target == t)
      ==> t.Vm? && !s.procs[p].pc.Restored?
  }

  ghost predicate ApplyEnabled(s: State, p: Pid, a: ApplyStep) {
    match a
    case Preflight(t) => p !in s.procs && t in s.remote && PreflightAllows(s.remote[t])
    case Prepare => p in s.procs && s.procs[p].Preflighted? && NoActive(s, s.procs[p].target)
    case AcquireApply =>
      At(s, p, Applier) && s.procs[p].pc.Intended? && GenOf(s, p).status.Prepared? && !Locked(s, s.procs[p].gen)
    case ReadFence =>
      && At(s, p, Applier) && s.procs[p].pc.Guarded? && RemoteOf(s, p).VmConfig? && GenOf(s, p).plan.NicPlan?
      && RemoteOf(s, p).net0 == GenOf(s, p).plan.net0 && !Nic.IsIsolated(RemoteOf(s, p).net0)
    case Submit => At(s, p, Applier) && s.procs[p].pc.Fenced? && s.procs[p].pc.fence.VmConfig?
    case AwaitOk =>
      && At(s, p, Applier) && s.procs[p].pc.Waiting? && s.procs[p].pc.task < |s.tasks|
      && s.tasks[s.procs[p].pc.task].status.SucceededOk?
    case RecordUpid => At(s, p, Applier) && s.procs[p].pc.Returned?
    case ReadNetworks =>
      && At(s, p, Applier) && s.procs[p].pc.Guarded? && RemoteOf(s, p).Networks? && GenOf(s, p).plan.NetworkPlan?
      && RemoteOf(s, p).nets == GenOf(s, p).plan.nets && RemoteOf(s, p).nets != map[]
    case Disconnect(n) =>
      && At(s, p, Applier) && s.procs[p].pc.Disconnecting? && n in s.procs[p].pc.todo
      && RemoteOf(s, p).Networks? && n in RemoteOf(s, p).nets
    case Compensate =>
      && At(s, p, Applier) && s.procs[p].pc.Disconnecting?
      && RemoteOf(s, p).Networks? && GenOf(s, p).plan.NetworkPlan?
    case Verify =>
      && At(s, p, Applier) && IsolationSeen(RemoteOf(s, p))
      && (s.procs[p].pc.Recorded? || (s.procs[p].pc.Disconnecting? && s.procs[p].pc.todo == {}))
    case AdapterError => At(s, p, Applier) && Applying(s.procs[p].pc)
    case Finish => At(s, p, Applier) && s.procs[p].pc.Verified?
  }

  ghost predicate RestoreEnabled(s: State, p: Pid, r: RestoreStep) {
    match r
    case AcquireRecover(g) => p !in s.procs && g < |s.gens| && Active(s.gens[g].status) && !Locked(s, g)
    case StartRecovery => At(s, p, Recoverer) && s.procs[p].pc.Guarded? && GenOf(s, p).status.Completed?
    case AcquireReconcile(g) =>
      p !in s.procs && g < |s.gens| && s.gens[g].status.RecoveryRequired? && !Locked(s, g)
    case ProveCompletion =>
      && At(s, p, Reconciler) && s.procs[p].pc.Guarded?
      && (GenOf(s, p).target.Vm? ==>
            && GenOf(s, p).upid.Some? && GenOf(s, p).upid.value < |s.tasks|
            && !s.tasks[GenOf(s, p).upid.value].status.Running?)
    case ReadRestore =>
      && Bound(s, p) && s.procs[p].pc.Restoring?
      && (match (GenOf(s, p).plan, RemoteOf(s, p))
          case (NicPlan(original), VmConfig(net0, _)) =>
            !Nic.IsIsolated(original) && (net0 == original || net0 == Nic.Isolate(original))
          case (NetworkPlan(nets), Networks(_)) => nets != map[]
          case (_, _) => false)
    case SubmitRestore => Bound(s, p) && s.procs[p].pc.RestoreFenced? && GenOf(s, p).plan.NicPlan?
    case AwaitRestore =>
      && Bound(s, p) && s.procs[p].pc.RestoreWaiting? && s.procs[p].pc.task < |s.tasks|
      && s.tasks[s.procs[p].pc.task].status.SucceededOk?
    case Readback => Bound(s, p) && s.procs[p].pc.RestoreSubmitted? && RestoredTo(GenOf(s, p).plan, RemoteOf(s, p))
    case SkipNetwork(n) =>
      && Bound(s, p) && s.procs[p].pc.Reconnecting? && n in s.procs[p].pc.todo && n in s.procs[p].pc.seen
      && GenOf(s, p).plan.NetworkPlan? && n in GenOf(s, p).plan.nets
    case Connect(n, _, _) =>
      && Bound(s, p) && s.procs[p].pc.Reconnecting? && n in s.procs[p].pc.todo && n !in s.procs[p].pc.seen
      && RemoteOf(s, p).Networks?
    case ConnectFailed(n) =>
      Bound(s, p) && s.procs[p].pc.Reconnecting? && n in s.procs[p].pc.todo && n !in s.procs[p].pc.seen
    case CheckNetworks =>
      && Bound(s, p) && s.procs[p].pc.Reconnecting? && s.procs[p].pc.todo == {} && !s.procs[p].pc.failed
      && RestoredTo(GenOf(s, p).plan, RemoteOf(s, p))
    case RestoreError => Bound(s, p) && InRestore(s.procs[p].pc) && !s.procs[p].role.Reconciler?
    case MarkRecovery =>
      && Bound(s, p)
      && (|| s.procs[p].pc.Uncertain?
          || (s.procs[p].role.Recoverer? && s.procs[p].pc.Guarded? && !GenOf(s, p).status.RecoveryRequired?))
    case Resolve => Bound(s, p) && s.procs[p].pc.Restored?
  }

  ghost predicate Enabled(s: State, e: Event) {
    match e
    case Apply(p, a) => ApplyEnabled(s, p, a)
    case Restore(p, r) => RestoreEnabled(s, p, r)
    case Stop(p) => p in s.procs
    case RunTask(k, ok) =>
      && k < |s.tasks| && s.tasks[k].status.Running? && s.tasks[k].gen < |s.gens|
      && (ok ==>
            && s.gens[s.tasks[k].gen].target in s.remote && s.tasks[k].fence.VmConfig?
            && s.remote[s.gens[s.tasks[k].gen].target] == s.tasks[k].fence)
    case Drift(t, r) => t in s.remote && Fits(t, r) && DriftAllowed(s, t)
  }

  function Goto(s: State, p: Pid, pc: Pc): State
    requires Bound(s, p)
  {
    s.(procs := s.procs[p := s.procs[p].(pc := pc)])
  }

  /** Commit a new row for the generation of `p` and end the process, which releases the guard. */
  function Commit(s: State, p: Pid, row: Generation): State
    requires Bound(s, p)
  {
    s.(gens := s.gens[s.procs[p].gen := row], procs := s.procs - {p})
  }

  /** Network `n` is attached again as it was saved. */
  predicate IsBack(before: Attachments, now: Attachments, n: string)
    requires n in before
  {
    n in now && RestoredBy(before[n], now[n])
  }

  /** The networks of `before` that are missing, or attached in another way. */
  function NotBack(before: Attachments, now: Attachments): Attachments {
    map n | n in before && !IsBack(before, now, n) :: before[n]
  }

  /** An effect after the configuration of its target has become `now`. */
  function Surviving(effects: map<Target, Effect>, t: Target, was: Remote, now: Remote): map<Target, Effect> {
    if t !in effects then effects
    else
      match (effects[t].before, now)
      case (Networks(before), Networks(nets)) =>
        var lost := NotBack(before, nets);
        if lost == map[] then effects - {t} else effects[t := effects[t].(before := Networks(lost))]
      case (VmConfig(_, _), VmConfig(net0, _)) =>
        if was.VmConfig? && net0 == was.net0 then effects else effects - {t}
      case (_, _) => effects - {t}
  }

  /** The effect of disconnecting one more network. */
  function Widened(effects: map<Target, Effect>, t: Target, g: GenId, n: string, was: Attachment): map<Target, Effect> {
    if t in effects && effects[t].before.Networks? then
      effects[t := Effect(g, Networks(effects[t].before.nets[n := was]))]
    else
      effects[t := Effect(g, Networks(map[n := was]))]
  }

  ghost function ApplyNext(s: State, p: Pid, a: ApplyStep): State
    requires ApplyEnabled(s, p, a)
  {
    match a
    case Preflight(t) => s.(procs := s.procs[p := Preflighted(t, PlanOf(s.remote[t]))])
    case Prepare =>
      s.(gens := s.gens + [Generation(s.procs[p].target, s.procs[p].plan, Prepared, None, 0, 0)],
         procs := s.procs[p := Working(|s.gens|, Applier, Intended)])
    case AcquireApply => Goto(s, p, Guarded)
    case ReadFence => Goto(s, p, Fenced(RemoteOf(s, p)))
    case Submit =>
      var fence := s.procs[p].pc.fence;
      Goto(s.(tasks := s.tasks + [Task(s.procs[p].gen, IsolateTask, fence, Nic.Isolate(fence.net0), Running)]),
           p, Waiting(|s.tasks|))
    case AwaitOk => Goto(s, p, Returned(s.procs[p].pc.task))
    case RecordUpid => Goto(s, p, Recorded(s.procs[p].pc.task))
    case ReadNetworks => Goto(s, p, Disconnecting(RemoteOf(s, p).nets.Keys))
    case Disconnect(n) =>
      var t := GenOf(s, p).target;
      var nets := s.remote[t].nets;
      Goto(s.(remote := s.remote[t := Networks(nets - {n})],
              effects := Widened(s.effects, t, s.procs[p].gen, n, nets[n])),
           p, Disconnecting(s.procs[p].pc.todo - {n}))
    case Compensate => Goto(s, p, Reconnecting(GenOf(s, p).plan.nets.Keys, RemoteOf(s, p).nets, false))
    case Verify => Goto(s, p, Verified(if s.procs[p].pc.Recorded? then Some(s.procs[p].pc.task) else None))
    case AdapterError => Goto(s, p, Uncertain(if s.procs[p].pc.Recorded? then Some(s.procs[p].pc.task) else None))
    case Finish =>
      var row := GenOf(s, p);
      Commit(s, p, row.(status := Completed, upid := s.procs[p].pc.upid, applyReceipts := row.applyReceipts + 1))
  }

  ghost function RestoreNext(s: State, p: Pid, r: RestoreStep): State
    requires RestoreEnabled(s, p, r)
  {
    match r
    case AcquireRecover(g) => s.(procs := s.procs[p := Working(g, Recoverer, Guarded)])
    case StartRecovery => Goto(s, p, Restoring)
    case AcquireReconcile(g) => s.(procs := s.procs[p := Working(g, Reconciler, Guarded)])
    case ProveCompletion => Goto(s, p, Restoring)
    case ReadRestore =>
      (match GenOf(s, p).plan
       case NicPlan(original) =>
         if RemoteOf(s, p).net0 == original then Goto(s, p, Restored) else Goto(s, p, RestoreFenced(RemoteOf(s, p)))
       case NetworkPlan(nets) => Goto(s, p, Reconnecting(nets.Keys, RemoteOf(s, p).nets, false)))
    case SubmitRestore =>
      Goto(s.(tasks := s.tasks + [Task(s.procs[p].gen, RestoreTask, s.procs[p].pc.fence, GenOf(s, p).plan.net0,
                                       Running)]),
           p, RestoreWaiting(|s.tasks|))
    case AwaitRestore => Goto(s, p, RestoreSubmitted)
    case Readback => Goto(s, p, Restored)
    case SkipNetwork(n) =>
      var pc := s.procs[p].pc;
      Goto(s, p, pc.(todo := pc.todo - {n}, failed := pc.failed || !RestoredBy(GenOf(s, p).plan.nets[n], pc.seen[n])))
    case Connect(n, now, reported) =>
      var t := GenOf(s, p).target;
      var pc := s.procs[p].pc;
      var after := Networks(s.remote[t].nets[n := now]);
      Goto(s.(remote := s.remote[t := after], effects := Surviving(s.effects, t, s.remote[t], after)),
           p, pc.(todo := pc.todo - {n}, failed := pc.failed || !reported))
    case ConnectFailed(n) =>
      var pc := s.procs[p].pc;
      Goto(s, p, pc.(todo := pc.todo - {n}, failed := true))
    case CheckNetworks => Goto(s, p, if s.procs[p].role.Applier? then Uncertain(None) else Restored)
    case RestoreError => Goto(s, p, Uncertain(None))
    case MarkRecovery =>
      var row := GenOf(s, p);
      var recorded := if s.procs[p].pc.Uncertain? then s.procs[p].pc.upid else None;
      Commit(s, p, row.(status := RecoveryRequired, upid := if recorded.Some? then recorded else row.upid))
    case Resolve =>
      var row := GenOf(s, p);
      Commit(s, p, row.(status := RolledBack, rollbackReceipts := row.rollbackReceipts + 1))
  }

  ghost function Next(s: State, e: Event): State
    requires Enabled(s, e)
  {
    match e
    case Apply(p, a) => ApplyNext(s, p, a)
    case Restore(p, r) => RestoreNext(s, p, r)
    case Stop(p) => s.(procs := s.procs - {p})
    case RunTask(k, ok) =>
      var task := s.tasks[k];
      var ended := s.(tasks := s.tasks[k := task.(status := if ok then SucceededOk else Failed)]);
      if !ok then ended
      else
        var t := s.gens[task.gen].target;
        ended.(remote := s.remote[t := task.fence.(net0 := task.value)],
               effects := if task.kind.IsolateTask? then s.effects[t := Effect(task.gen, task.fence)]
                   else s.effects - {t})
    case Drift(t, r) => s.(remote := s.remote[t := r], effects := Surviving(s.effects, t, s.remote[t], r))
  }

  /** The state after a sequence of events, each enabled when it happens. */
  ghost predicate CanRun(s: State, events: seq<Event>)
    decreases |events|
  {
    events == [] || (Enabled(s, events[0]) && CanRun(Next(s, events[0]), events[1..]))
  }

  ghost function Run(s: State, events: seq<Event>): (s': State)
    requires CanRun(s, events)
    decreases |events|
  {
    if events == [] then s else Run(Next(s, events[0]), events[1..])
  }
}
