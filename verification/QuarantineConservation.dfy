/**
 Conservation: with no outside change of a target, what the controller did to it is at every
 moment either nothing or fully covered by the committed plan of the generation that owns it.
 These theorems speak only of configurations and rows, not of the recorded effects.
 */
module QuarantineConservation {
  import opened QuarantineProtocol
  import opened QuarantineInvariant
  import opened QuarantineTheorems
  import Nic

  ghost predicate Untouched(events: seq<Event>, t: Target) {
    forall i :: 0 <= i < |events| && events[i].Drift? ==> events[i].t != t
  }

  // --- virtual machines ---------------------------------------------------------------------

  function Isolated(config: Remote): Remote
    requires config.VmConfig?
  {
    config.(net0 := Nic.Isolate(config.net0))
  }

  /** Everything that is known about VM `t` was read from or computed from its `original` configuration. */
  ghost predicate VmAccounted(s: State, t: Target, original: Remote)
    requires original.VmConfig?
  {
    && t in s.remote && s.remote[t] == (if t in s.effects then Isolated(original) else original)
    && (forall g :: 0 <= g < |s.gens| && s.gens[g].target == t ==> s.gens[g].plan == NicPlan(original.net0))
    && (forall k :: 0 <= k < |s.tasks| && s.tasks[k].gen < |s.gens| && s.gens[s.tasks[k].gen].target == t ==>
          s.tasks[k].fence == if s.tasks[k].kind.IsolateTask? then original else Isolated(original))
    && (forall p :: p in s.procs ==> ProcAccounted(s, s.procs[p], t, original))
  }

  predicate ProcAccounted(s: State, proc: Proc, t: Target, original: Remote)
    requires original.VmConfig?
  {
    match proc
    case Preflighted(u, plan) => u == t ==> plan == NicPlan(original.net0)
    case Working(g, _, pc) =>
      g < |s.gens| && s.gens[g].target == t ==>
        && (pc.Fenced? ==> pc.fence == original)
        && (pc.RestoreFenced? ==> pc.fence == Isolated(original))
  }

  /** Only process `p` moved, a row of it may have been committed, tasks and rows may have been added. */
  lemma VmFrame(s: State, s': State, p: Pid, t: Target, original: Remote)
    requires Inv(s) && original.VmConfig? && VmAccounted(s, t, original)
    requires t in s'.remote && s'.remote[t] == s.remote[t] && (t in s'.effects <==> t in s.effects)
    requires |s.gens| <= |s'.gens| <= |s.gens| + 1
    requires forall g :: 0 <= g < |s.gens| ==>
               s'.gens[g].target == s.gens[g].target && s'.gens[g].plan == s.gens[g].plan
    requires |s'.gens| > |s.gens| && s'.gens[|s.gens|].target == t ==> s'.gens[|s.gens|].plan == NicPlan(original.net0)
    requires s.tasks <= s'.tasks
    requires forall k ::
               (|s.tasks| <= k < |s'.tasks| && s'.tasks[k].gen < |s'.gens| && s'.gens[s'.tasks[k].gen].target == t) ==>
               s'.tasks[k].fence == if s'.tasks[k].kind.IsolateTask? then original else Isolated(original)
    requires forall q :: q in s'.procs && q != p ==> q in s.procs && s'.procs[q] == s.procs[q]
    requires p in s'.procs ==> ProcAccounted(s', s'.procs[p], t, original)
    ensures VmAccounted(s', t, original)
  {
    forall k | 0 <= k < |s.tasks| ensures s.tasks[k].gen < |s.gens| && s'.tasks[k] == s.tasks[k] {
      assert TaskOk(s, k);
    }
    forall q | q in s'.procs ensures ProcAccounted(s', s'.procs[q], t, original) {
      if q != p { assert ProcOk(s, q); assert ProcAccounted(s, s.procs[q], t, original); }
    }
  }

  lemma VmApplyStep(s: State, p: Pid, a: ApplyStep, t: Target, original: Remote)
    requires Inv(s) && ApplyEnabled(s, p, a) && t.Vm? && original.VmConfig? && VmAccounted(s, t, original)
    ensures VmAccounted(ApplyNext(s, p, a), t, original)
  {
    match a
    case Preflight(_) => VmPreflight(s, p, a, t, original);
    case Prepare => VmPrepare(s, p, t, original);
    case Disconnect(n) => VmDisconnect(s, p, n, t, original);
    case Submit => VmSubmit(s, p, t, original);
    case _ => VmApplyMove(s, p, a, t, original);
  }

  lemma VmPreflight(s: State, p: Pid, a: ApplyStep, t: Target, original: Remote)
    requires Inv(s) && ApplyEnabled(s, p, a) && a.Preflight? && t.Vm? && original.VmConfig?
             && VmAccounted(s, t, original)
    ensures VmAccounted(ApplyNext(s, p, a), t, original)
  {
    Nic.IsolateIsIsolated(original.net0);
    VmFrame(s, ApplyNext(s, p, a), p, t, original);
  }

  lemma VmPrepare(s: State, p: Pid, t: Target, original: Remote)
    requires Inv(s) && ApplyEnabled(s, p, Prepare) && t.Vm? && original.VmConfig? && VmAccounted(s, t, original)
    ensures VmAccounted(ApplyNext(s, p, Prepare), t, original)
  {
    assert ProcOk(s, p) && ProcAccounted(s, s.procs[p], t, original);
    VmFrame(s, ApplyNext(s, p, Prepare), p, t, original);
  }

  lemma VmDisconnect(s: State, p: Pid, n: string, t: Target, original: Remote)
    requires Inv(s) && ApplyEnabled(s, p, Disconnect(n)) && t.Vm? && original.VmConfig? && VmAccounted(s, t, original)
    ensures VmAccounted(ApplyNext(s, p, Disconnect(n)), t, original)
  {
    assert ProcOk(s, p) && GenOk(s, s.procs[p].gen) && ProcAccounted(s, s.procs[p], t, original);
    VmFrame(s, ApplyNext(s, p, Disconnect(n)), p, t, original);
  }

  lemma VmSubmit(s: State, p: Pid, t: Target, original: Remote)
    requires Inv(s) && ApplyEnabled(s, p, Submit) && t.Vm? && original.VmConfig? && VmAccounted(s, t, original)
    ensures VmAccounted(ApplyNext(s, p, Submit), t, original)
  {
    assert ProcOk(s, p) && ProcAccounted(s, s.procs[p], t, original);
    VmFrame(s, ApplyNext(s, p, Submit), p, t, original);
  }

  lemma VmApplyMove(s: State, p: Pid, a: ApplyStep, t: Target, original: Remote)
    requires Inv(s) && ApplyEnabled(s, p, a) && !a.Preflight? && !a.Prepare? && !a.Disconnect? && !a.Submit?
    requires t.Vm? && original.VmConfig? && VmAccounted(s, t, original)
    ensures VmAccounted(ApplyNext(s, p, a), t, original)
  {
    assert ProcOk(s, p) && ProcAccounted(s, s.procs[p], t, original);
    ApplyKeepsRemote(s, p, a);
    VmFrame(s, ApplyNext(s, p, a), p, t, original);
  }

  lemma VmRestoreStep(s: State, p: Pid, r: RestoreStep, t: Target, original: Remote)
    requires Inv(s) && RestoreEnabled(s, p, r) && t.Vm? && original.VmConfig? && VmAccounted(s, t, original)
    ensures VmAccounted(RestoreNext(s, p, r), t, original)
  {
    match r
    case AcquireRecover(_) => VmAcquire(s, p, r, t, original);
    case AcquireReconcile(_) => VmAcquire(s, p, r, t, original);
    case Connect(_, _, _) => VmConnect(s, p, r, t, original);
    case SubmitRestore => VmSubmitRestore(s, p, t, original);
    case MarkRecovery => VmCommit(s, p, r, t, original);
    case Resolve => VmCommit(s, p, r, t, original);
    case _ => VmRestoreMove(s, p, r, t, original);
  }

  lemma VmAcquire(s: State, p: Pid, r: RestoreStep, t: Target, original: Remote)
    requires Inv(s) && RestoreEnabled(s, p, r) && (r.AcquireRecover? || r.AcquireReconcile?)
    requires t.Vm? && original.VmConfig? && VmAccounted(s, t, original)
    ensures VmAccounted(RestoreNext(s, p, r), t, original)
  {
    VmFrame(s, RestoreNext(s, p, r), p, t, original);
  }

  lemma VmConnect(s: State, p: Pid, r: RestoreStep, t: Target, original: Remote)
    requires Inv(s) && RestoreEnabled(s, p, r) && r.Connect? && t.Vm? && original.VmConfig?
             && VmAccounted(s, t, original)
    ensures VmAccounted(RestoreNext(s, p, r), t, original)
  {
    assert ProcOk(s, p) && GenOk(s, s.procs[p].gen) && GenOf(s, p).target != t;
    VmFrame(s, RestoreNext(s, p, r), p, t, original);
  }

  lemma VmSubmitRestore(s: State, p: Pid, t: Target, original: Remote)
    requires Inv(s) && RestoreEnabled(s, p, SubmitRestore) && t.Vm? && original.VmConfig? && VmAccounted(s, t, original)
    ensures VmAccounted(RestoreNext(s, p, SubmitRestore), t, original)
  {
    assert ProcOk(s, p) && ProcAccounted(s, s.procs[p], t, original);
    VmFrame(s, RestoreNext(s, p, SubmitRestore), p, t, original);
  }

  lemma VmCommit(s: State, p: Pid, r: RestoreStep, t: Target, original: Remote)
    requires Inv(s) && RestoreEnabled(s, p, r) && (r.MarkRecovery? || r.Resolve?)
    requires t.Vm? && original.VmConfig? && VmAccounted(s, t, original)
    ensures VmAccounted(RestoreNext(s, p, r), t, original)
  {
    VmFrame(s, RestoreNext(s, p, r), p, t, original);
  }

  predicate RestoreMove(r: RestoreStep) {
    !r.AcquireRecover? && !r.AcquireReconcile? && !r.Connect? && !r.SubmitRestore? && !r.MarkRecovery? && !r.Resolve?
  }

  lemma VmRestoreMove(s: State, p: Pid, r: RestoreStep, t: Target, original: Remote)
    requires Inv(s) && RestoreEnabled(s, p, r) && RestoreMove(r)
    requires t.Vm? && original.VmConfig? && VmAccounted(s, t, original)
    ensures VmAccounted(RestoreNext(s, p, r), t, original)
  {
    assert ProcOk(s, p) && GenOk(s, s.procs[p].gen) && ProcAccounted(s, s.procs[p], t, original);
    RestoreKeepsRemote(s, p, r);
    VmFrame(s, RestoreNext(s, p, r), p, t, original);
  }

  lemma VmOtherStep(s: State, e: Event, t: Target, original: Remote)
    requires Inv(s) && Enabled(s, e) && (e.Stop? || e.RunTask? || (e.Drift? && e.t != t))
    requires t.Vm? && original.VmConfig? && VmAccounted(s, t, original)
    ensures VmAccounted(Next(s, e), t, original)
  {
    match e
    case RunTask(k, ok) => VmRunTask(s, k, ok, t, original);
    case Stop(p) => VmFrame(s, Next(s, e), p, t, original);
    case Drift(u, now) => VmProcs(s, Next(s, e), t, original);
    case _ =>
  }

  lemma VmProcs(s: State, s': State, t: Target, original: Remote)
    requires original.VmConfig? && VmAccounted(s, t, original) && s'.procs == s.procs && s'.gens == s.gens
    ensures forall q :: q in s'.procs ==> ProcAccounted(s', s'.procs[q], t, original)
  {
    forall q | q in s'.procs ensures ProcAccounted(s', s'.procs[q], t, original) {
      assert ProcAccounted(s, s.procs[q], t, original);
    }
  }

  lemma VmRunTask(s: State, k: TaskId, ok: bool, t: Target, original: Remote)
    requires Inv(s) && Enabled(s, RunTask(k, ok)) && t.Vm? && original.VmConfig? && VmAccounted(s, t, original)
    ensures VmAccounted(Next(s, RunTask(k, ok)), t, original)
  {
    assert TaskOk(s, k);
    VmProcs(s, Next(s, RunTask(k, ok)), t, original);
  }

  lemma {:induction false} VmRun(s: State, events: seq<Event>, t: Target, original: Remote)
    requires Inv(s) && CanRun(s, events) && Untouched(events, t) && t.Vm? && original.VmConfig?
             && VmAccounted(s, t, original)
    ensures VmAccounted(Run(s, events), t, original)
    decreases |events|
  {
    if events != [] {
      var e := events[0];
      match e {
        case Apply(p, a) => VmApplyStep(s, p, a, t, original);
        case Restore(p, r) => VmRestoreStep(s, p, r, t, original);
        case _ => VmOtherStep(s, e, t, original);
      }
      NextInv(s, e);
      VmRun(Next(s, e), events[1..], t, original);
    }
  }

  /**
   A VM that nobody else changes has, in every state of every run, either its original
   configuration or exactly the isolated form of it; in the second case one active generation
   owns it and its committed plan is the original NIC.
   */
  lemma VmConservation(init: State, events: seq<Event>, t: Target)
    requires Init(init) && CanRun(init, events) && Untouched(events, t) && t.Vm? && t in init.remote
    ensures var s := Run(init, events);
            var original := init.remote[t];
            && original.VmConfig? && t in s.remote
            && (s.remote[t] == original
                || (s.remote[t] == Isolated(original)
                    && exists g: nat :: Owns(s, g, t) && s.gens[g].plan == NicPlan(original.net0)))
  {
    InitInv(init);
    RunInv(init, events);
    var s, original := Run(init, events), init.remote[t];
    VmRun(init, events, t, original);
    if t in s.effects {
      WriteAheadOwnership(init, events, t);
      assert Owns(s, s.effects[t].gen, t);
    }
  }

  // --- containers ---------------------------------------------------------------------------

  /** Every network of `original` is attached as it was, up to further aliases. */
  ghost predicate AllBack(original: Attachments, now: Attachments) {
    forall n :: n in original ==> IsBack(original, now, n)
  }

  /** The plan can put every network of `original` back. */
  ghost predicate Covers(plan: Plan, original: Attachments) {
    plan.NetworkPlan? && AllBack(original, plan.nets)
  }

  /** The active generation of container `t` can put everything back. */
  ghost predicate CoveredBy(s: State, g: GenId, t: Target, original: Attachments) {
    g < |s.gens| && s.gens[g].target == t && Active(s.gens[g].status) && Covers(s.gens[g].plan, original)
  }

  /** A plan of container `t` names only its own networks. */
  predicate OwnNames(plan: Plan, original: Attachments) {
    plan.NetworkPlan? ==> plan.nets.Keys <= original.Keys
  }

  /**
   A process at container `t` that takes networks away has a plan that covers them; one that puts
   networks back has such a plan too, or finds everything that it still has to do attached.
   */
  ghost predicate ProcKeeps(s: State, proc: Proc, t: Target, original: Attachments) {
    match proc
    case Preflighted(u, plan) => u == t ==> OwnNames(plan, original)
    case Working(g, _, pc) =>
      g < |s.gens| && s.gens[g].target == t ==>
        && (pc.Disconnecting? ==> Covers(s.gens[g].plan, original))
        && (pc.Reconnecting? ==> Covers(s.gens[g].plan, original) || pc.todo <= pc.seen.Keys)
  }

  ghost predicate ContainerKept(s: State, t: Target, original: Attachments) {
    && t in s.remote && s.remote[t].Networks? && s.remote[t].nets.Keys <= original.Keys
    && (AllBack(original, s.remote[t].nets) || exists g :: CoveredBy(s, g, t, original))
    && (forall g :: 0 <= g < |s.gens| && s.gens[g].target == t ==> OwnNames(s.gens[g].plan, original))
    && (forall p :: p in s.procs ==> ProcKeeps(s, s.procs[p], t, original))
  }

  lemma RestoredByTrans(a: Attachment, b: Attachment, c: Attachment)
    requires RestoredBy(a, b) && RestoredBy(b, c)
    ensures RestoredBy(a, c)
  {
  }

  lemma AllBackTrans(a: Attachments, b: Attachments, c: Attachments)
    requires AllBack(a, b) && AllBack(b, c)
    ensures AllBack(a, c)
  {
    forall n | n in a ensures IsBack(a, c, n) {
      assert IsBack(a, b, n) && IsBack(b, c, n);
      RestoredByTrans(a[n], b[n], c[n]);
    }
  }

  /** Only process `p` moved and rows may have been added or committed; the container did not change. */
  lemma ContainerFrame(s: State, s': State, p: Pid, t: Target, original: Attachments)
    requires Inv(s) && ContainerKept(s, t, original)
    requires t in s'.remote && s'.remote[t] == s.remote[t]
    requires |s.gens| <= |s'.gens|
    requires forall g :: 0 <= g < |s.gens| ==>
               s'.gens[g].target == s.gens[g].target && s'.gens[g].plan == s.gens[g].plan
    requires forall g :: |s.gens| <= g < |s'.gens| && s'.gens[g].target == t ==> OwnNames(s'.gens[g].plan, original)
    requires AllBack(original, s.remote[t].nets)
             || forall g :: 0 <= g < |s.gens| && CoveredBy(s, g, t, original) ==> Active(s'.gens[g].status)
    requires forall q :: q in s'.procs && q != p ==> q in s.procs && s'.procs[q] == s.procs[q]
    requires p in s'.procs ==> ProcKeeps(s', s'.procs[p], t, original)
    ensures ContainerKept(s', t, original)
  {
    if !AllBack(original, s.remote[t].nets) {
      var g :| CoveredBy(s, g, t, original);
      assert CoveredBy(s', g, t, original);
    }
    forall q | q in s'.procs ensures ProcKeeps(s', s'.procs[q], t, original) {
      if q != p { assert ProcOk(s, q); assert ProcKeeps(s, s.procs[q], t, original); }
    }
  }

  /** With everything back, the own networks are all attached; otherwise the one active plan covers them. */
  lemma ActivePlan(s: State, t: Target, original: Attachments, g: GenId)
    requires Inv(s) && ContainerKept(s, t, original) && g < |s.gens| && s.gens[g].target == t
             && Active(s.gens[g].status)
    ensures AllBack(original, s.remote[t].nets) || CoveredBy(s, g, t, original)
    ensures AllBack(original, s.remote[t].nets) ==> original.Keys <= s.remote[t].nets.Keys
  {
    if AllBack(original, s.remote[t].nets) {
      forall n | n in original ensures n in s.remote[t].nets { assert IsBack(original, s.remote[t].nets, n); }
    } else {
      var h :| CoveredBy(s, h, t, original);
      assert h == g;
    }
  }

  /** A restore that starts now has a covering plan, or nothing to connect. */
  lemma RestoreStartKeeps(s: State, p: Pid, t: Target, original: Attachments)
    requires Inv(s) && ContainerKept(s, t, original) && Bound(s, p) && GenOf(s, p).target == t
    requires Active(GenOf(s, p).status) && GenOf(s, p).plan.NetworkPlan?
    ensures Covers(GenOf(s, p).plan, original) || GenOf(s, p).plan.nets.Keys <= RemoteOf(s, p).nets.Keys
  {
    ActivePlan(s, t, original, s.procs[p].gen);
    assert OwnNames(GenOf(s, p).plan, original);
  }

  /** An application that starts to disconnect has a covering plan: its snapshot is what is there. */
  lemma DisconnectStartKeeps(s: State, p: Pid, t: Target, original: Attachments)
    requires Inv(s) && ContainerKept(s, t, original) && Bound(s, p) && GenOf(s, p).target == t
    requires Active(GenOf(s, p).status) && GenOf(s, p).plan == NetworkPlan(RemoteOf(s, p).nets)
    ensures Covers(GenOf(s, p).plan, original)
  {
    ActivePlan(s, t, original, s.procs[p].gen);
  }

  /** The container changes under a covering active plan. */
  lemma ContainerChange(s: State, s': State, p: Pid, t: Target, original: Attachments)
    requires Inv(s) && ContainerKept(s, t, original) && Bound(s, p) && GenOf(s, p).target == t
    requires CoveredBy(s, s.procs[p].gen, t, original)
    requires t in s'.remote && s'.remote[t].Networks? && s'.remote[t].nets.Keys <= original.Keys && s'.gens == s.gens
    requires s'.procs.Keys == s.procs.Keys && forall q :: q in s.procs && q != p ==> s'.procs[q] == s.procs[q]
    requires s'.procs[p].Working? && s'.procs[p].gen == s.procs[p].gen
    ensures ContainerKept(s', t, original)
  {
    assert CoveredBy(s', s.procs[p].gen, t, original);
    forall q | q in s'.procs ensures ProcKeeps(s', s'.procs[q], t, original) {
      if q != p { assert ProcOk(s, q); assert ProcKeeps(s, s.procs[q], t, original); }
    }
  }

  lemma ContainerDisconnect(s: State, p: Pid, n: string, t: Target, original: Attachments)
    requires Inv(s) && ApplyEnabled(s, p, Disconnect(n)) && t.Container? && ContainerKept(s, t, original)
    ensures ContainerKept(ApplyNext(s, p, Disconnect(n)), t, original)
  {
    var s' := ApplyNext(s, p, Disconnect(n));
    assert ProcOk(s, p) && ProcKeeps(s, s.procs[p], t, original);
    if GenOf(s, p).target == t {
      ContainerChange(s, s', p, t, original);
    } else {
      ContainerFrame(s, s', p, t, original);
    }
  }

  lemma ContainerConnect(s: State, p: Pid, r: RestoreStep, t: Target, original: Attachments)
    requires Inv(s) && RestoreEnabled(s, p, r) && r.Connect? && t.Container? && ContainerKept(s, t, original)
    ensures ContainerKept(RestoreNext(s, p, r), t, original)
  {
    var s' := RestoreNext(s, p, r);
    if GenOf(s, p).target == t {
      ConnectCovered(s, p, r, t, original);
      ContainerChange(s, s', p, t, original);
    } else {
      assert ProcOk(s, p) && ProcKeeps(s, s.procs[p], t, original);
      ContainerFrame(s, s', p, t, original);
    }
  }

  /** Only a process with a covering plan connects anything, and only own networks. */
  lemma ConnectCovered(s: State, p: Pid, r: RestoreStep, t: Target, original: Attachments)
    requires Inv(s) && RestoreEnabled(s, p, r) && r.Connect? && ContainerKept(s, t, original) && GenOf(s, p).target == t
    ensures CoveredBy(s, s.procs[p].gen, t, original) && r.n in original
  {
    var g := s.procs[p].gen;
    assert ProcOk(s, p) && GenOk(s, g) && ProcKeeps(s, s.procs[p], t, original);
    assert r.n in s.procs[p].pc.todo && r.n !in s.procs[p].pc.seen;
    assert OwnNames(s.gens[g].plan, original);
  }

  lemma ContainerApplyStep(s: State, p: Pid, a: ApplyStep, t: Target, original: Attachments)
    requires Inv(s) && ApplyEnabled(s, p, a) && !a.Disconnect? && t.Container? && ContainerKept(s, t, original)
    ensures ContainerKept(ApplyNext(s, p, a), t, original)
  {
    var s' := ApplyNext(s, p, a);
    ApplyKeepsRemote(s, p, a);
    if !a.Preflight? {
      assert ProcOk(s, p) && ProcKeeps(s, s.procs[p], t, original);
      if s.procs[p].Working? && GenOf(s, p).target == t {
        if a.ReadNetworks? { DisconnectStartKeeps(s, p, t, original); }
        if a.Compensate? { RestoreStartKeeps(s, p, t, original); }
      }
    }
    ContainerFrame(s, s', p, t, original);
  }

  /** Resolving a generation needs everything back, as its plan covers it or nothing was lost. */
  lemma ResolvedAllBack(s: State, p: Pid, t: Target, original: Attachments)
    requires Inv(s) && RestoreEnabled(s, p, Resolve) && ContainerKept(s, t, original) && GenOf(s, p).target == t
    ensures AllBack(original, s.remote[t].nets)
  {
    var g := s.procs[p].gen;
    assert ProcOk(s, p) && GenOk(s, g);
    ActivePlan(s, t, original, g);
    if CoveredBy(s, g, t, original) {
      forall n | n in s.gens[g].plan.nets ensures IsBack(s.gens[g].plan.nets, s.remote[t].nets, n) { }
      AllBackTrans(original, s.gens[g].plan.nets, s.remote[t].nets);
    }
  }

  lemma ContainerRestoreStep(s: State, p: Pid, r: RestoreStep, t: Target, original: Attachments)
    requires Inv(s) && RestoreEnabled(s, p, r) && !r.Connect? && t.Container? && ContainerKept(s, t, original)
    ensures ContainerKept(RestoreNext(s, p, r), t, original)
  {
    match r
    case AcquireRecover(_) => ContainerAcquire(s, p, r, t, original);
    case AcquireReconcile(_) => ContainerAcquire(s, p, r, t, original);
    case SubmitRestore => ContainerSubmit(s, p, t, original);
    case MarkRecovery => ContainerMarkRecovery(s, p, t, original);
    case Resolve => ContainerResolve(s, p, t, original);
    case _ => ContainerRestoreMove(s, p, r, t, original);
  }

  lemma ContainerAcquire(s: State, p: Pid, r: RestoreStep, t: Target, original: Attachments)
    requires Inv(s) && RestoreEnabled(s, p, r) && (r.AcquireRecover? || r.AcquireReconcile?)
    requires t.Container? && ContainerKept(s, t, original)
    ensures ContainerKept(RestoreNext(s, p, r), t, original)
  {
    ContainerFrame(s, RestoreNext(s, p, r), p, t, original);
  }

  lemma ContainerSubmit(s: State, p: Pid, t: Target, original: Attachments)
    requires Inv(s) && RestoreEnabled(s, p, SubmitRestore) && t.Container? && ContainerKept(s, t, original)
    ensures ContainerKept(RestoreNext(s, p, SubmitRestore), t, original)
  {
    ContainerFrame(s, RestoreNext(s, p, SubmitRestore), p, t, original);
  }

  lemma ContainerMarkRecovery(s: State, p: Pid, t: Target, original: Attachments)
    requires Inv(s) && RestoreEnabled(s, p, MarkRecovery) && t.Container? && ContainerKept(s, t, original)
    ensures ContainerKept(RestoreNext(s, p, MarkRecovery), t, original)
  {
    ContainerFrame(s, RestoreNext(s, p, MarkRecovery), p, t, original);
  }

  lemma ContainerResolve(s: State, p: Pid, t: Target, original: Attachments)
    requires Inv(s) && RestoreEnabled(s, p, Resolve) && t.Container? && ContainerKept(s, t, original)
    ensures ContainerKept(RestoreNext(s, p, Resolve), t, original)
  {
    if GenOf(s, p).target == t { ResolvedAllBack(s, p, t, original); }
    ContainerFrame(s, RestoreNext(s, p, Resolve), p, t, original);
  }

  lemma ContainerRestoreMove(s: State, p: Pid, r: RestoreStep, t: Target, original: Attachments)
    requires Inv(s) && RestoreEnabled(s, p, r) && RestoreMove(r) && t.Container? && ContainerKept(s, t, original)
    ensures ContainerKept(RestoreNext(s, p, r), t, original)
  {
    RestoreKeepsRemote(s, p, r);
    RestoreProcKeeps(s, p, r, t, original);
    ContainerFrame(s, RestoreNext(s, p, r), p, t, original);
  }

  lemma RestoreProcKeeps(s: State, p: Pid, r: RestoreStep, t: Target, original: Attachments)
    requires Inv(s) && RestoreEnabled(s, p, r) && RestoreMove(r) && t.Container? && ContainerKept(s, t, original)
    ensures var s' := RestoreNext(s, p, r); p in s'.procs && ProcKeeps(s', s'.procs[p], t, original)
  {
    assert ProcOk(s, p) && GenOk(s, s.procs[p].gen) && ProcKeeps(s, s.procs[p], t, original);
    if GenOf(s, p).target == t && r.ReadRestore? { RestoreStartKeeps(s, p, t, original); }
  }

  lemma ContainerOtherStep(s: State, e: Event, t: Target, original: Attachments)
    requires Inv(s) && Enabled(s, e) && (e.Stop? || e.RunTask? || (e.Drift? && e.t != t))
    requires t.Container? && ContainerKept(s, t, original)
    ensures ContainerKept(Next(s, e), t, original)
  {
    if e.RunTask? { assert TaskOk(s, e.k); }
    ContainerFrame(s, Next(s, e), if e.Stop? then e.p else 0, t, original);
  }

  lemma {:induction false} ContainerRun(s: State, events: seq<Event>, t: Target, original: Attachments)
    requires Inv(s) && CanRun(s, events) && Untouched(events, t) && t.Container? && ContainerKept(s, t, original)
    ensures ContainerKept(Run(s, events), t, original)
    decreases |events|
  {
    if events != [] {
      var e := events[0];
      match e {
        case Apply(p, a) =>
          if a.Disconnect? {
            ContainerDisconnect(s, p, a.n, t, original);
          } else {
            ContainerApplyStep(s, p, a, t, original);
          }
        case Restore(p, r) =>
          if r.Connect? { ContainerConnect(s, p, r, t, original); } else { ContainerRestoreStep(s, p, r, t, original); }
        case _ => ContainerOtherStep(s, e, t, original);
      }
      NextInv(s, e);
      ContainerRun(Next(s, e), events[1..], t, original);
    }
  }

  /**
   A container that nobody else changes is, in every state of every run, on no foreign network, and
   either each of its networks is attached as it was, settings included, or the one active generation
   that owns it has committed a plan that holds every one of them as it was. In particular
   everything is back whenever no active generation owns it.
   */
  lemma ContainerConservation(init: State, events: seq<Event>, t: Target)
    requires Init(init) && CanRun(init, events) && Untouched(events, t) && t.Container? && t in init.remote
    ensures var s := Run(init, events);
            && init.remote[t].Networks? && t in s.remote && s.remote[t].Networks?
            && s.remote[t].nets.Keys <= init.remote[t].nets.Keys
            && (AllBack(init.remote[t].nets, s.remote[t].nets)
                || exists g: nat :: Owns(s, g, t) && Covers(s.gens[g].plan, init.remote[t].nets))
  {
    InitInv(init);
    RunInv(init, events);
    var s, original := Run(init, events), init.remote[t].nets;
    ContainerRun(init, events, t, original);
    if !AllBack(original, s.remote[t].nets) {
      var g :| CoveredBy(s, g, t, original);
      assert Owns(s, g, t);
    }
  }
}
