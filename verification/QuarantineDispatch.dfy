/**
 The production entry of quarantine requests (`executor/src/quarantine_runtime.rs`, `dispatch`) and
 what its closed gate means for the protocol behind it.
 */
module QuarantineDispatch {
  import opened Options
  import opened QuarantineProtocol
  import opened QuarantineInvariant
  import opened QuarantineTheorems
  import Gate = QuarantineGate

  datatype Request = Request(actionName: string, dryRun: bool)

  /** Where a request goes: to the dispatcher of all other actions, nowhere, or into one of the two pipelines. */
  datatype Route = Ordinary | Refused | ApplyPipeline | ReconcilePipeline

  function ReconcileKindOf(actionName: string): Option<Gate.Kind> {
    if actionName == "docker.reconcile_quarantine" then Some(Gate.Docker)
    else if actionName == "proxmox.reconcile_quarantine" then Some(Gate.Proxmox)
    else None
  }

  /** `ensure_live_dispatch_disabled` succeeds for a dry run only. */
  predicate GatePasses(dryRun: bool) {
    dryRun
  }

  function Dispatch(request: Request): Route {
    if ReconcileKindOf(request.actionName).Some? then
      if request.dryRun then Ordinary
      else if !GatePasses(false) then Refused
      else ReconcilePipeline
    else if Gate.KindOf(request.actionName).None? || request.dryRun then Ordinary
    else if !GatePasses(false) then Refused
    else ApplyPipeline
  }

  // --- the closed gate ----------------------------------------------------------------------

  /** Event `e` may happen: the two events that begin a pipeline need a request that was routed there. */
  predicate Admitted(requests: seq<Request>, e: Event) {
    match e
    case Apply(_, a) => a.Preflight? ==> exists i :: 0 <= i < |requests| && Dispatch(requests[i]) == ApplyPipeline
    case Restore(_, r) => r.AcquireReconcile? ==>
        exists i :: 0 <= i < |requests| && Dispatch(requests[i]) == ReconcilePipeline
    case _ => true
  }

  /** Only automatic recoveries are under way. */
  predicate OnlyRecoveries(s: State) {
    forall p :: p in s.procs ==> s.procs[p].Working? && s.procs[p].role.Recoverer?
  }

  /** Nothing is isolated, prepared or reconciled from `s` to `s'`. */
  ghost predicate OnlyRecovered(s: State, s': State) {
    && |s'.gens| == |s.gens|
    && (forall g :: 0 <= g < |s.gens| && s.gens[g].status.RecoveryRequired? ==> s'.gens[g] == s.gens[g])
    && |s.tasks| <= |s'.tasks|
    && (forall k :: 0 <= k < |s.tasks| ==> s'.tasks[k].kind == s.tasks[k].kind)
    && (forall k :: |s.tasks| <= k < |s'.tasks| ==> s'.tasks[k].kind.RestoreTask?)
  }

  /** With the gate closed, an event neither applies nor reconciles. */
  predicate BypassesPipelines(e: Event) {
    !e.Apply? && !(e.Restore? && e.r.AcquireReconcile?)
  }

  lemma ClosedStep(s: State, e: Event, requests: seq<Request>)
    requires Inv(s) && Enabled(s, e) && OnlyRecoveries(s) && Admitted(requests, e)
    ensures BypassesPipelines(e) && OnlyRecoveries(Next(s, e)) && OnlyRecovered(s, Next(s, e))
  {
    match e
    case Apply(p, a) => ClosedApply(s, p, a);
    case Restore(p, r) => ClosedRestore(s, p, r);
    case _ =>
  }

  /** Without a request in the apply pipeline, no step of an application can happen. */
  lemma ClosedApply(s: State, p: Pid, a: ApplyStep)
    requires ApplyEnabled(s, p, a) && OnlyRecoveries(s)
    ensures a.Preflight?
  {
  }

  lemma ClosedRestore(s: State, p: Pid, r: RestoreStep)
    requires Inv(s) && RestoreEnabled(s, p, r) && OnlyRecoveries(s) && !r.AcquireReconcile?
    ensures OnlyRecoveries(RestoreNext(s, p, r)) && OnlyRecovered(s, RestoreNext(s, p, r))
  {
    if r.MarkRecovery? || r.Resolve? { ClosedCommit(s, p, r); } else { ClosedMove(s, p, r); }
  }

  lemma ClosedCommit(s: State, p: Pid, r: RestoreStep)
    requires Inv(s) && RestoreEnabled(s, p, r) && OnlyRecoveries(s) && (r.MarkRecovery? || r.Resolve?)
    ensures OnlyRecoveries(RestoreNext(s, p, r)) && OnlyRecovered(s, RestoreNext(s, p, r))
  {
    CommitStep(s, Restore(p, r));
    assert ProcOk(s, p);
  }

  lemma ClosedMove(s: State, p: Pid, r: RestoreStep)
    requires RestoreEnabled(s, p, r) && OnlyRecoveries(s) && !r.AcquireReconcile? && !r.MarkRecovery? && !r.Resolve?
    ensures OnlyRecoveries(RestoreNext(s, p, r)) && OnlyRecovered(s, RestoreNext(s, p, r))
  {
  }

  lemma OnlyRecoveredTrans(a: State, b: State, c: State)
    requires OnlyRecovered(a, b) && OnlyRecovered(b, c)
    ensures OnlyRecovered(a, c)
  {
  }

  /**
   Whatever requests arrive, with any action names, dry or live: over every run no event of the apply
   or the reconcile pipeline happens, no generation is prepared, no isolating task is submitted and
   no generation that requires recovery is resolved. Only automatic recoveries go on. Exactly the live
   requests of quarantine and reconciliation are refused, the others go elsewhere.
   */
  lemma {:induction false} ClosedGate(s: State, events: seq<Event>, requests: seq<Request>)
    requires Inv(s) && CanRun(s, events) && OnlyRecoveries(s)
    requires forall i :: 0 <= i < |events| ==> Admitted(requests, events[i])
    ensures forall i :: 0 <= i < |events| ==> BypassesPipelines(events[i])
    ensures OnlyRecoveries(Run(s, events)) && OnlyRecovered(s, Run(s, events))
    ensures forall i :: 0 <= i < |requests| ==>
              Dispatch(requests[i]) == if IsLiveQuarantine(requests[i]) then Refused else Ordinary
    decreases |events|
  {
    forall i | 0 <= i < |requests|
      ensures Dispatch(requests[i]) == if IsLiveQuarantine(requests[i]) then Refused else Ordinary
    {
      RefusedExactlyWhen(requests[i]);
    }
    if events != [] {
      ClosedStep(s, events[0], requests);
      NextInv(s, events[0]);
      ClosedGate(Next(s, events[0]), events[1..], requests);
      OnlyRecoveredTrans(s, Next(s, events[0]), Run(s, events));
      forall i | 0 <= i < |events| ensures BypassesPipelines(events[i]) {
        if i > 0 { assert events[i] == events[1..][i - 1]; }
      }
    }
  }

  /** Nothing has ever happened. */
  predicate Idle(s: State) {
    s.gens == [] && s.tasks == [] && s.procs == map[] && s.effects == map[]
  }

  /** From the start, only others ever change anything. */
  lemma {:induction false} ClosedGateFromStart(s: State, events: seq<Event>, requests: seq<Request>)
    requires Idle(s) && CanRun(s, events) && forall i :: 0 <= i < |events| ==> Admitted(requests, events[i])
    ensures Idle(Run(s, events)) && forall i :: 0 <= i < |events| ==> events[i].Drift?
    decreases |events|
  {
    if events != [] {
      assert Admitted(requests, events[0]);
      ClosedGateFromStart(Next(s, events[0]), events[1..], requests);
      forall i | 0 <= i < |events| ensures events[i].Drift? {
        if i > 0 { assert events[i] == events[1..][i - 1]; }
      }
    }
  }

  /** A live request of a quarantine or reconcile action. */
  predicate IsLiveQuarantine(request: Request) {
    !request.dryRun
    && request.actionName in {"docker.quarantine_container", "proxmox.quarantine_vm", "tailscale.quarantine_device",
                              "docker.reconcile_quarantine", "proxmox.reconcile_quarantine"}
  }

  lemma RefusedExactlyWhen(request: Request)
    ensures Dispatch(request) == if IsLiveQuarantine(request) then Refused else Ordinary
  {
  }
}
