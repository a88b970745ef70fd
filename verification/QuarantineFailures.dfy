/**
 What failures lead to, with the exact state that results: a prepared generation that was abandoned, an
 isolating task that failed, a target that somebody opened again, a network that could not be cut, a
 restore that failed.
 */
module QuarantineFailures {
  import opened Options
  import opened QuarantineProtocol
  import opened QuarantineInvariant
  import opened QuarantineTheorems
  import opened QuarantineScripts
  import opened QuarantineContainerScripts
  import opened QuarantineVerification
  import Nic

  // --- handing over to manual recovery ------------------------------------------------------

  /** The rows after generation `g` was handed over to manual recovery, with the UPID `upid` if there is one. */
  function HandedOver(gens: seq<Generation>, g: GenId, upid: Option<TaskId>): seq<Generation>
    requires g < |gens|
  {
    gens[g := gens[g].(status := RecoveryRequired, upid := if upid.Some? then upid else gens[g].upid)]
  }

  lemma MarkState(s: State, p: Pid, g: GenId, role: Role, upid: Option<TaskId>)
    requires g < |s.gens| && s.gens[g].target in s.remote
    ensures var s1 := Placed(s, p, g, role, Uncertain(upid));
            && Enabled(s1, Restore(p, MarkRecovery))
            && Next(s1, Restore(p, MarkRecovery)) == s.(gens := HandedOver(s.gens, g, upid), procs := s.procs - {p})
  {
    assert s.procs[p := Working(g, role, Uncertain(upid))] - {p} == s.procs - {p};
  }

  /** The sweep hands an abandoned prepared generation over, and does nothing else. */
  lemma AbandonedScript(s: State, p: Pid, g: GenId) returns (events: seq<Event>)
    requires Inv(s) && p !in s.procs && g < |s.gens| && s.gens[g].status.Prepared? && !Locked(s, g)
    ensures CanRun(s, events) && Run(s, events) == s.(gens := HandedOver(s.gens, g, None))
  {
    assert GenOk(s, g);
    events := [];
    Then(s, events, Restore(p, AcquireRecover(g)));
    events := events + [Restore(p, AcquireRecover(g))];
    assert Run(s, events) == Placed(s, p, g, Recoverer, Guarded);
    Then(s, events, Restore(p, MarkRecovery));
    events := events + [Restore(p, MarkRecovery)];
    assert s.procs[p := Working(g, Recoverer, Guarded)] - {p} == s.procs;
  }

  /** The sweep leaves a generation that waits for manual recovery alone: all that it can do is to stop. */
  lemma ReviewIsLeftAlone(s: State, e: Event)
    requires Enabled(s, e) && !e.RunTask? && !e.Drift? && At(s, e.p, Recoverer)
    requires s.procs[e.p].pc.Guarded? && GenOf(s, e.p).status.RecoveryRequired?
    ensures e.Stop?
  {
  }

  // --- applications that fail ---------------------------------------------------------------

  /**
   The isolating task of a VM fails: nothing is changed, and the generation waits for manual
   recovery without a UPID.
   */
  lemma FailedTaskScript(s: State, p: Pid, t: Target) returns (events: seq<Event>)
    requires Inv(s) && Isolable(s, p, t)
    ensures CanRun(s, events)
    ensures var g, config := |s.gens|, s.remote[t];
            Run(s, events) == s.(gens := HandedOver(Begun(s, t).gens, g, None),
                                 tasks := s.tasks + [Task(g, IsolateTask, config, Nic.Isolate(config.net0), Failed)])
  {
    var g, k, begun := |s.gens|, |s.tasks|, Begun(s, t);
    events := PrepareScript(s, p, t);
    var submit := SubmittedScript(begun, p, g);
    Append(s, events, submit);
    events := events + submit;
    var failed := begun.(tasks := s.tasks + [Task(g, IsolateTask, s.remote[t], Nic.Isolate(s.remote[t].net0), Failed)]);
    var give := FailScript(begun, p, g, failed.tasks[k]);
    Append(s, events, give);
    events := events + give;
    assert failed.procs - {p} == s.procs;
  }

  lemma SubmittedScript(s: State, p: Pid, g: GenId) returns (events: seq<Event>)
    requires g < |s.gens| && s.gens[g].target in s.remote && s.remote[s.gens[g].target].VmConfig?
    requires s.gens[g].plan == NicPlan(s.remote[s.gens[g].target].net0) && !Nic.IsIsolated(s.gens[g].plan.net0)
    ensures var config := s.remote[s.gens[g].target];
            var running := Task(g, IsolateTask, config, Nic.Isolate(config.net0), Running);
            && CanRun(Placed(s, p, g, Applier, Guarded), events)
            && Run(Placed(s, p, g, Applier, Guarded), events)
               == Placed(s.(tasks := s.tasks + [running]), p, g, Applier, Waiting(|s.tasks|))
  {
    var s1, config := Placed(s, p, g, Applier, Guarded), s.remote[s.gens[g].target];
    FencedState(s, p, g);
    events := [];
    Then(s1, events, Apply(p, ReadFence));
    events := events + [Apply(p, ReadFence)];
    SubmitState(s, p, g, config);
    Then(s1, events, Apply(p, Submit));
    events := events + [Apply(p, Submit)];
  }

  lemma FencedState(s: State, p: Pid, g: GenId)
    requires g < |s.gens| && s.gens[g].target in s.remote && s.remote[s.gens[g].target].VmConfig?
    requires s.gens[g].plan == NicPlan(s.remote[s.gens[g].target].net0) && !Nic.IsIsolated(s.gens[g].plan.net0)
    ensures var s1 := Placed(s, p, g, Applier, Guarded);
            && Enabled(s1, Apply(p, ReadFence))
            && Next(s1, Apply(p, ReadFence)) == Placed(s, p, g, Applier, Fenced(s.remote[s.gens[g].target]))
  {
  }

  lemma SubmitState(s: State, p: Pid, g: GenId, config: Remote)
    requires g < |s.gens| && s.gens[g].target in s.remote && config.VmConfig?
    ensures var s1 := Placed(s, p, g, Applier, Fenced(config));
            var running := Task(g, IsolateTask, config, Nic.Isolate(config.net0), Running);
            && Enabled(s1, Apply(p, Submit))
            && Next(s1, Apply(p, Submit))
               == Placed(s.(tasks := s.tasks + [running]), p, g, Applier, Waiting(|s.tasks|))
  {
    var s1 := Placed(s, p, g, Applier, Fenced(config));
    assert Bound(s1, p) && s1.procs[p] == Working(g, Applier, Fenced(config));
    assert s1.procs[p := Working(g, Applier, Waiting(|s.tasks|))]
           == s.procs[p := Working(g, Applier, Waiting(|s.tasks|))];
  }

  lemma FailScript(s: State, p: Pid, g: GenId, failed: Task) returns (events: seq<Event>)
    requires g < |s.gens| && s.gens[g].target in s.remote && failed.gen == g && failed.status.Failed?
    ensures var k := |s.tasks|;
            var s1 := Placed(s.(tasks := s.tasks + [failed.(status := Running)]), p, g, Applier, Waiting(k));
            && CanRun(s1, events)
            && Run(s1, events) == s.(tasks := s.tasks + [failed], gens := HandedOver(s.gens, g, None),
                                     procs := s.procs - {p})
  {
    var k, ended := |s.tasks|, s.(tasks := s.tasks + [failed]);
    var s1 := Placed(s.(tasks := s.tasks + [failed.(status := Running)]), p, g, Applier, Waiting(k));
    events := [];
    Then(s1, events, RunTask(k, false));
    events := events + [RunTask(k, false)];
    assert Run(s1, events) == Placed(ended, p, g, Applier, Waiting(k)) by {
      assert s1.tasks[k := failed] == s.tasks + [failed];
    }
    Then(s1, events, Apply(p, AdapterError));
    events := events + [Apply(p, AdapterError)];
    assert Run(s1, events) == Placed(ended, p, g, Applier, Uncertain(None));
    MarkState(ended, p, g, Applier, None);
    Then(s1, events, Restore(p, MarkRecovery));
    events := events + [Restore(p, MarkRecovery)];
  }

  /**
   The isolation lands, and somebody opens the VM again before the readback: the generation is not
   completed but waits for manual recovery, with its UPID.
   */
  lemma ReopenedScript(s: State, p: Pid, t: Target) returns (events: seq<Event>)
    requires Inv(s) && Isolable(s, p, t) && s.procs == map[]
    ensures CanRun(s, events)
    ensures var g, k, config := |s.gens|, |s.tasks|, s.remote[t];
            Run(s, events)
            == s.(gens := HandedOver(Begun(s, t).gens, g, Some(k)),
                  tasks := s.tasks + [Task(g, IsolateTask, config, Nic.Isolate(config.net0), SucceededOk)])
  {
    var g, k := |s.gens|, |s.tasks|;
    var landed := Landing(s, p, t);
    events := LandingScript(s, p, t);
    LandingReady(s, p, t);
    var record := RecordScript(landed, p, g, k);
    Append(s, events, record);
    events := events + record;
    var recorded := Placed(landed, p, g, Applier, Recorded(k));
    ReopenState(s, p, t);
    Then(s, events, Drift(t, s.remote[t]));
    events := events + [Drift(t, s.remote[t])];
    RunInv(s, events);
    var giveUp := ReadBackDecides(Run(s, events), p, g);
    Append(s, events, giveUp);
    events := events + giveUp;
    assert Run(s, events).procs == s.procs;
    assert Run(s, events).gens == HandedOver(Begun(s, t).gens, g, Some(k));
  }

  lemma ReopenState(s: State, p: Pid, t: Target)
    requires Inv(s) && Isolable(s, p, t) && s.procs == map[]
    ensures var recorded := Placed(Landing(s, p, t), p, |s.gens|, Applier, Recorded(|s.tasks|));
            && Enabled(recorded, Drift(t, s.remote[t]))
            && Next(recorded, Drift(t, s.remote[t])) == recorded.(remote := s.remote, effects := s.effects)
  {
    var recorded := Placed(Landing(s, p, t), p, |s.gens|, Applier, Recorded(|s.tasks|));
    NoEffectUnowned(s, t);
    Reopened(s.effects, t, |s.gens|, s.remote[t].net0, s.remote[t].other);
    assert recorded.remote[t := s.remote[t]] == s.remote;
  }

  /** The isolation is no longer in force. */
  lemma Reopened(effects: map<Target, Effect>, t: Target, g: GenId, net0: string, other: string)
    requires t !in effects && !Nic.IsIsolated(net0)
    ensures var config := VmConfig(net0, other);
            Surviving(effects[t := Effect(g, config)], t, VmConfig(Nic.Isolate(net0), other), config) == effects
  {
    Nic.IsolateIsIsolated(net0);
    assert effects[t := Effect(g, VmConfig(net0, other))] - {t} == effects;
  }

  // --- compensation -------------------------------------------------------------------------

  lemma SkipOne(s: State, p: Pid, g: GenId, role: Role, nets: Attachments, seen: Attachments, todo: set<string>,
                n: string)
    requires g < |s.gens| && s.gens[g].plan == NetworkPlan(nets) && s.gens[g].target in s.remote
    requires n in todo && n in seen && n in nets && seen[n] == nets[n]
    ensures var s1 := Placed(s, p, g, role, Reconnecting(todo, seen, false));
            && Enabled(s1, Restore(p, SkipNetwork(n)))
            && Next(s1, Restore(p, SkipNetwork(n))) == Placed(s, p, g, role, Reconnecting(todo - {n}, seen, false))
  {
  }

  /** Networks that are still attached are passed over. */
  lemma {:induction false} SkipAll(s: State, p: Pid, g: GenId, role: Role, nets: Attachments, seen: Attachments,
                                   todo: set<string>, missing: set<string>)
    returns (events: seq<Event>)
    requires g < |s.gens| && s.gens[g].plan == NetworkPlan(nets) && s.gens[g].target in s.remote
    requires todo <= seen.Keys && seen.Keys <= nets.Keys && missing !! seen.Keys
    requires forall n :: n in seen ==> seen[n] == nets[n]
    ensures var s1 := Placed(s, p, g, role, Reconnecting(todo + missing, seen, false));
            CanRun(s1, events) && Run(s1, events) == Placed(s, p, g, role, Reconnecting(missing, seen, false))
    decreases todo
  {
    if todo == {} {
      events := [];
      assert todo + missing == missing;
    } else {
      var n :| n in todo;
      SkipOne(s, p, g, role, nets, seen, todo + missing, n);
      assert (todo + missing) - {n} == (todo - {n}) + missing;
      var rest := SkipAll(s, p, g, role, nets, seen, todo - {n}, missing);
      events := [Restore(p, SkipNetwork(n))] + rest;
      assert events[1..] == rest;
    }
  }

  /**
   A network cannot be cut: those that were cut are attached again as they were, and the generation waits
   for manual recovery; it is never completed.
   */
  lemma CompensationScript(s: State, p: Pid, g: GenId, nets: Attachments, todo: set<string>)
      returns (events: seq<Event>)
    requires g < |s.gens| && s.gens[g].plan == NetworkPlan(nets) && s.gens[g].target in s.remote
    requires todo <= nets.Keys
    ensures var t := s.gens[g].target;
            var s1 := Placed(Cut(s, t, g, Restricted(nets, todo), Without(nets, todo)), p, g, Applier,
                             Disconnecting(todo));
            && CanRun(s1, events)
            && Run(s1, events) == s.(gens := HandedOver(s.gens, g, None), remote := s.remote[t := Networks(nets)],
                                     effects := s.effects - {t}, procs := s.procs - {p})
  {
    var t, seen, missing := s.gens[g].target, Restricted(nets, todo), nets.Keys - todo;
    var cut := Cut(s, t, g, seen, Without(nets, todo));
    var s1 := Placed(cut, p, g, Applier, Disconnecting(todo));
    CompensateState(s, p, g, nets, todo);
    events := [];
    Then(s1, events, Apply(p, Compensate));
    events := events + [Apply(p, Compensate)];
    var skips := SkipAll(cut, p, g, Applier, nets, seen, todo, missing);
    Append(s1, events, skips);
    events := events + skips;
    assert Without(nets, missing) == seen && Restricted(nets, missing) == Without(nets, todo);
    var connects := ConnectAll(s, p, g, Applier, nets, nets, seen, missing);
    Append(s1, events, connects);
    events := events + connects;
    var last := GiveUpScript(Cut(s, t, g, nets, map[]), p, g, nets, seen);
    Append(s1, events, last);
    events := events + last;
  }

  lemma CompensateState(s: State, p: Pid, g: GenId, nets: Attachments, todo: set<string>)
    requires g < |s.gens| && s.gens[g].plan == NetworkPlan(nets) && s.gens[g].target in s.remote && todo <= nets.Keys
    ensures var cut := Cut(s, s.gens[g].target, g, Restricted(nets, todo), Without(nets, todo));
            var s1 := Placed(cut, p, g, Applier, Disconnecting(todo));
            && Enabled(s1, Apply(p, Compensate))
            && Next(s1, Apply(p, Compensate))
               == Placed(cut, p, g, Applier, Reconnecting(todo + (nets.Keys - todo), Restricted(nets, todo), false))
  {
    assert todo + (nets.Keys - todo) == nets.Keys;
  }

  lemma GiveUpScript(s: State, p: Pid, g: GenId, nets: Attachments, seen: Attachments) returns (events: seq<Event>)
    requires g < |s.gens| && s.gens[g].plan == NetworkPlan(nets) && s.gens[g].target in s.remote
    requires s.remote[s.gens[g].target] == Networks(nets)
    ensures var s1 := Placed(s, p, g, Applier, Reconnecting({}, seen, false));
            && CanRun(s1, events)
            && Run(s1, events) == s.(gens := HandedOver(s.gens, g, None), procs := s.procs - {p})
  {
    var s1 := Placed(s, p, g, Applier, Reconnecting({}, seen, false));
    events := [];
    Then(s1, events, Restore(p, CheckNetworks));
    events := events + [Restore(p, CheckNetworks)];
    assert Run(s1, events) == Placed(s, p, g, Applier, Uncertain(None));
    MarkState(s, p, g, Applier, None);
    Then(s1, events, Restore(p, MarkRecovery));
    events := events + [Restore(p, MarkRecovery)];
  }

  // --- restores that fail -------------------------------------------------------------------

  /** A recovery whose restore fails at any point hands its generation over to an operator. */
  lemma FailedRecoveryScript(s: State, p: Pid) returns (events: seq<Event>)
    requires At(s, p, Recoverer) && InRestore(s.procs[p].pc)
    ensures CanRun(s, events)
    ensures Run(s, events) == s.(gens := HandedOver(s.gens, s.procs[p].gen, None), procs := s.procs - {p})
  {
    var g := s.procs[p].gen;
    events := [];
    Then(s, events, Restore(p, RestoreError));
    events := events + [Restore(p, RestoreError)];
    assert Run(s, events) == Placed(s, p, g, Recoverer, Uncertain(None));
    MarkState(s, p, g, Recoverer, None);
    Then(s, events, Restore(p, MarkRecovery));
    events := events + [Restore(p, MarkRecovery)];
  }

  /** A reconciliation that does not succeed leaves its generation to the next one. */
  lemma FailedReconciliationChangesNoRow(s: State, e: Event)
    requires Enabled(s, e) && !e.RunTask? && !e.Drift? && At(s, e.p, Reconciler) && InRestore(s.procs[e.p].pc)
    ensures Next(s, e).gens == s.gens && (e.p in Next(s, e).procs ==> !Next(s, e).procs[e.p].pc.Uncertain?)
  {
  }

  /** A restore in which a Docker command failed, or found a network in another state than the saved one. */
  predicate Failing(s: State, p: Pid) {
    && p in s.procs && s.procs[p].Working?
    && ((s.procs[p].pc.Reconnecting? && s.procs[p].pc.failed) || s.procs[p].pc == Uncertain(None))
  }

  /** The network is attached with other settings, or lacks a saved alias. */
  predicate Differs(saved: Attachment, now: Attachment) {
    saved.endpoint != now.endpoint || exists i :: 0 <= i < |saved.aliases| && saved.aliases[i] !in now.aliases
  }

  /** The command of this step failed, or there is nothing that it may change. */
  predicate CommandFails(s: State, p: Pid, r: RestoreStep)
    requires RestoreEnabled(s, p, r)
  {
    match r
    case SkipNetwork(n) => Differs(GenOf(s, p).plan.nets[n], s.procs[p].pc.seen[n])
    case Connect(_, _, reported) => !reported
    case ConnectFailed(_) => true
    case _ => false
  }

  lemma FailureIsNoted(s: State, p: Pid, r: RestoreStep)
    requires RestoreEnabled(s, p, r) && CommandFails(s, p, r)
    ensures Failing(RestoreNext(s, p, r), p)
  {
  }

  /**
   A failure is never forgotten: whatever happens, the process goes on failing, or ends without
   resolving its generation.
   */
  lemma FailingNeverResolves(s: State, e: Event, p: Pid)
    requires Inv(s) && Enabled(s, e) && Failing(s, p)
    ensures p in Next(s, e).procs ==> Failing(Next(s, e), p) && Next(s, e).procs[p].gen == s.procs[p].gen
    ensures s.procs[p].gen < |s.gens| && s.procs[p].gen < |Next(s, e).gens|
    ensures var was, now := s.gens[s.procs[p].gen], Next(s, e).gens[s.procs[p].gen];
            now == was || now.status.RecoveryRequired?
  {
    var g := s.procs[p].gen;
    assert ProcOk(s, p);
    if Commits(e) {
      FailingCommit(s, e, p);
    } else {
      match e
      case Apply(q, a) => ApplyKeepsRows(s, q, a, g); FailingApply(s, q, a, p);
      case Restore(q, r) => RestoreKeepsRows(s, q, r, g); FailingRestore(s, q, r, p);
      case _ =>
    }
  }

  lemma FailingCommit(s: State, e: Event, p: Pid)
    requires Inv(s) && Enabled(s, e) && Failing(s, p) && Commits(e) && s.procs[p].gen < |s.gens|
    ensures p in Next(s, e).procs ==> Failing(Next(s, e), p) && Next(s, e).procs[p].gen == s.procs[p].gen
    ensures s.procs[p].gen < |Next(s, e).gens|
    ensures var was, now := s.gens[s.procs[p].gen], Next(s, e).gens[s.procs[p].gen];
            now == was || now.status.RecoveryRequired?
  {
    CommitStep(s, e);
    assert GuardExclusive(s);
  }

  lemma FailingApply(s: State, q: Pid, a: ApplyStep, p: Pid)
    requires ApplyEnabled(s, q, a) && Failing(s, p) && !a.Finish?
    ensures p in ApplyNext(s, q, a).procs && Failing(ApplyNext(s, q, a), p)
    ensures ApplyNext(s, q, a).procs[p].gen == s.procs[p].gen
  {
  }

  lemma FailingRestore(s: State, q: Pid, r: RestoreStep, p: Pid)
    requires RestoreEnabled(s, q, r) && Failing(s, p) && !r.MarkRecovery? && !r.Resolve?
    ensures p in RestoreNext(s, q, r).procs && Failing(RestoreNext(s, q, r), p)
    ensures RestoreNext(s, q, r).procs[p].gen == s.procs[p].gen
  {
  }

  // --- restores that succeed ----------------------------------------------------------------

  /**
   What a restore that is confirmed has gone through: the target is as it was saved at that moment, and the
   NIC was found so at once, or the adapter had seen its task end OK, or all networks had been dealt with
   and no command had failed.
   */
  lemma ConfirmedOnlyAfter(s: State, e: Event, p: Pid)
    requires Enabled(s, e) && p in s.procs && s.procs[p].Working? && !s.procs[p].pc.Restored?
    requires p in Next(s, e).procs && Next(s, e).procs[p].Working? && Next(s, e).procs[p].pc.Restored?
    ensures Bound(s, p) && AsSaved(GenOf(s, p).plan, RemoteOf(s, p))
    ensures var pc := s.procs[p].pc;
            || (pc.Restoring? && GenOf(s, p).plan.NicPlan?) || pc.RestoreSubmitted?
            || (pc.Reconnecting? && pc.todo == {} && !pc.failed)
  {
    match e
    case Apply(q, a) => NoneRestored(s, q, a);
    case Restore(q, r) => ConfirmedByStep(s, q, r, p);
    case _ =>
  }

  lemma ConfirmedByStep(s: State, q: Pid, r: RestoreStep, p: Pid)
    requires RestoreEnabled(s, q, r) && p in s.procs && s.procs[p].Working? && !s.procs[p].pc.Restored?
    requires var s' := RestoreNext(s, q, r); p in s'.procs && s'.procs[p].Working? && s'.procs[p].pc.Restored?
    ensures p == q && Bound(s, p) && AsSaved(GenOf(s, p).plan, RemoteOf(s, p))
    ensures r.ReadRestore? || r.Readback? || r.CheckNetworks?
    ensures r.ReadRestore? ==> GenOf(s, p).plan.NicPlan?
  {
  }

  lemma NoneRestored(s: State, q: Pid, a: ApplyStep)
    requires ApplyEnabled(s, q, a)
    ensures var s' := ApplyNext(s, q, a);
            forall p :: p in s'.procs && s'.procs[p].Working? && s'.procs[p].pc.Restored? ==>
                          p in s.procs && s.procs[p] == s'.procs[p]
  {
  }

  /** The adapter goes on to its readback only after its restoring task ended OK; if it failed, it gives up. */
  lemma AwaitedOnlyAfter(s: State, e: Event)
    requires Enabled(s, e) && !e.RunTask? && !e.Drift? && Bound(s, e.p) && s.procs[e.p].pc.RestoreWaiting?
    ensures e.Stop? || e == Restore(e.p, RestoreError)
            || (e == Restore(e.p, AwaitRestore) && s.procs[e.p].pc.task < |s.tasks|
                && s.tasks[s.procs[e.p].pc.task].status.SucceededOk?)
  {
  }
}
