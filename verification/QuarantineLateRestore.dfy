/**
 Restoring tasks that outlive their generation.

 The runtime records the UPID of the isolating task only. A restoring task whose outcome was not
 awaited (crash, timeout, lost response) is unknown to the store, so a later recovery can resolve
 its generation while it is still undecided; because the digest fence compares contents, that task
 can then undo the next generation of the same VM. This module shows the run, and proves exactly
 when resolving a generation is safe from it.
 */
module QuarantineLateRestore {
  import opened QuarantineProtocol
  import opened QuarantineInvariant
  import opened QuarantineTheorems
  import opened QuarantineScripts
  import Nic

  // --- the run that goes wrong --------------------------------------------------------------

  /** Task `k` of the resolved generation `g` is about to undo the isolation of generation `h`. */
  ghost predicate AboutToUndo(s: State, k: TaskId, g: GenId, h: GenId) {
    && UndecidedRestore(s, k, g) && g < |s.gens| && s.gens[g].status.RolledBack?
    && h < |s.gens| && h != g && s.gens[h].target == s.gens[g].target && s.gens[h].status.Completed?
    && s.gens[h].target in s.effects && s.effects[s.gens[h].target].gen == h
    && Enabled(s, RunTask(k, true)) && s.gens[h].target !in Next(s, RunTask(k, true)).effects
    && Next(s, RunTask(k, true)).gens[h].status.Completed?
  }

  /** A recovery that ends while its restore is undecided leaves nothing behind but the task. */
  lemma AbandonScript(s: State, p: Pid, g: GenId) returns (events: seq<Event>)
    requires Resolvable(s, p, g) && s.gens[g].target in s.remote && s.remote[s.gens[g].target].VmConfig?
             && s.gens[g].plan.NicPlan?
    requires s.remote[s.gens[g].target].net0 == Nic.Isolate(s.gens[g].plan.net0)
    ensures CanRun(s, events)
    ensures Run(s, events) == s.(tasks := s.tasks
                                 + [Task(g, RestoreTask, s.remote[s.gens[g].target], s.gens[g].plan.net0, Running)])
  {
    events := SubmitScript(s, p, g);
    Then(s, events, Stop(p));
    events := events + [Stop(p)];
    assert s.procs[p := Working(g, RoleFor(s, g), RestoreWaiting(|s.tasks|))] - {p} == s.procs;
  }

  /** A recovery that abandons its task, and one that succeeds. */
  lemma AbandonThenRestore(s: State, p: Pid, g: GenId) returns (events: seq<Event>)
    requires Resolvable(s, p, g) && s.gens[g].target in s.remote && s.remote[s.gens[g].target].VmConfig?
             && s.gens[g].plan.NicPlan?
    requires s.remote[s.gens[g].target].net0 == Nic.Isolate(s.gens[g].plan.net0)
    ensures CanRun(s, events)
    ensures var t := s.gens[g].target;
            var task := Task(g, RestoreTask, s.remote[t], s.gens[g].plan.net0, Running);
            Run(s, events) == s.(gens := ResolvedRows(s.gens, g),
                                 tasks := s.tasks + [task] + [task.(status := SucceededOk)],
                                 remote := s.remote[t := s.remote[t].(net0 := s.gens[g].plan.net0)],
                                 effects := s.effects - {t})
  {
    var first := AbandonScript(s, p, g);
    RunInv(s, first);
    var second := RestoreScript(Run(s, first), p, g);
    Append(s, first, second);
    events := first + second;
  }

  /** After quarantine, abandoned recovery and recovery, the generation is resolved and its task undecided. */
  lemma StaleScript(init: State, t: Target) returns (events: seq<Event>)
    requires Init(init) && t.Vm? && t in init.remote && !Nic.IsIsolated(init.remote[t].net0)
    ensures CanRun(init, events)
    ensures var s := Run(init, events);
            && |s.gens| == 1 && s.gens[0].target == t && s.gens[0].status.RolledBack? && UndecidedRestore(s, 1, 0)
            && s.tasks[1].fence == init.remote[t].(net0 := Nic.Isolate(init.remote[t].net0))
            && s.remote == init.remote && s.procs == map[]
  {
    InitInv(init);
    var first := QuarantineScript(init, 0, t);
    var s1 := Quarantined(init, t);
    RunInv(init, first);
    var second := AbandonThenRestore(s1, 0, 0);
    Append(init, first, second);
    events := first + second;
    assert s1.remote[t := init.remote[t]] == init.remote;
  }

  /**
   From every start with a VM that can be quarantined, some run reaches a state in which a late
   restoring task of a resolved generation is about to undo a newer, completed one.
   */
  lemma LateRestoreUndoesNewerGeneration(init: State, t: Target) returns (events: seq<Event>)
    requires Init(init) && t.Vm? && t in init.remote && !Nic.IsIsolated(init.remote[t].net0)
    ensures CanRun(init, events) && AboutToUndo(Run(init, events), 1, 0, 1)
  {
    InitInv(init);
    var first := StaleScript(init, t);
    RunInv(init, first);
    var s := Run(init, first);
    var second := QuarantineScript(s, 0, t);
    Append(init, first, second);
    events := first + second;
    SecondIsolation(s, t);
  }

  /** A second quarantine with the same configuration meets the fence of the abandoned task. */
  lemma SecondIsolation(s: State, t: Target)
    requires t.Vm? && t in s.remote && s.remote[t].VmConfig?
    requires |s.gens| == 1 && s.gens[0].target == t && s.gens[0].status.RolledBack? && UndecidedRestore(s, 1, 0)
    requires s.tasks[1].fence == s.remote[t].(net0 := Nic.Isolate(s.remote[t].net0))
    ensures AboutToUndo(Quarantined(s, t), 1, 0, 1)
  {
    assert Quarantined(s, t).tasks[1] == s.tasks[1];
  }

  // --- exactly when resolving is safe -------------------------------------------------------

  /** Every undecided restoring task of `g` is waited for by a process that holds the guard of `g`. */
  ghost predicate Awaited(s: State, g: GenId) {
    forall k :: UndecidedRestore(s, k, g) ==>
      exists p :: p in s.procs && s.procs[p].Working? && s.procs[p].gen == g && s.procs[p].pc == RestoreWaiting(k)
  }

  lemma AwaitedRestoreStep(s: State, p: Pid, r: RestoreStep, k: TaskId, g: GenId) returns (q: Pid)
    requires RestoreEnabled(s, p, r) && !Abandons(s, Restore(p, r)) && Awaited(s, g)
    requires UndecidedRestore(RestoreNext(s, p, r), k, g)
    ensures var s' := RestoreNext(s, p, r);
            q in s'.procs && s'.procs[q].Working? && s'.procs[q].gen == g && s'.procs[q].pc == RestoreWaiting(k)
  {
    if UndecidedRestore(s, k, g) {
      q :| q in s.procs && s.procs[q].Working? && s.procs[q].gen == g && s.procs[q].pc == RestoreWaiting(k);
    } else {
      q := p;
    }
  }

  lemma AwaitedApplyStep(s: State, p: Pid, a: ApplyStep, k: TaskId, g: GenId) returns (q: Pid)
    requires ApplyEnabled(s, p, a) && Awaited(s, g)
    requires UndecidedRestore(ApplyNext(s, p, a), k, g)
    ensures var s' := ApplyNext(s, p, a);
            q in s'.procs && s'.procs[q].Working? && s'.procs[q].gen == g && s'.procs[q].pc == RestoreWaiting(k)
  {
    assert UndecidedRestore(s, k, g);
    q :| q in s.procs && s.procs[q].Working? && s.procs[q].gen == g && s.procs[q].pc == RestoreWaiting(k);
  }

  lemma AwaitedStep(s: State, e: Event, g: GenId)
    requires Enabled(s, e) && !Abandons(s, e) && Awaited(s, g)
    ensures Awaited(Next(s, e), g)
  {
    var s' := Next(s, e);
    forall k | UndecidedRestore(s', k, g)
      ensures exists q ::
                q in s'.procs && s'.procs[q].Working? && s'.procs[q].gen == g && s'.procs[q].pc == RestoreWaiting(k)
    {
      match e
      case Apply(p, a) => var q := AwaitedApplyStep(s, p, a, k, g);
      case Restore(p, r) => var q := AwaitedRestoreStep(s, p, r, k, g);
      case _ =>
        assert UndecidedRestore(s, k, g);
        var q :| q in s.procs && s.procs[q].Working? && s.procs[q].gen == g && s.procs[q].pc == RestoreWaiting(k);
        assert q in s'.procs && s'.procs[q] == s.procs[q];
    }
  }

  lemma {:induction false} AwaitedRun(s: State, events: seq<Event>, g: GenId)
    requires CanRun(s, events) && Patient(s, events) && Awaited(s, g)
    ensures Awaited(Run(s, events), g)
    decreases |events|
  {
    if events != [] {
      AwaitedStep(s, events[0], g);
      AwaitedRun(Next(s, events[0]), events[1..], g);
    }
  }

  lemma AwaitedIsOwned(s: State, k: TaskId, g: GenId)
    requires Inv(s) && Awaited(s, g) && UndecidedRestore(s, k, g)
    ensures g < |s.gens| && Owns(s, g, s.gens[g].target)
  {
    assert TaskOk(s, k);
    var p :| p in s.procs && s.procs[p].Working? && s.procs[p].gen == g && s.procs[p].pc == RestoreWaiting(k);
    assert ProcOk(s, p);
  }

  /**
   In a run that waits for every restore it submits, each restoring task that is undecided (and
   hence each one that lands) belongs to the generation that owns the target: no resolved
   generation ever writes.
   */
  lemma PatientRunsHaveNoStaleRestore(init: State, events: seq<Event>, k: TaskId, g: GenId)
    requires Init(init) && CanRun(init, events) && Patient(init, events)
    requires UndecidedRestore(Run(init, events), k, g)
    ensures g < |Run(init, events).gens| && Owns(Run(init, events), g, Run(init, events).gens[g].target)
  {
    InitInv(init);
    RunInv(init, events);
    AwaitedRun(init, events, g);
    AwaitedIsOwned(Run(init, events), k, g);
  }

  /** If the run resolves `g`, no restoring task of `g` is undecided then. */
  ghost predicate ResolvesDecided(s: State, events: seq<Event>, g: GenId)
    requires CanRun(s, events)
  {
    var s' := Run(s, events);
    g < |s'.gens| && s'.gens[g].status.RolledBack? ==> forall k :: !UndecidedRestore(s', k, g)
  }

  lemma {:induction false} FreshPid(used: set<Pid>) returns (p: Pid)
    ensures forall q :: q in used ==> q < p
    decreases used
  {
    p := 0;
    if used != {} {
      var top :| top in used;
      var rest := FreshPid(used - {top});
      p := if top < rest then rest else top + 1;
      forall q | q in used ensures q < p {
        assert q == top || q in used - {top};
      }
    }
  }

  lemma UnlockedTarget(s: State, g: GenId, q: Pid)
    requires Inv(s) && g < |s.gens| && Active(s.gens[g].status) && !Locked(s, g) && Bound(s, q)
             && HoldsGuard(s.procs[q])
    ensures GenOf(s, q).target != s.gens[g].target
  {
    assert ProcOk(s, q);
  }

  lemma ResolvableWithTask(s: State, p: Pid, g: GenId, k: TaskId)
    requires Inv(s) && p !in s.procs && g < |s.gens| && Active(s.gens[g].status) && !Locked(s, g)
             && UndecidedRestore(s, k, g)
    ensures Resolvable(s, p, g)
  {
    assert TaskOk(s, k) && GenOk(s, g);
  }

  /** An undecided restoring task of an unlocked generation survives a resolution that waits properly. */
  lemma ResolveBesideTask(s: State, g: GenId, k: TaskId) returns (events: seq<Event>)
    requires Inv(s) && g < |s.gens| && Active(s.gens[g].status) && !Locked(s, g) && UndecidedRestore(s, k, g)
    ensures CanRun(s, events) && Patient(s, events) && !ResolvesDecided(s, events, g)
  {
    var p := FreshPid(s.procs.Keys);
    ResolvableWithTask(s, p, g, k);
    assert TaskOk(s, k) && GenOk(s, g);
    var t, original := s.gens[g].target, s.gens[g].plan.net0;
    if s.remote[t].net0 == Nic.Isolate(original) {
      events := RestoreScript(s, p, g);
      assert UndecidedRestore(Run(s, events), k, g);
    } else if s.remote[t].net0 == original {
      events := ConfirmScript(s, p, g);
      assert UndecidedRestore(Run(s, events), k, g);
    } else {
      events := RepairedScript(s, p, g, k);
    }
  }

  /** The operator puts the original NIC back by hand before the resolution. */
  lemma RepairedScript(s: State, p: Pid, g: GenId, k: TaskId) returns (events: seq<Event>)
    requires Resolvable(s, p, g) && UndecidedRestore(s, k, g) && s.gens[g].target in s.remote
    requires s.gens[g].plan.NicPlan? && s.remote[s.gens[g].target].VmConfig?
    ensures CanRun(s, events) && Patient(s, events) && !ResolvesDecided(s, events, g)
  {
    var t := s.gens[g].target;
    var drift := Drift(t, s.remote[t].(net0 := s.gens[g].plan.net0));
    assert DriftAllowed(s, t) by {
      forall q | q in s.procs && HoldsGuard(s.procs[q]) && s.procs[q].gen < |s.gens|
          && s.gens[s.procs[q].gen].target in s.remote
        ensures s.gens[s.procs[q].gen].target != t
      {
        UnlockedTarget(s, g, q);
      }
    }
    assert Enabled(s, drift);
    NextInv(s, drift);
    var s1 := Next(s, drift);
    assert Resolvable(s1, p, g);
    var rest := ConfirmScript(s1, p, g);
    events := [drift] + rest;
    assert events[1..] == rest;
    assert UndecidedRestore(Run(s, events), k, g);
  }

  /**
   Exactly when resolving an unlocked VM generation is safe: every way of resolving it that waits
   for its own restores leaves no undecided restoring task behind if and only if none was undecided
   before. Nothing in the store records these tasks, so neither recovery nor reconciliation checks this.
   */
  lemma ResolutionIsDecidedExactlyWhen(s: State, g: GenId)
    requires Inv(s) && g < |s.gens| && Active(s.gens[g].status) && !Locked(s, g)
    ensures (forall events :: CanRun(s, events) && Patient(s, events) ==> ResolvesDecided(s, events, g))
            <==> (forall k :: !UndecidedRestore(s, k, g))
  {
    if k :| UndecidedRestore(s, k, g) {
      var events := ResolveBesideTask(s, g, k);
    } else {
      forall events | CanRun(s, events) && Patient(s, events) ensures ResolvesDecided(s, events, g) {
        var s' := Run(s, events);
        RunInv(s, events);
        AwaitedRun(s, events, g);
        if k :| UndecidedRestore(s', k, g) { AwaitedIsOwned(s', k, g); }
      }
    }
  }
}
