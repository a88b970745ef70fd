/**
 What a verified quarantine means (`executor/src/quarantine_runtime.rs`): an apply receipt is only ever
 written after a readback that found the target cut off, and a readback that does not find it so leads
 to manual recovery.
 */
module QuarantineVerification {
  import opened Options
  import opened QuarantineProtocol
  import opened QuarantineInvariant
  import opened QuarantineTheorems
  import opened QuarantineScripts
  import Text

  /** A container without any network; a VM with a NIC option that reads `link_down=1`. */
  ghost predicate CutOff(remote: Remote) {
    match remote
    case Networks(nets) => forall n :: n !in nets
    case VmConfig(net0, _) =>
      exists i :: 0 <= i < |Text.Split(net0, ',')| && Text.Trim(Text.Split(net0, ',')[i]) == "link_down=1"
  }

  /** Process `p` works for generation `g` and the adapter's isolating call has returned without an error. */
  predicate CallReturned(s: State, p: Pid, g: GenId) {
    && p in s.procs && s.procs[p].Working? && s.procs[p].gen == g && s.procs[p].role.Applier?
    && (s.procs[p].pc.Recorded? || s.procs[p].pc == Disconnecting({}))
  }

  /** Event `e` is the readback for generation `g`, and the target is cut off at that moment. */
  ghost predicate ReadBack(s: State, e: Event, g: GenId) {
    && g < |s.gens| && s.gens[g].target in s.remote
    && e.Apply? && e.a.Verify? && CallReturned(s, e.p, g) && CutOff(s.remote[s.gens[g].target])
  }

  ghost predicate HasVerified(s: State, g: GenId) {
    exists p :: p in s.procs && s.procs[p].Working? && s.procs[p].gen == g && s.procs[p].pc.Verified?
  }

  /** A process gets to know of the isolation by such a readback only. */
  lemma OnlyReadBackVerifies(s: State, e: Event, g: GenId)
    requires Inv(s) && Enabled(s, e) && !HasVerified(s, g) && HasVerified(Next(s, e), g)
    ensures ReadBack(s, e, g)
  {
    var s' := Next(s, e);
    var p :| p in s'.procs && s'.procs[p].Working? && s'.procs[p].gen == g && s'.procs[p].pc.Verified?;
    match e
    case Apply(q, a) =>
      if a.Verify? {
        assert ProcOk(s, q);
      } else {
        VerifiesNot(s, q, a);
      }
    case Restore(q, r) => RestoreVerifiesNot(s, q, r);
    case _ =>
  }

  lemma VerifiesNot(s: State, q: Pid, a: ApplyStep)
    requires ApplyEnabled(s, q, a) && !a.Verify?
    ensures var s' := ApplyNext(s, q, a);
            forall p :: p in s'.procs && s'.procs[p].Working? && s'.procs[p].pc.Verified? ==>
                          p in s.procs && s.procs[p] == s'.procs[p]
  {
  }

  lemma RestoreVerifiesNot(s: State, q: Pid, r: RestoreStep)
    requires RestoreEnabled(s, q, r)
    ensures var s' := RestoreNext(s, q, r);
            forall p :: p in s'.procs && s'.procs[p].Working? && s'.procs[p].pc.Verified? ==>
                          p in s.procs && s.procs[p] == s'.procs[p]
  {
  }

  /** An apply receipt is written for a verified generation only. */
  lemma ReceiptNeedsVerified(s: State, e: Event, g: GenId)
    requires Inv(s) && Enabled(s, e) && g < |Next(s, e).gens| && Next(s, e).gens[g].applyReceipts > 0
    ensures g < |s.gens| && (s.gens[g].applyReceipts > 0 || HasVerified(s, g))
  {
    if g < |s.gens| && s.gens[g].applyReceipts == 0 {
      LifecycleStep(s, e, g);
      FinishedBy(s, e, g);
    } else if g >= |s.gens| {
      NewRow(s, e, g);
    }
  }

  /** A row without a receipt gets one from the process that verified it. */
  lemma FinishedBy(s: State, e: Event, g: GenId)
    requires Inv(s) && Enabled(s, e) && g < |s.gens| && g < |Next(s, e).gens|
    requires s.gens[g].applyReceipts == 0 && Next(s, e).gens[g].applyReceipts > 0
    ensures HasVerified(s, g)
  {
    if Commits(e) {
      CommitStep(s, e);
    } else {
      match e
      case Apply(p, a) => ApplyKeepsRows(s, p, a, g);
      case Restore(p, r) => RestoreKeepsRows(s, p, r, g);
      case _ =>
    }
  }

  /** A new row has no receipt. */
  lemma NewRow(s: State, e: Event, g: GenId)
    requires Enabled(s, e) && |s.gens| <= g < |Next(s, e).gens|
    ensures Next(s, e).gens[g].applyReceipts == 0
  {
    match e
    case Apply(p, a) =>
    case Restore(p, r) => RestoreAddsNoRow(s, p, r);
    case _ =>
  }

  lemma RestoreAddsNoRow(s: State, p: Pid, r: RestoreStep)
    requires RestoreEnabled(s, p, r)
    ensures |RestoreNext(s, p, r).gens| == |s.gens|
  {
  }

  lemma {:induction false} ReceiptFrom(s: State, events: seq<Event>, g: GenId) returns (k: nat)
    requires Inv(s) && CanRun(s, events) && g < |Run(s, events).gens| && Run(s, events).gens[g].applyReceipts > 0
    requires !HasVerified(s, g) && (g < |s.gens| ==> s.gens[g].applyReceipts == 0)
    ensures k < |events| && CanRun(s, events[..k]) && ReadBack(Run(s, events[..k]), events[k], g)
    decreases |events|
  {
    var s1, rest := Next(s, events[0]), events[1..];
    if HasVerified(s1, g) {
      OnlyReadBackVerifies(s, events[0], g);
      k := 0;
    } else {
      NextInv(s, events[0]);
      if g < |s1.gens| && s1.gens[g].applyReceipts > 0 { ReceiptNeedsVerified(s, events[0], g); }
      k := ReceiptFrom(s1, rest, g);
      assert events[..k + 1][1..] == rest[..k];
      k := k + 1;
    }
  }

  /**
   Whatever interleaves, crashes or changes outside: a generation has an apply receipt only if at some
   moment of the run, after the adapter's call had returned, the readback of its own process found its
   target cut off.
   */
  lemma ReceiptMeansReadBack(init: State, events: seq<Event>, g: GenId) returns (k: nat)
    requires Init(init) && CanRun(init, events) && g < |Run(init, events).gens|
    requires Run(init, events).gens[g].applyReceipts > 0
    ensures k < |events| && CanRun(init, events[..k]) && ReadBack(Run(init, events[..k]), events[k], g)
  {
    InitInv(init);
    k := ReceiptFrom(init, events, g);
  }

  /** A recovery only ever writes to a target whose generation was verified by such a readback. */
  lemma RecoveryIsOfVerified(init: State, events: seq<Event>, p: Pid) returns (k: nat)
    requires Init(init) && CanRun(init, events) && At(Run(init, events), p, Recoverer)
    requires InRestore(Run(init, events).procs[p].pc)
    ensures k < |events| && CanRun(init, events[..k])
    ensures ReadBack(Run(init, events[..k]), events[k], Run(init, events).procs[p].gen)
  {
    var s := Run(init, events);
    InitInv(init);
    RunInv(init, events);
    assert ProcOk(s, p) && GenOk(s, s.procs[p].gen);
    k := ReceiptMeansReadBack(init, events, s.procs[p].gen);
  }

  /** No event of the run is a readback for generation `g` that finds its target cut off. */
  ghost predicate NeverReadBack(s: State, events: seq<Event>, g: GenId) {
    forall k :: 0 <= k < |events| && CanRun(s, events[..k]) ==> !ReadBack(Run(s, events[..k]), events[k], g)
  }

  /**
   Without such a readback a generation is never completed: it stays prepared, or is handed to manual
   recovery, from where an operator can resolve it.
   */
  lemma UnverifiedNeverCompletes(s: State, events: seq<Event>, g: GenId)
    requires Inv(s) && CanRun(s, events) && g < |s.gens|
    requires s.gens[g].status.Prepared? && !HasVerified(s, g) && NeverReadBack(s, events, g)
    ensures g < |Run(s, events).gens| && Run(s, events).gens[g].applyReceipts == 0
    ensures var status := Run(s, events).gens[g].status;
            status.Prepared? || status.RecoveryRequired? || status.RolledBack?
  {
    assert GenOk(s, g);
    Lifecycle(s, events, g);
    if Run(s, events).gens[g].applyReceipts > 0 {
      var k := ReceiptFrom(s, events, g);
    }
  }

  /** The row of a generation whose outcome is uncertain, with the UPID that was recorded, if any. */
  function Unverified(row: Generation, pc: Pc): Generation {
    row.(status := RecoveryRequired, upid := if pc.Recorded? then Some(pc.task) else row.upid)
  }

  /**
   The readback decides, exactly: when the adapter's call has returned, the generation can be verified
   if and only if the target is cut off. If it is not, the process gives up, which writes no receipt,
   keeps the UPID that was recorded, and hands the generation to manual recovery.
   */
  lemma ReadBackDecides(s: State, p: Pid, g: GenId) returns (giveUp: seq<Event>)
    requires Inv(s) && CallReturned(s, p, g)
    ensures g < |s.gens| && s.gens[g].target in s.remote
    ensures Enabled(s, Apply(p, Verify)) <==> CutOff(s.remote[s.gens[g].target])
    ensures CanRun(s, giveUp)
    ensures Run(s, giveUp)
            == s.(gens := s.gens[g := Unverified(s.gens[g], s.procs[p].pc)], procs := s.procs - {p})
  {
    assert ProcOk(s, p);
    giveUp := [];
    GivesUp(s, p, g);
    Then(s, giveUp, Apply(p, AdapterError));
    giveUp := giveUp + [Apply(p, AdapterError)];
    MarksRecovery(s, p, g);
    Then(s, giveUp, Restore(p, MarkRecovery));
    giveUp := giveUp + [Restore(p, MarkRecovery)];
  }

  lemma GivesUp(s: State, p: Pid, g: GenId)
    requires CallReturned(s, p, g) && g < |s.gens| && s.gens[g].target in s.remote
    ensures var pc := s.procs[p].pc;
            && Enabled(s, Apply(p, AdapterError))
            && Next(s, Apply(p, AdapterError))
               == Placed(s, p, g, Applier, Uncertain(if pc.Recorded? then Some(pc.task) else None))
  {
  }

  lemma MarksRecovery(s: State, p: Pid, g: GenId)
    requires CallReturned(s, p, g) && g < |s.gens| && s.gens[g].target in s.remote
    ensures var pc := s.procs[p].pc;
            var s1 := Placed(s, p, g, Applier, Uncertain(if pc.Recorded? then Some(pc.task) else None));
            && Enabled(s1, Restore(p, MarkRecovery))
            && Next(s1, Restore(p, MarkRecovery))
               == s.(gens := s.gens[g := Unverified(s.gens[g], pc)], procs := s.procs - {p})
  {
    var pc := s.procs[p].pc;
    var s1 := Placed(s, p, g, Applier, Uncertain(if pc.Recorded? then Some(pc.task) else None));
    assert s1.procs - {p} == s.procs - {p};
  }
}
