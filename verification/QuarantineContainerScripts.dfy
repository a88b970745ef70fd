/** Undisturbed runs of the quarantine protocol for containers, network by network, with their exact results. */
module QuarantineContainerScripts {
  import opened Options
  import opened QuarantineProtocol
  import opened QuarantineInvariant
  import opened QuarantineScripts

  // --- taking the networks away -------------------------------------------------------------

  /** The networks of `nets` other than those of `todo`. */
  function Without(nets: Attachments, todo: set<string>): Attachments {
    map n | n in nets && n !in todo :: nets[n]
  }

  /** The effect of having taken `lost` away. */
  function Taken(effects: map<Target, Effect>, t: Target, g: GenId, lost: Attachments): map<Target, Effect> {
    if lost == map[] then effects - {t} else effects[t := Effect(g, Networks(lost))]
  }

  /** Container `t` of generation `g` has only the networks of `now` left, and `lost` is taken away. */
  function Cut(s: State, t: Target, g: GenId, now: Attachments, lost: Attachments): State {
    s.(remote := s.remote[t := Networks(now)], effects := Taken(s.effects, t, g, lost))
  }

  lemma DisconnectOne(s: State, p: Pid, g: GenId, nets: Attachments, todo: set<string>, n: string)
    requires g < |s.gens| && s.gens[g].plan == NetworkPlan(nets) && n in todo && todo <= nets.Keys
    ensures var t := s.gens[g].target;
            var s1 := Placed(Cut(s, t, g, Restricted(nets, todo), Without(nets, todo)), p, g, Applier,
                             Disconnecting(todo));
            && Enabled(s1, Apply(p, Disconnect(n)))
            && Next(s1, Apply(p, Disconnect(n)))
               == Placed(Cut(s, t, g, Restricted(nets, todo - {n}), Without(nets, todo - {n})), p, g, Applier,
                         Disconnecting(todo - {n}))
  {
    var t := s.gens[g].target;
    var s0 := Cut(s, t, g, Restricted(nets, todo), Without(nets, todo));
    assert Restricted(nets, todo) - {n} == Restricted(nets, todo - {n});
    WidenedTaken(s.effects, t, g, nets, todo, n);
    assert s0.remote[t := Networks(Restricted(nets, todo - {n}))]
           == s.remote[t := Networks(Restricted(nets, todo - {n}))];
    assert s0.procs[p := Working(g, Applier, Disconnecting(todo))][p := Working(g, Applier, Disconnecting(todo - {n}))]
           == s0.procs[p := Working(g, Applier, Disconnecting(todo - {n}))];
  }

  lemma WidenedTaken(effects: map<Target, Effect>, t: Target, g: GenId, nets: Attachments, todo: set<string>, n: string)
    requires n in todo && todo <= nets.Keys
    ensures Widened(Taken(effects, t, g, Without(nets, todo)), t, g, n, nets[n])
            == Taken(effects, t, g, Without(nets, todo - {n}))
  {
    var before, after := Without(nets, todo), Without(nets, todo - {n});
    assert after == before[n := nets[n]];
    assert n in after;
    if before == map[] { assert after == map[n := nets[n]]; }
  }

  lemma {:induction false} DisconnectAll(s: State, p: Pid, g: GenId, nets: Attachments, todo: set<string>)
    returns (events: seq<Event>)
    requires g < |s.gens| && s.gens[g].plan == NetworkPlan(nets) && todo <= nets.Keys
    ensures var t := s.gens[g].target;
            var s1 := Placed(Cut(s, t, g, Restricted(nets, todo), Without(nets, todo)), p, g, Applier,
                             Disconnecting(todo));
            CanRun(s1, events) && Run(s1, events) == Placed(Cut(s, t, g, map[], nets), p, g, Applier, Disconnecting({}))
    decreases todo
  {
    var t := s.gens[g].target;
    var s1 := Placed(Cut(s, t, g, Restricted(nets, todo), Without(nets, todo)), p, g, Applier, Disconnecting(todo));
    if todo == {} {
      events := [];
      assert Restricted(nets, {}) == map[] && Without(nets, {}) == nets;
    } else {
      var n :| n in todo;
      DisconnectOne(s, p, g, nets, todo, n);
      var rest := DisconnectAll(s, p, g, nets, todo - {n});
      events := [Apply(p, Disconnect(n))] + rest;
      assert events[1..] == rest;
    }
  }

  /** The state after a complete, undisturbed quarantine of container `t`. */
  function QuarantinedContainer(s: State, t: Target): State
    requires t in s.remote && s.remote[t].Networks?
  {
    var nets := s.remote[t].nets;
    s.(gens := s.gens + [Generation(t, NetworkPlan(nets), Completed, None, 1, 0)],
       remote := s.remote[t := Networks(map[])],
       effects := s.effects[t := Effect(|s.gens|, Networks(nets))])
  }

  /** The prepared row with the guard held, and nothing taken away yet. */
  lemma ReadState(s: State, p: Pid, t: Target)
    requires Inv(s) && Preparable(s, p, t) && s.remote[t].Networks?
    ensures var s1, nets := Begun(s, t), s.remote[t].nets;
            && Enabled(Placed(s1, p, |s.gens|, Applier, Guarded), Apply(p, ReadNetworks))
            && Next(Placed(s1, p, |s.gens|, Applier, Guarded), Apply(p, ReadNetworks))
               == Placed(Cut(s1, t, |s.gens|, Restricted(nets, nets.Keys), Without(nets, nets.Keys)), p, |s.gens|,
                         Applier, Disconnecting(nets.Keys))
  {
    var s1, nets := Begun(s, t), s.remote[t].nets;
    assert Restricted(nets, nets.Keys) == nets && Without(nets, nets.Keys) == map[];
    NoEffectUnowned(s, t);
    assert s1.remote[t := Networks(nets)] == s1.remote && s1.effects - {t} == s1.effects;
    assert s1.procs[p := Working(|s.gens|, Applier, Guarded)][p := Working(|s.gens|, Applier, Disconnecting(nets.Keys))]
           == s1.procs[p := Working(|s.gens|, Applier, Disconnecting(nets.Keys))];
  }

  /** Nothing is in force at a target that no active generation owns. */
  lemma NoEffectUnowned(s: State, t: Target)
    requires Inv(s) && NoActive(s, t)
    ensures t !in s.effects
  {
    assert t in s.effects ==> EffectOk(s, t);
  }

  /** The isolation is verified and the row completed. */
  lemma CompleteScript(s: State, p: Pid, g: GenId) returns (events: seq<Event>)
    requires g < |s.gens| && s.gens[g].target in s.remote && s.remote[s.gens[g].target] == Networks(map[])
    ensures var s1 := Placed(s, p, g, Applier, Disconnecting({}));
            var row := s.gens[g];
            && CanRun(s1, events)
            && Run(s1, events) == s.(gens := s.gens[g := row.(status := Completed, upid := None,
                                                              applyReceipts := row.applyReceipts + 1)],
                                     procs := s.procs - {p})
  {
    var s1 := Placed(s, p, g, Applier, Disconnecting({}));
    events := [];
    Then(s1, events, Apply(p, Verify));
    events := events + [Apply(p, Verify)];
    assert Run(s1, events) == Placed(s, p, g, Applier, Verified(None));
    FinishState(s, p, g, None);
    Then(s1, events, Apply(p, Finish));
    events := events + [Apply(p, Finish)];
  }

  /** An unowned container with networks can be quarantined by one undisturbed application. */
  lemma QuarantineContainerScript(s: State, p: Pid, t: Target) returns (events: seq<Event>)
    requires Inv(s) && Preparable(s, p, t) && t.Container? && s.remote[t].Networks?
    ensures CanRun(s, events) && Run(s, events) == QuarantinedContainer(s, t)
  {
    var g, nets, begun := |s.gens|, s.remote[t].nets, Begun(s, t);
    events := PrepareScript(s, p, t);
    ReadState(s, p, t);
    Then(s, events, Apply(p, ReadNetworks));
    events := events + [Apply(p, ReadNetworks)];
    var cut := DisconnectAll(begun, p, g, nets, nets.Keys);
    Append(s, events, cut);
    events := events + cut;
    var isolated := Cut(begun, t, g, map[], nets);
    var last := CompleteScript(isolated, p, g);
    Append(s, events, last);
    events := events + last;
    assert isolated.procs - {p} == s.procs;
  }

  // --- putting them back --------------------------------------------------------------------

  /** Docker attaches every saved network with its settings, and may add aliases. */
  ghost predicate Reattached(nets: Attachments, back: Attachments) {
    && back.Keys == nets.Keys
    && forall n :: n in nets ==>
         && back[n].endpoint == nets[n].endpoint
         && forall i :: 0 <= i < |nets[n].aliases| ==> nets[n].aliases[i] in back[n].aliases
  }

  lemma SurvivingTaken(effects: map<Target, Effect>, t: Target, g: GenId, nets: Attachments, back: Attachments,
                       todo: set<string>, n: string, was: Remote)
    requires n in todo && todo <= nets.Keys && Reattached(nets, back)
    ensures Surviving(Taken(effects, t, g, Restricted(nets, todo)), t, was, Networks(Without(back, todo - {n})))
            == Taken(effects, t, g, Restricted(nets, todo - {n}))
  {
    var lost, now, left := Restricted(nets, todo), Without(back, todo - {n}), Restricted(nets, todo - {n});
    forall m | m in lost ensures IsBack(lost, now, m) <==> m == n { }
    assert n in lost;
    assert NotBack(lost, now) == left;
  }

  /** One more network is attached. */
  lemma CutConnected(s: State, t: Target, g: GenId, nets: Attachments, back: Attachments, todo: set<string>, n: string)
    requires n in todo && todo <= nets.Keys && Reattached(nets, back)
    ensures var s0 := Cut(s, t, g, Without(back, todo), Restricted(nets, todo));
            var after := Networks(Without(back, todo)[n := back[n]]);
            s0.(remote := s0.remote[t := after], effects := Surviving(s0.effects, t, s0.remote[t], after))
            == Cut(s, t, g, Without(back, todo - {n}), Restricted(nets, todo - {n}))
  {
    var s0 := Cut(s, t, g, Without(back, todo), Restricted(nets, todo));
    assert Without(back, todo)[n := back[n]] == Without(back, todo - {n});
    SurvivingTaken(s.effects, t, g, nets, back, todo, n, s0.remote[t]);
    assert s0.remote[t := Networks(Without(back, todo - {n}))] == s.remote[t := Networks(Without(back, todo - {n}))];
  }

  lemma ConnectState(s: State, p: Pid, g: GenId, role: Role, now: Attachments, seen: Attachments, todo: set<string>,
                     n: string, attached: Attachment)
    requires g < |s.gens| && s.gens[g].target in s.remote && s.remote[s.gens[g].target] == Networks(now)
    requires n in todo && n !in seen
    ensures var t, e := s.gens[g].target, Restore(p, Connect(n, attached, true));
            var s1, after := Placed(s, p, g, role, Reconnecting(todo, seen, false)), Networks(now[n := attached]);
            && Enabled(s1, e) && !Abandons(s1, e)
            && Next(s1, e) == Placed(s.(remote := s.remote[t := after],
                                        effects := Surviving(s.effects, t, s.remote[t], after)),
                                     p, g, role, Reconnecting(todo - {n}, seen, false))
  {
    assert s.procs[p := Working(g, role, Reconnecting(todo, seen, false))]
             [p := Working(g, role, Reconnecting(todo - {n}, seen, false))]
           == s.procs[p := Working(g, role, Reconnecting(todo - {n}, seen, false))];
  }

  lemma ConnectOne(s: State, p: Pid, g: GenId, role: Role, nets: Attachments, back: Attachments, seen: Attachments,
                   todo: set<string>, n: string)
    requires g < |s.gens| && s.gens[g].plan == NetworkPlan(nets) && n in todo && todo <= nets.Keys
    requires Reattached(nets, back) && todo !! seen.Keys
    ensures var t, e := s.gens[g].target, Restore(p, Connect(n, back[n], true));
            var s1 := Placed(Cut(s, t, g, Without(back, todo), Restricted(nets, todo)), p, g, role,
                             Reconnecting(todo, seen, false));
            && Enabled(s1, e) && !Abandons(s1, e)
            && Next(s1, e) == Placed(Cut(s, t, g, Without(back, todo - {n}), Restricted(nets, todo - {n})), p, g, role,
                                     Reconnecting(todo - {n}, seen, false))
  {
    var t := s.gens[g].target;
    var s0 := Cut(s, t, g, Without(back, todo), Restricted(nets, todo));
    CutConnected(s, t, g, nets, back, todo, n);
    ConnectState(s0, p, g, role, Without(back, todo), seen, todo, n, back[n]);
  }

  lemma {:induction false} ConnectAll(s: State, p: Pid, g: GenId, role: Role, nets: Attachments, back: Attachments,
                                      seen: Attachments, todo: set<string>)
    returns (events: seq<Event>)
    requires g < |s.gens| && s.gens[g].plan == NetworkPlan(nets) && todo <= nets.Keys
    requires Reattached(nets, back) && todo !! seen.Keys
    ensures var t := s.gens[g].target;
            var s1 := Placed(Cut(s, t, g, Without(back, todo), Restricted(nets, todo)), p, g, role,
                             Reconnecting(todo, seen, false));
            && CanRun(s1, events) && Patient(s1, events)
            && Run(s1, events) == Placed(Cut(s, t, g, back, map[]), p, g, role, Reconnecting({}, seen, false))
    decreases todo
  {
    var t := s.gens[g].target;
    if todo == {} {
      events := [];
      assert Restricted(nets, {}) == map[] && Without(back, {}) == back;
    } else {
      var n :| n in todo;
      ConnectOne(s, p, g, role, nets, back, seen, todo, n);
      var rest := ConnectAll(s, p, g, role, nets, back, seen, todo - {n});
      events := [Restore(p, Connect(n, back[n], true))] + rest;
      assert events[1..] == rest;
    }
  }

  /** Container `t` of generation `g` is isolated, with all networks of its plan taken away. */
  ghost predicate FullyCut(s: State, g: GenId, nets: Attachments) {
    && g < |s.gens| && s.gens[g].plan == NetworkPlan(nets) && nets != map[]
    && s.gens[g].target in s.remote && s.remote[s.gens[g].target] == Networks(map[])
    && s.gens[g].target in s.effects && s.effects[s.gens[g].target] == Effect(g, Networks(nets))
  }

  lemma ReadRestoreState(s: State, p: Pid, g: GenId, role: Role, nets: Attachments, back: Attachments)
    requires FullyCut(s, g, nets) && back.Keys == nets.Keys
    ensures var s1 := Placed(s, p, g, role, Restoring);
            && Enabled(s1, Restore(p, ReadRestore)) && !Abandons(s1, Restore(p, ReadRestore))
            && Next(s1, Restore(p, ReadRestore))
               == Placed(Cut(s, s.gens[g].target, g, Without(back, nets.Keys), Restricted(nets, nets.Keys)), p, g, role,
                         Reconnecting(nets.Keys, map[], false))
  {
    var t := s.gens[g].target;
    assert Without(back, nets.Keys) == map[] && Restricted(nets, nets.Keys) == nets;
    assert s.remote[t := Networks(map[])] == s.remote && s.effects[t := Effect(g, Networks(nets))] == s.effects;
    assert s.procs[p := Working(g, role, Restoring)][p := Working(g, role, Reconnecting(nets.Keys, map[], false))]
           == s.procs[p := Working(g, role, Reconnecting(nets.Keys, map[], false))];
  }

  /** With everything attached again, the restore is confirmed and the generation resolved. */
  lemma ConfirmContainerScript(s: State, p: Pid, g: GenId, role: Role, nets: Attachments, back: Attachments)
    returns (events: seq<Event>)
    requires g < |s.gens| && s.gens[g].plan == NetworkPlan(nets) && !role.Applier? && Reattached(nets, back)
    requires s.gens[g].target in s.remote && s.remote[s.gens[g].target] == Networks(back)
    ensures var s1 := Placed(s, p, g, role, Reconnecting({}, map[], false));
            && CanRun(s1, events) && Patient(s1, events)
            && Run(s1, events) == s.(gens := ResolvedRows(s.gens, g), procs := s.procs - {p})
  {
    var s1 := Placed(s, p, g, role, Reconnecting({}, map[], false));
    events := [];
    Then(s1, events, Restore(p, CheckNetworks));
    events := events + [Restore(p, CheckNetworks)];
    assert Run(s1, events) == Placed(s, p, g, role, Restored);
    ResolveState(s, p, g, role);
    Then(s1, events, Restore(p, Resolve));
    events := events + [Restore(p, Resolve)];
  }

  /** Up to the point where the networks are attached one by one. */
  lemma OpenContainerScript(s: State, p: Pid, g: GenId, nets: Attachments, back: Attachments)
    returns (events: seq<Event>)
    requires Resolvable(s, p, g) && FullyCut(s, g, nets) && back.Keys == nets.Keys
    ensures CanRun(s, events) && Patient(s, events)
    ensures Run(s, events)
            == Placed(Cut(s, s.gens[g].target, g, Without(back, nets.Keys), Restricted(nets, nets.Keys)), p, g,
                      RoleFor(s, g), Reconnecting(nets.Keys, map[], false))
  {
    events := OpenScript(s, p, g);
    ReadRestoreState(s, p, g, RoleFor(s, g), nets, back);
    Then(s, events, Restore(p, ReadRestore));
    events := events + [Restore(p, ReadRestore)];
  }

  /**
   One undisturbed recovery or reconciliation of an isolated container attaches every network as it
   was, with whatever aliases Docker adds, and resolves the generation.
   */
  lemma RestoreContainerScript(s: State, p: Pid, g: GenId, nets: Attachments, back: Attachments)
    returns (events: seq<Event>)
    requires Resolvable(s, p, g) && FullyCut(s, g, nets) && Reattached(nets, back)
    ensures CanRun(s, events) && Patient(s, events)
    ensures var t := s.gens[g].target;
            Run(s, events) == s.(gens := ResolvedRows(s.gens, g), remote := s.remote[t := Networks(back)],
                                 effects := s.effects - {t})
  {
    var t, role := s.gens[g].target, RoleFor(s, g);
    events := OpenContainerScript(s, p, g, nets, back);
    var connected := ConnectAll(s, p, g, role, nets, back, map[], nets.Keys);
    Append(s, events, connected);
    events := events + connected;
    var restored := Cut(s, t, g, back, map[]);
    var last := ConfirmContainerScript(restored, p, g, role, nets, back);
    Append(s, events, last);
    events := events + last;
    assert restored.procs - {p} == s.procs;
  }
}
