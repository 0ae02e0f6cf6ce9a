/** What holds of every run of the wired connection of Wiring.dfy. */
module WiringLaws {
  import opened Results
  import opened Correlation
  import opened IdLimits
  import opened Wiring
  import SyncMessage
  import LoginGate
  import Relogin
  import Reuse

  // ---------------------------------------------------------------- what reaches the gate

  /** Each task of the gate was called for a packet of its own, which the waiter map let through. */
  ghost predicate HandedOn(s: System)
  {
    && |s.handed| == |s.gate.tasks|
    && (forall t :: 0 <= t < |s.handed| ==> Inner(s.conn, s.handed[t]))
    && (forall t, u :: 0 <= t < u < |s.handed| ==> s.handed[t] != s.handed[u])
  }

  lemma InnerStays(c: Conn, a: Act, k: nat)
    requires Able(c, a) && Inner(c, k) && SyncMessage.Intact(c.session)
    ensures Inner(Perform(c, a), k)
  {
    match a
    case Sync(e) => InnerStaysInSession(c.session, e, k);
    case _ =>
  }

  lemma InnerStaysInSession(s: SyncMessage.Session, e: SyncMessage.Event, k: nat)
    requires SyncMessage.Intact(s) && SyncMessage.Enabled(s, e)
    requires k < |s.tasks| && s.tasks[k].fate == SyncMessage.Fate.Inner
    ensures k < |SyncMessage.Apply(s, e).tasks| && SyncMessage.Apply(s, e).tasks[k].fate == SyncMessage.Fate.Inner
  {
    if e.Expire? || e.Unregister? {
      assert SyncMessage.WaiterOk(s, e.w);
    }
  }

  lemma GateTasks(g: LoginGate.Gate, e: LoginGate.Event)
    requires LoginGate.Enabled(g, e)
    ensures |LoginGate.Apply(g, e).tasks| == |g.tasks| + if e.Arrive? then 1 else 0
  {
  }

  lemma HandedOnStep(s: System, e: Event)
    requires HandedOn(s) && Enabled(s, e) && SyncMessage.Intact(s.conn.session)
    ensures HandedOn(Apply(s, e))
  {
    match e
    case AtServer(a) =>
      forall t | 0 <= t < |s.handed|
        ensures Inner(Perform(s.conn, a), s.handed[t])
      {
        InnerStays(s.conn, a, s.handed[t]);
      }
      hide Perform, Able;
    case Hand(_, kind) => GateTasks(s.gate, LoginGate.Arrive(kind));
    case AtGate(g) => GateTasks(s.gate, g);
  }

  lemma {:induction false} RunHandsOn(interval: nat, es: seq<Event>)
    requires Runs(Begun(interval), es)
    ensures HandedOn(Exec(Begun(interval), es)) && SyncMessage.Intact(Exec(Begun(interval), es).conn.session)
    decreases |es|
  {
    JoinsAtFirst(interval);
    RunJoins(interval, es);
    SessionIntact(ServerActs(es));
    assert HandedOn(Begun(interval));
    hide Joins, Runs, Exec, Enabled, Apply, HandedOn, SyncMessage.Intact;
    if es != [] {
      var before, e := es[..|es| - 1], es[|es| - 1];
      assert es == before + [e];
      LastStep(Begun(interval), before, e);
      RunHandsOn(interval, before);
      HandedOnStep(Exec(Begun(interval), before), e);
    }
  }

  lemma SessionIntact(acts: seq<Act>)
    requires Happens(NEW_CONN, acts)
    ensures SyncMessage.Intact(After(NEW_CONN, acts).session)
  {
    Relogin.RunTied(acts);
    Reuse.RunIntact(Relogin.Steps(acts));
  }

  /**
   Under the bound of AcksReachTheirCaller the gate, and the server behind it, never see the client's
   answer to a request, and see no packet twice.
   */
  lemma GateSeesNoReply(interval: nat, es: seq<Event>, t: nat)
    requires Runs(Begun(interval), es) && Within(Exec(Begun(interval), es).conn)
    requires t < |Exec(Begun(interval), es).gate.tasks|
    ensures var s := Exec(Begun(interval), es);
            && |s.handed| == |s.gate.tasks|
            && s.handed[t] < |s.conn.origins|
            && (forall u :: 0 <= u < |s.handed| && u != t ==> s.handed[u] != s.handed[t])
            && match s.conn.origins[s.handed[t]]
               case FromClient => true
               case AckOf(j) =>
                 j < |s.conn.down| && s.conn.down[j] < |s.conn.grants| && s.conn.grants[s.conn.down[j]].use == Oneway
  {
    RunJoins(interval, es);
    RunHandsOn(interval, es);
    Relogin.RunTied(ServerActs(es));
    var s := Exec(Begun(interval), es);
    hide Runs, Exec, Happens, After, SyncMessage.Intact;
    var k := s.handed[t];
    assert Inner(s.conn, k);
    assert Relogin.AckTied(s.conn, k);
    if s.conn.origins[k].AckOf? {
      var j := s.conn.origins[k].j;
      assert Relogin.FrameTied(s.conn, j);
      if s.conn.grants[s.conn.down[j]].use.ForWaiter? {
        AcksReachTheirCaller(ServerActs(es), k);
      }
    }
  }

  // ---------------------------------------------------------------- logins and requests

  /** Some update has put this connection's context. */
  ghost predicate PutBy(es: seq<Event>)
  {
    exists n :: 0 <= n < |es| && es[n].AtGate? && es[n].e.PutLocal?
  }

  lemma PutByMore(es: seq<Event>, e: Event)
    ensures PutBy(es + [e]) <==> PutBy(es) || (e.AtGate? && e.e.PutLocal?)
  {
    var more := es + [e];
    assert more[|es|] == e;
    if n :| 0 <= n < |es| && es[n].AtGate? && es[n].e.PutLocal? {
      assert more[n] == es[n];
    }
  }

  lemma ReachableStep(g: LoginGate.Gate, e: LoginGate.Event)
    requires LoginGate.Enabled(g, e)
    ensures Reachable(LoginGate.Apply(g, e)) <==> Reachable(g) || e.PutLocal?
  {
    var g' := LoginGate.Apply(g, e);
    if i :| 0 <= i < |g.updates| && g.updates[i].step >= 1 {
      assert g'.updates[i].step >= 1;
    }
    if e.PutLocal? {
      assert g'.updates[e.i].step == 1;
    }
    if i :| 0 <= i < |g'.updates| && g'.updates[i].step >= 1 && !e.PutLocal? {
      assert g.updates[i].step >= 1;
    }
  }

  /** The connection can be found for a request exactly once some update has put its context. */
  lemma {:induction false} ReachableIff(interval: nat, es: seq<Event>)
    requires Runs(Begun(interval), es)
    ensures Reachable(Exec(Begun(interval), es).gate) <==> PutBy(es)
    decreases |es|
  {
    JoinsAtFirst(interval);
    if es != [] {
      hide Runs, Exec, PutBy, Reachable, LoginGate.Apply, LoginGate.Enabled, Perform, Able;
      var before, e := es[..|es| - 1], es[|es| - 1];
      assert es == before + [e];
      LastStep(Begun(interval), before, e);
      ReachableIff(interval, before);
      PutByMore(before, e);
      var s := Exec(Begun(interval), before);
      match e
      case AtServer(_) =>
      case Hand(_, kind) =>
        ArriveEnabled(s.gate, kind);
        ReachableStep(s.gate, LoginGate.Arrive(kind));
      case AtGate(g) => ReachableStep(s.gate, g);
    }
  }

  /**
   When a request blocks the counter lock, after every run that has not blocked it: exactly when the
   context was put and the server has not processed a login yet.
   */
  lemma RequestBlocksIff(interval: nat, es: seq<Event>)
    requires Runs(Begun(interval), es) && !Exec(Begun(interval), es).conn.stuck
    ensures var s := Exec(Begun(interval), es);
            Enabled(s, AtServer(Gen)) && Apply(s, AtServer(Gen)).conn.stuck
            <==> PutBy(es) && Login !in ServerActs(es)
  {
    var acts := ServerActs(es);
    ReachableIff(interval, es);
    RunJoins(interval, es);
    StuckBy(acts, |acts|);
    assert acts[..|acts|] == acts;
    hide Runs, Exec, Happens, After, PutBy, Reachable;
  }

  /** No counter is started and no id handed out before some login passed authentication and was stored. */
  lemma ServedAfterLogin(interval: nat, es: seq<Event>, a: Act)
    requires Runs(Begun(interval), es + [AtServer(a)]) && (a == Login || a == Gen)
    ensures exists u :: LoginGate.LoggedIn(GateEvents(es), u)
  {
    LastStep(Begun(interval), es, AtServer(a));
    RunJoins(interval, es);
    LoginGate.RunExplained(interval, GateEvents(es));
    var g, past := Exec(Begun(interval), es).gate, GateEvents(es);
    if a == Login {
      var t :| 0 <= t < |g.tasks| && g.tasks[t] == LoginGate.Task(LoginGate.Login, LoginGate.Forwarded);
      assert LoginGate.TaskOk(g, past, t);
      assert LoginGate.LoggedIn(past, g.user.value);
    } else {
      var i :| 0 <= i < |g.updates| && g.updates[i].step >= 1;
      assert LoginGate.UpdateOk(g, past, i);
      assert LoginGate.LoggedIn(past, g.updates[i].user);
    }
  }

  /** The client's first packet is let through by the waiter map and handed to the gate as a login. */
  lemma LoginComesIn(interval: nat) returns (s: System)
    ensures var es := [AtServer(ClientSend)] + [AtServer(Sync(SyncMessage.Take(0)))] + [Hand(0, LoginGate.Login)];
            Runs(Begun(interval), es) && Exec(Begun(interval), es) == s
    ensures s.gate == LoginGate.Start(interval).(tasks := [LoginGate.Task(LoginGate.Login, LoginGate.Fresh)])
    ensures s.conn.counter == None && s.conn.grants == [] && !s.conn.stuck && s.conn.logins == 0
  {
    var s0 := Begun(interval);
    var e1, e2, e3 := AtServer(ClientSend), AtServer(Sync(SyncMessage.Take(0))), Hand(0, LoginGate.Login);
    var s1 := Apply(s0, e1);
    assert s1.conn.session.tasks == [SyncMessage.Task(1, SyncMessage.InFlight, 0)];
    var s2 := Apply(s1, e2);
    assert s2.conn.session.tasks[0].fate == SyncMessage.Fate.Inner;
    s := Apply(s2, e3);
    NoEvents(s0);
    hide Runs, Exec;
    NextStep(s0, [], e1);
    assert [] + [e1] == [e1];
    NextStep(s0, [e1], e2);
    NextStep(s0, [e1] + [e2], e3);
  }

  /** The login passes authentication and is stored; its update is spawned. */
  lemma LoginStored(interval: nat, u: LoginGate.UserId) returns (s: System)
    ensures var es := [AtServer(ClientSend)] + [AtServer(Sync(SyncMessage.Take(0)))] + [Hand(0, LoginGate.Login)]
                      + [AtGate(LoginGate.Auth(0, Some(u)))] + [AtGate(LoginGate.PutUser(0))];
            Runs(Begun(interval), es) && Exec(Begun(interval), es) == s
    ensures s.gate.tasks == [LoginGate.Task(LoginGate.Login, LoginGate.Ready)]
    ensures s.gate.updates == [LoginGate.Update(u, 0)]
    ensures s.conn.counter == None && s.conn.grants == [] && !s.conn.stuck && s.conn.logins == 0
  {
    var es := [AtServer(ClientSend)] + [AtServer(Sync(SyncMessage.Take(0)))] + [Hand(0, LoginGate.Login)];
    var b := LoginComesIn(interval);
    var e, f := AtGate(LoginGate.Auth(0, Some(u))), AtGate(LoginGate.PutUser(0));
    s := Apply(Apply(b, e), f);
    hide Runs, Exec;
    NextStep(Begun(interval), es, e);
    NextStep(Begun(interval), es + [e], f);
  }

  lemma PutThenBlocks(b: System, u: LoginGate.UserId)
    requires b.gate.tasks == [LoginGate.Task(LoginGate.Login, LoginGate.Ready)]
    requires b.gate.updates == [LoginGate.Update(u, 0)]
    requires b.conn.counter == None && !b.conn.stuck && b.conn.logins == 0
    ensures var e := AtGate(LoginGate.PutLocal(0));
            && Enabled(b, e) && Enabled(Apply(b, e), AtServer(Gen))
            && var s := Apply(Apply(b, e), AtServer(Gen));
            && s.conn.stuck && s.conn.logins == 0
            && LoginGate.Enabled(s.gate, LoginGate.Forward(0)) && !Able(s.conn, Login)
  {
    assert Apply(b, AtGate(LoginGate.PutLocal(0))).gate.updates[0].step == 1;
  }

  /**
   A single valid login is enough: its update runs ahead of its own task, a request is made for the
   user, and blocks the lock that the login itself needs.
   */
  lemma RequestOvertakesLogin(interval: nat, u: LoginGate.UserId)
    ensures var es := [AtServer(ClientSend)] + [AtServer(Sync(SyncMessage.Take(0)))] + [Hand(0, LoginGate.Login)]
                      + [AtGate(LoginGate.Auth(0, Some(u)))] + [AtGate(LoginGate.PutUser(0))]
                      + [AtGate(LoginGate.PutLocal(0))] + [AtServer(Gen)];
            && Runs(Begun(interval), es)
            && var s := Exec(Begun(interval), es);
            && s.conn.stuck && s.conn.logins == 0
            && LoginGate.Enabled(s.gate, LoginGate.Forward(0)) && !Able(s.conn, Login)
  {
    var es := [AtServer(ClientSend)] + [AtServer(Sync(SyncMessage.Take(0)))] + [Hand(0, LoginGate.Login)]
              + [AtGate(LoginGate.Auth(0, Some(u)))] + [AtGate(LoginGate.PutUser(0))];
    hide Runs, Exec, Enabled, Apply, Perform, Able, LoginGate.Enabled, LoginGate.Apply;
    var b := LoginStored(interval, u);
    var e := AtGate(LoginGate.PutLocal(0));
    PutThenBlocks(b, u);
    NextStep(Begun(interval), es, e);
    NextStep(Begun(interval), es + [e], AtServer(Gen));
  }

  /** In the other order all is well: the login is processed, its update runs, and a request gets the first id. */
  lemma LoginServed(interval: nat, u: LoginGate.UserId)
    ensures var es := [AtServer(ClientSend)] + [AtServer(Sync(SyncMessage.Take(0)))] + [Hand(0, LoginGate.Login)]
                      + [AtGate(LoginGate.Auth(0, Some(u)))] + [AtGate(LoginGate.PutUser(0))]
                      + [AtGate(LoginGate.Forward(0))] + [AtServer(Login)]
                      + [AtGate(LoginGate.PutLocal(0))] + [AtServer(Gen)];
            && Runs(Begun(interval), es)
            && var s := Exec(Begun(interval), es);
            !s.conn.stuck && s.conn.logins == 1 && s.conn.grants == [Grant(MAX, Unused)]
  {
    var es := [AtServer(ClientSend)] + [AtServer(Sync(SyncMessage.Take(0)))] + [Hand(0, LoginGate.Login)]
              + [AtGate(LoginGate.Auth(0, Some(u)))] + [AtGate(LoginGate.PutUser(0))];
    hide Runs, Exec;
    var b := LoginStored(interval, u);
    var e, f := AtGate(LoginGate.Forward(0)), AtGate(LoginGate.PutLocal(0));
    var c := Apply(b, e);
    assert c.gate.tasks == [LoginGate.Task(LoginGate.Login, LoginGate.Forwarded)];
    assert ForwardedLogins(c.gate.tasks) == 1;
    var d := Apply(Apply(c, AtServer(Login)), f);
    assert d.gate.updates[0].step == 1;
    NextStep(Begun(interval), es, e);
    NextStep(Begun(interval), es + [e], AtServer(Login));
    NextStep(Begun(interval), es + [e] + [AtServer(Login)], f);
    NextStep(Begun(interval), es + [e] + [AtServer(Login)] + [f], AtServer(Gen));
  }
}
