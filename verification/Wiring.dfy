/**
 One connection as it is wired: the waiter map hands on what it does not take, the login gate comes
 next, and the server with its id counters last. The gate makes a user reachable as soon as the
 spawned update has put its context, the server starts the user's counter only when the forwarded
 login is processed, and a request can come in between.
 */
module Wiring {
  import opened Results
  import opened Correlation
  import opened IdLimits
  import SyncMessage
  import LoginGate

  /** `handed`: per packet task of the gate, the packet of the waiter map it was called for. */
  datatype System = System(conn: Conn, gate: LoginGate.Gate, handed: seq<nat>)

  datatype Event = AtServer(a: Act) | Hand(k: nat, kind: LoginGate.Kind) | AtGate(e: LoginGate.Event)

  function Begun(interval: nat): (s: System)
  {
    System(NEW_CONN, LoginGate.Start(interval), [])
  }

  /** Logins the gate has handed to the server. */
  function ForwardedLogins(tasks: seq<LoginGate.Task>): (n: nat)
    ensures n > 0 ==> LoginGate.Task(LoginGate.Login, LoginGate.Forwarded) in tasks
  {
    if tasks == [] then 0
    else ForwardedLogins(tasks[1..]) + if tasks[0] == LoginGate.Task(LoginGate.Login, LoginGate.Forwarded) then 1 else 0
  }

  /** `get_context` finds this connection: some update has done its `put_local`. */
  predicate Reachable(g: LoginGate.Gate)
  {
    exists i :: 0 <= i < |g.updates| && g.updates[i].step >= 1
  }

  /** The packet is with the inner processor of the waiter map. */
  predicate Inner(c: Conn, k: nat)
  {
    k < |c.session.tasks| && c.session.tasks[k].fate == SyncMessage.Fate.Inner
  }

  predicate Enabled(s: System, e: Event)
  {
    match e
    case AtServer(a) =>
      && Able(s.conn, a)
      && (a == Login ==> s.conn.logins < ForwardedLogins(s.gate.tasks))
      && (a == Gen ==> Reachable(s.gate))
    case Hand(k, _) => Inner(s.conn, k) && k !in s.handed
    case AtGate(g) => !g.Arrive? && LoginGate.Enabled(s.gate, g)
  }

  function Apply(s: System, e: Event): (s': System)
    requires Enabled(s, e)
  {
    match e
    case AtServer(a) => s.(conn := Perform(s.conn, a))
    case Hand(k, kind) => s.(gate := LoginGate.Apply(s.gate, LoginGate.Arrive(kind)), handed := s.handed + [k])
    case AtGate(g) => s.(gate := LoginGate.Apply(s.gate, g))
  }

  /** The state after a run, from its beginning; None if some event was not enabled. */
  function Trace(s: System, es: seq<Event>): (r: Option<System>)
    decreases |es|
  {
    if es == [] then Some(s) else
    match Trace(s, es[..|es| - 1])
    case None => None
    case Some(h) => if Enabled(h, es[|es| - 1]) then Some(Apply(h, es[|es| - 1])) else None
  }

  predicate Runs(s: System, es: seq<Event>)
  {
    Trace(s, es).Some?
  }

  function Exec(s: System, es: seq<Event>): (s': System)
    requires Runs(s, es)
  {
    Trace(s, es).value
  }

  lemma NoEvents(s: System)
    ensures Runs(s, []) && Exec(s, []) == s
  {
  }

  lemma LastStep(s: System, es: seq<Event>, e: Event)
    requires Runs(s, es + [e])
    ensures Runs(s, es) && Enabled(Exec(s, es), e) && Exec(s, es + [e]) == Apply(Exec(s, es), e)
  {
    hide Enabled, Apply;
    assert (es + [e])[..|es|] == es;
  }

  lemma NextStep(s: System, es: seq<Event>, e: Event)
    requires Runs(s, es) && Enabled(Exec(s, es), e)
    ensures Runs(s, es + [e]) && Exec(s, es + [e]) == Apply(Exec(s, es), e)
  {
    hide Enabled, Apply;
    assert (es + [e])[..|es|] == es;
  }

  // ---------------------------------------------------------------- the parts of a wired run

  function ServerActs(es: seq<Event>): (acts: seq<Act>)
  {
    if es == [] then [] else
    var last := es[|es| - 1];
    ServerActs(es[..|es| - 1]) + if last.AtServer? then [last.a] else []
  }

  function GateEvents(es: seq<Event>): (gs: seq<LoginGate.Event>)
  {
    if es == [] then [] else
    var last := es[|es| - 1];
    GateEvents(es[..|es| - 1]) +
    match last
    case AtServer(_) => []
    case Hand(_, kind) => [LoginGate.Arrive(kind)]
    case AtGate(g) => [g]
  }

  lemma PartsMore(es: seq<Event>, e: Event)
    ensures ServerActs(es + [e]) == ServerActs(es) + (if e.AtServer? then [e.a] else [])
    ensures GateEvents(es + [e]) ==
            GateEvents(es) +
            match e
            case AtServer(_) => []
            case Hand(_, kind) => [LoginGate.Arrive(kind)]
            case AtGate(g) => [g]
  {
    assert (es + [e])[..|es|] == es;
  }

  lemma OneMoreAct(acts: seq<Act>, a: Act)
    requires Happens(NEW_CONN, acts) && Able(After(NEW_CONN, acts), a)
    ensures Happens(NEW_CONN, acts + [a]) && After(NEW_CONN, acts + [a]) == Perform(After(NEW_CONN, acts), a)
  {
    LeadsOne(After(NEW_CONN, acts), a);
    HappensConcat(NEW_CONN, acts, [a]);
  }

  lemma GateMore(interval: nat, gs: seq<LoginGate.Event>, g: LoginGate.Event)
    requires LoginGate.Runs(LoginGate.Start(interval), gs)
    requires LoginGate.Enabled(LoginGate.Exec(LoginGate.Start(interval), gs), g)
    ensures LoginGate.Runs(LoginGate.Start(interval), gs + [g])
    ensures LoginGate.Exec(LoginGate.Start(interval), gs + [g])
         == LoginGate.Apply(LoginGate.Exec(LoginGate.Start(interval), gs), g)
  {
    LoginGate.RunsMore(LoginGate.Start(interval), gs, g);
  }

  /** The system is where its server acts and its gate events lead. */
  ghost predicate Joins(interval: nat, es: seq<Event>, s: System)
  {
    && Happens(NEW_CONN, ServerActs(es)) && s.conn == After(NEW_CONN, ServerActs(es))
    && LoginGate.Runs(LoginGate.Start(interval), GateEvents(es))
    && s.gate == LoginGate.Exec(LoginGate.Start(interval), GateEvents(es))
  }

  lemma ArriveEnabled(g: LoginGate.Gate, kind: LoginGate.Kind)
    ensures LoginGate.Enabled(g, LoginGate.Arrive(kind))
  {
  }

  lemma JoinsStep(interval: nat, es: seq<Event>, s: System, e: Event)
    requires Joins(interval, es, s) && Enabled(s, e)
    ensures Joins(interval, es + [e], Apply(s, e))
  {
    PartsMore(es, e);
    hide Happens, After, Perform, Able, ServerActs, GateEvents;
    hide LoginGate.Runs, LoginGate.Exec, LoginGate.Enabled, LoginGate.Apply, LoginGate.Start;
    match e
    case AtServer(a) =>
      OneMoreAct(ServerActs(es), a);
      assert GateEvents(es) + [] == GateEvents(es);
    case Hand(_, kind) =>
      assert ServerActs(es) + [] == ServerActs(es);
      ArriveEnabled(s.gate, kind);
      GateMore(interval, GateEvents(es), LoginGate.Arrive(kind));
    case AtGate(g) =>
      assert ServerActs(es) + [] == ServerActs(es);
      GateMore(interval, GateEvents(es), g);
  }

  lemma JoinsAtFirst(interval: nat)
    ensures Joins(interval, [], Begun(interval)) && Runs(Begun(interval), [])
    ensures Exec(Begun(interval), []) == Begun(interval)
  {
    LoginGate.NothingYet(interval);
  }

  /** A wired run is a run of the correlation protocol and a run of the gate, so the laws of both hold. */
  lemma {:induction false} RunJoins(interval: nat, es: seq<Event>)
    requires Runs(Begun(interval), es)
    ensures Joins(interval, es, Exec(Begun(interval), es))
    decreases |es|
  {
    JoinsAtFirst(interval);
    hide Joins, Runs, Exec, Enabled, Apply;
    if es != [] {
      var before, e := es[..|es| - 1], es[|es| - 1];
      assert es == before + [e];
      LastStep(Begun(interval), before, e);
      RunJoins(interval, before);
      JoinsStep(interval, before, Exec(Begun(interval), before), e);
    }
  }
}
