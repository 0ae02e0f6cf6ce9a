/**
 The authentication gate in front of the inner processor. Each packet has its own task and every
 await is a point where others run, so a run is any interleaving of the tasks' steps and of the
 detached state updates they spawn.
 */
module LoginGate {
  import opened Results

  type UserId = nat

  datatype Kind = Login | Logout | Ordinary

  /**
   Where a packet's task is. Authed: auth succeeded, USER_ID not yet stored. Known: USER_ID was read,
   STATE_LAST_SYNC not yet. Ready: about to call the inner processor. Turned: returned without calling it.
   */
  datatype Stage = Fresh | Authed(user: UserId) | Known(user: UserId) | Ready | Forwarded | Turned

  datatype Task = Task(kind: Kind, stage: Stage)

  /** A spawned `update_state`; step counts its awaits done: put_local, put, stamp. */
  datatype Update = Update(user: UserId, step: nat)

  datatype Gate = Gate(
    interval: nat,
    user: Option<UserId>,       // USER_ID
    lastSync: Option<nat>,      // STATE_LAST_SYNC
    tasks: seq<Task>,
    updates: seq<Update>,
    closing: bool)              // a shutdown signal was sent

  datatype Event =
    | Arrive(kind: Kind)
    | Auth(t: nat, result: Option<UserId>)
    | PutUser(t: nat)
    | ReadUser(t: nat)
    | ReadSync(t: nat, now: nat)
    | CloseOnLogout(t: nat)
    | Forward(t: nat)
    | PutLocal(i: nat)
    | PutState(i: nat)
    | Stamp(i: nat, now: nat)

  function Start(interval: nat): (g: Gate)
  {
    Gate(interval, None, None, [], [], false)
  }

  predicate At(g: Gate, t: nat, kind: Kind, stage: Stage)
  {
    t < |g.tasks| && g.tasks[t] == Task(kind, stage)
  }

  predicate Enabled(g: Gate, e: Event)
  {
    match e
    case Arrive(_) => true
    case Auth(t, _) => At(g, t, Login, Fresh)
    case PutUser(t) => t < |g.tasks| && g.tasks[t].kind == Login && g.tasks[t].stage.Authed?
    case ReadUser(t) => At(g, t, Ordinary, Fresh)
    case ReadSync(t, _) => t < |g.tasks| && g.tasks[t].kind == Ordinary && g.tasks[t].stage.Known?
    case CloseOnLogout(t) => At(g, t, Logout, Fresh)
    case Forward(t) => t < |g.tasks| && g.tasks[t].stage == Ready
    case PutLocal(i) => i < |g.updates| && g.updates[i].step == 0
    case PutState(i) => i < |g.updates| && g.updates[i].step == 1
    case Stamp(i, _) => i < |g.updates| && g.updates[i].step == 2
  }

  function Move(g: Gate, t: nat, stage: Stage): (g': Gate)
    requires t < |g.tasks|
  {
    g.(tasks := g.tasks[t := g.tasks[t].(stage := stage)])
  }

  function Advance(g: Gate, i: nat): (g': Gate)
    requires i < |g.updates|
  {
    g.(updates := g.updates[i := g.updates[i].(step := g.updates[i].step + 1)])
  }

  function Spawn(g: Gate, user: UserId): (g': Gate)
  {
    g.(updates := g.updates + [Update(user, 0)])
  }

  function Apply(g: Gate, e: Event): (g': Gate)
    requires Enabled(g, e)
  {
    match e
    case Arrive(kind) => g.(tasks := g.tasks + [Task(kind, Fresh)])
    case Auth(t, result) => Move(g, t, if result.Some? then Authed(result.value) else Turned)
    case PutUser(t) =>
      var u := g.tasks[t].stage.user;
      Spawn(Move(g, t, Ready), u).(user := Some(u))
    case ReadUser(t) =>
      (match g.user
       case None => Move(g, t, Turned).(closing := true)
       case Some(u) => Move(g, t, Known(u)))
    case ReadSync(t, now) =>
      var due := g.lastSync.None? || now - g.lastSync.value > g.interval;
      if due then Spawn(Move(g, t, Ready), g.tasks[t].stage.user) else Move(g, t, Ready)
    case CloseOnLogout(t) => Move(g, t, Turned).(closing := true)
    case Forward(t) => Move(g, t, Forwarded)
    case PutLocal(i) => Advance(g, i)
    case PutState(i) => Advance(g, i)
    case Stamp(i, now) => Advance(g, i).(lastSync := Some(now))
  }

  /** The state after a run, from its beginning; None if some event was not enabled. */
  function Trace(g: Gate, es: seq<Event>): (r: Option<Gate>)
    decreases |es|
  {
    if es == [] then Some(g) else
    var last := es[|es| - 1];
    match Trace(g, es[..|es| - 1])
    case None => None
    case Some(h) => if Enabled(h, last) then Some(Apply(h, last)) else None
  }

  predicate Runs(g: Gate, es: seq<Event>)
  {
    Trace(g, es).Some?
  }

  function Exec(g: Gate, es: seq<Event>): (g': Gate)
    requires Runs(g, es)
  {
    Trace(g, es).value
  }

  // ---------------------------------------------------------------- what has happened so far

  /** Some login's auth returned u, and later that login stored u. */
  ghost predicate LoggedIn(past: seq<Event>, u: UserId)
  {
    exists i, j :: 0 <= i < j < |past| && StoredAfterAuth(past, i, j, u)
  }

  ghost predicate StoredAfterAuth(past: seq<Event>, i: nat, j: nat, u: UserId)
    requires i < j < |past|
  {
    past[i].Auth? && past[i].result == Some(u) && past[j] == PutUser(past[i].t)
  }

  ghost predicate AuthedIn(past: seq<Event>, t: nat, u: UserId)
  {
    exists i :: 0 <= i < |past| && past[i] == Auth(t, Some(u))
  }

  ghost predicate TaskOk(g: Gate, past: seq<Event>, t: nat)
    requires t < |g.tasks|
  {
    match g.tasks[t].stage
    case Fresh => true
    case Turned => true
    case Authed(u) => g.tasks[t].kind == Login && AuthedIn(past, t, u)
    case Known(u) => g.tasks[t].kind == Ordinary && g.user.Some? && LoggedIn(past, u)
    case Ready => g.tasks[t].kind != Logout && g.user.Some?
    case Forwarded => g.tasks[t].kind != Logout && g.user.Some?
  }

  ghost predicate UpdateOk(g: Gate, past: seq<Event>, i: nat)
    requires i < |g.updates|
  {
    && g.updates[i].step <= 3
    && LoggedIn(past, g.updates[i].user)
    && (g.updates[i].step >= 1 ==> exists a :: 0 <= a < |past| && past[a] == PutLocal(i))
    && (g.updates[i].step >= 2 ==> InOrder(past, i))
  }

  ghost predicate InOrder(past: seq<Event>, i: nat)
  {
    exists a, b :: 0 <= a < b < |past| && past[a] == PutLocal(i) && past[b] == PutState(i)
  }

  ghost predicate Explained(g: Gate, past: seq<Event>)
  {
    && (g.user.Some? ==> LoggedIn(past, g.user.value))
    && (forall t :: 0 <= t < |g.tasks| ==> TaskOk(g, past, t))
    && (forall i :: 0 <= i < |g.updates| ==> UpdateOk(g, past, i))
  }

  /** Longer histories explain at least as much. */
  lemma HistoryGrows(past: seq<Event>, e: Event)
    ensures forall u :: LoggedIn(past, u) ==> LoggedIn(past + [e], u)
    ensures forall t, u :: AuthedIn(past, t, u) ==> AuthedIn(past + [e], t, u)
    ensures forall i :: InOrder(past, i) ==> InOrder(past + [e], i)
  {
    var more := past + [e];
    forall u | LoggedIn(past, u)
      ensures LoggedIn(more, u)
    {
      var i, j :| 0 <= i < j < |past| && StoredAfterAuth(past, i, j, u);
      assert StoredAfterAuth(more, i, j, u);
    }
    forall t, u | AuthedIn(past, t, u)
      ensures AuthedIn(more, t, u)
    {
      var i :| 0 <= i < |past| && past[i] == Auth(t, Some(u));
      assert more[i] == Auth(t, Some(u));
    }
    forall i | InOrder(past, i)
      ensures InOrder(more, i)
    {
      var a, b :| 0 <= a < b < |past| && past[a] == PutLocal(i) && past[b] == PutState(i);
      assert more[a] == PutLocal(i) && more[b] == PutState(i);
    }
  }

  lemma PutUserLogsIn(g: Gate, past: seq<Event>, t: nat)
    requires Explained(g, past) && Enabled(g, PutUser(t))
    ensures LoggedIn(past + [PutUser(t)], g.tasks[t].stage.user)
  {
    var more := past + [PutUser(t)];
    var u := g.tasks[t].stage.user;
    assert TaskOk(g, past, t);
    var i :| 0 <= i < |past| && past[i] == Auth(t, Some(u));
    assert StoredAfterAuth(more, i, |past|, u);
  }

  lemma TasksStayExplained(g: Gate, past: seq<Event>, e: Event, t: nat)
    requires Explained(g, past) && Enabled(g, e) && t < |Apply(g, e).tasks|
    ensures TaskOk(Apply(g, e), past + [e], t)
  {
    HistoryGrows(past, e);
    if e.Auth? && e.result.Some? {
      assert (past + [e])[|past|] == e;
      assert AuthedIn(past + [e], e.t, e.result.value);
    }
    hide LoggedIn, AuthedIn, InOrder;
    if t < |g.tasks| {
      assert TaskOk(g, past, t);
    }
  }

  lemma UpdatesStayExplained(g: Gate, past: seq<Event>, e: Event, i: nat)
    requires Explained(g, past) && Enabled(g, e) && i < |Apply(g, e).updates|
    ensures UpdateOk(Apply(g, e), past + [e], i)
  {
    HistoryGrows(past, e);
    var more := past + [e];
    assert more[|past|] == e;
    if e.PutUser? {
      PutUserLogsIn(g, past, e.t);
    }
    if e.ReadSync? {
      assert TaskOk(g, past, e.t);
    }
    if i < |g.updates| {
      assert UpdateOk(g, past, i);
      if g.updates[i].step >= 1 {
        var a :| 0 <= a < |past| && past[a] == PutLocal(i);
        assert more[a] == PutLocal(i);
        if e == PutState(i) {
          assert InOrder(more, i);
        }
      }
    }
  }

  lemma StepExplained(g: Gate, past: seq<Event>, e: Event)
    requires Explained(g, past) && Enabled(g, e)
    ensures Explained(Apply(g, e), past + [e])
  {
    HistoryGrows(past, e);
    if e.PutUser? {
      PutUserLogsIn(g, past, e.t);
    }
    var g' := Apply(g, e);
    forall t | 0 <= t < |g'.tasks|
      ensures TaskOk(g', past + [e], t)
    {
      TasksStayExplained(g, past, e, t);
    }
    forall i | 0 <= i < |g'.updates|
      ensures UpdateOk(g', past + [e], i)
    {
      UpdatesStayExplained(g, past, e, i);
    }
  }

  lemma {:induction false} RunExplained(interval: nat, es: seq<Event>)
    requires Runs(Start(interval), es)
    ensures Explained(Exec(Start(interval), es), es)
    decreases |es|
  {
    if es != [] {
      hide Explained, Enabled, Apply;
      var before, e := es[..|es| - 1], es[|es| - 1];
      RunExplained(interval, before);
      assert es == before + [e];
      StepExplained(Exec(Start(interval), before), before, e);
    } else {
      assert Exec(Start(interval), es) == Start(interval);
    }
  }

  lemma {:induction false} RunsPrefix(g: Gate, es: seq<Event>, n: nat)
    requires Runs(g, es) && n <= |es|
    ensures Runs(g, es[..n])
    decreases |es| - n
  {
    if n == |es| {
      assert es[..n] == es;
    } else {
      RunsPrefix(g, es, n + 1);
      assert es[..n + 1][..n] == es[..n];
    }
  }

  // ---------------------------------------------------------------- the theorems

  /**
   The gate, over whole runs: whenever a packet is handed to the inner processor, a login that passed
   authentication was stored before, and the packet is not a logout.
   */
  lemma OnlyAfterLogin(interval: nat, es: seq<Event>, n: nat)
    requires Runs(Start(interval), es) && n < |es| && es[n].Forward?
    ensures exists u :: LoggedIn(es[..n], u)
    ensures Runs(Start(interval), es[..n])
    ensures var g := Exec(Start(interval), es[..n]); es[n].t < |g.tasks| && g.tasks[es[n].t].kind != Logout
  {
    RunsPrefix(Start(interval), es, n);
    RunsPrefix(Start(interval), es, n + 1);
    assert es[..n + 1][..n] == es[..n];
    RunExplained(interval, es[..n]);
    var g := Exec(Start(interval), es[..n]);
    assert Enabled(g, es[n]);
    assert TaskOk(g, es[..n], es[n].t);
    assert LoggedIn(es[..n], g.user.value);
  }

  /** A login's user has been stored. */
  ghost predicate Stored(past: seq<Event>)
  {
    exists j :: 0 <= j < |past| && past[j].PutUser?
  }

  lemma StoredMore(past: seq<Event>, e: Event)
    ensures Stored(past + [e]) <==> Stored(past) || e.PutUser?
  {
    var more := past + [e];
    assert more[|past|] == e;
    if Stored(past) {
      var j :| 0 <= j < |past| && past[j].PutUser?;
      assert more[j] == past[j];
    }
  }

  /** The gate is open after exactly the runs in which some login was stored. */
  lemma {:induction false} OpenIff(interval: nat, es: seq<Event>)
    requires Runs(Start(interval), es)
    ensures Exec(Start(interval), es).user.Some? <==> Stored(es)
    decreases |es|
  {
    if es != [] {
      var before, e := es[..|es| - 1], es[|es| - 1];
      OpenIff(interval, before);
      assert es == before + [e];
      StoredMore(before, e);
      hide Stored;
    }
  }

  lemma {:induction false} StepAt(g: Gate, es: seq<Event>, n: nat)
    requires Runs(g, es) && n < |es|
    ensures Runs(g, es[..n]) && Runs(g, es[..n + 1])
    ensures Enabled(Exec(g, es[..n]), es[n])
    ensures Exec(g, es[..n + 1]) == Apply(Exec(g, es[..n]), es[n])
  {
    hide Apply, Enabled;
    RunsPrefix(g, es, n);
    RunsPrefix(g, es, n + 1);
    assert es[..n + 1][..n] == es[..n];
  }

  /** A packet's journey is over: handed to the inner processor, or turned away. */
  predicate Finished(g: Gate, t: nat)
  {
    t < |g.tasks| && g.tasks[t].stage in {Forwarded, Turned}
  }

  lemma StaysOpenStep(g: Gate, e: Event, t: nat)
    requires Enabled(g, e)
    ensures g.user.Some? ==> Apply(g, e).user.Some?
    ensures Finished(g, t) ==> Finished(Apply(g, e), t) && Apply(g, e).tasks[t] == g.tasks[t]
  {
  }

  /** Once open the gate never closes, and a packet handed over or turned away stays so. */
  lemma {:induction false} StaysOpen(g: Gate, es: seq<Event>, m: nat, n: nat, t: nat)
    requires Runs(g, es) && m <= n <= |es|
    ensures Runs(g, es[..m]) && Runs(g, es[..n])
    ensures var a, b := Exec(g, es[..m]), Exec(g, es[..n]);
            && (a.user.Some? ==> b.user.Some?)
            && (Finished(a, t) ==> Finished(b, t) && b.tasks[t] == a.tasks[t])
    decreases n
  {
    hide Enabled, Apply, Exec, Runs;
    RunsPrefix(g, es, m);
    if m < n {
      StaysOpen(g, es, m, n - 1, t);
      StepAt(g, es, n - 1);
      StaysOpenStep(Exec(g, es[..n - 1]), es[n - 1], t);
    }
  }

  /**
   Which lookups turn their packet away: for every run that ends in one, exactly when no login was
   stored before. The order on the wire plays no part.
   */
  lemma TurnedIff(interval: nat, es: seq<Event>, n: nat)
    requires Runs(Start(interval), es) && n < |es| && es[n].ReadUser?
    ensures Runs(Start(interval), es[..n + 1])
    ensures var g := Exec(Start(interval), es[..n + 1]);
            && es[n].t < |g.tasks|
            && (g.tasks[es[n].t].stage == Turned <==> forall j :: 0 <= j < n ==> !es[j].PutUser?)
  {
    StepAt(Start(interval), es, n);
    OpenIff(interval, es[..n]);
    assert Stored(es[..n]) <==> exists j :: 0 <= j < n && es[j].PutUser? by {
      assert forall j :: 0 <= j < n ==> es[..n][j] == es[j];
    }
  }

  /** Task t was looked up before any login was stored. */
  ghost predicate TooEarly(past: seq<Event>, t: nat)
  {
    exists n :: 0 <= n < |past| && EarlyAt(past, n) && past[n] == ReadUser(t)
  }

  ghost predicate EarlyAt(past: seq<Event>, n: nat)
    requires n < |past|
  {
    past[n].ReadUser? && !Stored(past[..n])
  }

  lemma TooEarlyMore(past: seq<Event>, e: Event, t: nat)
    ensures TooEarly(past + [e], t) <==> TooEarly(past, t) || (e == ReadUser(t) && !Stored(past))
  {
    var more := past + [e];
    assert more[..|past|] == past;
    forall n | 0 <= n < |past|
      ensures EarlyAt(more, n) <==> EarlyAt(past, n)
    {
      assert more[..n] == past[..n];
    }
    if TooEarly(past, t) {
      var n :| 0 <= n < |past| && EarlyAt(past, n) && past[n] == ReadUser(t);
      assert EarlyAt(more, n) && more[n] == ReadUser(t);
    }
    if e == ReadUser(t) && !Stored(past) {
      assert EarlyAt(more, |past|);
    }
  }

  lemma NothingYet(interval: nat)
    ensures Runs(Start(interval), []) && Exec(Start(interval), []) == Start(interval)
    ensures Start(interval).tasks == [] && forall t :: !TooEarly([], t)
  {
  }

  /** What the events of a run say of a login: refused, passed, stored. */
  ghost predicate LoginTells(stage: Stage, past: seq<Event>, t: nat)
  {
    && (stage == Fresh <==> forall r :: Auth(t, r) !in past)
    && (stage == Turned <==> Auth(t, None) in past)
    && (stage.Authed? || stage == Ready || stage == Forwarded <==> exists u :: Auth(t, Some(u)) in past)
    && (stage == Ready || stage == Forwarded <==> PutUser(t) in past)
  }

  ghost predicate LogoutTells(stage: Stage, past: seq<Event>, t: nat)
  {
    && (stage == Turned <==> CloseOnLogout(t) in past)
    && (stage == Fresh <==> CloseOnLogout(t) !in past)
  }

  ghost predicate OrdinaryTells(stage: Stage, past: seq<Event>, t: nat)
  {
    && (stage == Fresh <==> ReadUser(t) !in past)
    && (stage == Ready || stage == Forwarded <==> exists now :: ReadSync(t, now) in past)
  }

  /** What the events of a run say of packet t. */
  ghost predicate StageTells(g: Gate, past: seq<Event>, t: nat)
    requires t < |g.tasks|
  {
    var stage := g.tasks[t].stage;
    && (stage == Forwarded <==> Forward(t) in past)
    && match g.tasks[t].kind
       case Login => LoginTells(stage, past, t)
       case Logout => LogoutTells(stage, past, t)
       case Ordinary => OrdinaryTells(stage, past, t)
  }

  /** Nothing has happened to a packet that is not there yet. */
  ghost predicate NoStage(past: seq<Event>, t: nat)
  {
    && Forward(t) !in past && PutUser(t) !in past && CloseOnLogout(t) !in past && ReadUser(t) !in past
    && (forall r :: Auth(t, r) !in past)
    && (forall now :: ReadSync(t, now) !in past)
  }

  lemma LoginStep(g: Gate, past: seq<Event>, e: Event, t: nat)
    requires Enabled(g, e) && t < |g.tasks| && g.tasks[t].kind == Login && LoginTells(g.tasks[t].stage, past, t)
    ensures LoginTells(Apply(g, e).tasks[t].stage, past + [e], t)
  {
    var more := past + [e];
    assert forall f :: f in more <==> f in past || f == e;
  }

  lemma OrdinaryStep(g: Gate, past: seq<Event>, e: Event, t: nat)
    requires Enabled(g, e) && t < |g.tasks| && g.tasks[t].kind == Ordinary && OrdinaryTells(g.tasks[t].stage, past, t)
    ensures OrdinaryTells(Apply(g, e).tasks[t].stage, past + [e], t)
  {
    var more := past + [e];
    assert forall f :: f in more <==> f in past || f == e;
  }

  lemma LogoutStep(g: Gate, past: seq<Event>, e: Event, t: nat)
    requires Enabled(g, e) && t < |g.tasks| && g.tasks[t].kind == Logout && LogoutTells(g.tasks[t].stage, past, t)
    requires g.tasks[t].stage == Forwarded <==> Forward(t) in past
    ensures LogoutTells(Apply(g, e).tasks[t].stage, past + [e], t)
  {
  }

  lemma ForwardStep(g: Gate, past: seq<Event>, e: Event, t: nat)
    requires Enabled(g, e) && t < |g.tasks| && (g.tasks[t].stage == Forwarded <==> Forward(t) in past)
    ensures t < |Apply(g, e).tasks| && Apply(g, e).tasks[t].kind == g.tasks[t].kind
    ensures Apply(g, e).tasks[t].stage == Forwarded <==> Forward(t) in past + [e]
  {
  }

  lemma ArrivalStep(g: Gate, past: seq<Event>, e: Event, t: nat)
    requires Enabled(g, e) && t >= |g.tasks| && NoStage(past, t)
    ensures NoStage(past + [e], t)
    ensures t < |Apply(g, e).tasks| ==> Apply(g, e).tasks[t].stage == Fresh
  {
    assert forall f :: f in past + [e] <==> f in past || f == e;
  }

  lemma StageStep(g: Gate, past: seq<Event>, e: Event, t: nat)
    requires Enabled(g, e)
    requires t < |g.tasks| ==> StageTells(g, past, t)
    requires t >= |g.tasks| ==> NoStage(past, t)
    ensures t < |Apply(g, e).tasks| ==> StageTells(Apply(g, e), past + [e], t)
    ensures t >= |Apply(g, e).tasks| ==> NoStage(past + [e], t)
  {
    if t < |g.tasks| {
      ForwardStep(g, past, e, t);
      match g.tasks[t].kind {
        case Login => LoginStep(g, past, e, t);
        case Logout => LogoutStep(g, past, e, t);
        case Ordinary => OrdinaryStep(g, past, e, t);
      }
      hide Apply, Enabled, LoginTells, LogoutTells, OrdinaryTells;
    } else {
      ArrivalStep(g, past, e, t);
      hide Apply, Enabled;
    }
  }

  /** In every run a packet is where its events put it: a login turned away exactly if refused, and so on. */
  lemma {:induction false} StageLaw(interval: nat, es: seq<Event>, t: nat)
    requires Runs(Start(interval), es)
    ensures var g := Exec(Start(interval), es);
            && (t < |g.tasks| ==> StageTells(g, es, t))
            && (t >= |g.tasks| ==> NoStage(es, t))
    decreases |es|
  {
    NothingYet(interval);
    hide StageTells, NoStage, Exec, Runs, Enabled, Apply;
    if es != [] {
      var before, e := es[..|es| - 1], es[|es| - 1];
      StepAt(Start(interval), es, |es| - 1);
      assert es == before + [e] && es[..|es|] == es;
      StageLaw(interval, before, t);
      StageStep(Exec(Start(interval), before), before, e, t);
    } else {
      NoStageYet(t);
    }
  }

  lemma NoStageYet(t: nat)
    ensures NoStage([], t)
  {
  }

  /** The stamp of the last update that finished. */
  function LastStamp(past: seq<Event>): (r: Option<nat>)
  {
    if past == [] then None else
    var e := past[|past| - 1];
    if e.Stamp? then Some(e.now) else LastStamp(past[..|past| - 1])
  }

  /** The user an event spawns an update for: a login that is stored, and a lookup that finds the stamp stale. */
  function SpawnedBy(g: Gate, stamp: Option<nat>, e: Event): (us: seq<UserId>)
    requires Enabled(g, e)
  {
    match e
    case PutUser(t) => [g.tasks[t].stage.user]
    case ReadSync(t, now) =>
      (match stamp
       case None => [g.tasks[t].stage.user]
       case Some(at) => if now - at > g.interval then [g.tasks[t].stage.user] else [])
    case _ => []
  }

  function Spawned(interval: nat, past: seq<Event>): (us: seq<UserId>)
    requires Runs(Start(interval), past)
    decreases |past|
  {
    if past == [] then [] else
    var before, e := past[..|past| - 1], past[|past| - 1];
    StepAt(Start(interval), past, |past| - 1);
    Spawned(interval, before) + SpawnedBy(Exec(Start(interval), before), LastStamp(before), e)
  }

  ghost predicate Updated(g: Gate, interval: nat, stamp: Option<nat>, users: seq<UserId>)
  {
    && g.interval == interval && g.lastSync == stamp
    && |g.updates| == |users|
    && forall i :: 0 <= i < |users| ==> g.updates[i].user == users[i]
  }

  lemma UpdatedStep(g: Gate, e: Event, interval: nat, stamp: Option<nat>, users: seq<UserId>)
    requires Enabled(g, e) && Updated(g, interval, stamp, users)
    ensures Updated(Apply(g, e), interval, if e.Stamp? then Some(e.now) else stamp, users + SpawnedBy(g, stamp, e))
  {
  }

  lemma PastMore(interval: nat, past: seq<Event>, e: Event)
    requires Runs(Start(interval), past) && Runs(Start(interval), past + [e])
    requires Enabled(Exec(Start(interval), past), e)
    ensures Spawned(interval, past + [e]) ==
            Spawned(interval, past) + SpawnedBy(Exec(Start(interval), past), LastStamp(past), e)
    ensures LastStamp(past + [e]) == if e.Stamp? then Some(e.now) else LastStamp(past)
  {
    hide Exec, Runs, SpawnedBy, Enabled;
    assert (past + [e])[..|past|] == past;
  }

  /** After every run the stamp is the last one written, and updates were spawned for exactly those users, in order. */
  lemma {:induction false} UpdateLaw(interval: nat, es: seq<Event>)
    requires Runs(Start(interval), es)
    ensures Updated(Exec(Start(interval), es), interval, LastStamp(es), Spawned(interval, es))
    decreases |es|
  {
    NothingYet(interval);
    if es != [] {
      hide Exec, Runs, Apply, Enabled, Updated, Spawned, SpawnedBy, LastStamp;
      var before, e := es[..|es| - 1], es[|es| - 1];
      StepAt(Start(interval), es, |es| - 1);
      assert es == before + [e] && es[..|es|] == es;
      UpdateLaw(interval, before);
      PastMore(interval, before, e);
      UpdatedStep(Exec(Start(interval), before), e, interval, LastStamp(before), Spawned(interval, before));
    }
  }

  lemma RefusedStep(g: Gate, e: Event, t: nat)
    requires Enabled(g, e)
    ensures t >= |Apply(g, e).tasks| ==> t >= |g.tasks| && e != ReadUser(t)
    ensures t < |Apply(g, e).tasks| && t >= |g.tasks| ==> Apply(g, e).tasks[t].stage == Fresh && e != ReadUser(t)
    ensures t < |g.tasks| ==> t < |Apply(g, e).tasks| && Apply(g, e).tasks[t].kind == g.tasks[t].kind
    ensures t < |g.tasks| && g.tasks[t].kind == Ordinary ==>
              (Apply(g, e).tasks[t].stage == Turned
               <==> g.tasks[t].stage == Turned || (e == ReadUser(t) && g.user.None?))
  {
  }

  /** After any run an ordinary packet is turned away if and only if its lookup came before every stored login. */
  lemma {:induction false} RefusedIff(interval: nat, es: seq<Event>, t: nat)
    requires Runs(Start(interval), es)
    ensures var g := Exec(Start(interval), es);
            && (t >= |g.tasks| ==> !TooEarly(es, t))
            && (t < |g.tasks| && g.tasks[t].kind == Ordinary ==> (g.tasks[t].stage == Turned <==> TooEarly(es, t)))
    decreases |es|
  {
    NothingYet(interval);
    hide Stored, TooEarly, Exec, Runs, Enabled, Apply;
    if es != [] {
      var before, e := es[..|es| - 1], es[|es| - 1];
      StepAt(Start(interval), es, |es| - 1);
      RefusedIff(interval, before, t);
      OpenIff(interval, before);
      TooEarlyMore(before, e, t);
      assert es == before + [e] && es[..|es|] == es;
      RefusedStep(Exec(Start(interval), before), e, t);
    }
  }

  /** Event n asks the event loop to stop: a logout, or a lookup before any stored login. */
  ghost predicate ClosesAt(past: seq<Event>, n: nat)
    requires n < |past|
  {
    past[n].CloseOnLogout? || EarlyAt(past, n)
  }

  lemma ClosesMore(past: seq<Event>, e: Event)
    ensures (exists n :: 0 <= n < |past + [e]| && ClosesAt(past + [e], n)) <==>
            (exists n :: 0 <= n < |past| && ClosesAt(past, n)) || e.CloseOnLogout? || (e.ReadUser? && !Stored(past))
  {
    var more := past + [e];
    assert more[..|past|] == past;
    assert ClosesAt(more, |past|) <==> e.CloseOnLogout? || (e.ReadUser? && !Stored(past));
    forall n | 0 <= n < |past|
      ensures ClosesAt(more, n) <==> ClosesAt(past, n)
    {
      assert more[..n] == past[..n];
    }
    if n :| 0 <= n < |past| && ClosesAt(past, n) {
      assert ClosesAt(more, n);
    }
  }

  /** The gate closes the connection if and only if there was a logout or a lookup before every stored login. */
  lemma {:induction false} ClosingIff(interval: nat, es: seq<Event>)
    requires Runs(Start(interval), es)
    ensures Exec(Start(interval), es).closing <==> exists n :: 0 <= n < |es| && ClosesAt(es, n)
    decreases |es|
  {
    if es != [] {
      var before, e := es[..|es| - 1], es[|es| - 1];
      ClosingIff(interval, before);
      OpenIff(interval, before);
      ClosesMore(before, e);
      assert es == before + [e];
      hide Stored, ClosesAt;
    }
  }

  lemma RunsMore(g: Gate, es: seq<Event>, e: Event)
    requires Runs(g, es)
    ensures Runs(g, es + [e]) <==> Enabled(Exec(g, es), e)
    ensures Enabled(Exec(g, es), e) ==> Exec(g, es + [e]) == Apply(Exec(g, es), e)
  {
    hide Enabled, Apply;
    assert (es + [e])[..|es|] == es;
  }

  lemma CutShort(g: Gate, es: seq<Event>, e: Event)
    requires !Runs(g, es)
    ensures !Runs(g, es + [e])
  {
    assert (es + [e])[..|es|] == es;
  }

  /**
   An ordinary packet about to be looked up can go all the way to the inner processor if and only if a
   login was stored.
   */
  lemma OpenLetsThrough(interval: nat, es: seq<Event>, t: nat, now: nat)
    requires Runs(Start(interval), es) && Enabled(Exec(Start(interval), es), ReadUser(t))
    ensures Runs(Start(interval), es + [ReadUser(t)] + [ReadSync(t, now)] + [Forward(t)]) <==> Stored(es)
  {
    var g := Start(interval);
    OpenIff(interval, es);
    RunsMore(g, es, ReadUser(t));
    RunsMore(g, es + [ReadUser(t)], ReadSync(t, now));
    var through := es + [ReadUser(t)] + [ReadSync(t, now)];
    hide Stored, Exec;
    if Runs(g, through) {
      RunsMore(g, through, Forward(t));
    } else {
      CutShort(g, through, Forward(t));
    }
  }

  /** How many steps a packet has left at most. */
  function Left(stage: Stage): (n: nat)
  {
    match stage
    case Fresh => 3
    case Authed(_) => 2
    case Known(_) => 2
    case Ready => 1
    case _ => 0
  }

  /** The next step of a packet's own task; `verdict` is what auth says of it. */
  function NextMove(g: Gate, t: nat, verdict: Option<UserId>, now: nat): (e: Event)
    requires t < |g.tasks|
  {
    match g.tasks[t].stage
    case Fresh =>
      (match g.tasks[t].kind
       case Login => Auth(t, verdict)
       case Logout => CloseOnLogout(t)
       case Ordinary => ReadUser(t))
    case Authed(_) => PutUser(t)
    case Known(_) => ReadSync(t, now)
    case _ => Forward(t)
  }

  lemma MovesOn(g: Gate, past: seq<Event>, t: nat, verdict: Option<UserId>, now: nat)
    requires Explained(g, past) && t < |g.tasks| && !Finished(g, t)
    ensures var e := NextMove(g, t, verdict, now);
            && Enabled(g, e)
            && t < |Apply(g, e).tasks| && Left(Apply(g, e).tasks[t].stage) < Left(g.tasks[t].stage)
  {
    assert TaskOk(g, past, t);
    hide TaskOk, Explained;
  }

  /** Whatever has happened, a packet can always be brought to its end by its own task, whatever auth says of it. */
  lemma {:induction false} CanFinish(interval: nat, es: seq<Event>, t: nat, verdict: Option<UserId>, now: nat)
    returns (all: seq<Event>)
    requires Runs(Start(interval), es) && t < |Exec(Start(interval), es).tasks|
    ensures es <= all && Runs(Start(interval), all) && Finished(Exec(Start(interval), all), t)
    ensures |all| <= |es| + Left(Exec(Start(interval), es).tasks[t].stage)
    decreases Left(Exec(Start(interval), es).tasks[t].stage)
  {
    hide Runs, Exec, Explained, Apply, Enabled, Finished, Left, NextMove;
    var g := Exec(Start(interval), es);
    if Finished(g, t) {
      all := es;
    } else {
      RunExplained(interval, es);
      MovesOn(g, es, t, verdict, now);
      var e := NextMove(g, t, verdict, now);
      RunsMore(Start(interval), es, e);
      all := CanFinish(interval, es + [e], t, verdict, now);
    }
  }

  /** And a spawned update can always be brought to its stamp. */
  lemma CanStamp(interval: nat, es: seq<Event>, i: nat, now: nat) returns (all: seq<Event>)
    requires Runs(Start(interval), es) && i < |Exec(Start(interval), es).updates|
    ensures es <= all && Runs(Start(interval), all)
    ensures i < |Exec(Start(interval), all).updates| && Exec(Start(interval), all).updates[i].step == 3
  {
    var g := Start(interval);
    RunExplained(interval, es);
    assert UpdateOk(Exec(g, es), es, i);
    hide Runs, Exec, Explained, UpdateOk;
    all := es;
    if Exec(g, all).updates[i].step == 0 {
      RunsMore(g, all, PutLocal(i));
      all := all + [PutLocal(i)];
    }
    if Exec(g, all).updates[i].step == 1 {
      RunsMore(g, all, PutState(i));
      all := all + [PutState(i)];
    }
    if Exec(g, all).updates[i].step == 2 {
      RunsMore(g, all, Stamp(i, now));
      all := all + [Stamp(i, now)];
    }
  }

  /** The stamp comes last: the local entry, then the state entry, were put for the same update before it. */
  lemma UpdateOrder(interval: nat, es: seq<Event>, n: nat)
    requires Runs(Start(interval), es) && n < |es| && es[n].Stamp?
    ensures exists a, b :: 0 <= a < b < n && es[a] == PutLocal(es[n].i) && es[b] == PutState(es[n].i)
  {
    var past, i := es[..n], es[n].i;
    RunsPrefix(Start(interval), es, n);
    RunsPrefix(Start(interval), es, n + 1);
    assert es[..n + 1][..n] == past;
    RunExplained(interval, past);
    assert UpdateOk(Exec(Start(interval), past), past, i);
    var a, b :| 0 <= a < b < |past| && past[a] == PutLocal(i) && past[b] == PutState(i);
    assert es[a] == PutLocal(i) && es[b] == PutState(i);
  }

  /**
   The order on the wire is not enough: an ordinary packet right behind a valid login can be looked up
   before that login is stored, is turned away, and the connection is closed.
   */
  lemma LoginRace(interval: nat, u: UserId)
    ensures var g1 := Apply(Start(interval), Arrive(Login));
            var g2 := Apply(g1, Arrive(Ordinary));
            var g3 := Apply(g2, Auth(0, Some(u)));
            var g4 := Apply(g3, ReadUser(1));
            var g5 := Apply(g4, PutUser(0));
            g5.user == Some(u) && g5.tasks[1].stage == Turned && g5.closing
  {
    var g2 := Apply(Apply(Start(interval), Arrive(Login)), Arrive(Ordinary));
    assert g2.tasks == [Task(Login, Fresh), Task(Ordinary, Fresh)];
  }
}
