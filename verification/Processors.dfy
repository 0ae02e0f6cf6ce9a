/**
 The per-connection context, its attribute map, and the processors that keep state in it. Each
 method is the code between two awaits; those of the gate are proved against LoginGate.dfy.
 */
module Processors {
  import opened Words
  import opened Results
  import opened Packets
  import opened LoginGate
  import Heartbeat

  /** An attribute is stored untyped; a lookup at the wrong type finds nothing. */
  datatype Attr = User(id: UserId) | Instant(time: nat) | Channel

  class Context {
    const id: string
    var attrs: map<string, Attr>
    var closing: bool
    /** The event loop still has its end of the channel. */
    var open: bool
    /** What the channel took. */
    var sent: seq<Packet>

    constructor (id: string)
      ensures this.id == id && attrs == map[] && !closing && open && sent == []
    {
      this.id, attrs, closing, open, sent := id, map[], false, true, [];
    }

    function UserAttr(key: string): (u: Option<UserId>)
      reads this
    {
      if key in attrs && attrs[key].User? then Some(attrs[key].id) else None
    }

    function InstantAttr(key: string): (t: Option<nat>)
      reads this
    {
      if key in attrs && attrs[key].Instant? then Some(attrs[key].time) else None
    }

    method PutAttr(key: string, value: Attr) returns (previous: Option<Attr>)
      modifies this`attrs
      ensures attrs == old(attrs)[key := value]
      ensures previous == if key in old(attrs) then Some(old(attrs)[key]) else None
    {
      previous := if key in attrs then Some(attrs[key]) else None;
      attrs := attrs[key := value];
    }

    /** Waits for room in the channel; the packet comes back if the event loop is gone. */
    method Send(packet: Packet) returns (back: Option<Packet>)
      modifies this`sent
      ensures open ==> back == None && sent == old(sent) + [packet]
      ensures !open ==> back == Some(packet) && sent == old(sent)
    {
      if open {
        sent := sent + [packet];
        return None;
      }
      return Some(packet);
    }

    /** Asks the event loop to stop. */
    method Close()
      modifies this`closing
      ensures closing
    {
      closing := true;
    }
  }

  /** The two maps of the state server. */
  class OnlineStateServer {
    var contexts: map<UserId, Context>
    var state: map<UserId, string>

    constructor ()
      ensures contexts == map[] && state == map[]
    {
      contexts, state := map[], map[];
    }
  }

  /** How the gate sorts packets. */
  function KindOf(packet: Packet): (kind: Kind)
  {
    match packet.payload
    case Login => Kind.Login
    case Logout => Kind.Logout
    case _ => Ordinary
  }

  /** What `auth` says of a login: the user, or a packet that tells the client why not. */
  datatype Verdict = Passed(user: UserId) | Rejected(reply: Packet)
  {
    function User(): (u: Option<UserId>)
    {
      if Passed? then Some(user) else None
    }
  }

  /** The event of an update that has done `step` of its awaits. */
  function NextAwait(step: nat, i: nat, now: nat): (e: Event)
  {
    if step == 0 then PutLocal(i) else if step == 1 then PutState(i) else Stamp(i, now)
  }

  class StateSupportProcessor {
    const ctx: Context
    const stateServer: OnlineStateServer
    const interval: nat
    var tasks: seq<Task>
    var updates: seq<Update>
    /** The steps of the gate so far. */
    ghost var past: seq<Event>

    constructor (ctx: Context, stateServer: OnlineStateServer, interval: nat)
      requires ctx.attrs == map[] && !ctx.closing
      ensures this.ctx == ctx && this.stateServer == stateServer && State() == Start(interval)
      ensures past == [] && Valid()
    {
      this.ctx, this.stateServer, this.interval := ctx, stateServer, interval;
      tasks, updates, past := [], [], [];
      NothingYet(interval);
    }

    ghost function State(): (g: Gate)
      reads this, ctx
    {
      Gate(interval, ctx.UserAttr("USER_ID"), ctx.InstantAttr("STATE_LAST_SYNC"), tasks, updates, ctx.closing)
    }

    /** The object is where its steps lead, so the theorems about runs of the gate hold of it. */
    ghost predicate Valid()
      reads this, ctx
    {
      Runs(Start(interval), past) && Exec(Start(interval), past) == State()
    }

    /** A packet's task starts. */
    method Begin(kind: Kind) returns (t: nat)
      requires Valid()
      modifies this`tasks, this`past
      ensures Valid() && past == old(past) + [Arrive(kind)]
      ensures State() == Apply(old(State()), Arrive(kind)) && t == old(|tasks|)
    {
      RunsMore(Start(interval), past, Arrive(kind));
      t := |tasks|;
      tasks := tasks + [Task(kind, Fresh)];
      past := past + [Arrive(kind)];
    }

    /** `auth` returned, for a login; a rejection is told to the client, if the channel takes it. */
    method Authenticated(t: nat, verdict: Verdict)
      requires Valid() && Enabled(State(), Auth(t, verdict.User()))
      modifies this`tasks, this`past, ctx`sent
      ensures Valid() && past == old(past) + [Auth(t, verdict.User())]
      ensures State() == Apply(old(State()), Auth(t, verdict.User()))
      ensures ctx.sent == old(ctx.sent) + if verdict.Rejected? && ctx.open then [verdict.reply] else []
      ensures tasks[t].stage == if verdict.Passed? then Authed(verdict.user) else Turned
    {
      RunsMore(Start(interval), past, Auth(t, verdict.User()));
      match verdict {
        case Passed(user) => tasks := tasks[t := tasks[t].(stage := Authed(user))];
        case Rejected(reply) =>
          var _ := ctx.Send(reply);
          tasks := tasks[t := tasks[t].(stage := Turned)];
      }
      past := past + [Auth(t, verdict.User())];
    }

    /** The user authenticated for this login is stored, and an update spawned without waiting for it. */
    method StoreUser(t: nat)
      requires Valid() && Enabled(State(), PutUser(t))
      modifies this, ctx`attrs
      ensures Valid() && past == old(past) + [PutUser(t)]
      ensures State() == Apply(old(State()), PutUser(t))
      ensures var user := old(tasks[t].stage.user);
              && ctx.UserAttr("USER_ID") == Some(user)
              && updates == old(updates) + [Update(user, 0)]
              && AuthedIn(old(past), t, user) && LoggedIn(past, user)
              && tasks[t].stage == Ready
    {
      RunsMore(Start(interval), past, PutUser(t));
      RunExplained(interval, past);
      assert TaskOk(State(), past, t);
      PutUserLogsIn(State(), past, t);
      var user := tasks[t].stage.user;
      var _ := ctx.PutAttr("USER_ID", User(user));
      UpdateState(user);
      tasks := tasks[t := tasks[t].(stage := Ready)];
      past := past + [PutUser(t)];
    }

    method UpdateState(user: UserId)
      modifies this`updates
      ensures updates == old(updates) + [Update(user, 0)]
    {
      updates := updates + [Update(user, 0)];
    }

    /** `current_user` for an ordinary packet: the connection is closed exactly if no login was stored so far. */
    method LookUpUser(t: nat)
      requires Valid() && Enabled(State(), ReadUser(t))
      modifies this`tasks, this`past, ctx`closing
      ensures Valid() && past == old(past) + [ReadUser(t)]
      ensures State() == Apply(old(State()), ReadUser(t))
      ensures tasks[t].stage == Turned <==> !Stored(old(past))
      ensures ctx.closing <==> old(ctx.closing) || !Stored(old(past))
    {
      RunsMore(Start(interval), past, ReadUser(t));
      OpenIff(interval, past);
      var user := ctx.UserAttr("USER_ID");
      if user.None? {
        ctx.Close();
        tasks := tasks[t := tasks[t].(stage := Turned)];
      } else {
        tasks := tasks[t := tasks[t].(stage := Known(user.value))];
      }
      past := past + [ReadUser(t)];
    }

    /** A stale or missing stamp spawns an update, for a user who logged in. */
    method LookUpSync(t: nat, now: nat)
      requires Valid() && Enabled(State(), ReadSync(t, now))
      modifies this
      ensures Valid() && past == old(past) + [ReadSync(t, now)]
      ensures State() == Apply(old(State()), ReadSync(t, now))
      ensures var last := ctx.InstantAttr("STATE_LAST_SYNC");
              updates == old(updates) +
                if last.None? || now - last.value > interval then [Update(old(tasks[t].stage.user), 0)] else []
      ensures LoggedIn(old(past), old(tasks[t].stage.user))
    {
      RunsMore(Start(interval), past, ReadSync(t, now));
      RunExplained(interval, past);
      assert TaskOk(State(), past, t);
      var last := ctx.InstantAttr("STATE_LAST_SYNC");
      match last {
        case Some(time) =>
          if now - time > interval {
            UpdateState(tasks[t].stage.user);
          }
        case None => UpdateState(tasks[t].stage.user);
      }
      tasks := tasks[t := tasks[t].(stage := Ready)];
      past := past + [ReadSync(t, now)];
    }

    /** The packet goes no further, now or later, and the event loop is asked to stop. */
    method LogOut(t: nat)
      requires Valid() && Enabled(State(), CloseOnLogout(t))
      modifies this`tasks, this`past, ctx`closing
      ensures Valid() && past == old(past) + [CloseOnLogout(t)]
      ensures State() == Apply(old(State()), CloseOnLogout(t))
      ensures ctx.closing && Finished(State(), t) && tasks[t].stage == Turned
      ensures forall u :: 0 <= u < |tasks| && u != t ==> tasks[u] == old(tasks)[u]
    {
      RunsMore(Start(interval), past, CloseOnLogout(t));
      ctx.Close();
      tasks := tasks[t := tasks[t].(stage := Turned)];
      past := past + [CloseOnLogout(t)];
    }

    /** The inner processor is called, for no logout, and only after an authenticated login was stored. */
    method CallInner(t: nat)
      requires Valid() && Enabled(State(), Forward(t))
      modifies this`tasks, this`past
      ensures Valid() && past == old(past) + [Forward(t)]
      ensures State() == Apply(old(State()), Forward(t))
      ensures Finished(State(), t) && tasks[t].kind == old(tasks[t].kind) != Kind.Logout
      ensures ctx.UserAttr("USER_ID").Some? && LoggedIn(old(past), ctx.UserAttr("USER_ID").value)
    {
      RunsMore(Start(interval), past, Forward(t));
      RunExplained(interval, past);
      assert TaskOk(State(), past, t);
      tasks := tasks[t := tasks[t].(stage := Forwarded)];
      past := past + [Forward(t)];
    }

    /** A logout's task, from its start to its end. */
    method ProcessLogout() returns (t: nat)
      requires Valid()
      modifies this`tasks, this`past, ctx`closing
      ensures Valid() && past == old(past) + [Arrive(Kind.Logout)] + [CloseOnLogout(t)]
      ensures ctx.closing && t < |tasks| && tasks[t] == Task(Kind.Logout, Turned)
    {
      t := Begin(Kind.Logout);
      LogOut(t);
    }

    /**
     An ordinary packet's task, if no other runs in between: it is handed inward exactly if a login was
     stored before.
     */
    method ProcessOrdinary(now: nat) returns (t: nat)
      requires Valid()
      modifies this, ctx`closing
      ensures Valid() && t < |tasks| && tasks[t].kind == Ordinary
      ensures tasks[t].stage == if Stored(old(past)) then Forwarded else Turned
      ensures ctx.closing <==> old(ctx.closing) || !Stored(old(past))
    {
      t := Begin(Ordinary);
      StoredMore(old(past), Arrive(Ordinary));
      LookUpUser(t);
      if tasks[t].stage != Turned {
        LookUpSync(t, now);
        CallInner(t);
      }
    }

    /**
     A login's task, if no other runs in between: it goes inward exactly if it passed, and its user is
     then the current one.
     */
    method ProcessLogin(verdict: Verdict) returns (t: nat)
      requires Valid()
      modifies this, ctx`attrs, ctx`sent
      ensures Valid() && t < |tasks| && tasks[t].kind == Kind.Login
      ensures verdict.Passed? ==>
                && tasks[t].stage == Forwarded && ctx.UserAttr("USER_ID") == Some(verdict.user)
                && updates == old(updates) + [Update(verdict.user, 0)] && ctx.sent == old(ctx.sent)
      ensures verdict.Rejected? ==>
                && tasks[t].stage == Turned && ctx.UserAttr("USER_ID") == old(ctx.UserAttr("USER_ID"))
                && updates == old(updates)
                && ctx.sent == old(ctx.sent) + if ctx.open then [verdict.reply] else []
    {
      hide Runs, Exec, LoggedIn, AuthedIn;
      t := Begin(Kind.Login);
      Authenticated(t, verdict);
      if verdict.Passed? {
        StoreUser(t);
        CallInner(t);
      }
    }

    /**
     `process`, if no other task runs in between. A logout closes the connection and goes no further, a
     login goes inward exactly if `auth` passes it, any other packet exactly if a login was stored.
     */
    method Process(packet: Packet, verdict: Verdict, now: nat) returns (inward: bool)
      requires Valid()
      modifies this, ctx
      ensures Valid()
      ensures packet.payload.Logout? ==> !inward && ctx.closing
      ensures packet.payload.Login? ==> (inward <==> verdict.Passed?) && ctx.closing == old(ctx.closing)
      ensures packet.payload.Login? && inward ==> ctx.UserAttr("USER_ID") == Some(verdict.User().value)
      ensures !packet.payload.Login? && !packet.payload.Logout? ==>
                (inward <==> Stored(old(past))) && (ctx.closing <==> old(ctx.closing) || !Stored(old(past)))
    {
      var t;
      match KindOf(packet) {
        case Login => t := ProcessLogin(verdict);
        case Logout => t := ProcessLogout();
        case Ordinary => t := ProcessOrdinary(now);
      }
      inward := tasks[t].stage == Forwarded;
    }

    /** The next await of a spawned update: `put_local`, `put`, then the stamp. */
    method StepUpdate(i: nat, now: nat)
      requires Valid() && i < |updates| && updates[i].step < 3
      modifies this`updates, this`past, ctx`attrs, stateServer
      ensures Valid() && past == old(past) + [NextAwait(old(updates[i].step), i, now)]
      ensures State() == Apply(old(State()), NextAwait(old(updates[i].step), i, now))
      ensures stateServer.contexts == if old(updates[i].step) == 0
                                      then old(stateServer.contexts)[updates[i].user := ctx]
                                      else old(stateServer.contexts)
      ensures stateServer.state == if old(updates[i].step) == 1
                                   then old(stateServer.state)[updates[i].user := ctx.id]
                                   else old(stateServer.state)
      ensures ctx.InstantAttr("STATE_LAST_SYNC") ==
                if old(updates[i].step) == 2 then Some(now) else old(ctx.InstantAttr("STATE_LAST_SYNC"))
    {
      RunsMore(Start(interval), past, NextAwait(updates[i].step, i, now));
      past := past + [NextAwait(updates[i].step, i, now)];
      var user := updates[i].user;
      match updates[i].step {
        case 0 => stateServer.contexts := stateServer.contexts[user := ctx];
        case 1 => stateServer.state := stateServer.state[user := ctx.id];
        case _ => var _ := ctx.PutAttr("STATE_LAST_SYNC", Instant(now));
      }
      updates := updates[i := updates[i].(step := updates[i].step + 1)];
    }
  }

  class HeartBeatProcessor {
    const ctx: Context
    const interval: nat
    const gate: StateSupportProcessor
    var reactors: seq<Heartbeat.Reactor>

    constructor (ctx: Context, interval: nat, gate: StateSupportProcessor)
      requires gate.ctx == ctx
      ensures this.ctx == ctx && this.interval == interval && this.gate == gate && reactors == []
    {
      this.ctx, this.interval, this.gate := ctx, interval, gate;
      reactors := [];
    }

    /** Records the time of the last read; the gate does not see it. */
    method KickRead(now: nat)
      requires gate.ctx == ctx
      modifies ctx`attrs
      ensures ctx.attrs == old(ctx.attrs)["LAST_READ" := Instant(now)]
      ensures gate.State() == old(gate.State())
    {
      var _ := ctx.PutAttr("LAST_READ", Instant(now));
    }

    /** The reactor may start only once it can be told to stop and finds a time of the last read. */
    method SpawnReactor()
      requires "HEART_BEAT_REACTOR_SHUTDOWN" in ctx.attrs && ctx.InstantAttr("LAST_READ").Some?
      modifies this`reactors
      ensures |reactors| == |old(reactors)| + 1 && reactors[..|old(reactors)|] == old(reactors)
      ensures fresh(reactors[|old(reactors)|]) && reactors[|old(reactors)|].interval == interval
    {
      var reactor := new Heartbeat.Reactor(interval);
      reactors := reactors + [reactor];
    }

    /**
     `connected`: the shutdown channel and the first read time are stored before the reactor starts, so
     no check within three intervals gives up, although a missing time would read as a day of silence.
     */
    method Connected(now: nat)
      requires gate.ctx == ctx
      modifies this`reactors, ctx`attrs
      ensures ctx.attrs == old(ctx.attrs)["HEART_BEAT_REACTOR_SHUTDOWN" := Channel]["LAST_READ" := Instant(now)]
      ensures gate.State() == old(gate.State())
      ensures |reactors| == |old(reactors)| + 1 && reactors[|old(reactors)|].interval == interval
      ensures forall at :: now <= at <= now + 3 * interval ==>
                !Heartbeat.GivesUp(interval, Heartbeat.Check(at, ctx.InstantAttr("LAST_READ")))
    {
      var _ := ctx.PutAttr("HEART_BEAT_REACTOR_SHUTDOWN", Channel);
      KickRead(now);
      SpawnReactor();
    }

    /**
     Every packet counts as a read and goes on to the gate, a ping after its pong. The pong repeats the
     ping's id and nonce; if the channel does not take it nothing else changes.
     */
    method Process(now: nat, packet: Packet) returns (t: nat)
      requires gate.ctx == ctx && gate.Valid()
      modifies ctx`attrs, ctx`sent, gate`tasks, gate`past
      ensures gate.Valid()
      ensures ctx.attrs == old(ctx.attrs)["LAST_READ" := Instant(now)]
      ensures ctx.sent == old(ctx.sent) +
                if packet.payload.Ping? && ctx.open
                then [Packet(packet.requestId, Pong(packet.payload.nonce))] else []
      ensures gate.State() == Apply(old(gate.State()), Arrive(KindOf(packet))) && t == old(|gate.tasks|)
      ensures t < |gate.tasks| && gate.tasks[t].stage == Fresh
      ensures gate.tasks[t].kind.Login? <==> packet.payload.Login?
      ensures gate.tasks[t].kind.Logout? <==> packet.payload.Logout?
    {
      KickRead(now);
      if packet.payload.Ping? {
        var _ := ctx.Send(GenPong(packet));
      }
      t := gate.Begin(KindOf(packet));
    }
  }
}
