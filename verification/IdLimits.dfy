/**
 How far the guarantees of Correlation.dfy reach: the exact bound on the two counters, and when a
 request blocks the counter lock for good.
 */
module IdLimits {
  import opened Seqs
  import opened Words
  import opened Results
  import opened SyncMessage
  import opened SyncLaws
  import opened Correlation

  // ---------------------------------------------------------------- building runs

  function Repeat(a: Act, n: nat): (acts: seq<Act>)
    ensures |acts| == n
    ensures forall i :: 0 <= i < n ==> acts[i] == a
  {
    if n == 0 then [] else Repeat(a, n - 1) + [a]
  }

  lemma {:induction false} HappensConcat(c: Conn, a: seq<Act>, b: seq<Act>)
    requires Happens(c, a) && Happens(After(c, a), b)
    ensures Happens(c, a + b) && After(c, a + b) == After(After(c, a), b)
    decreases a
  {
    if a == [] {
      assert a + b == b;
    } else {
      hide Able, Perform;
      assert (a + b)[0] == a[0] && (a + b)[1..] == a[1..] + b;
      HappensConcat(Perform(c, a[0]), a[1..], b);
    }
  }

  /** A run of c that ends in d. */
  predicate Leads(c: Conn, acts: seq<Act>, d: Conn)
  {
    Happens(c, acts) && After(c, acts) == d
  }

  lemma LeadsOn(c: Conn, a: seq<Act>, d: Conn, b: seq<Act>, e: Conn)
    requires Leads(c, a, d) && Leads(d, b, e)
    ensures Leads(c, a + b, e)
  {
    HappensConcat(c, a, b);
  }

  lemma LeadsOne(c: Conn, a: Act)
    requires Able(c, a)
    ensures Leads(c, [a], Perform(c, a))
  {
    hide Able, Perform;
    assert [a][1..] == [];
    assert Happens(Perform(c, a), []);
    assert After(Perform(c, a), []) == Perform(c, a);
  }

  lemma LeadsTwice(c: Conn, a: Act, b: Act)
    requires Able(c, a) && Able(Perform(c, a), b)
    ensures Leads(c, [a, b], Perform(Perform(c, a), b))
  {
    hide Perform, Able;
    LeadsOne(c, a);
    LeadsOne(Perform(c, a), b);
    hide Leads;
    LeadsOn(c, [a], Perform(c, a), [b], Perform(Perform(c, a), b));
    assert [a] + [b] == [a, b];
  }

  /** A run cut short, and its last act. */
  lemma {:induction false} HappensTake(c: Conn, acts: seq<Act>, n: nat)
    requires Happens(c, acts) && n <= |acts|
    ensures Happens(c, acts[..n])
    decreases n
  {
    if n != 0 {
      hide Perform, Able;
      assert acts[..n][0] == acts[0] && acts[..n][1..] == acts[1..][..n - 1];
      HappensTake(Perform(c, acts[0]), acts[1..], n - 1);
    }
  }

  lemma {:induction false} LastAct(c: Conn, acts: seq<Act>, a: Act)
    requires Happens(c, acts + [a])
    ensures Happens(c, acts) && Able(After(c, acts), a)
    ensures After(c, acts + [a]) == Perform(After(c, acts), a)
    decreases acts
  {
    hide Perform, Able;
    if acts == [] {
      assert acts + [a] == [a];
      assert [a][1..] == [];
    } else {
      assert (acts + [a])[0] == acts[0] && (acts + [a])[1..] == acts[1..] + [a];
      LastAct(Perform(c, acts[0]), acts[1..], a);
    }
  }

  lemma GenStep(c: Conn)
    requires c.counter.Some? && !c.stuck
    ensures var v := c.counter.value;
            Leads(c, [Gen], c.(counter := Some(Wrapping(v - 1)), grants := c.grants + [Grant(v, Unused)]))
  {
    LeadsOne(c, Gen);
    hide Leads;
  }

  /** The ids appended to g: downwards from v. */
  ghost predicate Downwards(g: seq<Grant>, v: u64, g': seq<Grant>, n: nat)
  {
    && |g'| == |g| + n && g <= g'
    && forall i :: |g| <= i < |g'| ==> g'[i] == Grant(Wrapping(v - (i - |g|)), Unused)
  }

  /** n ids in a row go down from the counter, and nothing else changes. */
  lemma {:induction false} Gens(c: Conn, n: nat) returns (d: Conn)
    requires c.counter.Some? && !c.stuck
    ensures Leads(c, Repeat(Gen, n), d)
    ensures d == c.(counter := Some(Wrapping(c.counter.value - n)), grants := d.grants)
    ensures Downwards(c.grants, c.counter.value, d.grants, n)
  {
    WrappingSame(c.counter.value);
    if n == 0 {
      d := c;
    } else {
      hide Wrapping, Leads;
      var v := c.counter.value;
      var b := Gens(c, n - 1);
      var id: int := Wrapping(v - (n - 1));
      GenStep(b);
      WrappingDown(v - (n - 1));
      d := b.(counter := Some(Wrapping(id - 1)), grants := b.grants + [Grant(id, Unused)]);
      LeadsOn(c, Repeat(Gen, n - 1), b, [Gen], d);
    }
  }

  lemma ClientSendStep(c: Conn)
    ensures Leads(c, [ClientSend],
                  c.(session := c.session.(tasks := c.session.tasks + [Task(c.nextClient, InFlight, 0)]),
                     origins := c.origins + [FromClient],
                     nextClient := Wrapping(c.nextClient + 1), clientSent := c.clientSent + 1))
  {
    LeadsOne(c, ClientSend);
    hide Leads;
  }

  /** The packets appended to ts: upwards from v, all of the client's own. */
  ghost predicate Upwards(c: Conn, d: Conn, n: nat)
  {
    && |d.session.tasks| == |c.session.tasks| + n && c.session.tasks <= d.session.tasks
    && |d.origins| == |c.origins| + n && c.origins <= d.origins
    && (forall i :: |c.session.tasks| <= i < |d.session.tasks| ==>
          d.session.tasks[i] == Task(Wrapping(c.nextClient + (i - |c.session.tasks|)), InFlight, 0))
    && (forall i :: |c.origins| <= i < |d.origins| ==> d.origins[i] == FromClient)
  }

  /** n client packets in a row go up from the counter, and nothing else changes. */
  lemma {:induction false} ClientSends(c: Conn, n: nat) returns (d: Conn)
    ensures Leads(c, Repeat(ClientSend, n), d)
    ensures d == c.(session := c.session.(tasks := d.session.tasks), origins := d.origins,
                    nextClient := Wrapping(c.nextClient + n), clientSent := c.clientSent + n)
    ensures Upwards(c, d, n)
  {
    WrappingSame(c.nextClient);
    if n == 0 {
      d := c;
    } else {
      hide Wrapping, Leads;
      var b := ClientSends(c, n - 1);
      ClientSendStep(b);
      WrappingStep(c.nextClient + (n - 1));
      d := b.(session := b.session.(tasks := b.session.tasks + [Task(b.nextClient, InFlight, 0)]),
              origins := b.origins + [FromClient],
              nextClient := Wrapping(b.nextClient + 1), clientSent := b.clientSent + 1);
      LeadsOn(c, Repeat(ClientSend, n - 1), b, [ClientSend], d);
    }
  }

  // ---------------------------------------------------------------- where the two counters meet

  /** One Login, with so many packets from the client and so many ids from the server. */
  predicate Counts(c: Conn, sent: nat, granted: nat)
  {
    c.logins == 1 && c.clientSent == sent && |c.grants| == granted
  }

  /** Packet k came from the client's own counter and a server waiter took it. */
  predicate Strays(c: Conn, k: nat)
  {
    && k < |c.session.tasks| && k < |c.origins|
    && c.origins[k] == FromClient
    && c.session.tasks[k].fate != InFlight && c.session.tasks[k].fate != Inner
  }

  ghost predicate MayStray(sent: nat, granted: nat)
  {
    exists acts, k ::
      Happens(NEW_CONN, acts) && Counts(After(NEW_CONN, acts), sent, granted) && Strays(After(NEW_CONN, acts), k)
  }

  /** A server request under the id sent waits, and the client has used its ids up to that one. */
  ghost predicate Facing(c: Conn, sent: u64, granted: nat)
  {
    && Counts(c, sent, granted)
    && c.counter.Some? && !c.stuck
    && c.session.notify == map[sent := 0]
    && |c.session.waiters| == 1
    && |c.session.tasks| == sent == |c.origins|
    && sent > 0
    && c.session.tasks[sent - 1] == Task(sent, InFlight, 0)
    && c.origins[sent - 1] == FromClient
  }

  lemma LoginAndGrants(granted: nat) returns (acts: seq<Act>, c: Conn)
    requires 1 <= granted <= MAX
    ensures Leads(NEW_CONN, acts, c)
    ensures c == NEW_CONN.(counter := c.counter, logins := 1, grants := c.grants)
    ensures c.counter.Some? && |c.grants| == granted && c.grants[granted - 1] == Grant(MAX - (granted - 1), Unused)
  {
    LeadsOne(NEW_CONN, Login);
    var a := Perform(NEW_CONN, Login);
    hide Leads;
    c := Gens(a, granted);
    acts := [Login] + Repeat(Gen, granted);
    LeadsOn(NEW_CONN, [Login], a, Repeat(Gen, granted), c);
    WrappingSame(MAX - (granted - 1));
  }

  lemma RequestWaits(c: Conn, i: nat) returns (acts: seq<Act>, d: Conn)
    requires c.session == START && c.grantOf == [] && i < |c.grants| && c.grants[i].use == Unused
    ensures Leads(c, acts, d)
    ensures d.session.notify == map[c.grants[i].id := 0] && |d.session.waiters| == 1 && d.session.tasks == []
    ensures d.origins == c.origins && d.counter == c.counter && d.stuck == c.stuck && |d.grants| == |c.grants|
    ensures d.clientSent == c.clientSent && d.nextClient == c.nextClient && d.logins == c.logins
  {
    var b := Perform(c, Begin(i));
    assert b.session.waiters == [Waiter(c.grants[i].id, Registered, Empty, None, 0)];
    LeadsOne(c, Begin(i));
    LeadsOne(b, Sync(SendOk(0)));
    d := Perform(b, Sync(SendOk(0)));
    acts := [Begin(i)] + [Sync(SendOk(0))];
    hide Leads;
    LeadsOn(c, [Begin(i)], b, [Sync(SendOk(0))], d);
  }

  lemma MeetingRun(sent: u64, granted: nat) returns (acts: seq<Act>, c: Conn)
    requires 1 <= sent && sent + granted == MAX + 1
    ensures Leads(NEW_CONN, acts, c) && Facing(c, sent, granted)
  {
    hide Leads;
    var a0, c0 := LoginAndGrants(granted);
    var a1, c1 := RequestWaits(c0, granted - 1);
    c := ClientSends(c1, sent);
    LeadsOn(NEW_CONN, a0, c0, a1, c1);
    LeadsOn(NEW_CONN, a0 + a1, c1, Repeat(ClientSend, sent), c);
    acts := a0 + a1 + Repeat(ClientSend, sent);
    WrappingSame(sent);
  }

  lemma Taken(c: Conn, sent: u64, granted: nat)
    requires Facing(c, sent, granted)
    ensures var e := Sync(Take(sent - 1));
            && Able(c, e) && Strays(Perform(c, e), sent - 1)
            && Counts(Perform(c, e), sent, granted)
            && Perform(c, e).counter.Some? && !Perform(c, e).stuck
  {
  }

  lemma StraysStays(c: Conn, d: Conn, k: nat)
    requires Strays(c, k) && c.session.tasks <= d.session.tasks && c.origins <= d.origins
    ensures Strays(d, k)
  {
  }

  lemma Witness(acts: seq<Act>, c: Conn, k: nat, sent: nat, granted: nat)
    requires Leads(NEW_CONN, acts, c) && Counts(c, sent, granted) && Strays(c, k)
    ensures MayStray(sent, granted)
  {
    hide Happens, After, Strays, Counts;
  }

  lemma BeyondTheBound(sent: nat, granted: nat)
    requires 1 <= sent && 1 <= granted && sent + granted > MAX
    ensures MayStray(sent, granted)
  {
    hide Leads, Strays, Wrapping;
    var first: u64 := if sent <= MAX then sent else MAX;
    var needed := MAX + 1 - first;
    var a0, c0 := MeetingRun(first, needed);
    var e := Sync(Take(first - 1));
    Taken(c0, first, needed);
    LeadsOne(c0, e);
    LeadsOn(NEW_CONN, a0, c0, [e], Perform(c0, e));
    var c1, a1 := Perform(c0, e), a0 + [e];
    hide Perform, Able;
    var c2 := Gens(c1, granted - needed);
    LeadsOn(NEW_CONN, a1, c1, Repeat(Gen, granted - needed), c2);
    var a2 := a1 + Repeat(Gen, granted - needed);
    var c3 := ClientSends(c2, sent - first);
    LeadsOn(NEW_CONN, a2, c2, Repeat(ClientSend, sent - first), c3);
    StraysStays(c1, c3, first - 1);
    Witness(a2 + Repeat(ClientSend, sent - first), c3, first - 1, sent, granted);
  }

  /** Without a client packet, or without a server id, there is nothing to confuse. */
  ghost predicate OneSided(c: Conn)
  {
    && |c.origins| == |c.session.tasks|
    && (c.clientSent == 0 ==> FromClient !in c.origins)
    && (c.grants == [] ==>
          && c.session.waiters == []
          && forall k :: 0 <= k < |c.session.tasks| ==> c.session.tasks[k].fate in {InFlight, Inner})
  }

  lemma OneSidedStep(c: Conn, a: Act)
    requires OneSided(c) && Able(c, a)
    ensures OneSided(Perform(c, a))
  {
  }

  lemma {:induction false} OneSidedRun(c: Conn, acts: seq<Act>)
    requires OneSided(c) && Happens(c, acts)
    ensures OneSided(After(c, acts))
    decreases acts
  {
    if acts != [] {
      hide OneSided, Perform, Able;
      OneSidedStep(c, acts[0]);
      OneSidedRun(Perform(c, acts[0]), acts[1..]);
    }
  }

  /**
   The bound of ClientPacketsReachInner is exact at every pair of counts: after one Login, with so many
   client packets and server ids, some run lets a server waiter take a client packet if and only if
   both sides counted and together they passed u64::MAX.
   */
  lemma ApartUntilTheyMeet(sent: nat, granted: nat)
    ensures MayStray(sent, granted) <==> 1 <= sent && 1 <= granted && sent + granted > MAX
  {
    if 1 <= sent && 1 <= granted && sent + granted > MAX {
      BeyondTheBound(sent, granted);
    } else if MayStray(sent, granted) {
      var acts, k :|
        Happens(NEW_CONN, acts) && Counts(After(NEW_CONN, acts), sent, granted) && Strays(After(NEW_CONN, acts), k);
      if sent + granted <= MAX {
        ClientPacketsReachInner(acts, k);
      } else {
        OneSidedRun(NEW_CONN, acts);
      }
      assert false;
    }
  }

  // ---------------------------------------------------------------- a request before the Login

  /** Act n blocks the counter lock: here for want of a counter, or on another connection. */
  predicate Blocks(acts: seq<Act>, n: nat)
    requires n < |acts|
  {
    acts[n] == OtherBlocks || (acts[n] == Gen && Login !in acts[..n])
  }

  lemma CounterStep(c: Conn, a: Act)
    requires Able(c, a)
    ensures Perform(c, a).counter.Some? <==> c.counter.Some? || a == Login
    ensures Perform(c, a).stuck <==> c.stuck || a == OtherBlocks || (a == Gen && c.counter.None?)
  {
    hide Apply;
  }

  /** The same for the first n acts; the counter is there exactly after a Login. */
  lemma {:induction false} StuckBy(acts: seq<Act>, n: nat)
    requires Happens(NEW_CONN, acts) && n <= |acts|
    ensures Happens(NEW_CONN, acts[..n])
    ensures After(NEW_CONN, acts[..n]).counter.Some? <==> Login in acts[..n]
    ensures After(NEW_CONN, acts[..n]).stuck <==> exists i :: 0 <= i < n && Blocks(acts, i)
  {
    if n == 0 {
      assert acts[..n] == [];
    } else {
      var before, a := acts[..n - 1], acts[n - 1];
      StuckBy(acts, n - 1);
      HappensTake(NEW_CONN, acts, n);
      TakeMore(acts, n - 1);
      LastAct(NEW_CONN, before, a);
      hide Happens, After;
      CounterStep(After(NEW_CONN, before), a);
      assert Blocks(acts, n - 1) <==> a == OtherBlocks || (a == Gen && Login !in before);
    }
  }

  /** The lock is stuck, for good by BlockedForever, exactly if some request came before every Login. */
  lemma StuckIff(acts: seq<Act>)
    requires Happens(NEW_CONN, acts)
    ensures After(NEW_CONN, acts).stuck <==> exists n :: 0 <= n < |acts| && Blocks(acts, n)
  {
    StuckBy(acts, |acts|);
    assert acts[..|acts|] == acts;
  }
}
