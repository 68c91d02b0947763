/** What a node is seen to do with each event: which session gets it, which is made, and which is removed. */
module NodeConduct {
  import opened Options
  import opened Serial
  import opened PolicyRule
  import opened Session
  import opened Observed
  import opened Dispatcher
  import Initiator
  import Forwarder
  import Responder
  import InitiatorConduct
  import ForwarderConduct
  import ResponderConduct

  /** Whatever happens, at most one session is touched: the one that the event names, or the new one. */
  lemma OthersStay(c: Config, n: Node, i: Input, id: nat)
    requires Invariant(n) && Possible(n, i) && id != (if i.e.ApiConfigure? then i.freshId else i.e.sid)
    ensures var n' := Process(c, n, i);
            (id in n'.table <==> id in n.table) && (id in n.table ==> n'.table[id] == n.table[id])
  {
    hide SessionState.Step, SessionState.Kept, SessionState.Waiting, ValidWorld, BooksBalance, Before;
    var s := Addressed(c, n, i);
    if !i.e.RoutingQuery? && !i.e.Unparsable? && s.Some? {
      AddressedSid(c, n, i);
    }
  }

  lemma AddressedSid(c: Config, n: Node, i: Input)
    requires TableKept(n) && Addressed(c, n, i).Some?
    ensures Addressed(c, n, i).value.Sid() == if i.e.ApiConfigure? then i.freshId else i.e.sid
  {
    hide SessionState.Kept, SessionState.Waiting;
  }

  /** A stored session gets the event, and stays exactly if it does not end. */
  lemma StoredSessionActs(c: Config, n: Node, i: Input)
    requires Invariant(n) && !i.e.ApiConfigure? && !i.e.RoutingQuery? && !i.e.Unparsable? && i.e.sid in n.table
    ensures var s, w, n' := n.table[i.e.sid], if i.e.TimerFired? then Fire(n.world, i.e.id) else n.world, Process(c, n, i);
            match s
            case NI(ni) =>
              var r := Initiator.Step(ni, w, i.e, i.o);
              && n'.world == r.1 && (i.e.sid in n'.table <==> r.0.phase != CLOSE)
              && (i.e.sid in n'.table ==> n'.table[i.e.sid] == NI(r.0))
            case NF(nf) =>
              var r := Forwarder.Step(nf, w, i.e, i.o);
              && n'.world == r.1 && (i.e.sid in n'.table <==> r.0.phase != CLOSE)
              && (i.e.sid in n'.table ==> n'.table[i.e.sid] == NF(r.0))
            case NR(nr) =>
              var r := Responder.Step(nr, w, i.e, i.o);
              && n'.world == r.1 && (i.e.sid in n'.table <==> r.0.phase != CLOSE)
              && (i.e.sid in n'.table ==> n'.table[i.e.sid] == NR(r.0))
  {
    hide Initiator.Step, Forwarder.Step, Responder.Step, ValidWorld, BooksBalance, Fire, SessionState.Waiting;
    var s, w := n.table[i.e.sid], Before(n, i.e);
    assert s.Kept(n.world) && s.Sid() == i.e.sid;
    FiredIsKept(s, n, i.e);
    StepKeeps(s, w, i.e, i.o);
  }

  /** What needs no session: a query about routing, octets that are no message, and events for nobody. */
  lemma WithoutSession(c: Config, n: Node, i: Input)
    ensures i.e.RoutingQuery? ==> Process(c, n, i) == n
    ensures i.e.Unparsable? ==>
              var n' := Process(c, n, i);
              && n'.table == n.table && Says(n.world, n'.world, i.e.sid, [Response(false, None, 0)])
              && StartsNothing(n.world, n'.world) && LeavesMetering(n.world, n'.world)
    ensures var e := i.e;
            !e.ApiConfigure? && !e.RoutingQuery? && !e.Unparsable? && e.sid !in n.table && !(e.Received? && e.body.Configure?) ==>
              Process(c, n, i) == Node(n.table, if e.TimerFired? then Fire(n.world, e.id) else n.world)
  {
    hide SessionState.Step;
  }

  /** A request of the user makes an initiator under a free id, which sends the CONFIGURE. */
  lemma UserRequest(c: Config, n: Node, i: Input)
    requires Invariant(n) && Possible(n, i) && i.e.ApiConfigure?
    ensures var n' := Process(c, n, i);
            && i.freshId in n'.table && n'.table[i.freshId].NI?
            && var s := n'.table[i.freshId].ni;
               && s.phase == PENDING && s.lifetime == i.e.lifetime && s.msn == Next(i.e.seed)
               && s.maxRetries == c.maxRetries && s.hops == c.hops
               && s.lastConfigure.Some? && s.lastConfigure.value.Configure?
               && s.lastConfigure.value.lifetime == i.e.lifetime && s.lastConfigure.value.msn == Next(i.e.seed)
               && s.lastConfigure.value.sme == i.e.sme && s.lastConfigure.value.hops == c.hops
               && Says(n.world, n'.world, i.freshId, [s.lastConfigure.value])
               && Starts(n.world, n'.world, i.freshId, s.responseTimer, s.responseTimeout)
               && LeavesMetering(n.world, n'.world)
  {
    hide Invariant, Initiator.Step, Says, Starts, LeavesMetering, Initiator.SetupInterval, Initiator.Timeout;
    var s := Initiator.NewNi(i.freshId, i.e.seed, c.responseTimeout, c.maxRetries, c.hops);
    InitiatorConduct.RequestIsSent(s, n.world, i.e, i.o);
    UserTimeout(s, n.world, i.e, i.o);
    assert Addressed(c, n, i) == Some(NI(s));
  }

  lemma UserTimeout(s: Initiator.Ni, w: World, e: Event, o: Oracle)
    requires s.phase == CLOSE && e.ApiConfigure? && e.lifetime > 0
    ensures var r := Initiator.Step(s, w, e, o);
            && r.0.sid == s.sid && r.0.maxRetries == s.maxRetries && r.0.hops == s.hops
            && r.0.responseTimeout == Initiator.Timeout(e.jitter, Initiator.SetupInterval(e.lifetime, s.maxRetries))
  {
    hide Taken, Left, Initiator.SetupInterval, Initiator.Timeout;
  }

  /** A CONFIGURE for a node behind this one makes a forwarder, unless no lifetime is left to grant. */
  lemma RequestPassing(c: Config, n: Node, i: Input)
    requires Invariant(n) && i.e.Received? && i.e.body.Configure? && !i.e.forThisNode && i.e.sid !in n.table
    ensures var n', f := Process(c, n, i), i.e.body;
            if f.lifetime == 0 || c.nfLimit == 0 then n' == n
            else
              && i.e.sid in n'.table && n'.table[i.e.sid].NF?
              && var s := n'.table[i.e.sid].nf;
                 && s.phase == PENDING && s.lifetime == (if c.nfLimit < f.lifetime then c.nfLimit else f.lifetime)
                 && s.maxLifetime == s.responseTimeout == c.nfLimit && s.lastConfigure == Some(f) && s.msn == f.msn
                 && ForwarderConduct.PassesOn(n.world, n'.world, i.e.sid, f, s.lifetime)
                 && Starts(n.world, n'.world, i.e.sid, s.stateTimer, s.lifetime) && LeavesMetering(n.world, n'.world)
  {
    hide Invariant, Forwarder.Step, ForwarderConduct.PassesOn, Starts, LeavesMetering;
    var s := Forwarder.NewNf(i.e.sid, c.nfLimit);
    ForwarderConduct.RequestIsPassedOn(s, n.world, i.e, i.o);
    PassingSid(s, n.world, i.e, i.o);
    assert Addressed(c, n, i) == Some(NF(s));
    assert n.table - {i.e.sid} == n.table;
  }

  lemma PassingSid(s: Forwarder.Nf, w: World, e: Event, o: Oracle)
    ensures Forwarder.Step(s, w, e, o).0.sid == s.sid
  {
    hide Taken, Left, InstallAll, Installed, Removed, Owned;
  }

  /** One for this node makes a responder if it is granted; else it only gets its answer. */
  lemma RequestEnding(c: Config, n: Node, i: Input)
    requires Invariant(n) && i.e.Received? && i.e.body.Configure? && i.e.forThisNode && i.e.sid !in n.table
    ensures var n', f := Process(c, n, i), i.e.body;
            var lifetime, mine := if c.nrLimit < f.lifetime then c.nrLimit else f.lifetime, Taken(i.o, true, i.e.sid, n.world.nextKey, f.objs);
            if lifetime > 0 && ResponderConduct.TakesAll(i.o, f.sme, f.objs) && AllDeployable(i.o, mine) then
              && i.e.sid in n'.table && n'.table[i.e.sid].NR?
              && n'.table[i.e.sid].nr == Responder.Nr(i.e.sid, METERING, lifetime, c.nrLimit, f.msn, n.world.nextTimer, InstallAll(i.o, mine))
              && Says(n.world, n'.world, i.e.sid, [Response(true, Some(f.msn), lifetime)])
              && Starts(n.world, n'.world, i.e.sid, n.world.nextTimer, lifetime)
            else
              n'.table == n.table && Says(n.world, n'.world, i.e.sid, [Response(false, Some(f.msn), 0)])
  {
    hide Invariant, Responder.Step, Says, AllDeployable, ResponderConduct.TakesAll, Taken, InstallAll, Installed;
    var s := Responder.NewNr(i.e.sid, c.nrLimit);
    ResponderConduct.RequestIsAnswered(s, n.world, i.e, i.o);
    EndingSid(s, n.world, i.e, i.o);
    assert Addressed(c, n, i) == Some(NR(s));
    assert n.table - {i.e.sid} == n.table;
  }

  lemma EndingSid(s: Responder.Nr, w: World, e: Event, o: Oracle)
    ensures Responder.Step(s, w, e, o).0.sid == s.sid && Responder.Step(s, w, e, o).0.maxLifetime == s.maxLifetime
  {
    hide Taken, Left, InstallAll, Installed, Removed, Owned;
  }
}
