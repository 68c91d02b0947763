/** Whole runs of a node: no leaked rules, a table that only holds live sessions, and soft state that ends. */
module NodeRuns {
  import opened PolicyRule
  import opened Session
  import opened Ledger
  import opened Dispatcher
  import Initiator
  import Forwarder
  import Responder

  lemma EmptyNodeKept()
    ensures Invariant(EMPTY)
  {
  }

  // ----- no leaked rules -----

  ghost predicate AllReleased(inputs: seq<Input>) {
    forall k, c :: 0 <= k < |inputs| ==> inputs[k].o.release(c)
  }

  lemma UninstallRefusesNothing(o: Oracle, w: World, rule: Rule)
    requires forall c :: o.release(c)
    ensures Uninstall(o, w, rule).meter.refused == w.meter.refused
  {
  }

  lemma StepRefusesNothing(s: SessionState, w: World, e: Event, o: Oracle)
    requires forall c :: o.release(c)
    ensures s.Step(w, e, o).1.meter.refused == w.meter.refused
  {
    hide Owned, Taken, Left, InstallAll, Released;
    match s
    case NI(ni) => NiRefusesNothing(ni, w, e, o);
    case NF(nf) => NfRefusesNothing(nf, w, e, o);
    case NR(nr) => NrRefusesNothing(nr, w, e, o);
  }

  lemma NiRefusesNothing(s: Initiator.Ni, w: World, e: Event, o: Oracle)
    requires forall c :: o.release(c)
    ensures Initiator.Step(s, w, e, o).1.meter.refused == w.meter.refused
  {
    hide Owned, Taken, Left, InstallAll, Removed;
    forall w: World, rule: Rule
      ensures Uninstall(o, w, rule).meter.refused == w.meter.refused
    {
      UninstallRefusesNothing(o, w, rule);
    }
  }

  lemma NfRefusesNothing(s: Forwarder.Nf, w: World, e: Event, o: Oracle)
    requires forall c :: o.release(c)
    ensures Forwarder.Step(s, w, e, o).1.meter.refused == w.meter.refused
  {
    hide Owned, Taken, Left, InstallAll, Removed;
    forall w: World, rule: Rule
      ensures Uninstall(o, w, rule).meter.refused == w.meter.refused
    {
      UninstallRefusesNothing(o, w, rule);
    }
  }

  lemma NrRefusesNothing(s: Responder.Nr, w: World, e: Event, o: Oracle)
    requires forall c :: o.release(c)
    ensures Responder.Step(s, w, e, o).1.meter.refused == w.meter.refused
  {
    hide Owned, Taken, Left, InstallAll, Removed;
    forall w: World, rule: Rule
      ensures Uninstall(o, w, rule).meter.refused == w.meter.refused
    {
      UninstallRefusesNothing(o, w, rule);
    }
  }

  lemma {:induction false} RunRefusesNothing(c: Config, n: Node, inputs: seq<Input>)
    requires AllReleased(inputs)
    ensures Run(c, n, inputs).world.meter.refused == n.world.meter.refused
    decreases |inputs|
  {
    if inputs != [] {
      var i := inputs[0];
      hide SessionState.Step;
      var s := Addressed(c, n, i);
      if s.Some? {
        StepRefusesNothing(s.value, Before(n, i.e), i.e, i.o);
      }
      RunRefusesNothing(c, Process(c, n, i), inputs[1..]);
    }
  }

  /**
   * No leaked rules. After any run in which no removal is refused, every command in the metering
   * process belongs to a stored session in METERING, which has it in its rule. A session that has
   * ended, on whatever path, has left nothing behind.
   */
  lemma NoLeakedRules(c: Config, inputs: seq<Input>, cmd: Command)
    requires Feasible(c, EMPTY, inputs) && AllReleased(inputs)
    ensures var n := Run(c, EMPTY, inputs);
            cmd in n.world.meter.installed <==>
              && cmd.key.owner in n.table
              && n.table[cmd.key.owner].Phase() == METERING
              && cmd in n.table[cmd.key.owner].Held()
  {
    EmptyNodeKept();
    RunKeeps(c, EMPTY, inputs);
    RunRefusesNothing(c, EMPTY, inputs);
    var n := Run(c, EMPTY, inputs);
    assert cmd in Live(n.world) <==> cmd in n.world.meter.installed;
  }

  /** With refusals: what is left over is marked as refused, and nothing else is left over. */
  lemma OnlyRefusedRulesLeak(c: Config, inputs: seq<Input>, cmd: Command)
    requires Feasible(c, EMPTY, inputs)
    ensures var n := Run(c, EMPTY, inputs);
            cmd in n.world.meter.installed && cmd !in n.world.meter.refused <==>
              cmd.key.owner in n.table && cmd in n.table[cmd.key.owner].Held()
  {
    EmptyNodeKept();
    RunKeeps(c, EMPTY, inputs);
    assert BooksBalance(Run(c, EMPTY, inputs));
  }

  // ----- the session table -----

  predicate SameKind(a: SessionState, b: SessionState) {
    (a.NI? <==> b.NI?) && (a.NF? <==> b.NF?)
  }

  /** The event makes a new session of this kind, under this id. */
  predicate Creates(i: Input, id: nat, s: SessionState) {
    if i.e.ApiConfigure? then s.NI? && id == i.freshId
    else i.e.Received? && i.e.body.Configure? && id == i.e.sid && if i.e.forThisNode then s.NR? else s.NF?
  }

  /**
   * The table after one event: every session in it is alive and under its own id; it was there
   * before and is of the kind it was, or it is new, and then only a request to configure made it,
   * under an id that was free.
   */
  lemma TableEvolves(c: Config, n: Node, i: Input, id: nat)
    requires Invariant(n) && Possible(n, i) && id in Process(c, n, i).table
    ensures var s := Process(c, n, i).table[id];
            && s.Sid() == id && s.Phase() != CLOSE
            && (id in n.table ==> SameKind(s, n.table[id]))
            && (id in n.table || Creates(i, id, s))
  {
    hide Exchanges, ValidWorld, BooksBalance, SessionState.Kept, SessionState.Waiting, SessionState.Step;
    hide SessionState.Held, Before, Addressed, ForSession;
    ProcessKeeps(c, n, i);
    if !i.e.RoutingQuery? && !i.e.Unparsable? && Addressed(c, n, i).Some? {
      AddressedIsKept(c, n, i);
      var s := Addressed(c, n, i).value;
      FiredIsKept(s, n, i.e);
      StepKeeps(s, Before(n, i.e), i.e, i.o);
      NewKind(c, n, i);
    }
  }

  lemma NewKind(c: Config, n: Node, i: Input)
    requires Addressed(c, n, i).Some?
    ensures var s := Addressed(c, n, i).value;
            (IdOf(i.e).Some? && IdOf(i.e).value in n.table && s == n.table[IdOf(i.e).value]) || Creates(i, s.Sid(), s)
  {
  }

  /** The handlers of CLOSE run only on the event that creates a session. */
  lemma CloseHandlersSeeConfigures(c: Config, n: Node, i: Input)
    requires Invariant(n) && Possible(n, i) && !i.e.RoutingQuery? && !i.e.Unparsable? && Addressed(c, n, i).Some?
    requires Addressed(c, n, i).value.Phase() == CLOSE
    ensures if Addressed(c, n, i).value.NI? then i.e.ApiConfigure? else i.e.Received? && i.e.body.Configure?
  {
    AddressedIsKept(c, n, i);
  }

  // ----- soft state -----

  /** A timer that was stopped or restarted since it was set changes nothing but itself. */
  predicate Stale(s: SessionState, id: nat) {
    match s
    case NI(ni) => !Initiator.Current(ni, id)
    case NF(nf) => !Forwarder.Current(nf, id)
    case NR(nr) => !Responder.Current(nr, id)
  }

  lemma StaleTimerChangesNothing(c: Config, n: Node, i: Input)
    requires Invariant(n) && i.e.TimerFired? && i.e.sid in n.table && Stale(n.table[i.e.sid], i.e.id)
    ensures Process(c, n, i) == Node(n.table, Fire(n.world, i.e.id))
  {
    var s, w := n.table[i.e.sid], Fire(n.world, i.e.id);
    match s {
      case NI(ni) => Initiator.StaleTimer(ni, w, i.e.id, i.o);
      case NF(nf) => Forwarder.StaleTimer(nf, w, i.e.id, i.o);
      case NR(nr) => Responder.StaleTimer(nr, w, i.e.id, i.o);
    }
    assert s.Step(w, i.e, i.o) == (s, w);
    assert n.table[i.e.sid := s] == n.table;
  }

  /** The ranks of the sessions with ids below k, added up. */
  function TotalRank(n: Node, k: nat): int {
    if k == 0 then 0
    else TotalRank(n, k - 1) + if k - 1 in n.table then n.table[k - 1].Rank(n.world) else 0
  }

  function Measure(n: Node, k: nat): int {
    2 * TotalRank(n, k) + |n.world.armed|
  }

  ghost predicate IdsBelow(n: Node, k: nat) {
    forall id :: id in n.table ==> id < k
  }

  function RankAt(n: Node, id: nat): int {
    if id in n.table then n.table[id].Rank(n.world) else 0
  }

  lemma {:induction false} OneRankChanges(n: Node, n': Node, sid: nat, k: nat)
    requires forall id: nat :: id != sid && id < k ==> RankAt(n', id) == RankAt(n, id)
    ensures TotalRank(n', k) - TotalRank(n, k) == if sid < k then RankAt(n', sid) - RankAt(n, sid) else 0
  {
    if k > 0 {
      OneRankChanges(n, n', sid, k - 1);
      assert k - 1 != sid ==> RankAt(n', k - 1) == RankAt(n, k - 1);
    }
  }

  lemma RankIsPositive(s: SessionState, w: World)
    requires s.Waiting(w) && !s.Final()
    ensures s.Rank(w) >= 1
  {
  }

  lemma {:induction false} MeasureIsNatural(n: Node, k: nat)
    requires TableKept(n)
    ensures TotalRank(n, k) >= 0
  {
    if k > 0 {
      MeasureIsNatural(n, k - 1);
      if k - 1 in n.table {
        RankIsPositive(n.table[k - 1], n.world);
      }
    }
  }

  /** A timer for a session that is gone only leaves the set of running timers. */
  lemma OrphanTimerDescends(c: Config, n: Node, i: Input, k: nat)
    requires Invariant(n) && Possible(n, i) && i.e.TimerFired? && i.e.sid !in n.table
    ensures Process(c, n, i) == Node(n.table, Fire(n.world, i.e.id))
    ensures Measure(Process(c, n, i), k) < Measure(n, k)
  {
    hide SessionState.Kept, SessionState.Waiting, SessionState.Rank, ValidWorld, BooksBalance;
    var n' := Process(c, n, i);
    FireCount(n.world, i.e.id);
    ValidFire(n, i.e);
    DrawStep(n'.world, 0, i.e.sid, Other);
    forall id | id in n.table
      ensures n.table[id].Rank(n'.world) == n.table[id].Rank(n.world)
    {
      OthersKeep(n, i.e, n'.world, i.e.sid, {}, {}, n.table[id]);
    }
    OneRankChanges(n, n', i.e.sid, k);
  }

  lemma ValidFire(n: Node, e: Event)
    requires ValidWorld(n.world)
    ensures ValidWorld(Before(n, e))
  {
  }

  /** The session that gets a timer comes nearer to its end. */
  lemma FiredSession(c: Config, n: Node, i: Input)
    requires Invariant(n) && Possible(n, i) && i.e.TimerFired? && i.e.sid in n.table
    ensures var n' := Process(c, n, i);
            && (forall id :: id != i.e.sid ==> (id in n'.table <==> id in n.table))
            && (forall id :: id != i.e.sid && id in n.table ==> n'.table[id] == n.table[id])
            && 2 * RankAt(n', i.e.sid) + |n'.world.armed| < 2 * RankAt(n, i.e.sid) + |n.world.armed|
  {
    hide SessionState.Kept, SessionState.Waiting, SessionState.Rank, SessionState.Step, SessionState.Held, ValidWorld, BooksBalance;
    AddressedIsKept(c, n, i);
    StepWaits(n.table[i.e.sid], n, i.e, i.o);
    var r := n.table[i.e.sid].Step(Before(n, i.e), i.e, i.o);
    FinalRank(r.0, r.1);
    FiredIsKept(n.table[i.e.sid], n, i.e);
    StepKeeps(n.table[i.e.sid], Before(n, i.e), i.e, i.o);
  }

  /** The others are as far from theirs as they were. */
  lemma OtherRanks(c: Config, n: Node, i: Input, id: nat)
    requires Invariant(n) && Possible(n, i) && i.e.TimerFired? && i.e.sid in n.table && id in n.table && id != i.e.sid
    ensures n.table[id].Rank(Process(c, n, i).world) == n.table[id].Rank(n.world)
  {
    hide SessionState.Kept, SessionState.Waiting, SessionState.Rank, SessionState.Step, SessionState.Held, Exchanges;
    hide ValidWorld, BooksBalance;
    AddressedIsKept(c, n, i);
    var s, w := n.table[i.e.sid], Before(n, i.e);
    FiredIsKept(s, n, i.e);
    StepKeeps(s, w, i.e, i.o);
    var r := s.Step(w, i.e, i.o);
    OthersKeep(n, i.e, r.1, i.e.sid, s.Held(), r.0.Held(), n.table[id]);
  }

  /** Every timer that fires brings the node nearer to being empty. */
  lemma TimerDescends(c: Config, n: Node, i: Input, k: nat)
    requires Invariant(n) && Possible(n, i) && i.e.TimerFired? && IdsBelow(n, k)
    ensures IdsBelow(Process(c, n, i), k) && Measure(Process(c, n, i), k) < Measure(n, k)
  {
    hide Process, Invariant, Possible, SessionState.Rank;
    if i.e.sid !in n.table {
      OrphanTimerDescends(c, n, i, k);
    } else {
      FiredSession(c, n, i);
      var n' := Process(c, n, i);
      forall id: nat | id != i.e.sid && id < k
        ensures RankAt(n', id) == RankAt(n, id)
      {
        if id in n.table {
          OtherRanks(c, n, i, id);
        }
      }
      OneRankChanges(n, n', i.e.sid, k);
    }
  }

  lemma FinalRank(s: SessionState, w: World)
    ensures s.Final() ==> s.Rank(w) == 0
  {
  }

  ghost predicate OnlyTimers(inputs: seq<Input>) {
    forall k :: 0 <= k < |inputs| ==> inputs[k].e.TimerFired?
  }

  lemma {:induction false} TimersDescend(c: Config, n: Node, inputs: seq<Input>, k: nat)
    requires Invariant(n) && Feasible(c, n, inputs) && OnlyTimers(inputs) && IdsBelow(n, k)
    ensures |inputs| + Measure(Run(c, n, inputs), k) <= Measure(n, k)
    decreases |inputs|
  {
    hide TableKept, BooksBalance, ValidWorld, Process, TotalRank;
    if inputs != [] {
      ProcessKeeps(c, n, inputs[0]);
      TimerDescends(c, n, inputs[0], k);
      TimersDescend(c, Process(c, n, inputs[0]), inputs[1..], k);
    }
  }

  /** A session that is stored always has a timer running that it is waiting for. */
  lemma SessionsWait(n: Node, id: nat)
    requires Invariant(n) && id in n.table
    ensures exists t :: ArmedFor(n.world, t, id) && !Stale(n.table[id], t)
  {
    match n.table[id]
    case NI(s) =>
      assert ArmedFor(n.world, s.responseTimer, id) || ArmedFor(n.world, s.refreshTimer, id);
    case NF(s) =>
      assert ArmedFor(n.world, s.stateTimer, id) || ArmedFor(n.world, s.responseTimer, id);
    case NR(s) =>
      assert ArmedFor(n.world, s.stateTimer, id);
  }

  /** What the configuration gives a session: retries and hops, or the longest lifetime it may have. */
  predicate Provisioned(c: Config, s: SessionState) {
    match s
    case NI(ni) => ni.maxRetries == c.maxRetries && ni.hops == c.hops
    case NF(nf) => nf.limit == c.nfLimit && (nf.phase != CLOSE ==> nf.maxLifetime == nf.responseTimeout == c.nfLimit)
    case NR(nr) => nr.maxLifetime == c.nrLimit
  }

  /** The timer that it is waiting for: after a message without an answer, a timeout; else a refresh, or the end. */
  ghost predicate Timed(s: SessionState, w: World) {
    match s
    case NI(ni) =>
      var response, refresh := Armed(ni.sid, ni.responseTimeout), Armed(ni.sid, ni.refreshInterval);
      || (ni.responseTimer in w.armed && w.armed[ni.responseTimer] == response)
      || (ni.phase == METERING && ni.refreshTimer in w.armed && w.armed[ni.refreshTimer] == refresh)
    case NF(nf) =>
      || ArmedFor(w, nf.stateTimer, nf.sid)
      || (nf.phase == METERING && nf.responseTimer in w.armed && w.armed[nf.responseTimer] == Armed(nf.sid, nf.responseTimeout))
    case NR(nr) =>
      nr.stateTimer in w.armed && w.armed[nr.stateTimer] == Armed(nr.sid, nr.lifetime)
  }

  lemma StepProvisions(c: Config, s: SessionState, w: World, e: Event, o: Oracle)
    requires Provisioned(c, s)
    ensures Provisioned(c, s.Step(w, e, o).0)
  {
    hide Taken, Left, InstallAll, Installed, Removed, Owned;
    match s
    case NI(ni) => Initiator.StepKeepsRetries(ni, w, e, o);
    case NF(nf) => assert Forwarder.Step(nf, w, e, o).0.limit == nf.limit;
    case NR(nr) => assert Responder.Step(nr, w, e, o).0.maxLifetime == nr.maxLifetime;
  }

  ghost predicate AllProvisioned(c: Config, n: Node) {
    forall id :: id in n.table ==> Provisioned(c, n.table[id])
  }

  lemma AddressedIsProvisioned(c: Config, n: Node, i: Input)
    requires AllProvisioned(c, n) && Addressed(c, n, i).Some?
    ensures Provisioned(c, Addressed(c, n, i).value)
  {
  }

  lemma ProcessProvisions(c: Config, n: Node, i: Input)
    requires AllProvisioned(c, n)
    ensures AllProvisioned(c, Process(c, n, i))
  {
    hide Provisioned, SessionState.Step, SessionState.Sid, SessionState.Final, Before, Addressed;
    if Addressed(c, n, i).Some? {
      AddressedIsProvisioned(c, n, i);
      StepProvisions(c, Addressed(c, n, i).value, Before(n, i.e), i.e, i.o);
    }
  }

  lemma {:induction false} RunProvisions(c: Config, n: Node, inputs: seq<Input>)
    requires AllProvisioned(c, n)
    ensures AllProvisioned(c, Run(c, n, inputs))
    decreases |inputs|
  {
    hide Process, AllProvisioned;
    if inputs != [] {
      ProcessProvisions(c, n, inputs[0]);
      RunProvisions(c, Process(c, n, inputs[0]), inputs[1..]);
    }
  }

  /** After any run, every session is provisioned as configured, and its timer runs as long as it should. */
  lemma SessionsAreTimed(c: Config, inputs: seq<Input>, id: nat)
    requires Feasible(c, EMPTY, inputs) && id in Run(c, EMPTY, inputs).table
    ensures var n := Run(c, EMPTY, inputs); Provisioned(c, n.table[id]) && Timed(n.table[id], n.world)
  {
    EmptyNodeKept();
    RunKeeps(c, EMPTY, inputs);
    RunProvisions(c, EMPTY, inputs);
    var n := Run(c, EMPTY, inputs);
    assert TableKept(n) && n.table[id].Waiting(n.world) && !n.table[id].Final();
  }

  /**
   * Soft state. If nothing but timers happens from some moment on, only so many timers can fire as
   * the measure of the node says, and when none is left to fire, no session is left.
   */
  lemma SoftStateEnds(c: Config, n: Node, inputs: seq<Input>, k: nat)
    requires Invariant(n) && Feasible(c, n, inputs) && OnlyTimers(inputs) && IdsBelow(n, k)
    ensures |inputs| <= Measure(n, k)
    ensures Run(c, n, inputs).world.armed == map[] ==> Run(c, n, inputs).table == map[]
  {
    TimersDescend(c, n, inputs, k);
    RunKeeps(c, n, inputs);
    var n' := Run(c, n, inputs);
    MeasureIsNatural(n', k);
    if n'.world.armed == map[] {
      forall id | id in n'.table
        ensures false
      {
        SessionsWait(n', id);
      }
    }
  }
}
