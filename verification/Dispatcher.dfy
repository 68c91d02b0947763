/** A node: the session table, the dispatcher that feeds it, and what holds over every run. */
module Dispatcher {
  import opened Options
  import opened PolicyRule
  import opened Session
  import opened Ledger
  import Initiator
  import Forwarder
  import Responder

  datatype SessionState = NI(ni: Initiator.Ni) | NF(nf: Forwarder.Nf) | NR(nr: Responder.Nr) {
    function Sid(): nat { if NI? then ni.sid else if NF? then nf.sid else nr.sid }
    function Phase(): Phase { if NI? then ni.phase else if NF? then nf.phase else nr.phase }

    /** is_final */
    predicate Final() { Phase() == CLOSE }

    function Held(): set<Command> {
      if NI? then Initiator.Held(ni) else if NF? then Forwarder.Held(nf) else Responder.Held(nr)
    }

    ghost predicate Kept(w: World) {
      if NI? then Initiator.Kept(ni, w) else if NF? then Forwarder.Kept(nf, w) else Responder.Kept(nr, w)
    }

    ghost predicate Waiting(w: World) {
      if NI? then Initiator.Waiting(ni, w) else if NF? then Forwarder.Waiting(nf, w) else Responder.Waiting(nr, w)
    }

    function Rank(w: World): int {
      if NI? then Initiator.Rank(ni, w) else if NF? then Forwarder.Rank(nf, w) else Responder.Rank(nr, w)
    }

    function Step(w: World, e: Event, o: Oracle): (SessionState, World) {
      if NI? then var r := Initiator.Step(ni, w, e, o); (NI(r.0), r.1)
      else if NF? then var r := Forwarder.Step(nf, w, e, o); (NF(r.0), r.1)
      else var r := Responder.Step(nr, w, e, o); (NR(r.0), r.1)
    }
  }

  datatype Config = Config(maxRetries: nat, responseTimeout: nat, hops: nat, nfLimit: nat, nrLimit: nat)

  datatype Node = Node(table: map<nat, SessionState>, world: World)

  /** An event, the answers of the surroundings, and the id that create_unique_id would draw. */
  datatype Input = Input(e: Event, o: Oracle, freshId: nat)

  const EMPTY := Node(map[], World(1, map[], 0, Meter({}, {}), []))

  function IdOf(e: Event): Option<nat> {
    if e.ApiConfigure? then None else Some(e.sid)
  }

  /** create_session */
  function Create(c: Config, i: Input): Option<SessionState> {
    if i.e.ApiConfigure? then Some(NI(Initiator.NewNi(i.freshId, i.e.seed, c.responseTimeout, c.maxRetries, c.hops)))
    else if i.e.Received? && i.e.body.Configure? then
      if i.e.forThisNode then Some(NR(Responder.NewNr(i.e.sid, c.nrLimit)))
      else Some(NF(Forwarder.NewNf(i.e.sid, c.nfLimit)))
    else None
  }

  /** The session an event is for, stored or new. */
  function Addressed(c: Config, n: Node, i: Input): Option<SessionState> {
    var id := IdOf(i.e);
    if id.Some? && id.value in n.table then Some(n.table[id.value]) else Create(c, i)
  }

  /** The world when the event is processed: a timer that fired no longer runs. */
  function Before(n: Node, e: Event): World {
    if e.TimerFired? then Fire(n.world, e.id) else n.world
  }

  function Processed(n: Node, w: World, s: SessionState, i: Input): Node {
    var r := s.Step(w, i.e, i.o);
    Node(if r.0.Final() then n.table - {s.Sid()} else n.table[s.Sid() := r.0], r.1)
  }

  /** dispatcher::process */
  function Process(c: Config, n: Node, i: Input): Node {
    if i.e.RoutingQuery? then n
    else if i.e.Unparsable? then n.(world := Send(n.world, i.e.sid, ErrorTo(Other)))
    else
      var s := Addressed(c, n, i);
      if s.None? then n.(world := Before(n, i.e)) else Processed(n, Before(n, i.e), s.value, i)
  }

  /** What the surroundings guarantee: timers fire that run, ids are unique, `assert( r > 0 )` holds. */
  ghost predicate Possible(n: Node, i: Input) {
    && (i.e.TimerFired? ==> ArmedFor(n.world, i.e.id, i.e.sid))
    && (i.e.ApiConfigure? ==> i.freshId !in n.table && i.e.lifetime > 0)
  }

  function Run(c: Config, n: Node, inputs: seq<Input>): Node
    decreases |inputs|
  {
    if inputs == [] then n else Run(c, Process(c, n, inputs[0]), inputs[1..])
  }

  ghost predicate Feasible(c: Config, n: Node, inputs: seq<Input>)
    decreases |inputs|
  {
    inputs == [] || (Possible(n, inputs[0]) && Feasible(c, Process(c, n, inputs[0]), inputs[1..]))
  }

  // ----- the invariant -----

  /** Every stored session is under its own id, not final, and waits for a timer that runs. */
  ghost predicate TableKept(n: Node) {
    forall id :: id in n.table ==>
      && n.table[id].Sid() == id && !n.table[id].Final()
      && n.table[id].Kept(n.world) && n.table[id].Waiting(n.world)
  }

  /** The metering process holds exactly what the stored sessions hold, apart from refused removals. */
  ghost predicate BooksBalance(n: Node) {
    forall c: Command :: c in Live(n.world) <==> c.key.owner in n.table && c in n.table[c.key.owner].Held()
  }

  ghost predicate Invariant(n: Node) {
    ValidWorld(n.world) && TableKept(n) && BooksBalance(n)
  }

  // ----- one step -----

  lemma StepKeeps(s: SessionState, w: World, e: Event, o: Oracle)
    requires s.Kept(w)
    ensures var r := s.Step(w, e, o);
            && r.0.Sid() == s.Sid()
            && (r.0.NI? <==> s.NI?) && (r.0.NF? <==> s.NF?)
            && Exchanges(w, r.1, s.Sid(), s.Held(), r.0.Held())
            && (!r.0.Final() ==> r.0.Kept(r.1))
  {
    match s
    case NI(ni) => Initiator.StepKeeps(ni, w, e, o);
    case NF(nf) => Forwarder.StepKeeps(nf, w, e, o);
    case NR(nr) => Responder.StepKeeps(nr, w, e, o);
  }

  lemma HeldIsOwn(s: SessionState, w: World)
    requires s.Kept(w)
    ensures s.Held() <= Live(w) && forall c :: c in s.Held() ==> c.key.owner == s.Sid()
  {
  }

  lemma NewIsKept(c: Config, n: Node, i: Input)
    requires ValidWorld(n.world) && Create(c, i).Some?
    ensures var s := Create(c, i).value;
            && s.Kept(n.world) && s.Waiting(n.world) && s.Final() && s.Held() == {} && !i.e.TimerFired?
            && s.Sid() == if i.e.ApiConfigure? then i.freshId else i.e.sid
  {
  }

  /** The timer that is delivered belongs to the session that gets it. */
  ghost predicate ForSession(w: World, e: Event, sid: nat) {
    e.TimerFired? ==> e.sid == sid && ArmedFor(w, e.id, sid)
  }

  lemma FiredIsKept(s: SessionState, n: Node, e: Event)
    requires s.Kept(n.world)
    ensures s.Kept(Before(n, e))
  {
    hide Owned;
  }

  /** Timers: the session goes on waiting, and a timer that fires brings its end nearer. */
  lemma StepWaits(s: SessionState, n: Node, e: Event, o: Oracle)
    requires s.Kept(n.world) && s.Waiting(n.world) && ForSession(n.world, e, s.Sid())
    requires e.TimerFired? ==> !s.Final()
    ensures var r := s.Step(Before(n, e), e, o);
            && (!r.0.Final() ==> r.0.Waiting(r.1))
            && (e.TimerFired? ==> 0 <= r.0.Rank(r.1) && 2 * r.0.Rank(r.1) + |r.1.armed| < 2 * s.Rank(n.world) + |n.world.armed|)
  {
    hide Initiator.Step, Forwarder.Step, Responder.Step, Initiator.Waiting, Forwarder.Waiting, Responder.Waiting;
    hide Initiator.Rank, Forwarder.Rank, Responder.Rank, Owned, RuleKept;
    match s
    case NI(ni) =>
      if e.TimerFired? { Initiator.TimerDescends(ni, n.world, e.id, o); }
      else { Initiator.OtherEventsKeepWaiting(ni, n.world, e, o); }
    case NF(nf) =>
      if e.TimerFired? { Forwarder.TimerDescends(nf, n.world, e.id, o); }
      else { Forwarder.OtherEventsKeepWaiting(nf, n.world, e, o); }
    case NR(nr) =>
      if e.TimerFired? { Responder.TimerDescends(nr, n.world, e.id, o); }
      else { Responder.OtherEventsKeepWaiting(nr, n.world, e, o); }
  }

  /** The other sessions do not notice. */
  lemma OthersKeep(n: Node, e: Event, w': World, sid: nat, held: set<Command>, held': set<Command>, s: SessionState)
    requires ForSession(n.world, e, sid) && Exchanges(Before(n, e), w', sid, held, held')
    requires s.Sid() != sid && !s.Final() && s.Kept(n.world) && s.Waiting(n.world)
    ensures s.Kept(w') && s.Waiting(w') && s.Rank(w') == s.Rank(n.world)
  {
    FiredIsKept(s, n, e);
    OthersKept(Before(n, e), w', sid, held, held', s.Sid(), s.Phase(),
               if s.NI? then s.ni.rule else if s.NF? then s.nf.rule else s.nr.rule);
  }

  /** What Addressed returns is the stored session, or a new one that is not in the table yet. */
  lemma AddressedIsKept(c: Config, n: Node, i: Input)
    requires Invariant(n) && Possible(n, i) && !i.e.RoutingQuery? && !i.e.Unparsable? && Addressed(c, n, i).Some?
    ensures var s := Addressed(c, n, i).value;
            && s.Kept(n.world) && s.Waiting(n.world) && ForSession(n.world, i.e, s.Sid())
            && (i.e.TimerFired? ==> !s.Final())
            && (s.Sid() in n.table ==> s == n.table[s.Sid()])
            && (s.Sid() !in n.table ==> s.Final() && s.Held() == {})
            && (s.Final() ==> s.Sid() !in n.table && (i.e.ApiConfigure? || (i.e.Received? && i.e.body.Configure?)))
  {
    hide Owned, RuleKept, Initiator.Waiting, Forwarder.Waiting, Responder.Waiting, Initiator.Kept, Forwarder.Kept;
    var id := IdOf(i.e);
    if !(id.Some? && id.value in n.table) {
      NewIsKept(c, n, i);
    }
  }

  lemma FinalHoldsNothing(s: SessionState)
    requires s.Final()
    ensures s.Held() == {}
  {
  }

  lemma ProcessedBalances(c: Config, n: Node, i: Input)
    requires Invariant(n) && Possible(n, i) && !i.e.RoutingQuery? && !i.e.Unparsable? && Addressed(c, n, i).Some?
    ensures BooksBalance(Process(c, n, i)) && ValidWorld(Process(c, n, i).world)
  {
    var s, w := Addressed(c, n, i).value, Before(n, i.e);
    AddressedIsKept(c, n, i);
    FiredIsKept(s, n, i.e);
    StepKeeps(s, w, i.e, i.o);
    var r := s.Step(w, i.e, i.o);
    HeldIsOwn(s, n.world);
    if r.0.Final() {
      FinalHoldsNothing(r.0);
    } else {
      HeldIsOwn(r.0, r.1);
    }
    assert Live(w) == Live(n.world);
    var n' := Process(c, n, i);
    hide SessionState.Kept, SessionState.Waiting, SessionState.Held, SessionState.Step;
    forall x: Command
      ensures x in Live(n'.world) <==> x.key.owner in n'.table && x in n'.table[x.key.owner].Held()
    {
    }
  }

  lemma ProcessedTableKept(c: Config, n: Node, i: Input)
    requires Invariant(n) && Possible(n, i) && !i.e.RoutingQuery? && !i.e.Unparsable? && Addressed(c, n, i).Some?
    ensures TableKept(Process(c, n, i))
  {
    hide SessionState.Kept, SessionState.Waiting, SessionState.Held, SessionState.Step, Exchanges, Before, Addressed;
    hide SessionState.Final, SessionState.Sid, ForSession, BooksBalance, ValidWorld, Possible;
    var s, w := Addressed(c, n, i).value, Before(n, i.e);
    AddressedIsKept(c, n, i);
    FiredIsKept(s, n, i.e);
    StepKeeps(s, w, i.e, i.o);
    StepWaits(s, n, i.e, i.o);
    var r := s.Step(w, i.e, i.o);
    var n' := Process(c, n, i);
    forall id | id in n'.table && id != s.Sid()
      ensures n'.table[id].Sid() == id && !n'.table[id].Final()
      ensures n'.table[id].Kept(n'.world) && n'.table[id].Waiting(n'.world)
    {
      OthersKeep(n, i.e, r.1, s.Sid(), s.Held(), r.0.Held(), n.table[id]);
    }
  }

  /** An event that no session takes, or a message that is only answered. */
  lemma UnaddressedKeeps(n: Node, e: Event, w': World)
    requires Invariant(n) && (e.TimerFired? ==> ArmedFor(n.world, e.id, e.sid)) && !e.ApiConfigure? && e.sid !in n.table
    requires w' == Before(n, e)
    ensures Invariant(n.(world := w'))
  {
    hide SessionState.Kept, SessionState.Waiting, SessionState.Held;
    DrawStep(w', 0, e.sid, Other);
    forall id | id in n.table
      ensures n.table[id].Kept(w') && n.table[id].Waiting(w')
    {
      OthersKeep(n, e, w', e.sid, {}, {}, n.table[id]);
    }
  }

  lemma SendKeeps(n: Node, sid: nat, body: Body)
    requires Invariant(n)
    ensures Invariant(n.(world := Send(n.world, sid, body)))
  {
    var w' := Send(n.world, sid, body);
    forall id | id in n.table
      ensures n.table[id].Kept(w') && n.table[id].Waiting(w')
    {
      SessionSendKeeps(n.table[id], n.world, sid, body);
    }
  }

  lemma SessionSendKeeps(s: SessionState, w: World, sid: nat, body: Body)
    requires s.Kept(w) && s.Waiting(w)
    ensures s.Kept(Send(w, sid, body)) && s.Waiting(Send(w, sid, body))
  {
    hide Owned;
  }

  /** The invariant survives every event, whatever the metering process and the network answer. */
  lemma ProcessKeeps(c: Config, n: Node, i: Input)
    requires Invariant(n) && Possible(n, i)
    ensures Invariant(Process(c, n, i))
  {
    hide TableKept, BooksBalance, ValidWorld, SessionState.Step;
    if i.e.Unparsable? {
      SendKeeps(n, i.e.sid, ErrorTo(Other));
    } else if !i.e.RoutingQuery? {
      if Addressed(c, n, i).None? {
        UnaddressedKeeps(n, i.e, Before(n, i.e));
      } else {
        ProcessedBalances(c, n, i);
        ProcessedTableKept(c, n, i);
      }
    }
  }

  lemma {:induction false} RunKeeps(c: Config, n: Node, inputs: seq<Input>)
    requires Invariant(n) && Feasible(c, n, inputs)
    ensures Invariant(Run(c, n, inputs))
    decreases |inputs|
  {
    if inputs != [] {
      ProcessKeeps(c, n, inputs[0]);
      RunKeeps(c, Process(c, n, inputs[0]), inputs[1..]);
    }
  }

  // ----- the dispatcher and its table, updated in place; the sessions in it are values here -----

  class NodeDispatcher {
    const config: Config
    var table: map<nat, SessionState>
    var world: World

    constructor (config: Config)
      ensures this.config == config && View() == EMPTY
    {
      this.config := config;
      table, world := EMPTY.table, EMPTY.world;
    }

    function View(): Node
      reads this
    {
      Node(table, world)
    }

    /** Draws random ids until one is free; the draws are given, and one of them is. */
    method CreateUniqueId(draws: seq<nat>) returns (id: nat)
      requires exists k :: 0 <= k < |draws| && draws[k] !in table
      ensures id !in table && exists k :: 0 <= k < |draws| && id == draws[k] && forall j :: 0 <= j < k ==> draws[j] in table
    {
      var k := 0;
      id := draws[0];
      while id in table
        invariant 0 <= k < |draws| && id == draws[k]
        invariant forall j :: 0 <= j < k ==> draws[j] in table
        decreases |draws| - k
      {
        k := k + 1;
        id := draws[k];
      }
    }

    /** process: look the session up, or create it; run it; remove it when it is final. */
    method ProcessEvent(i: Input)
      modifies this
      ensures View() == Process(config, old(View()), i)
    {
      hide SessionState.Step, Create;
      if i.e.RoutingQuery? {
        return;
      }
      if i.e.Unparsable? {
        world := Send(world, i.e.sid, ErrorTo(Other));
        return;
      }
      var s: Option<SessionState> := None;
      var id := IdOf(i.e);
      if id.Some? && id.value in table {
        s := Some(table[id.value]);
      }
      if s.None? {
        s := Create(config, i);
      }
      if i.e.TimerFired? {
        world := Fire(world, i.e.id);
      }
      if s.Some? {
        var r := s.value.Step(world, i.e, i.o);
        world := r.1;
        table := table[s.value.Sid() := r.0];
        if r.0.Final() {
          table := table - {s.value.Sid()};
          RemovedAgain(old(table), s.value.Sid(), r.0);
        }
      }
    }
  }

  lemma RemovedAgain(t: map<nat, SessionState>, id: nat, s: SessionState)
    ensures t[id := s] - {id} == t - {id}
  {
  }
}
