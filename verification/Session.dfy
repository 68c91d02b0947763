/** What the three kinds of session share: messages, events, timers and the services of the dispatcher. */
module Session {
  import opened Bytes
  import opened Options
  import opened Serial
  import opened PolicyRule

  datatype Phase = CLOSE | PENDING | METERING

  datatype Role = Initiator | Forwarder | Receiver

  datatype Body =
    | Configure(lifetime: nat, msn: Serial, sme: nat, hops: nat, objs: seq<MeteringObject>)
    | Refresh(lifetime: nat, msn: Serial)
    | Response(success: bool, rmsn: Option<Serial>, lifetime: nat)
    | Other   // NOTIFY and OPTIONS
  {
    function Msn(): Option<Serial> {
      if Configure? || Refresh? then Some(msn) else if Response? then rmsn else None
    }
  }

  datatype Message = Message(sid: nat, body: Body)

  datatype Event =
    | ApiConfigure(lifetime: nat, sme: nat, objs: seq<MeteringObject>, jitter: nat, seed: Serial)
    | ApiTeardown(sid: nat)
    | TimerFired(sid: nat, id: nat)
    | NoNextNode(sid: nat)
    | RouteBad(sid: nat)
    | Received(sid: nat, body: Body, forThisNode: bool)
    | Unparsable(sid: nat)
    | RoutingQuery(sid: nat)

  datatype Armed = Armed(sid: nat, seconds: nat)

  /** The dispatcher's surroundings: timers that run, keys drawn, the metering process, messages sent. */
  datatype World = World(nextTimer: nat, armed: map<nat, Armed>, nextKey: nat, meter: Meter, sent: seq<Message>)

  /** Timer ids are never reused, and never 0, which means "stopped". */
  ghost predicate ValidWorld(w: World) {
    && 1 <= w.nextTimer
    && (forall id :: id in w.armed ==> 1 <= id < w.nextTimer)
    && w.meter.refused <= w.meter.installed
    && (forall c :: c in w.meter.installed ==> c.key.nr < w.nextKey)
  }

  predicate ArmedFor(w: World, id: nat, sid: nat) {
    id in w.armed && w.armed[id].sid == sid
  }

  /** If this timer runs, it was started for so many seconds. */
  predicate Lasts(w: World, id: nat, seconds: nat) {
    id in w.armed ==> w.armed[id].seconds == seconds
  }

  // ----- services; a timer that is started has the id w.nextTimer -----

  function StartTimer(w: World, sid: nat, seconds: nat): World {
    w.(nextTimer := w.nextTimer + 1, armed := w.armed[w.nextTimer := Armed(sid, seconds)])
  }

  /** The timer module delivers a timer that runs, and forgets it. */
  function Fire(w: World, id: nat): World {
    w.(armed := w.armed - {id})
  }

  lemma FireCount(w: World, id: nat)
    requires id in w.armed
    ensures |Fire(w, id).armed| == |w.armed| - 1
  {
    assert w.armed == Fire(w, id).armed[id := w.armed[id]];
  }

  lemma StartCount(w: World, sid: nat, seconds: nat)
    requires ValidWorld(w)
    ensures |StartTimer(w, sid, seconds).armed| == |w.armed| + 1
  {
    assert w.nextTimer !in w.armed;
  }

  function Send(w: World, sid: nat, body: Body): World {
    w.(sent := w.sent + [Message(sid, body)])
  }

  /** install_policy_rules */
  function Install(o: Oracle, w: World, rule: Rule): World {
    w.(meter := Installed(w.meter, InstallAll(o, rule.objects)))
  }

  /** The sessions remove a rule only when it has commands. */
  function Uninstall(o: Oracle, w: World, rule: Rule): World {
    if rule.commands == [] then w else w.(meter := Removed(o, w.meter, rule))
  }

  // ----- utilities of class session -----

  const SME_ALL := 1
  const SME_ANY := 2
  const SME_FIRST := 3
  const SME_LAST := 4
  const SME_FIRST_LAST := 5

  predicate Participates(role: Role, sme: nat) {
    match role
    case Initiator => sme in {SME_ALL, SME_ANY, SME_FIRST, SME_FIRST_LAST}
    case Forwarder => sme in {SME_ALL, SME_ANY}
    case Receiver => sme in {SME_ALL, SME_ANY, SME_FIRST_LAST, SME_LAST}
  }

  /** check_lifetime, whose exception makes every caller fall back on the limit. */
  function Clipped(lifetime: nat, limit: nat): (r: nat)
    ensures r <= lifetime && r <= limit && (r == lifetime || r == limit)
  {
    if lifetime > limit then limit else lifetime
  }

  /** The objects that this node takes, under fresh keys. */
  function Taken(o: Oracle, takes: bool, sid: nat, nextKey: nat, objs: seq<MeteringObject>): seq<Target>
    decreases |objs|
  {
    if objs == [] then []
    else if takes && o.check(objs[0]) then
      [Target(RuleKey(sid, nextKey), objs[0])] + Taken(o, takes, sid, nextKey + 1, objs[1..])
    else Taken(o, takes, sid, nextKey, objs[1..])
  }

  /** The objects that it leaves to others, in their order. */
  function Left(o: Oracle, takes: bool, objs: seq<MeteringObject>): seq<MeteringObject> {
    if objs == [] then []
    else if takes && o.check(objs[0]) then Left(o, takes, objs[1..])
    else [objs[0]] + Left(o, takes, objs[1..])
  }

  function ErrorTo(request: Body): Body {
    Response(false, request.Msn(), 0)
  }

  function SuccessTo(request: Body, lifetime: nat): Body {
    Response(true, request.Msn(), lifetime)
  }

  /** is_mnslp_response: without a request that has a number, nothing matches. */
  predicate Answers(e: Event, request: Option<Body>) {
    && e.Received? && e.body.Response?
    && request.Some? && request.value.Msn().Some?
    && e.body.rmsn == request.value.Msn()
  }

  // ----- what taking and leaving conserve -----

  function Objects(ts: seq<Target>): seq<MeteringObject> {
    if ts == [] then [] else [ts[0].obj] + Objects(ts[1..])
  }

  /** No object is lost, and none is invented. */
  lemma {:induction false} TakenAndLeftAreAll(o: Oracle, takes: bool, sid: nat, nextKey: nat, objs: seq<MeteringObject>)
    ensures multiset(objs) == multiset(Objects(Taken(o, takes, sid, nextKey, objs))) + multiset(Left(o, takes, objs))
    ensures |Taken(o, takes, sid, nextKey, objs)| + |Left(o, takes, objs)| == |objs|
    decreases |objs|
  {
    if objs != [] {
      assert objs == [objs[0]] + objs[1..];
      if takes && o.check(objs[0]) {
        TakenAndLeftAreAll(o, takes, sid, nextKey + 1, objs[1..]);
      } else {
        TakenAndLeftAreAll(o, takes, sid, nextKey, objs[1..]);
      }
    }
  }

  /** A node takes what it accepts, under fresh keys of its own. */
  lemma {:induction false} TakenIsAccepted(o: Oracle, takes: bool, sid: nat, nextKey: nat, objs: seq<MeteringObject>, i: nat)
    requires i < |Taken(o, takes, sid, nextKey, objs)|
    ensures var t := Taken(o, takes, sid, nextKey, objs)[i];
            t.key == RuleKey(sid, nextKey + i) && takes && o.check(t.obj)
    decreases |objs|
  {
    if takes && o.check(objs[0]) {
      if i > 0 {
        TakenIsAccepted(o, takes, sid, nextKey + 1, objs[1..], i - 1);
      }
    } else {
      TakenIsAccepted(o, takes, sid, nextKey, objs[1..], i);
    }
  }

  /** What it leaves, it does not accept. */
  lemma {:induction false} LeftIsRefused(o: Oracle, takes: bool, objs: seq<MeteringObject>, i: nat)
    requires i < |Left(o, takes, objs)|
    ensures !(takes && o.check(Left(o, takes, objs)[i]))
    decreases |objs|
  {
    if takes && o.check(objs[0]) {
      LeftIsRefused(o, takes, objs[1..], i);
    } else if i > 0 {
      LeftIsRefused(o, takes, objs[1..], i - 1);
    }
  }

  // ----- the dispatcher's services, for sessions that are updated in place -----

  class Services {
    const installer: Installer
    var nextTimer: nat
    var armed: map<nat, Armed>
    var nextKey: nat
    var sent: seq<Message>

    constructor ()
      ensures fresh(installer) && View() == World(1, map[], 0, Meter({}, {}), [])
    {
      installer := new Installer();
      nextTimer, armed, nextKey, sent := 1, map[], 0, [];
    }

    function View(): World
      reads this, installer
    {
      World(nextTimer, armed, nextKey, installer.meter, sent)
    }

    /** timer::start and timer::restart keep the id that is returned; timer::stop keeps 0. */
    method Start(sid: nat, seconds: nat) returns (id: nat)
      modifies this`nextTimer, this`armed
      ensures id == old(nextTimer) && View() == StartTimer(old(View()), sid, seconds)
    {
      id := nextTimer;
      armed := armed[id := Armed(sid, seconds)];
      nextTimer := nextTimer + 1;
    }

    method SendMessage(sid: nat, body: Body)
      modifies this`sent
      ensures View() == Send(old(View()), sid, body)
    {
      sent := sent + [Message(sid, body)];
    }

    method InstallPolicyRules(o: Oracle, rule: Rule) returns (result: Rule)
      modifies installer
      ensures result == InstallAll(o, rule.objects) && View() == Install(o, old(View()), rule)
    {
      result := installer.Install(o, rule.objects);
    }

    /** The sessions' guard, and the dispatcher's test, which never fails. */
    method RemovePolicyRules(o: Oracle, rule: Rule)
      modifies installer
      ensures View() == Uninstall(o, old(View()), rule)
    {
      if |rule.commands| > 0 {
        var keys, issued := installer.Remove(o, rule);
        assert |keys| == |rule.commands|;
      }
    }

    /** The loop over the objects of a request: this node's, under fresh keys, and the others. */
    method Split(o: Oracle, takes: bool, sid: nat, objs: seq<MeteringObject>)
      returns (mine: seq<Target>, missing: seq<MeteringObject>)
      modifies this`nextKey
      ensures mine == Taken(o, takes, sid, old(nextKey), objs) && missing == Left(o, takes, objs)
      ensures View() == old(View()).(nextKey := old(nextKey) + |mine|)
    {
      hide Taken, Left;
      mine, missing := [], [];
      TakenNothing(o, takes, sid, nextKey, objs);
      for i := 0 to |objs|
        invariant mine + Taken(o, takes, sid, nextKey, objs[i..]) == Taken(o, takes, sid, old(nextKey), objs)
        invariant missing + Left(o, takes, objs[i..]) == Left(o, takes, objs)
        invariant nextKey == old(nextKey) + |mine|
      {
        SplitStep(o, takes, sid, nextKey, objs, i);
        if takes && o.check(objs[i]) {
          var t := Target(RuleKey(sid, nextKey), objs[i]);
          Assoc(mine, [t], Taken(o, takes, sid, nextKey + 1, objs[i + 1..]));
          mine := mine + [t];
          nextKey := nextKey + 1;
        } else {
          Assoc(missing, [objs[i]], Left(o, takes, objs[i + 1..]));
          missing := missing + [objs[i]];
        }
      }
      TakenNothing(o, takes, sid, nextKey, objs);
      assert mine + [] == mine && missing + [] == missing;
    }
  }

  lemma TakenNothing(o: Oracle, takes: bool, sid: nat, key: nat, objs: seq<MeteringObject>)
    ensures Taken(o, takes, sid, key, objs[|objs|..]) == [] && Left(o, takes, objs[|objs|..]) == []
    ensures objs[0..] == objs
  {
  }

  lemma SplitStep(o: Oracle, takes: bool, sid: nat, key: nat, objs: seq<MeteringObject>, i: nat)
    requires i < |objs|
    ensures Taken(o, takes, sid, key, objs[i..]) ==
            if takes && o.check(objs[i]) then [Target(RuleKey(sid, key), objs[i])] + Taken(o, takes, sid, key + 1, objs[i + 1..])
            else Taken(o, takes, sid, key, objs[i + 1..])
    ensures Left(o, takes, objs[i..]) ==
            if takes && o.check(objs[i]) then Left(o, takes, objs[i + 1..]) else [objs[i]] + Left(o, takes, objs[i + 1..])
  {
    assert objs[i..][0] == objs[i] && objs[i..][1..] == objs[i + 1..];
  }
}
