/** The NI session: sends the CONFIGURE, refreshes the session, and retries. */
module Initiator {
  import opened Options
  import opened Serial
  import opened PolicyRule
  import opened Session
  import opened Ledger

  datatype Ni = Ni(sid: nat, phase: Phase, lifetime: nat, refreshInterval: nat, responseTimeout: nat,
                   maxRetries: nat, configureCounter: nat, refreshCounter: nat, msn: Serial, hops: nat,
                   lastConfigure: Option<Body>, lastRefresh: Option<Body>,
                   responseTimer: nat, refreshTimer: nat, rule: Rule)

  function NewNi(sid: nat, seed: Serial, responseTimeout: nat, maxRetries: nat, hops: nat): Ni {
    Ni(sid, CLOSE, 0, 20, responseTimeout, maxRetries, 0, 0, seed, hops, None, None, 0, 0, NO_RULE)
  }

  function CeilDiv(a: nat, b: nat): (q: nat)
    requires b > 0
    ensures b * q >= a && (q > 0 ==> b * (q - 1) < a)
  {
    (a + b - 1) / b
  }

  /** ceil(L / ((K + 0.5) * 1.5)) */
  function SetupInterval(lifetime: nat, maxRetries: nat): nat {
    CeilDiv(4 * lifetime, 3 * (2 * maxRetries + 1))
  }

  /** ceil((x / 1000 + 0.5) * r) for a random x below 1000 */
  function Timeout(jitter: nat, interval: nat): nat {
    CeilDiv((jitter % 1000 + 500) * interval, 1000)
  }

  /** cal_refresh_interval: a uint32 product, divided by 3. */
  function RefreshInterval(lifetime: nat): nat {
    lifetime * 2 % MODULUS / 3
  }

  // ----- the transition function -----

  /** setup_session, up to the objects that are missing. */
  function SetUp(s: Ni, w: World, e: Event, o: Oracle): (Ni, World)
    requires e.ApiConfigure?
  {
    var lifetime := if e.lifetime != 0 then e.lifetime else s.lifetime;
    var interval := SetupInterval(lifetime, s.maxRetries);
    var mine := Taken(o, Participates(Role.Initiator, e.sme), s.sid, w.nextKey, e.objs);
    (s.(lifetime := lifetime, refreshInterval := interval, responseTimeout := Timeout(e.jitter, interval),
        rule := s.rule.(objects := s.rule.objects + mine)),
     w.(nextKey := w.nextKey + |mine|))
  }

  /** build_configure_message, and what follows it. */
  function SendConfigure(s: Ni, w: World, e: Event, missing: seq<MeteringObject>): (Ni, World)
    requires e.ApiConfigure?
  {
    var msn := Next(s.msn);
    var configure := Configure(Clipped(s.lifetime, e.lifetime), msn, e.sme, s.hops, missing);
    var w1 := Send(w, s.sid, configure);
    (s.(phase := PENDING, msn := msn, lastConfigure := Some(configure), responseTimer := w1.nextTimer),
     StartTimer(w1, s.sid, s.responseTimeout))
  }

  function Close(s: Ni, w: World, e: Event, o: Oracle): (Ni, World) {
    if !e.ApiConfigure? then (s, w)
    else
      var r := SetUp(s, w, e, o);
      SendConfigure(r.0, r.1, e, Left(o, Participates(Role.Initiator, e.sme), e.objs))
  }

  /** Every way of ending a session that has sent a CONFIGURE says so with a REFRESH of lifetime 0. */
  function Teardown(s: Ni, w: World, o: Oracle): (Ni, World) {
    var msn := Next(s.msn);
    (s.(phase := CLOSE, lifetime := 0, msn := msn), Send(Uninstall(o, w, s.rule), s.sid, Refresh(0, msn)))
  }

  /** The lifetime that the path agreed on becomes the session's. */
  function Adopt(s: Ni, w: World, lifetime: nat): (Ni, World) {
    var s1 := if lifetime != s.lifetime then s.(lifetime := lifetime, refreshInterval := RefreshInterval(lifetime)) else s;
    (s1.(responseTimer := 0, refreshTimer := w.nextTimer), StartTimer(w, s.sid, s1.refreshInterval))
  }

  /** A matching, successful RESPONSE to the CONFIGURE. */
  function Confirmed(s: Ni, w: World, lifetime: nat, o: Oracle): (Ni, World) {
    var (s1, w1) := Adopt(s, w, lifetime);
    var result := InstallAll(o, s.rule.objects);
    var w2 := Install(o, w1, s.rule);
    if |result.objects| == |s.rule.objects| then (s1.(phase := METERING, configureCounter := 0, rule := result), w2)
    else Teardown(s1.(lastConfigure := None, rule := result), w2, o)   // the handler falls off its end here: taken as CLOSE
  }

  function Pending(s: Ni, w: World, e: Event, o: Oracle): (Ni, World) {
    if e.TimerFired? && e.id == s.responseTimer then
      if s.configureCounter < s.maxRetries then
        (s.(configureCounter := s.configureCounter + 1, responseTimer := w.nextTimer),
         StartTimer(if s.lastConfigure.Some? then Send(w, s.sid, s.lastConfigure.value) else w, s.sid, s.responseTimeout))
      else (s.(phase := CLOSE), w)
    else if e.NoNextNode? then (s.(phase := CLOSE), w)
    else if e.ApiTeardown? then Teardown(s.(lastConfigure := None), w, o)
    else if Answers(e, s.lastConfigure) then
      if e.body.success then Confirmed(s, w, e.body.lifetime, o) else (s.(phase := CLOSE), w)
    else (s, w)
  }

  function Metering(s: Ni, w: World, e: Event, o: Oracle): (Ni, World) {
    if e.TimerFired? && e.id == s.refreshTimer then
      var msn := Next(s.msn);
      var refresh := Refresh(s.lifetime, msn);
      (s.(msn := msn, lastRefresh := Some(refresh), refreshCounter := 0, responseTimer := w.nextTimer),
       StartTimer(Send(w, s.sid, refresh), s.sid, s.responseTimeout))
    else if e.TimerFired? && e.id == s.responseTimer then
      if s.refreshCounter < s.maxRetries then
        (s.(refreshCounter := s.refreshCounter + 1, responseTimer := w.nextTimer),
         StartTimer(if s.lastRefresh.Some? then Send(w, s.sid, s.lastRefresh.value) else w, s.sid, s.responseTimeout))
      else (s.(phase := CLOSE), Uninstall(o, w, s.rule))
    else if e.ApiTeardown? then Teardown(s.(lastRefresh := None), w, o)
    else if Answers(e, s.lastRefresh) then
      if e.body.success then
        (s.(responseTimer := 0, refreshTimer := w.nextTimer, refreshCounter := 0), StartTimer(w, s.sid, s.refreshInterval))
      else (s.(phase := CLOSE), Uninstall(o, w, s.rule))
    else (s, w)
  }

  /** process_event */
  function Step(s: Ni, w: World, e: Event, o: Oracle): (Ni, World) {
    match s.phase
    case CLOSE => Close(s, w, e, o)
    case PENDING => Pending(s, w, e, o)
    case METERING => Metering(s, w, e, o)
  }

  /** A session handles events until it is closed. */
  function Run(s: Ni, w: World, inputs: seq<(Event, Oracle)>): (Ni, World)
    decreases |inputs|
  {
    if inputs == [] || s.phase == CLOSE then (s, w)
    else
      var r := Step(s, w, inputs[0].0, inputs[0].1);
      Run(r.0, r.1, inputs[1..])
  }

  // ----- what every step keeps -----

  /** The commands this session holds in the metering process. */
  function Held(s: Ni): set<Command> {
    if s.phase == METERING then Owned(s.rule) else {}
  }

  /** The rule part of the invariant; a session that is new holds nothing. */
  ghost predicate Kept(s: Ni, w: World) {
    ValidWorld(w) && RuleKept(s.phase, s.rule, s.sid, w) && (s.phase == CLOSE ==> s.rule == NO_RULE)
  }

  ghost predicate KeepsBooks(s: Ni, w: World, r: (Ni, World)) {
    && r.0.sid == s.sid
    && Exchanges(w, r.1, s.sid, Held(s), Held(r.0))
    && (r.0.phase != CLOSE ==> Kept(r.0, r.1))
  }

  lemma TeardownKeeps(s: Ni, w: World, o: Oracle)
    requires ValidWorld(w) && OwnKeys(s.rule, s.sid, w) && Owned(s.rule) <= Live(w)
    ensures var r := Teardown(s, w, o);
            r.0.sid == s.sid && r.0.phase == CLOSE && Exchanges(w, r.1, s.sid, Owned(s.rule), {})
  {
    var v := Uninstall(o, w, s.rule);
    UninstallExchanges(o, w, s.sid, s.rule);
    SendExchanges(v, s.sid, Refresh(0, Next(s.msn)), {});
    Then(w, v, Teardown(s, w, o).1, s.sid, Owned(s.rule), {}, {});
  }

  lemma CloseKeeps(s: Ni, w: World, e: Event, o: Oracle)
    requires Kept(s, w) && s.phase == CLOSE
    ensures KeepsBooks(s, w, Close(s, w, e, o))
  {
    if e.ApiConfigure? {
      DrawKeys(o, Participates(Role.Initiator, e.sme), s.sid, w, s.rule, e.objs);
    }
  }

  lemma ConfirmedKeeps(s: Ni, w: World, lifetime: nat, o: Oracle)
    requires Kept(s, w) && s.phase == PENDING
    ensures KeepsBooks(s, w, Confirmed(s, w, lifetime, o))
  {
    var r := InstallAll(o, s.rule.objects);
    var seconds := if lifetime != s.lifetime then RefreshInterval(lifetime) else s.refreshInterval;
    var v := StartTimer(w, s.sid, seconds);
    var u := Install(o, v, s.rule);
    StartExchanges(w, s.sid, seconds, {});
    InstallExchanges(o, v, s.sid, s.rule.objects);
    Then(w, v, u, s.sid, {}, {}, Owned(r));
    if |r.objects| != |s.rule.objects| {
      var s2 := s.(rule := r);
      TeardownKeeps(s2, u, o);
      Then(w, u, Confirmed(s, w, lifetime, o).1, s.sid, {}, Owned(r), {});
    }
  }

  lemma PendingKeeps(s: Ni, w: World, e: Event, o: Oracle)
    requires Kept(s, w) && s.phase == PENDING
    ensures KeepsBooks(s, w, Pending(s, w, e, o))
  {
    assert Owned(s.rule) == {};
    if e.ApiTeardown? {
      TeardownKeeps(s.(lastConfigure := None), w, o);
    } else if Answers(e, s.lastConfigure) && e.body.success {
      ConfirmedKeeps(s, w, e.body.lifetime, o);
    }
  }

  lemma MeteringKeeps(s: Ni, w: World, e: Event, o: Oracle)
    requires Kept(s, w) && s.phase == METERING
    ensures KeepsBooks(s, w, Metering(s, w, e, o))
  {
    hide Exchanges, RuleKept, OwnKeys, StartTimer, Send, Uninstall, Owned, Teardown, Live;
    RuleIsOwn(s, w);
    if e.ApiTeardown? {
      TeardownKeeps(s.(lastRefresh := None), w, o);
    } else {
      var refreshed := e.TimerFired? && e.id == s.refreshTimer;
      var body := if refreshed || s.lastRefresh.None? then Refresh(s.lifetime, Next(s.msn)) else s.lastRefresh.value;
      QuietStep(w, s.sid, body, s.responseTimeout, METERING, s.rule);
      QuietStep(w, s.sid, body, s.refreshInterval, METERING, s.rule);
      ClosingStep(o, w, s.sid, body, s.rule);
    }
  }

  lemma RuleIsOwn(s: Ni, w: World)
    requires Kept(s, w) && s.phase == METERING
    ensures OwnKeys(s.rule, s.sid, w) && Owned(s.rule) <= Live(w)
  {
  }

  /** Whatever happens, a session exchanges what it held for what it holds; in CLOSE it holds nothing. */
  lemma StepKeeps(s: Ni, w: World, e: Event, o: Oracle)
    requires Kept(s, w)
    ensures KeepsBooks(s, w, Step(s, w, e, o))
  {
    match s.phase
    case CLOSE => CloseKeeps(s, w, e, o);
    case PENDING => PendingKeeps(s, w, e, o);
    case METERING => MeteringKeeps(s, w, e, o);
  }

  // ----- timers -----

  /** There is always a timer running that the session is waiting for, and it runs as long as it should. */
  ghost predicate Waiting(s: Ni, w: World) {
    && s.responseTimer < w.nextTimer && s.refreshTimer < w.nextTimer
    && s.configureCounter <= s.maxRetries && s.refreshCounter <= s.maxRetries
    && (s.phase == CLOSE ==> s.responseTimer == s.refreshTimer == 0)
    && (s.phase == PENDING ==>
          ArmedFor(w, s.responseTimer, s.sid) && s.lastConfigure.Some? && !ArmedFor(w, s.refreshTimer, s.sid))
    && (s.phase != CLOSE ==> Lasts(w, s.responseTimer, s.responseTimeout) && Lasts(w, s.refreshTimer, s.refreshInterval))
    && (s.phase == METERING ==>
          && (ArmedFor(w, s.responseTimer, s.sid) ==> s.lastRefresh.Some?)
          && ArmedFor(w, s.responseTimer, s.sid) != ArmedFor(w, s.refreshTimer, s.sid))
  }

  /** How many more timers it takes to end the session if nothing else happens. */
  function Rank(s: Ni, w: World): int {
    if s.phase == CLOSE then 0
    else if s.phase == PENDING then s.maxRetries - s.configureCounter + 1
    else if ArmedFor(w, s.responseTimer, s.sid) then s.maxRetries - s.refreshCounter + 1
    else s.maxRetries + 2
  }

  predicate Current(s: Ni, id: nat) {
    id == s.responseTimer || (s.phase == METERING && id == s.refreshTimer)
  }

  /** A timer that was stopped or restarted since changes nothing when it fires. */
  lemma StaleTimer(s: Ni, w: World, id: nat, o: Oracle)
    requires !Current(s, id)
    ensures Step(s, w, TimerFired(s.sid, id), o) == (s, w)
  {
  }

  lemma OtherEventsKeepWaiting(s: Ni, w: World, e: Event, o: Oracle)
    requires ValidWorld(w) && Waiting(s, w) && !e.TimerFired?
    ensures var r := Step(s, w, e, o);
            r.0.phase != CLOSE ==> Waiting(r.0, r.1)
  {
  }

  /** What a timer that fires makes of the session and the timers that run. */
  ghost predicate Nearer(s: Ni, w: World, r: (Ni, World)) {
    && (r.0.phase != CLOSE ==> Waiting(r.0, r.1))
    && 0 <= Rank(r.0, r.1)
    && 2 * Rank(r.0, r.1) + |r.1.armed| < 2 * Rank(s, w) + |w.armed|
  }

  lemma PendingDescends(s: Ni, w: World, id: nat, o: Oracle)
    requires ValidWorld(w) && Waiting(s, w) && s.phase == PENDING && ArmedFor(w, id, s.sid)
    ensures Nearer(s, w, Pending(s, Fire(w, id), TimerFired(s.sid, id), o))
  {
    hide Uninstall, Teardown, Confirmed;
    FireCount(w, id);
    StartCount(Fire(w, id), s.sid, s.responseTimeout);
  }

  lemma MeteringDescends(s: Ni, w: World, id: nat, o: Oracle)
    requires ValidWorld(w) && Waiting(s, w) && s.phase == METERING && ArmedFor(w, id, s.sid)
    ensures Nearer(s, w, Metering(s, Fire(w, id), TimerFired(s.sid, id), o))
  {
    hide Removed, Owned, Teardown;
    FireCount(w, id);
    StartCount(Fire(w, id), s.sid, s.responseTimeout);
  }

  /** Each current timer brings the end nearer, also counting the timers that are started. */
  lemma TimerDescends(s: Ni, w: World, id: nat, o: Oracle)
    requires ValidWorld(w) && Waiting(s, w) && s.phase != CLOSE && ArmedFor(w, id, s.sid)
    ensures var r := Step(s, Fire(w, id), TimerFired(s.sid, id), o);
            && (r.0.phase != CLOSE ==> Waiting(r.0, r.1))
            && 0 <= Rank(r.0, r.1)
            && 2 * Rank(r.0, r.1) + |r.1.armed| < 2 * Rank(s, w) + |w.armed|
  {
    hide Pending, Metering, Waiting, Rank, ArmedFor;
    if s.phase == PENDING {
      PendingDescends(s, w, id, o);
    } else {
      MeteringDescends(s, w, id, o);
    }
  }

  // ----- refresh intervals -----

  /** The first interval fits into the lifetime exactly when the session may retry. */
  lemma SetupWithinLifetime(lifetime: nat, maxRetries: nat)
    requires lifetime > 0
    ensures 0 < SetupInterval(lifetime, maxRetries)
    ensures SetupInterval(lifetime, maxRetries) <= lifetime <==> maxRetries >= 1
  {
    var d, q := 3 * (2 * maxRetries + 1), SetupInterval(lifetime, maxRetries);
    if maxRetries == 0 {
      assert 3 * q >= 4 * lifetime;
    } else {
      Scale(d, 9, q - 1);
      assert 9 * (q - 1) < 4 * lifetime;
    }
  }

  /** Without retries the refresh is late: a session of three seconds is refreshed after four. */
  lemma LateWithoutRetries()
    ensures SetupInterval(3, 0) == 4
  {
  }

  lemma Scale(d: nat, m: nat, n: nat)
    requires d >= m
    ensures d * n >= m * n
  {
  }

  /** An adopted lifetime is refreshed in time; two thirds of it are met exactly below 2^31. */
  lemma RefreshWithinLifetime(lifetime: nat)
    requires lifetime < MODULUS
    ensures RefreshInterval(lifetime) <= lifetime
    ensures RefreshInterval(lifetime) == lifetime * 2 / 3 <==> lifetime < HALF
  {
    if lifetime >= HALF {
      assert lifetime * 2 % MODULUS == lifetime * 2 - MODULUS;
    }
  }

  predicate InTime(s: Ni) {
    s.phase != CLOSE ==> s.refreshInterval <= s.lifetime
  }

  /** A session that may retry never waits longer than its lifetime before it refreshes. */
  lemma StepInTime(s: Ni, w: World, e: Event, o: Oracle)
    requires InTime(s) && s.maxRetries >= 1
    requires e.ApiConfigure? ==> e.lifetime > 0
    requires e.Received? && e.body.Response? ==> e.body.lifetime < MODULUS
    ensures InTime(Step(s, w, e, o).0)
  {
    if e.ApiConfigure? {
      SetupWithinLifetime(e.lifetime, s.maxRetries);
    }
    if e.Received? && e.body.Response? {
      RefreshWithinLifetime(e.body.lifetime);
    }
  }

  /** A request that asks for some lifetime, and a lifetime of 32 bits in an answer. */
  ghost predicate Proper(e: Event) {
    (e.ApiConfigure? ==> e.lifetime > 0) && (e.Received? && e.body.Response? ==> e.body.lifetime < MODULUS)
  }

  /** So it is in every state of every run. */
  lemma {:induction false} RunInTime(s: Ni, w: World, inputs: seq<(Event, Oracle)>)
    requires InTime(s) && s.maxRetries >= 1
    requires forall k :: 0 <= k < |inputs| ==> Proper(inputs[k].0)
    ensures InTime(Run(s, w, inputs).0)
    decreases |inputs|
  {
    hide InTime, Step;
    if inputs != [] && s.phase != CLOSE {
      assert Proper(inputs[0].0);
      var r := Step(s, w, inputs[0].0, inputs[0].1);
      StepInTime(s, w, inputs[0].0, inputs[0].1);
      StepKeepsRetries(s, w, inputs[0].0, inputs[0].1);
      RunInTime(r.0, r.1, inputs[1..]);
    }
  }

  /** From the request that creates the session on. */
  lemma LifeInTime(s: Ni, w: World, e: Event, o: Oracle, inputs: seq<(Event, Oracle)>)
    requires s.phase == CLOSE && s.maxRetries >= 1 && e.ApiConfigure?
    requires Proper(e) && forall k :: 0 <= k < |inputs| ==> Proper(inputs[k].0)
    ensures var r := Step(s, w, e, o); InTime(r.0) && InTime(Run(r.0, r.1, inputs).0)
  {
    hide Step, Run;
    StepInTime(s, w, e, o);
    StepKeepsRetries(s, w, e, o);
    var r := Step(s, w, e, o);
    RunInTime(r.0, r.1, inputs);
  }

  lemma StepKeepsRetries(s: Ni, w: World, e: Event, o: Oracle)
    ensures Step(s, w, e, o).0.maxRetries == s.maxRetries && Step(s, w, e, o).0.hops == s.hops
  {
  }

  // ----- the session, updated in place -----

  class NiSession {
    const sid: nat
    var phase: Phase
    var lifetime: nat
    var refreshInterval: nat
    var responseTimeout: nat
    const maxRetries: nat
    var configureCounter: nat
    var refreshCounter: nat
    var msn: Serial
    const hops: nat
    var lastConfigure: Option<Body>
    var lastRefresh: Option<Body>
    var responseTimer: nat
    var refreshTimer: nat
    var rule: Rule

    constructor (sid: nat, seed: Serial, responseTimeout: nat, maxRetries: nat, hops: nat)
      ensures View() == NewNi(sid, seed, responseTimeout, maxRetries, hops)
    {
      this.sid, this.maxRetries, this.hops, this.responseTimeout := sid, maxRetries, hops, responseTimeout;
      phase, lifetime, refreshInterval, configureCounter, refreshCounter, msn := CLOSE, 0, 20, 0, 0, seed;
      lastConfigure, lastRefresh, responseTimer, refreshTimer, rule := None, None, 0, 0, NO_RULE;
    }

    function View(): Ni
      reads this
    {
      Ni(sid, phase, lifetime, refreshInterval, responseTimeout, maxRetries, configureCounter, refreshCounter, msn, hops,
         lastConfigure, lastRefresh, responseTimer, refreshTimer, rule)
    }

    method SetupSession(d: Services, e: Event, o: Oracle) returns (missing: seq<MeteringObject>)
      requires e.ApiConfigure?
      modifies this, d
      ensures (View(), d.View()) == SetUp(old(View()), old(d.View()), e, o)
      ensures missing == Left(o, Participates(Role.Initiator, e.sme), e.objs)
    {
      hide Taken, Left, SetupInterval, Timeout, Participates;
      if e.lifetime != 0 {
        lifetime := e.lifetime;
      }
      refreshInterval := SetupInterval(lifetime, maxRetries);
      responseTimeout := Timeout(e.jitter, refreshInterval);
      var mine: seq<Target>;
      mine, missing := d.Split(o, Participates(Role.Initiator, e.sme), sid, e.objs);
      rule := rule.(objects := rule.objects + mine);
    }

    method HandleClose(d: Services, e: Event, o: Oracle)
      requires phase == CLOSE
      modifies this, d
      ensures (View(), d.View()) == Close(old(View()), old(d.View()), e, o)
    {
      hide SetUp, Left, Participates;
      if e.ApiConfigure? {
        var missing := SetupSession(d, e, o);
        msn := Next(msn);
        var configure := Configure(if lifetime <= e.lifetime then lifetime else e.lifetime, msn, e.sme, hops, missing);
        lastConfigure := Some(configure);
        d.SendMessage(sid, configure);
        responseTimer := d.Start(sid, responseTimeout);
        phase := PENDING;
      }
    }

    method SendTeardown(d: Services, o: Oracle)
      modifies this, d, d.installer
      ensures (View(), d.View()) == Teardown(old(View()), old(d.View()), o)
    {
      lifetime := 0;
      d.RemovePolicyRules(o, rule);
      msn := Next(msn);
      d.SendMessage(sid, Refresh(lifetime, msn));
      phase := CLOSE;
    }

    method AdoptLifetime(d: Services, lifetime': nat)
      modifies this, d
      ensures (View(), d.View()) == Adopt(old(View()), old(d.View()), lifetime')
    {
      responseTimer := 0;
      if lifetime' != lifetime {
        lifetime := lifetime';
        refreshInterval := RefreshInterval(lifetime);
      }
      refreshTimer := d.Start(sid, refreshInterval);
    }

    method HandleConfirmed(d: Services, lifetime': nat, o: Oracle)
      modifies this, d, d.installer
      ensures (View(), d.View()) == Confirmed(old(View()), old(d.View()), lifetime', o)
    {
      hide Teardown, InstallAll, Install, Adopt;
      AdoptKeepsRule(View(), d.View(), lifetime');
      AdoptLifetime(d, lifetime');
      var result := d.InstallPolicyRules(o, rule);
      var complete := |result.objects| == |rule.objects|;
      rule := result;
      if complete {
        configureCounter := 0;
        phase := METERING;
      } else {
        lastConfigure := None;
        SendTeardown(d, o);
      }
    }

    method HandlePending(d: Services, e: Event, o: Oracle)
      requires phase == PENDING
      modifies this, d, d.installer
      ensures (View(), d.View()) == Pending(old(View()), old(d.View()), e, o)
    {
      hide Confirmed, Teardown;
      if e.TimerFired? && e.id == responseTimer {
        if configureCounter < maxRetries {
          configureCounter := configureCounter + 1;
          if lastConfigure.Some? {
            d.SendMessage(sid, lastConfigure.value);
          }
          responseTimer := d.Start(sid, responseTimeout);
        } else {
          phase := CLOSE;
        }
      } else if e.NoNextNode? {
        phase := CLOSE;
      } else if e.ApiTeardown? {
        lastConfigure := None;
        SendTeardown(d, o);
      } else if Answers(e, lastConfigure) {
        if e.body.success {
          HandleConfirmed(d, e.body.lifetime, o);
        } else {
          phase := CLOSE;
        }
      }
    }

    method HandleMetering(d: Services, e: Event, o: Oracle)
      requires phase == METERING
      modifies this, d, d.installer
      ensures (View(), d.View()) == Metering(old(View()), old(d.View()), e, o)
    {
      hide Teardown, Uninstall;
      if e.TimerFired? && e.id == refreshTimer {
        msn := Next(msn);
        lastRefresh := Some(Refresh(lifetime, msn));
        d.SendMessage(sid, lastRefresh.value);
        refreshCounter := 0;
        responseTimer := d.Start(sid, responseTimeout);
      } else if e.TimerFired? && e.id == responseTimer {
        if refreshCounter < maxRetries {
          refreshCounter := refreshCounter + 1;
          if lastRefresh.Some? {
            d.SendMessage(sid, lastRefresh.value);
          }
          responseTimer := d.Start(sid, responseTimeout);
        } else {
          d.RemovePolicyRules(o, rule);
          phase := CLOSE;
        }
      } else if e.ApiTeardown? {
        lastRefresh := None;
        SendTeardown(d, o);
      } else if Answers(e, lastRefresh) {
        if e.body.success {
          responseTimer := 0;
          refreshTimer := d.Start(sid, refreshInterval);
          refreshCounter := 0;
        } else {
          d.RemovePolicyRules(o, rule);
          phase := CLOSE;
        }
      }
    }

    method ProcessEvent(d: Services, e: Event, o: Oracle)
      modifies this, d, d.installer
      ensures (View(), d.View()) == Step(old(View()), old(d.View()), e, o)
    {
      hide Close, Pending, Metering;
      match phase {
        case CLOSE => HandleClose(d, e, o);
        case PENDING => HandlePending(d, e, o);
        case METERING => HandleMetering(d, e, o);
      }
    }
  }

  lemma AdoptKeepsRule(s: Ni, w: World, lifetime: nat)
    ensures Adopt(s, w, lifetime).0.rule == s.rule
  {
  }
}
