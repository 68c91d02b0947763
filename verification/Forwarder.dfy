/** The NF session: passes CONFIGURE and REFRESH on, and installs its share when the answer comes back. */
module Forwarder {
  import opened Options
  import opened Serial
  import opened PolicyRule
  import opened Session
  import opened Ledger

  datatype Nf = Nf(sid: nat, phase: Phase, limit: nat, lifetime: nat, maxLifetime: nat, responseTimeout: nat,
                   msn: Serial, lastConfigure: Option<Body>, lastRefresh: Option<Body>,
                   stateTimer: nat, responseTimer: nat, rule: Rule)

  /** `limit` is nf_max_session_lifetime of the configuration. */
  function NewNf(sid: nat, limit: nat): Nf {
    Nf(sid, CLOSE, limit, 0, 0, 0, 0, None, None, 0, 0, NO_RULE)
  }

  // ----- the transition function -----

  /** process_state_close: take what this node can meter, and pass the rest on. */
  function Accept(s: Nf, w: World, c: Body, o: Oracle): (Nf, World)
    requires c.Configure?
  {
    var takes := Participates(Role.Forwarder, c.sme);
    var mine := Taken(o, takes, s.sid, w.nextKey, c.objs);
    var onward := Configure(Clipped(s.lifetime, c.lifetime), c.msn, c.sme, c.hops, Left(o, takes, c.objs));
    var w1 := Send(w.(nextKey := w.nextKey + |mine|), s.sid, onward);
    (s.(phase := PENDING, lastConfigure := Some(c), stateTimer := w1.nextTimer,
        rule := s.rule.(objects := s.rule.objects + mine)),
     StartTimer(w1, s.sid, s.lifetime))
  }

  function Close(s: Nf, w: World, e: Event, o: Oracle): (Nf, World) {
    if !(e.Received? && e.body.Configure?) then (s, w)   // unreachable: see the session table
    else
      var s1 := s.(maxLifetime := s.limit, responseTimeout := s.limit);
      var lifetime := Clipped(e.body.lifetime, s1.maxLifetime);
      if lifetime == 0 then (s1, w)
      else Accept(s1.(lifetime := lifetime, msn := e.body.msn), w, e.body, o)
  }

  /** A matching, successful RESPONSE to the CONFIGURE. */
  function Confirmed(s: Nf, w: World, answer: Body, o: Oracle): (Nf, World)
    requires answer.Response?
  {
    var r := InstallAll(o, s.rule.objects);
    var w1 := Install(o, w, s.rule);
    if |r.objects| == |s.rule.objects| then
      var w2 := Send(w1, s.sid, answer);
      (s.(phase := METERING, rule := r, stateTimer := w2.nextTimer), StartTimer(w2, s.sid, s.lifetime))
    else
      var msn := Next(s.msn);
      var w2 := Send(Uninstall(o, w1, r), s.sid, Refresh(0, msn));
      (s.(phase := CLOSE, lifetime := 0, rule := r, msn := msn), Send(w2, s.sid, ErrorTo(answer)))
  }

  function Pending(s: Nf, w: World, e: Event, o: Oracle): (Nf, World) {
    if e.Received? && e.body.Configure? && s.lastConfigure.Some? && s.lastConfigure.value.Configure? then
      var c, previous := e.body, s.lastConfigure.value;
      if c.msn > previous.msn && c.lifetime == 0 then (s.(phase := CLOSE, stateTimer := 0), Send(w, s.sid, c))
      else if c.msn == previous.msn then
        var w1 := Send(w, s.sid, c);
        (s.(stateTimer := w1.nextTimer), StartTimer(w1, s.sid, s.responseTimeout))
      else Accept(s.(lifetime := c.lifetime, msn := c.msn), w, c, o)
    else if e.NoNextNode? || (e.TimerFired? && e.id == s.stateTimer) then
      (s.(phase := CLOSE), if s.lastConfigure.Some? then Send(w, s.sid, ErrorTo(s.lastConfigure.value)) else w)
    else if Answers(e, s.lastConfigure) then
      if e.body.success then Confirmed(s, w, e.body, o)
      else (s.(phase := CLOSE, stateTimer := 0), Send(w, s.sid, e.body))
    else (s, w)
  }

  function Refreshed(s: Nf, w: World, r: Body): (Nf, World)
    requires r.Refresh?
  {
    var lifetime := Clipped(r.lifetime, s.maxLifetime);
    if !IsGreater(r.msn, s.msn) then (s, w)
    else
      var w1 := Send(w, s.sid, r);
      (s.(lifetime := lifetime, msn := if lifetime > 0 then r.msn else s.msn, lastRefresh := Some(r),
          responseTimer := w1.nextTimer),
       StartTimer(w1, s.sid, s.responseTimeout))
  }

  /** A matching RESPONSE to the last REFRESH. */
  function Concluded(s: Nf, w: World, answer: Body, o: Oracle): (Nf, World)
    requires answer.Response?
  {
    if answer.success then
      var w1 := Send(w, s.sid, answer);
      if s.lifetime == 0 then (s.(phase := CLOSE, stateTimer := 0), Uninstall(o, w1, s.rule))
      else (s.(stateTimer := w1.nextTimer), StartTimer(w1, s.sid, s.lifetime))
    else (s.(phase := CLOSE, stateTimer := 0), Send(Uninstall(o, w, s.rule), s.sid, answer))
  }

  function Metering(s: Nf, w: World, e: Event, o: Oracle): (Nf, World) {
    if e.Received? && e.body.Refresh? then Refreshed(s, w, e.body)
    else if e.NoNextNode? || (e.TimerFired? && e.id == s.responseTimer) then
      var w1 := Uninstall(o, w, s.rule);
      (s.(phase := CLOSE, stateTimer := 0),
       if s.lastRefresh.Some? then Send(w1, s.sid, ErrorTo(s.lastRefresh.value)) else w1)
    else if e.TimerFired? && e.id == s.stateTimer then
      (s.(phase := CLOSE, responseTimer := 0), Uninstall(o, w, s.rule))
    else if e.RouteBad? then (s.(phase := CLOSE), Uninstall(o, w, s.rule))
    else if Answers(e, s.lastRefresh) then Concluded(s, w, e.body, o)
    else (s, w)
  }

  /** process_event */
  function Step(s: Nf, w: World, e: Event, o: Oracle): (Nf, World) {
    match s.phase
    case CLOSE => Close(s, w, e, o)
    case PENDING => Pending(s, w, e, o)
    case METERING => Metering(s, w, e, o)
  }

  // ----- what every step keeps -----

  function Held(s: Nf): set<Command> {
    if s.phase == METERING then Owned(s.rule) else {}
  }

  ghost predicate Kept(s: Nf, w: World) {
    ValidWorld(w) && RuleKept(s.phase, s.rule, s.sid, w) && (s.phase == CLOSE ==> s.rule == NO_RULE)
  }

  ghost predicate KeepsBooks(s: Nf, w: World, r: (Nf, World)) {
    && r.0.sid == s.sid
    && Exchanges(w, r.1, s.sid, Held(s), Held(r.0))
    && (r.0.phase != CLOSE ==> Kept(r.0, r.1))
  }

  lemma AcceptKeeps(s: Nf, w: World, c: Body, o: Oracle)
    requires Kept(s, w) && s.phase != METERING && c.Configure?
    ensures KeepsBooks(s, w, Accept(s, w, c, o))
  {
    hide Left, Taken, Owned;
    DrawKeys(o, Participates(Role.Forwarder, c.sme), s.sid, w, s.rule, c.objs);
  }

  lemma ConfirmedKeeps(s: Nf, w: World, answer: Body, o: Oracle)
    requires Kept(s, w) && s.phase == PENDING && answer.Response?
    ensures KeepsBooks(s, w, Confirmed(s, w, answer, o))
  {
    var r := InstallAll(o, s.rule.objects);
    var v := Install(o, w, s.rule);
    InstallExchanges(o, w, s.sid, s.rule.objects);
    if |r.objects| != |s.rule.objects| {
      UninstallExchanges(o, v, s.sid, r);
      Then(w, v, Confirmed(s, w, answer, o).1, s.sid, {}, Owned(r), {});
    }
  }

  lemma PendingKeeps(s: Nf, w: World, e: Event, o: Oracle)
    requires Kept(s, w) && s.phase == PENDING
    ensures KeepsBooks(s, w, Pending(s, w, e, o))
  {
    var quiet := if e.Received? then e.body else if s.lastConfigure.Some? then ErrorTo(s.lastConfigure.value) else Other;
    QuietStep(w, s.sid, quiet, s.responseTimeout, PENDING, s.rule);
    if e.Received? && e.body.Configure? {
      AcceptKeeps(s.(lifetime := e.body.lifetime, msn := e.body.msn), w, e.body, o);
    } else if Answers(e, s.lastConfigure) {
      ConfirmedKeeps(s, w, e.body, o);
    }
    hide Confirmed, Accept, Exchanges, RuleKept, StartTimer, Send, ErrorTo;
  }

  lemma MeteringKeeps(s: Nf, w: World, e: Event, o: Oracle)
    requires Kept(s, w) && s.phase == METERING
    ensures KeepsBooks(s, w, Metering(s, w, e, o))
  {
    hide Exchanges, RuleKept, StartTimer, Send, Uninstall, Owned, ErrorTo;
    var body := if e.Received? then e.body else if s.lastRefresh.Some? then ErrorTo(s.lastRefresh.value) else Other;
    QuietStep(w, s.sid, body, s.responseTimeout, METERING, s.rule);
    QuietStep(w, s.sid, body, s.lifetime, METERING, s.rule);
    ClosingStep(o, w, s.sid, body, s.rule);
  }

  lemma StepKeeps(s: Nf, w: World, e: Event, o: Oracle)
    requires Kept(s, w)
    ensures KeepsBooks(s, w, Step(s, w, e, o))
  {
    hide Accept, Confirmed, Pending, Metering, Owned;
    match s.phase
    case CLOSE =>
      if e.Received? && e.body.Configure? {
        var s1 := s.(maxLifetime := s.limit, responseTimeout := s.limit);
        AcceptKeeps(s1.(lifetime := Clipped(e.body.lifetime, s.limit), msn := e.body.msn), w, e.body, o);
      }
    case PENDING => PendingKeeps(s, w, e, o);
    case METERING => MeteringKeeps(s, w, e, o);
  }

  // ----- timers -----

  ghost predicate Waiting(s: Nf, w: World) {
    && s.stateTimer < w.nextTimer && s.responseTimer < w.nextTimer
    && (s.phase == PENDING ==> s.lastConfigure.Some? && s.lastConfigure.value.Configure?)
    && (s.phase != CLOSE ==>
          ArmedFor(w, s.stateTimer, s.sid) || (s.phase == METERING && ArmedFor(w, s.responseTimer, s.sid)))
    && (if s.phase == METERING then Lasts(w, s.responseTimer, s.responseTimeout) else s.responseTimer == 0)
  }

  /** One more timer ends the session. */
  function Rank(s: Nf, w: World): int {
    if s.phase == CLOSE then 0 else 1
  }

  predicate Current(s: Nf, id: nat) {
    id == s.stateTimer || (s.phase == METERING && id == s.responseTimer)
  }

  lemma StaleTimer(s: Nf, w: World, id: nat, o: Oracle)
    requires !Current(s, id)
    ensures Step(s, w, TimerFired(s.sid, id), o) == (s, w)
  {
  }

  lemma OtherEventsKeepWaiting(s: Nf, w: World, e: Event, o: Oracle)
    requires ValidWorld(w) && Waiting(s, w) && !e.TimerFired?
    ensures var r := Step(s, w, e, o);
            r.0.phase != CLOSE ==> Waiting(r.0, r.1)
  {
    hide Left, Taken, InstallAll, Removed, Owned;
  }

  lemma TimerDescends(s: Nf, w: World, id: nat, o: Oracle)
    requires ValidWorld(w) && Waiting(s, w) && s.phase != CLOSE && ArmedFor(w, id, s.sid)
    ensures var r := Step(s, Fire(w, id), TimerFired(s.sid, id), o);
            && (r.0.phase != CLOSE ==> Waiting(r.0, r.1))
            && 0 <= Rank(r.0, r.1)
            && 2 * Rank(r.0, r.1) + |r.1.armed| < 2 * Rank(s, w) + |w.armed|
  {
    hide Accept, Confirmed, Removed, Owned;
    FireCount(w, id);
  }

  // ----- a message that is not there -----

  /** The original answers the last REFRESH for this event, and there has not been one: it dereferences null. */
  predicate NullRefresh(s: Nf, e: Event) {
    s.phase == METERING && (e.NoNextNode? || (e.TimerFired? && e.id == s.responseTimer)) && s.lastRefresh.None?
  }

  /** The response timer runs only for a REFRESH. */
  ghost predicate RefreshKnown(s: Nf) {
    s.responseTimer > 0 ==> s.lastRefresh.Some?
  }

  lemma StepKeepsRefreshKnown(s: Nf, w: World, e: Event, o: Oracle)
    requires RefreshKnown(s)
    ensures RefreshKnown(Step(s, w, e, o).0)
  {
    hide Taken, Left, InstallAll, Removed, Owned;
  }

  /** So it is only an unreachable next node, before the first REFRESH; the model closes the session silently. */
  lemma NullRefreshIff(s: Nf, w: World, e: Event, o: Oracle)
    requires RefreshKnown(s) && (e.TimerFired? ==> e.id > 0)
    ensures NullRefresh(s, e) <==> s.phase == METERING && e.NoNextNode? && s.lastRefresh.None?
    ensures NullRefresh(s, e) ==>
              var r := Step(s, w, e, o); r.0.phase == CLOSE && r.1 == Uninstall(o, w, s.rule)
  {
    hide Uninstall;
  }

  /** It can happen to every forwarder that has just been set up. */
  lemma NullRefreshAfterSetUp(sid: nat, limit: nat, w: World, c: Body, o: Oracle, answer: Body)
    ensures var a := Step(NewNf(sid, limit), w, Received(sid, c, false), o);
            var b := Step(a.0, a.1, Received(sid, answer, false), o);
            RefreshKnown(b.0) && (b.0.phase == METERING ==> NullRefresh(b.0, NoNextNode(sid)))
  {
    hide Taken, Left, InstallAll, Removed, Owned;
  }

  // ----- the session, updated in place -----

  class NfSession {
    const sid: nat
    const limit: nat
    var phase: Phase
    var lifetime: nat
    var maxLifetime: nat
    var responseTimeout: nat
    var msn: Serial
    var lastConfigure: Option<Body>
    var lastRefresh: Option<Body>
    var stateTimer: nat
    var responseTimer: nat
    var rule: Rule

    constructor (sid: nat, limit: nat)
      ensures View() == NewNf(sid, limit)
    {
      this.sid, this.limit := sid, limit;
      phase, lifetime, maxLifetime, responseTimeout, msn := CLOSE, 0, 0, 0, 0;
      lastConfigure, lastRefresh, stateTimer, responseTimer, rule := None, None, 0, 0, NO_RULE;
    }

    function View(): Nf
      reads this
    {
      Nf(sid, phase, limit, lifetime, maxLifetime, responseTimeout, msn, lastConfigure, lastRefresh,
         stateTimer, responseTimer, rule)
    }

    method ProcessStateClose(d: Services, c: Body, o: Oracle)
      requires c.Configure?
      modifies this, d
      ensures (View(), d.View()) == Accept(old(View()), old(d.View()), c, o)
    {
      hide Taken, Left, Participates;
      lastConfigure := Some(c);
      var mine, missing := d.Split(o, Participates(Role.Forwarder, c.sme), sid, c.objs);
      rule := rule.(objects := rule.objects + mine);
      d.SendMessage(sid, Configure(if lifetime <= c.lifetime then lifetime else c.lifetime, c.msn, c.sme, c.hops, missing));
      stateTimer := d.Start(sid, lifetime);
      phase := PENDING;
    }

    method HandleClose(d: Services, e: Event, o: Oracle)
      requires phase == CLOSE
      modifies this, d
      ensures (View(), d.View()) == Close(old(View()), old(d.View()), e, o)
    {
      hide Accept;
      if e.Received? && e.body.Configure? {
        maxLifetime := limit;
        responseTimeout := limit;
        var lifetime' := e.body.lifetime;
        if lifetime' > maxLifetime {
          lifetime' := maxLifetime;
        }
        if lifetime' != 0 {
          lifetime := lifetime';
          msn := e.body.msn;
          ProcessStateClose(d, e.body, o);
        }
      }
    }

    method HandleConfirmed(d: Services, answer: Body, o: Oracle)
      requires answer.Response?
      modifies this, d, d.installer
      ensures (View(), d.View()) == Confirmed(old(View()), old(d.View()), answer, o)
    {
      hide InstallAll, Install, Uninstall;
      var result := d.InstallPolicyRules(o, rule);
      var complete := |result.objects| == |rule.objects|;
      rule := result;
      if complete {
        d.SendMessage(sid, answer);
        stateTimer := d.Start(sid, lifetime);
        phase := METERING;
      } else {
        lifetime := 0;
        d.RemovePolicyRules(o, rule);
        msn := Next(msn);
        d.SendMessage(sid, Refresh(0, msn));
        d.SendMessage(sid, ErrorTo(answer));
        phase := CLOSE;
      }
    }

    method HandlePending(d: Services, e: Event, o: Oracle)
      requires phase == PENDING
      modifies this, d, d.installer
      ensures (View(), d.View()) == Pending(old(View()), old(d.View()), e, o)
    {
      hide Accept, Confirmed, ErrorTo;
      if e.Received? && e.body.Configure? && lastConfigure.Some? && lastConfigure.value.Configure? {
        var c, previous := e.body, lastConfigure.value;
        if c.msn > previous.msn && c.lifetime == 0 {
          stateTimer := 0;
          d.SendMessage(sid, c);
          phase := CLOSE;
        } else if c.msn == previous.msn {
          d.SendMessage(sid, c);
          stateTimer := d.Start(sid, responseTimeout);
        } else {
          lifetime := c.lifetime;
          msn := c.msn;
          ProcessStateClose(d, c, o);
        }
      } else if e.NoNextNode? || (e.TimerFired? && e.id == stateTimer) {
        if lastConfigure.Some? {
          d.SendMessage(sid, ErrorTo(lastConfigure.value));
        }
        phase := CLOSE;
      } else if Answers(e, lastConfigure) {
        if e.body.success {
          HandleConfirmed(d, e.body, o);
        } else {
          stateTimer := 0;
          d.SendMessage(sid, e.body);
          phase := CLOSE;
        }
      }
    }

    method HandleRefresh(d: Services, r: Body)
      requires r.Refresh?
      modifies this, d
      ensures (View(), d.View()) == Refreshed(old(View()), old(d.View()), r)
    {
      hide IsGreater;
      var lifetime' := r.lifetime;
      if lifetime' > maxLifetime {
        lifetime' := maxLifetime;
      }
      if IsGreater(r.msn, msn) {
        lifetime := lifetime';
        if lifetime > 0 {
          msn := r.msn;
        }
        responseTimer := 0;
        lastRefresh := Some(r);
        d.SendMessage(sid, r);
        responseTimer := d.Start(sid, responseTimeout);
      }
    }

    /** A matching RESPONSE to the last REFRESH. */
    method HandleAnswer(d: Services, answer: Body, o: Oracle)
      requires answer.Response?
      modifies this, d, d.installer
      ensures (View(), d.View()) == Concluded(old(View()), old(d.View()), answer, o)
    {
      hide Uninstall;
      if answer.success {
        d.SendMessage(sid, answer);
        if lifetime == 0 {
          stateTimer := 0;
          d.RemovePolicyRules(o, rule);
          phase := CLOSE;
        } else {
          stateTimer := d.Start(sid, lifetime);
        }
      } else {
        stateTimer := 0;
        d.RemovePolicyRules(o, rule);
        d.SendMessage(sid, answer);
        phase := CLOSE;
      }
    }

    method HandleMetering(d: Services, e: Event, o: Oracle)
      requires phase == METERING
      modifies this, d, d.installer
      ensures (View(), d.View()) == Metering(old(View()), old(d.View()), e, o)
    {
      hide Refreshed, Concluded, Uninstall, ErrorTo;
      if e.Received? && e.body.Refresh? {
        HandleRefresh(d, e.body);
      } else if e.NoNextNode? || (e.TimerFired? && e.id == responseTimer) {
        stateTimer := 0;
        d.RemovePolicyRules(o, rule);
        if lastRefresh.Some? {
          d.SendMessage(sid, ErrorTo(lastRefresh.value));
        }
        phase := CLOSE;
      } else if e.TimerFired? && e.id == stateTimer {
        responseTimer := 0;
        d.RemovePolicyRules(o, rule);
        phase := CLOSE;
      } else if e.RouteBad? {
        d.RemovePolicyRules(o, rule);
        phase := CLOSE;
      } else if Answers(e, lastRefresh) {
        HandleAnswer(d, e.body, o);
      }
    }

    method ProcessEvent(d: Services, e: Event, o: Oracle)
      modifies this, d, d.installer
      ensures (View(), d.View()) == Step(old(View()), old(d.View()), e, o)
    {
      hide Close, Pending, Metering;
      match phase {
        case CLOSE => HandleClose(d, e, o);
        case PENDING => HandlePending(d, e, o);
        case METERING => HandleMetering(d, e, o);
      }
    }
  }
}
