/** The NR session: ends the path, installs what is left or refuses, and answers. */
module Responder {
  import opened Serial
  import opened PolicyRule
  import opened Session
  import opened Ledger

  datatype Nr = Nr(sid: nat, phase: Phase, lifetime: nat, maxLifetime: nat, msn: Serial, stateTimer: nat, rule: Rule)

  /** `limit` is nr_max_session_lifetime of the configuration. */
  function NewNr(sid: nat, limit: nat): Nr {
    Nr(sid, CLOSE, 0, limit, 0, 0, NO_RULE)
  }

  // ----- the transition function -----

  /** A CONFIGURE whose objects are all for this node. */
  function Deploy(s: Nr, w: World, c: Body, o: Oracle): (Nr, World)
    requires c.Configure?
  {
    var r := InstallAll(o, s.rule.objects);
    var w1 := Install(o, w, s.rule);
    if |r.objects| == |s.rule.objects| then
      var w2 := Send(w1, s.sid, SuccessTo(c, s.lifetime));
      (s.(phase := METERING, rule := r, stateTimer := w2.nextTimer), StartTimer(w2, s.sid, s.lifetime))
    else
      (s.(lifetime := 0, rule := r), Send(Uninstall(o, w1, r), s.sid, ErrorTo(c)))
  }

  function Close(s: Nr, w: World, e: Event, o: Oracle): (Nr, World) {
    if !(e.Received? && e.body.Configure?) then (s, w)
    else
      var c, lifetime := e.body, Clipped(e.body.lifetime, s.maxLifetime);
      if lifetime == 0 then (s, Send(w, s.sid, ErrorTo(c)))
      else
        var takes := Participates(Receiver, c.sme);
        var mine := Taken(o, takes, s.sid, w.nextKey, c.objs);
        var s1 := s.(lifetime := lifetime, msn := c.msn, rule := s.rule.(objects := s.rule.objects + mine));
        var w1 := w.(nextKey := w.nextKey + |mine|);
        if Left(o, takes, c.objs) != [] then (s1, Send(w1, s.sid, ErrorTo(c)))
        else Deploy(s1, w1, c, o)
  }

  function Refreshed(s: Nr, w: World, r: Body, o: Oracle): (Nr, World)
    requires r.Refresh?
  {
    var lifetime := Clipped(r.lifetime, s.maxLifetime);
    if !IsGreater(r.msn, s.msn) then (s, w)
    else if lifetime > 0 then
      var w1 := Send(w, s.sid, SuccessTo(r, lifetime));
      (s.(lifetime := lifetime, msn := r.msn, stateTimer := w1.nextTimer), StartTimer(w1, s.sid, lifetime))
    else
      (s.(phase := CLOSE, stateTimer := 0), Send(Uninstall(o, w, s.rule), s.sid, SuccessTo(r, lifetime)))
  }

  function Metering(s: Nr, w: World, e: Event, o: Oracle): (Nr, World) {
    if e.Received? && e.body.Refresh? then Refreshed(s, w, e.body, o)
    else if e.TimerFired? && e.id == s.stateTimer then (s.(phase := CLOSE), Uninstall(o, w, s.rule))
    else (s, w)
  }

  /** process_event; the original has no PENDING handler, and never enters that state. */
  function Step(s: Nr, w: World, e: Event, o: Oracle): (Nr, World) {
    if s.phase == CLOSE then Close(s, w, e, o) else Metering(s, w, e, o)
  }

  // ----- what every step keeps -----

  function Held(s: Nr): set<Command> {
    if s.phase == METERING then Owned(s.rule) else {}
  }

  ghost predicate Kept(s: Nr, w: World) {
    && ValidWorld(w) && RuleKept(s.phase, s.rule, s.sid, w)
    && (s.phase == CLOSE ==> s.rule == NO_RULE)
    && s.phase != PENDING
  }

  ghost predicate KeepsBooks(s: Nr, w: World, r: (Nr, World)) {
    && r.0.sid == s.sid
    && r.0.phase != PENDING
    && Exchanges(w, r.1, s.sid, Held(s), Held(r.0))
    && (r.0.phase != CLOSE ==> Kept(r.0, r.1))
  }

  lemma DeployKeeps(s: Nr, w: World, c: Body, o: Oracle)
    requires c.Configure? && s.phase == CLOSE && s.rule.commands == []
    requires ValidWorld(w) && OwnKeys(s.rule, s.sid, w) && NothingInstalled(s.rule.objects, w)
    ensures KeepsBooks(s, w, Deploy(s, w, c, o))
  {
    var r := InstallAll(o, s.rule.objects);
    var v := Install(o, w, s.rule);
    InstallExchanges(o, w, s.sid, s.rule.objects);
    if |r.objects| != |s.rule.objects| {
      UninstallExchanges(o, v, s.sid, r);
      Then(w, v, Deploy(s, w, c, o).1, s.sid, {}, Owned(r), {});
    }
  }

  lemma CloseKeeps(s: Nr, w: World, e: Event, o: Oracle)
    requires Kept(s, w) && s.phase == CLOSE
    ensures KeepsBooks(s, w, Close(s, w, e, o))
  {
    hide Exchanges, OwnKeys, NothingInstalled, ValidWorld, Deploy, Taken, Left, Owned, InstallAll, Send, ErrorTo;
    DrawStep(w, 0, s.sid, ErrorTo(if e.Received? then e.body else Other));
    if e.Received? && e.body.Configure? {
      var c, takes := e.body, Participates(Receiver, e.body.sme);
      var mine := Taken(o, takes, s.sid, w.nextKey, c.objs);
      var w1 := w.(nextKey := w.nextKey + |mine|);
      var s1 := s.(lifetime := Clipped(c.lifetime, s.maxLifetime), msn := c.msn,
                   rule := s.rule.(objects := s.rule.objects + mine));
      DrawKeys(o, takes, s.sid, w, s.rule, c.objs);
      DrawStep(w, |mine|, s.sid, ErrorTo(c));
      DeployKeeps(s1, w1, c, o);
      ThenFromNothing(w, w1, Deploy(s1, w1, c, o).1, s.sid, Held(Deploy(s1, w1, c, o).0));
    }
  }

  lemma MeteringKeeps(s: Nr, w: World, e: Event, o: Oracle)
    requires Kept(s, w) && s.phase == METERING
    ensures KeepsBooks(s, w, Metering(s, w, e, o))
  {
    hide Exchanges, RuleKept, StartTimer, Send, Uninstall, Owned, SuccessTo;
    var lifetime := if e.Received? && e.body.Refresh? then Clipped(e.body.lifetime, s.maxLifetime) else 0;
    var body := if e.Received? then SuccessTo(e.body, lifetime) else Other;
    QuietStep(w, s.sid, body, lifetime, METERING, s.rule);
    ClosingStep(o, w, s.sid, body, s.rule);
  }

  lemma StepKeeps(s: Nr, w: World, e: Event, o: Oracle)
    requires Kept(s, w)
    ensures KeepsBooks(s, w, Step(s, w, e, o))
  {
    hide Close, Metering, Owned;
    if s.phase == CLOSE {
      CloseKeeps(s, w, e, o);
    } else {
      MeteringKeeps(s, w, e, o);
    }
  }

  // ----- timers -----

  ghost predicate Waiting(s: Nr, w: World) {
    && s.stateTimer < w.nextTimer
    && (s.phase != CLOSE ==> ArmedFor(w, s.stateTimer, s.sid) && Lasts(w, s.stateTimer, s.lifetime))
  }

  /** One more timer ends the session. */
  function Rank(s: Nr, w: World): int {
    if s.phase == CLOSE then 0 else 1
  }

  predicate Current(s: Nr, id: nat) {
    id == s.stateTimer
  }

  lemma StaleTimer(s: Nr, w: World, id: nat, o: Oracle)
    requires !Current(s, id)
    ensures Step(s, w, TimerFired(s.sid, id), o) == (s, w)
  {
  }

  lemma OtherEventsKeepWaiting(s: Nr, w: World, e: Event, o: Oracle)
    requires ValidWorld(w) && Waiting(s, w) && !e.TimerFired? && s.phase != PENDING
    ensures var r := Step(s, w, e, o);
            r.0.phase != CLOSE ==> Waiting(r.0, r.1)
  {
    hide Left, Taken, InstallAll, Removed, Owned;
  }

  lemma TimerDescends(s: Nr, w: World, id: nat, o: Oracle)
    requires ValidWorld(w) && Waiting(s, w) && s.phase == METERING && ArmedFor(w, id, s.sid)
    ensures var r := Step(s, Fire(w, id), TimerFired(s.sid, id), o);
            && (r.0.phase != CLOSE ==> Waiting(r.0, r.1))
            && 0 <= Rank(r.0, r.1)
            && 2 * Rank(r.0, r.1) + |r.1.armed| < 2 * Rank(s, w) + |w.armed|
  {
    hide Removed, Owned;
    FireCount(w, id);
  }

  // ----- the session, updated in place -----

  class NrSession {
    const sid: nat
    var phase: Phase
    var lifetime: nat
    const maxLifetime: nat
    var msn: Serial
    var stateTimer: nat
    var rule: Rule

    constructor (sid: nat, limit: nat)
      ensures View() == NewNr(sid, limit)
    {
      this.sid, maxLifetime := sid, limit;
      phase, lifetime, msn, stateTimer, rule := CLOSE, 0, 0, 0, NO_RULE;
    }

    function View(): Nr
      reads this
    {
      Nr(sid, phase, lifetime, maxLifetime, msn, stateTimer, rule)
    }

    method DeployRule(d: Services, c: Body, o: Oracle)
      requires c.Configure? && phase == CLOSE
      modifies this, d, d.installer
      ensures (View(), d.View()) == Deploy(old(View()), old(d.View()), c, o)
    {
      hide InstallAll, Install, Uninstall, ErrorTo, SuccessTo;
      var result := d.InstallPolicyRules(o, rule);
      var complete := |result.objects| == |rule.objects|;
      rule := result;
      if complete {
        d.SendMessage(sid, SuccessTo(c, lifetime));
        stateTimer := d.Start(sid, lifetime);
        phase := METERING;
      } else {
        lifetime := 0;
        d.RemovePolicyRules(o, rule);
        d.SendMessage(sid, ErrorTo(c));
      }
    }

    method HandleClose(d: Services, e: Event, o: Oracle)
      requires phase == CLOSE
      modifies this, d, d.installer
      ensures (View(), d.View()) == Close(old(View()), old(d.View()), e, o)
    {
      hide Deploy, Taken, Left, Participates, ErrorTo;
      if e.Received? && e.body.Configure? {
        var c := e.body;
        var lifetime' := if c.lifetime > maxLifetime then maxLifetime else c.lifetime;
        if lifetime' > 0 {
          lifetime := lifetime';
          msn := c.msn;
          var mine, missing := d.Split(o, Participates(Receiver, c.sme), sid, c.objs);
          rule := rule.(objects := rule.objects + mine);
          if |missing| > 0 {
            d.SendMessage(sid, ErrorTo(c));
          } else {
            DeployRule(d, c, o);
          }
        } else {
          d.SendMessage(sid, ErrorTo(c));
        }
      }
    }

    method HandleMetering(d: Services, e: Event, o: Oracle)
      requires phase == METERING
      modifies this, d, d.installer
      ensures (View(), d.View()) == Metering(old(View()), old(d.View()), e, o)
    {
      hide IsGreater, Uninstall, SuccessTo;
      if e.Received? && e.body.Refresh? {
        var lifetime' := if e.body.lifetime > maxLifetime then maxLifetime else e.body.lifetime;
        if IsGreater(e.body.msn, msn) {
          if lifetime' > 0 {
            lifetime := lifetime';
            msn := e.body.msn;
            d.SendMessage(sid, SuccessTo(e.body, lifetime'));
            stateTimer := d.Start(sid, lifetime');
          } else {
            d.RemovePolicyRules(o, rule);
            d.SendMessage(sid, SuccessTo(e.body, lifetime'));
            stateTimer := 0;
            phase := CLOSE;
          }
        }
      } else if e.TimerFired? && e.id == stateTimer {
        d.RemovePolicyRules(o, rule);
        phase := CLOSE;
      }
    }

    method ProcessEvent(d: Services, e: Event, o: Oracle)
      requires phase != PENDING
      modifies this, d, d.installer
      ensures (View(), d.View()) == Step(old(View()), old(d.View()), e, o)
    {
      hide Close, Metering;
      if phase == CLOSE {
        HandleClose(d, e, o);
      } else {
        HandleMetering(d, e, o);
      }
    }
  }
}
