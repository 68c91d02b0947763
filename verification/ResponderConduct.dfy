/** What a responder is seen to do: which answer it gives to which request, and when it stops metering. */
module ResponderConduct {
  import opened Options
  import opened Serial
  import opened PolicyRule
  import opened Session
  import opened Observed
  import opened Responder

  /** Every object of the request is one that this node takes. */
  predicate TakesAll(o: Oracle, sme: nat, objs: seq<MeteringObject>) {
    (sme == 1 || sme == 2 || sme == 4 || sme == 5 || objs == []) && forall i :: 0 <= i < |objs| ==> o.check(objs[i])
  }

  lemma {:induction false} NothingLeftIff(o: Oracle, sme: nat, objs: seq<MeteringObject>)
    ensures Left(o, Participates(Receiver, sme), objs) == [] <==> TakesAll(o, sme, objs)
    decreases |objs|
  {
    if objs != [] {
      NothingLeftIff(o, sme, objs[1..]);
      assert forall i :: 0 <= i < |objs| - 1 ==> objs[1..][i] == objs[i + 1];
      if TakesAll(o, sme, objs[1..]) && o.check(objs[0]) {
        forall i | 0 <= i < |objs|
          ensures o.check(objs[i])
        {
          assert i > 0 ==> objs[i] == objs[1..][i - 1];
        }
      }
    }
  }

  function Granted(s: Nr, lifetime: nat): nat {
    if s.maxLifetime < lifetime then s.maxLifetime else lifetime
  }

  /** It confirms a share that it can install, and refuses one that it cannot. */
  lemma ShareIsAnswered(s: Nr, w: World, c: Body, o: Oracle)
    requires s.phase == CLOSE && s.rule.commands == [] && c.Configure?
    ensures var r, mine := Deploy(s, w, c, o), s.rule.objects;
            if AllDeployable(o, mine) then
              && r.0 == s.(phase := METERING, rule := InstallAll(o, mine), stateTimer := w.nextTimer)
              && r.1.meter == Installed(w.meter, r.0.rule)
              && Says(w, r.1, s.sid, [Response(true, Some(c.msn), s.lifetime)])
              && Starts(w, r.1, s.sid, w.nextTimer, s.lifetime)
            else
              && r.0.phase == CLOSE && StartsNothing(w, r.1)
              && Says(w, r.1, s.sid, [Response(false, Some(c.msn), 0)])
  {
    WholeRuleIff(o, s.rule.objects);
    hide InstallAll, Installed, Removed, Owned, Deployable;
  }

  /** A request is granted if some lifetime is, nothing is left over, and everything can be installed. */
  lemma RequestIsAnswered(s: Nr, w: World, e: Event, o: Oracle)
    requires s.phase == CLOSE && s.rule == NO_RULE && e.Received? && e.body.Configure?
    ensures var r, c, lifetime := Step(s, w, e, o), e.body, Granted(s, e.body.lifetime);
            var mine := Taken(o, true, s.sid, w.nextKey, c.objs);
            if lifetime > 0 && TakesAll(o, c.sme, c.objs) && AllDeployable(o, mine) then
              && r.0.phase == METERING && r.0.lifetime == lifetime && r.0.msn == c.msn
              && r.0.rule == InstallAll(o, mine) && r.1.meter == Installed(w.meter, r.0.rule)
              && Says(w, r.1, s.sid, [Response(true, Some(c.msn), lifetime)])
              && Starts(w, r.1, s.sid, r.0.stateTimer, lifetime)
            else
              && r.0.phase == CLOSE && StartsNothing(w, r.1)
              && Says(w, r.1, s.sid, [Response(false, Some(c.msn), 0)])
  {
    hide Deploy, InstallAll, Installed, AllDeployable, Taken, Left, TakesAll, Participates;
    var c, mine := e.body, Taken(o, true, s.sid, w.nextKey, e.body.objs);
    NothingLeftIff(o, c.sme, c.objs);
    if TakesAll(o, c.sme, c.objs) {
      OthersTakeNothing(o, s.sid, w.nextKey, c.sme, c.objs);
    }
    assert [] + mine == mine;
    ShareIsAnswered(s.(lifetime := Granted(s, c.lifetime), msn := c.msn, rule := Rule(mine, [])),
                    w.(nextKey := w.nextKey + |mine|), c, o);
  }

  lemma OthersTakeNothing(o: Oracle, sid: nat, key: nat, sme: nat, objs: seq<MeteringObject>)
    requires TakesAll(o, sme, objs)
    ensures Taken(o, Participates(Receiver, sme), sid, key, objs) == Taken(o, true, sid, key, objs)
  {
  }

  lemma ShareIsReleased(s: Nr, w: World, c: Body, o: Oracle)
    requires s.phase == CLOSE && s.rule.commands == [] && c.Configure? && !AllDeployable(o, s.rule.objects)
    ensures var part := InstallAll(o, s.rule.objects);
            Releases(o, Install(o, w, s.rule), Deploy(s, w, c, o).1, part)
  {
    hide InstallAll, Installed, Removed, Owned, Deployable, Releases;
    WholeRuleIff(o, s.rule.objects);
    var u, part := Install(o, w, s.rule), InstallAll(o, s.rule.objects);
    UninstallReleases(o, u, part);
    SameMeter(o, u, u, Uninstall(o, u, part), Deploy(s, w, c, o).1, part);
  }

  /** A request that cannot be installed as a whole leaves nothing behind, unless a removal is refused. */
  lemma FailureReleases(s: Nr, w: World, e: Event, o: Oracle)
    requires s.phase == CLOSE && s.rule == NO_RULE && e.Received? && e.body.Configure?
    ensures var r, mine := Step(s, w, e, o), Taken(o, true, s.sid, w.nextKey, e.body.objs);
            if Granted(s, e.body.lifetime) == 0 || !TakesAll(o, e.body.sme, e.body.objs) then LeavesMetering(w, r.1)
            else !AllDeployable(o, mine) ==> Releases(o, Install(o, w, Rule(mine, [])), r.1, InstallAll(o, mine))
  {
    hide Deploy, InstallAll, Installed, AllDeployable, Taken, Left, TakesAll, Participates, Releases;
    var c, mine := e.body, Taken(o, true, s.sid, w.nextKey, e.body.objs);
    NothingLeftIff(o, c.sme, c.objs);
    assert [] + mine == mine;
    if TakesAll(o, c.sme, c.objs) {
      OthersTakeNothing(o, s.sid, w.nextKey, c.sme, c.objs);
      var s1 := s.(lifetime := Granted(s, c.lifetime), msn := c.msn, rule := Rule(mine, []));
      var w1 := w.(nextKey := w.nextKey + |mine|);
      if !AllDeployable(o, mine) {
        ShareIsReleased(s1, w1, c, o);
        var v := Deploy(s1, w1, c, o).1;
        SameMeter(o, Install(o, w1, s1.rule), Install(o, w, s1.rule), v, v, InstallAll(o, mine));
      }
    }
  }

  /** A newer REFRESH is always a success: with the lifetime that is granted, or, for none, as the end. */
  lemma RefreshIsAnswered(s: Nr, w: World, e: Event, o: Oracle)
    requires s.phase == METERING && e.Received? && e.body.Refresh?
    ensures var t, r, lifetime := Step(s, w, e, o), e.body, Granted(s, e.body.lifetime);
            if !IsGreater(r.msn, s.msn) then t == (s, w)
            else
              && Says(w, t.1, s.sid, [Response(true, Some(r.msn), lifetime)])
              && if lifetime > 0 then
                   && t.0 == s.(lifetime := lifetime, msn := r.msn, stateTimer := w.nextTimer)
                   && Starts(w, t.1, s.sid, t.0.stateTimer, lifetime) && LeavesMetering(w, t.1)
                 else
                   t.0.phase == CLOSE && StartsNothing(w, t.1) && Releases(o, w, t.1, s.rule)
  {
    hide IsGreater, Removed, Owned, Releases;
    UninstallReleases(o, w, s.rule);
    SameMeter(o, w, w, Uninstall(o, w, s.rule), Step(s, w, e, o).1, s.rule);
  }

  /** Without a newer REFRESH it ends, silently, with its timer; nothing else has any effect. */
  lemma OnlyTimersAndRefreshes(s: Nr, w: World, e: Event, o: Oracle)
    requires s.phase == METERING && !(e.Received? && e.body.Refresh?)
    ensures var t := Step(s, w, e, o);
            if e.TimerFired? && e.id == s.stateTimer then
              t.0.phase == CLOSE && Says(w, t.1, s.sid, []) && StartsNothing(w, t.1) && Releases(o, w, t.1, s.rule)
            else t == (s, w)
  {
    hide Removed, Owned, Releases;
    UninstallReleases(o, w, s.rule);
  }

  lemma OnlyRequestsOpen(s: Nr, w: World, e: Event, o: Oracle)
    requires s.phase == CLOSE && !(e.Received? && e.body.Configure?)
    ensures Step(s, w, e, o) == (s, w)
  {
  }
}
