/** What a forwarder is seen to do: what it passes on in both directions, and when it stops metering. */
module ForwarderConduct {
  import opened Options
  import opened Serial
  import opened PolicyRule
  import opened Session
  import opened Observed
  import opened Forwarder

  /** The messages that it keeps are of their kinds, and it has a CONFIGURE. */
  ghost predicate Talks(s: Nf) {
    && (s.phase != CLOSE ==> s.lastConfigure.Some? && s.lastConfigure.value.Configure?)
    && (s.lastRefresh.Some? ==> s.lastRefresh.value.Refresh?)
  }

  lemma StepTalks(s: Nf, w: World, e: Event, o: Oracle)
    requires Talks(s)
    ensures Talks(Step(s, w, e, o).0)
  {
    hide Taken, Left, InstallAll, Installed, Removed, Owned;
  }

  // ----- the request -----

  /** What it makes of a CONFIGURE: the same, with its own lifetime if that is shorter, and fewer objects. */
  predicate PassesOn(w: World, w': World, sid: nat, c: Body, lifetime: nat)
    requires c.Configure?
  {
    && |w'.sent| == |w.sent| + 1
    && w'.sent[|w.sent|].body.Configure?
    && Says(w, w', sid, [Configure(if lifetime < c.lifetime then lifetime else c.lifetime, c.msn, c.sme, c.hops,
                                   w'.sent[|w.sent|].body.objs)])
  }

  /** A first CONFIGURE: passed on with at most the lifetime that this node grants; none is granted, nothing happens. */
  lemma RequestIsPassedOn(s: Nf, w: World, e: Event, o: Oracle)
    requires s.phase == CLOSE && e.Received? && e.body.Configure?
    ensures var r, c := Step(s, w, e, o), e.body;
            if c.lifetime == 0 || s.limit == 0 then r.0.phase == CLOSE && r.1 == w
            else
              && r.0.phase == PENDING && r.0.lifetime == (if s.limit < c.lifetime then s.limit else c.lifetime)
              && r.0.maxLifetime == r.0.responseTimeout == s.limit
              && r.0.lastConfigure == Some(c) && r.0.msn == c.msn
              && PassesOn(w, r.1, s.sid, c, r.0.lifetime)
              && Starts(w, r.1, s.sid, r.0.stateTimer, r.0.lifetime) && LeavesMetering(w, r.1)
  {
    hide Taken, Left;
  }

  lemma OnlyRequestsOpen(s: Nf, w: World, e: Event, o: Oracle)
    requires s.phase == CLOSE && !(e.Received? && e.body.Configure?)
    ensures Step(s, w, e, o) == (s, w)
  {
  }

  /** Another CONFIGURE before the answer: the same again is passed on as it is; a newer one of lifetime 0 ends it. */
  lemma RequestIsRepeated(s: Nf, w: World, e: Event, o: Oracle)
    requires Talks(s) && s.phase == PENDING && e.Received? && e.body.Configure?
    ensures var r, c, previous := Step(s, w, e, o), e.body, s.lastConfigure.value;
            && LeavesMetering(w, r.1)
            && if c.msn == previous.msn then
                 && r.0 == s.(stateTimer := w.nextTimer)
                 && Says(w, r.1, s.sid, [c]) && Starts(w, r.1, s.sid, r.0.stateTimer, s.responseTimeout)
               else if c.msn > previous.msn && c.lifetime == 0 then
                 r.0.phase == CLOSE && Says(w, r.1, s.sid, [c]) && StartsNothing(w, r.1)
               else
                 && r.0.phase == PENDING && r.0.lifetime == c.lifetime && r.0.lastConfigure == Some(c) && r.0.msn == c.msn
                 && PassesOn(w, r.1, s.sid, c, c.lifetime) && Starts(w, r.1, s.sid, r.0.stateTimer, c.lifetime)
  {
    hide Taken, Left;
  }

  // ----- how it ends -----

  /** An answer to the CONFIGURE, or to the last REFRESH. */
  predicate Answered(s: Nf, e: Event) {
    if s.phase == PENDING then s.lastConfigure.Some? && s.lastConfigure.value.Configure? && Hears(e, s.lastConfigure.value.msn)
    else s.lastRefresh.Some? && s.lastRefresh.value.Refresh? && Hears(e, s.lastRefresh.value.msn)
  }

  /** A newer CONFIGURE of lifetime 0, before the answer. */
  predicate CalledOff(s: Nf, e: Event) {
    && s.phase == PENDING && e.Received? && e.body.Configure? && s.lastConfigure.Some? && s.lastConfigure.value.Configure?
    && e.body.lifetime == 0 && e.body.msn > s.lastConfigure.value.msn
  }

  /** Its timers: for the session, and once it meters, for an answer. */
  predicate TimedOut(s: Nf, e: Event) {
    e.TimerFired? && (e.id == s.stateTimer || (s.phase == METERING && e.id == s.responseTimer))
  }

  /** The answer ends it: a failure, a share it cannot meter, or the confirmation of a teardown. */
  ghost predicate Concludes(s: Nf, e: Event, o: Oracle) {
    && Answered(s, e)
    && (!e.body.success || if s.phase == PENDING then !AllDeployable(o, s.rule.objects) else s.lifetime == 0)
  }

  lemma EndsIff(s: Nf, w: World, e: Event, o: Oracle)
    requires Talks(s) && s.phase != CLOSE
    ensures Step(s, w, e, o).0.phase == CLOSE <==>
            || e.NoNextNode? || (e.RouteBad? && s.phase == METERING)
            || TimedOut(s, e) || CalledOff(s, e) || Concludes(s, e, o)
  {
    WholeRuleIff(o, s.rule.objects);
    hide InstallAll, Installed, Removed, Owned, Deployable, Taken, Left;
  }

  /** Whatever ends it, it takes back what it had installed; before the answer, that is nothing. */
  lemma EndReleases(s: Nf, w: World, e: Event, o: Oracle)
    requires Talks(s) && s.phase != CLOSE && Step(s, w, e, o).0.phase == CLOSE
    ensures var r := Step(s, w, e, o);
            && StartsNothing(w, r.1)
            && (s.phase == METERING ==> Releases(o, w, r.1, s.rule))
            && (s.phase == PENDING ==>
                  if Answered(s, e) && e.body.success
                  then Releases(o, Install(o, w, s.rule), r.1, InstallAll(o, s.rule.objects)) else LeavesMetering(w, r.1))
  {
    WholeRuleIff(o, s.rule.objects);
    hide InstallAll, Installed, Removed, Owned, Deployable, Taken, Left, Releases;
    if s.phase == METERING {
      UninstallReleases(o, w, s.rule);
      SameMeter(o, w, w, Uninstall(o, w, s.rule), Step(s, w, e, o).1, s.rule);
    } else {
      var v, part := Install(o, w, s.rule), InstallAll(o, s.rule.objects);
      UninstallReleases(o, v, part);
      SameMeter(o, v, v, Uninstall(o, v, part), Step(s, w, e, o).1, part);
    }
  }

  /** What it says at its end: the answer; a failure to the initiator; and a REFRESH of lifetime 0, if only it fails. */
  lemma EndSays(s: Nf, w: World, e: Event, o: Oracle)
    requires Talks(s) && s.phase != CLOSE && Step(s, w, e, o).0.phase == CLOSE
    ensures var r := Step(s, w, e, o);
            if CalledOff(s, e) then Says(w, r.1, s.sid, [e.body])
            else if Answered(s, e) then
              if s.phase == PENDING && e.body.success
              then Says(w, r.1, s.sid, [Refresh(0, Next(s.msn)), Response(false, e.body.rmsn, 0)])
              else Says(w, r.1, s.sid, [e.body])
            else if s.phase == PENDING then Says(w, r.1, s.sid, [Response(false, Some(s.lastConfigure.value.msn), 0)])
            else if (e.NoNextNode? || (e.TimerFired? && e.id == s.responseTimer)) && s.lastRefresh.Some?
            then Says(w, r.1, s.sid, [Response(false, Some(s.lastRefresh.value.msn), 0)])
            else Says(w, r.1, s.sid, [])
  {
    WholeRuleIff(o, s.rule.objects);
    hide InstallAll, Installed, Removed, Owned, Deployable, Taken, Left;
  }

  // ----- how it goes on -----

  /** The path is set up: the answer goes back as it is, what was taken is installed, and the lifetime begins. */
  lemma SetUpIsConfirmed(s: Nf, w: World, e: Event, o: Oracle)
    requires Talks(s) && s.phase == PENDING && Answered(s, e) && e.body.success && AllDeployable(o, s.rule.objects)
    ensures var r := Step(s, w, e, o);
            && r.0 == s.(phase := METERING, rule := InstallAll(o, s.rule.objects), stateTimer := w.nextTimer)
            && Says(w, r.1, s.sid, [e.body]) && Starts(w, r.1, s.sid, r.0.stateTimer, s.lifetime)
            && r.1.meter == Installed(w.meter, r.0.rule)
  {
    WholeRuleIff(o, s.rule.objects);
    hide InstallAll, Installed, Deployable;
  }

  /** A newer REFRESH is passed on as it is; one of lifetime 0 does not move the number. Others are ignored. */
  lemma RefreshIsPassedOn(s: Nf, w: World, e: Event, o: Oracle)
    requires s.phase == METERING && e.Received? && e.body.Refresh?
    ensures var t, r := Step(s, w, e, o), e.body;
            if !IsGreater(r.msn, s.msn) then t == (s, w)
            else
              && t.0 == s.(lifetime := if s.maxLifetime < r.lifetime then s.maxLifetime else r.lifetime,
                           msn := if t.0.lifetime > 0 then r.msn else s.msn,
                           lastRefresh := Some(r), responseTimer := w.nextTimer)
              && Says(w, t.1, s.sid, [r]) && Starts(w, t.1, s.sid, t.0.responseTimer, s.responseTimeout)
              && LeavesMetering(w, t.1)
  {
    hide IsGreater;
  }

  /** Its answer goes back as it is, and the lifetime begins anew. */
  lemma RefreshIsConfirmed(s: Nf, w: World, e: Event, o: Oracle)
    requires Talks(s) && s.phase == METERING && Answered(s, e) && e.body.success && s.lifetime > 0
    ensures var r := Step(s, w, e, o);
            && r.0 == s.(stateTimer := w.nextTimer)
            && Says(w, r.1, s.sid, [e.body]) && Starts(w, r.1, s.sid, r.0.stateTimer, s.lifetime)
            && LeavesMetering(w, r.1)
  {
  }

  /** Nothing else has any effect. */
  lemma IgnoresOthers(s: Nf, w: World, e: Event, o: Oracle)
    requires Talks(s) && s.phase != CLOSE && Step(s, w, e, o).0.phase != CLOSE
    requires !Answered(s, e)
    requires !(e.Received? && if s.phase == PENDING then e.body.Configure? else e.body.Refresh?)
    ensures Step(s, w, e, o) == (s, w)
  {
  }

  /**
   * A teardown, from its REFRESH to its answer: the forwarder passes both on, and only the answer
   * ends the session and what it metered.
   */
  lemma TeardownIsPassedOn(s: Nf, w: World, n: Serial, o: Oracle, lifetime: nat)
    requires s.phase == METERING && IsGreater(n, s.msn)
    ensures var refresh, answer := Refresh(0, n), Response(true, Some(n), lifetime);
            var a := Step(s, w, Received(s.sid, refresh, false), o);
            var z := Step(a.0, a.1, Received(s.sid, answer, false), o);
            && a.0.phase == METERING && LeavesMetering(w, a.1)
            && z.0.phase == CLOSE && Releases(o, w, z.1, s.rule) && Says(w, z.1, s.sid, [refresh, answer])
  {
    hide IsGreater, Owned, Removed, Releases;
    var refresh, answer := Refresh(0, n), Response(true, Some(n), lifetime);
    var a := Step(s, w, Received(s.sid, refresh, false), o);
    var z := Step(a.0, a.1, Received(s.sid, answer, false), o);
    UninstallReleases(o, w, s.rule);
    SameMeter(o, w, w, Uninstall(o, w, s.rule), z.1, s.rule);
  }

  /**
   * A refresh, from its REFRESH to its answer: the answer does not stop the timer that waits for it.
   * If no other REFRESH comes first, that timer ends the session, and a failure is sent for it.
   */
  lemma AnsweredRefreshTimesOut(s: Nf, w: World, lifetime: nat, n: Serial, o: Oracle)
    requires ValidWorld(w) && s.phase == METERING && IsGreater(n, s.msn) && lifetime > 0 && s.maxLifetime > 0
    ensures var a := Step(s, w, Received(s.sid, Refresh(lifetime, n), false), o);
            var b := Step(a.0, a.1, Received(s.sid, Response(true, Some(n), lifetime), false), o);
            var t := b.0.responseTimer;
            var z := Step(b.0, Fire(b.1, t), TimerFired(s.sid, t), o);
            && b.0.phase == METERING && t in b.1.armed && b.1.armed[t] == Armed(s.sid, s.responseTimeout)
            && z.0.phase == CLOSE && Says(b.1, z.1, s.sid, [Response(false, Some(n), 0)])
  {
    hide IsGreater, Owned, Removed;
  }
}
