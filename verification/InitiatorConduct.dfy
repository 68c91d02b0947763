/** What an initiator is seen to do: what it sends, which timers it starts, when and how it ends. */
module InitiatorConduct {
  import opened Options
  import opened Serial
  import opened PolicyRule
  import opened Session
  import opened Observed
  import opened Initiator

  /** The messages that it keeps are of their kinds, and it has sent its CONFIGURE. */
  ghost predicate Talks(s: Ni) {
    && (s.lastConfigure.Some? ==> s.lastConfigure.value.Configure?)
    && (s.lastRefresh.Some? ==> s.lastRefresh.value.Refresh?)
    && (s.phase == PENDING ==> s.lastConfigure.Some?)
    && s.configureCounter <= s.maxRetries && s.refreshCounter <= s.maxRetries
  }

  lemma StepTalks(s: Ni, w: World, e: Event, o: Oracle)
    requires Talks(s)
    ensures Step(s, w, e, o).0.phase != CLOSE ==> Talks(Step(s, w, e, o).0)
  {
    hide Taken, Left, InstallAll, Installed, Removed;
  }

  // ----- the request -----

  /** Least integers above the two quotients of setup_session. */
  lemma IntervalsAreLeast(lifetime: nat, maxRetries: nat, jitter: nat, interval: nat, q: nat)
    ensures SetupInterval(lifetime, maxRetries) <= q <==> 4 * lifetime <= 3 * (2 * maxRetries + 1) * q
    ensures jitter < 1000 ==> (Timeout(jitter, interval) <= q <==> (500 + jitter) * interval <= 1000 * q)
  {
    LeastQuotient(4 * lifetime, 3 * (2 * maxRetries + 1), q);
    LeastQuotient((500 + jitter % 1000) * interval, 1000, q);
  }

  lemma LeastQuotient(a: nat, b: nat, q: nat)
    requires b > 0
    ensures CeilDiv(a, b) <= q <==> a <= b * q
  {
    hide CeilDiv;
    var c := CeilDiv(a, b);
    if c <= q {
      Scaled(b, c, q);
    } else {
      Scaled(b, q, c - 1);
    }
  }

  lemma Scaled(b: nat, x: int, y: int)
    requires x <= y
    ensures b * x <= b * y
  {
  }

  /** Lasting for the interval that the retries allow, a timeout is between half and one and a half of it. */
  lemma RequestIsSent(s: Ni, w: World, e: Event, o: Oracle)
    requires s.phase == CLOSE && e.ApiConfigure? && e.lifetime > 0
    ensures var r, interval := Step(s, w, e, o), SetupInterval(e.lifetime, s.maxRetries);
            && r.0 == s.(phase := PENDING, lifetime := e.lifetime, refreshInterval := interval,
                         responseTimeout := Timeout(e.jitter, interval), msn := Next(s.msn),
                         lastConfigure := r.0.lastConfigure, responseTimer := w.nextTimer, rule := r.0.rule)
            && r.0.lastConfigure.Some? && r.0.lastConfigure.value.Configure?
            && r.0.lastConfigure.value.lifetime == e.lifetime && r.0.lastConfigure.value.msn == Next(s.msn)
            && r.0.lastConfigure.value.sme == e.sme && r.0.lastConfigure.value.hops == s.hops
            && Says(w, r.1, s.sid, [r.0.lastConfigure.value])
            && Starts(w, r.1, s.sid, r.0.responseTimer, Timeout(e.jitter, r.0.refreshInterval))
            && LeavesMetering(w, r.1)
  {
    hide Taken, Left, SetupInterval, Timeout;
  }

  lemma OnlyRequestsOpen(s: Ni, w: World, e: Event, o: Oracle)
    requires s.phase == CLOSE && !e.ApiConfigure?
    ensures Step(s, w, e, o) == (s, w)
  {
  }

  // ----- how it ends -----

  /** The timer it waits for an answer by, and no retry is left. */
  predicate GivesUp(s: Ni, e: Event) {
    && e.TimerFired? && e.id == s.responseTimer
    && if s.phase == PENDING then s.configureCounter == s.maxRetries
       else e.id != s.refreshTimer && s.refreshCounter == s.maxRetries
  }

  /** An answer to its last request. */
  predicate Answered(s: Ni, e: Event) {
    if s.phase == PENDING then s.lastConfigure.Some? && s.lastConfigure.value.Configure? && Hears(e, s.lastConfigure.value.msn)
    else s.lastRefresh.Some? && s.lastRefresh.value.Refresh? && Hears(e, s.lastRefresh.value.msn)
  }

  /** A success, but it cannot meter its share itself. */
  ghost predicate CannotMeter(s: Ni, e: Event, o: Oracle) {
    s.phase == PENDING && Answered(s, e) && e.body.success && !AllDeployable(o, s.rule.objects)
  }

  /** It ends on these five occasions and on no other. */
  lemma EndsIff(s: Ni, w: World, e: Event, o: Oracle)
    requires Talks(s) && s.phase != CLOSE
    ensures Step(s, w, e, o).0.phase == CLOSE <==>
            || e.ApiTeardown?
            || (e.NoNextNode? && s.phase == PENDING)
            || GivesUp(s, e)
            || (Answered(s, e) && !e.body.success)
            || CannotMeter(s, e, o)
  {
    WholeRuleIff(o, s.rule.objects);
    hide InstallAll, Installed, Removed, Owned, Deployable;
  }

  /** A teardown, or a share that it cannot meter: one REFRESH of lifetime 0, with the next number. */
  lemma TeardownIsSent(s: Ni, w: World, e: Event, o: Oracle)
    requires Talks(s) && s.phase != CLOSE && (e.ApiTeardown? || CannotMeter(s, e, o))
    ensures var r := Step(s, w, e, o);
            && r.0.phase == CLOSE && r.0.msn == Next(s.msn)
            && Says(w, r.1, s.sid, [Refresh(0, Next(s.msn))])
            && (e.ApiTeardown? ==> StartsNothing(w, r.1) && Releases(o, w, r.1, s.rule))
            && (CannotMeter(s, e, o) ==> Releases(o, Install(o, w, s.rule), r.1, InstallAll(o, s.rule.objects)))
  {
    WholeRuleIff(o, s.rule.objects);
    hide InstallAll, Installed, Deployable, Removed, Owned, Releases;
    UninstallReleases(o, w, s.rule);
    SameMeter(o, w, w, Uninstall(o, w, s.rule), Step(s, w, e, o).1, s.rule);
    if CannotMeter(s, e, o) {
      var part := InstallAll(o, s.rule.objects);
      var v := Install(o, w, s.rule);
      var u := Install(o, Adopt(s, w, e.body.lifetime).1, s.rule);
      UninstallReleases(o, u, part);
      SameMeter(o, u, v, Uninstall(o, u, part), Step(s, w, e, o).1, part);
    }
  }

  /** Any other end is silent; a session that meters takes its commands back, one that does not has none. */
  lemma OtherEndsAreSilent(s: Ni, w: World, e: Event, o: Oracle)
    requires Talks(s) && s.phase != CLOSE && Step(s, w, e, o).0.phase == CLOSE
    requires !e.ApiTeardown? && !CannotMeter(s, e, o)
    ensures var r := Step(s, w, e, o);
            && Says(w, r.1, s.sid, []) && StartsNothing(w, r.1)
            && (if s.phase == METERING then Releases(o, w, r.1, s.rule) else LeavesMetering(w, r.1))
  {
    WholeRuleIff(o, s.rule.objects);
    hide InstallAll, Installed, Removed, Owned, Deployable, Releases;
    UninstallReleases(o, w, s.rule);
  }

  // ----- how it goes on -----

  /** It answers its timers while retries are left, and its answers; nothing else has any effect. */
  lemma ReactsIff(s: Ni, w: World, e: Event, o: Oracle)
    requires Talks(s) && s.phase != CLOSE && Step(s, w, e, o).0.phase != CLOSE
    requires !(e.TimerFired? && (e.id == s.responseTimer || (s.phase == METERING && e.id == s.refreshTimer))) && !Answered(s, e)
    ensures Step(s, w, e, o) == (s, w)
  {
  }

  /** The path is set up: its lifetime is adopted, what was taken is installed, and a refresh is due. */
  lemma SetUpIsConfirmed(s: Ni, w: World, e: Event, o: Oracle)
    requires Talks(s) && s.phase == PENDING && Answered(s, e) && e.body.success && AllDeployable(o, s.rule.objects)
    ensures var r := Step(s, w, e, o);
            && r.0 == s.(phase := METERING, lifetime := e.body.lifetime, rule := InstallAll(o, s.rule.objects),
                         refreshInterval := if e.body.lifetime == s.lifetime then s.refreshInterval
                                            else RefreshInterval(e.body.lifetime),
                         configureCounter := 0, responseTimer := 0, refreshTimer := w.nextTimer)
            && Says(w, r.1, s.sid, []) && Starts(w, r.1, s.sid, r.0.refreshTimer, r.0.refreshInterval)
            && r.1.meter == Installed(w.meter, r.0.rule)
  {
    WholeRuleIff(o, s.rule.objects);
    hide InstallAll, Installed, Deployable, RefreshInterval;
  }

  /** The refresh timer: a REFRESH of the session's lifetime, with the next number, to be answered in time. */
  lemma RefreshIsSent(s: Ni, w: World, o: Oracle)
    requires s.phase == METERING
    ensures var r, refresh := Step(s, w, TimerFired(s.sid, s.refreshTimer), o), Refresh(s.lifetime, Next(s.msn));
            && r.0 == s.(msn := Next(s.msn), lastRefresh := Some(refresh), refreshCounter := 0, responseTimer := w.nextTimer)
            && Says(w, r.1, s.sid, [refresh]) && Starts(w, r.1, s.sid, r.0.responseTimer, s.responseTimeout)
            && LeavesMetering(w, r.1)
  {
  }

  /** Its answer: the next refresh is due after the interval. */
  lemma RefreshIsConfirmed(s: Ni, w: World, e: Event, o: Oracle)
    requires Talks(s) && s.phase == METERING && Answered(s, e) && e.body.success
    ensures var r := Step(s, w, e, o);
            && r.0 == s.(responseTimer := 0, refreshTimer := w.nextTimer, refreshCounter := 0)
            && Says(w, r.1, s.sid, []) && Starts(w, r.1, s.sid, r.0.refreshTimer, s.refreshInterval)
            && LeavesMetering(w, r.1)
  {
  }

  // ----- no answer -----

  /** The response timer expires n times, each time the one that was started last. */
  function Expired(s: Ni, w: World, o: Oracle, n: nat): (Ni, World)
    decreases n
  {
    if n == 0 then (s, w)
    else
      var r := Step(s, Fire(w, s.responseTimer), TimerFired(s.sid, s.responseTimer), o);
      Expired(r.0, r.1, o, n - 1)
  }

  /** The message that is not answered, and how often it may still be sent. */
  function Unanswered(s: Ni): Option<Body> {
    if s.phase == PENDING then s.lastConfigure else s.lastRefresh
  }

  function RetriesLeft(s: Ni): int {
    s.maxRetries - if s.phase == PENDING then s.configureCounter else s.refreshCounter
  }

  ghost predicate Waits(s: Ni, w: World) {
    && s.phase != CLOSE && Talks(s) && Unanswered(s).Some? && s.responseTimer < w.nextTimer
    && (s.phase == METERING ==> s.responseTimer != s.refreshTimer && s.refreshTimer < w.nextTimer)
  }

  lemma OneExpires(s: Ni, w: World, o: Oracle)
    requires Waits(s, w)
    ensures var v := Fire(w, s.responseTimer);
            var r := Step(s, v, TimerFired(s.sid, s.responseTimer), o);
            if RetriesLeft(s) > 0 then
              && Waits(r.0, r.1) && r.0.phase == s.phase && Unanswered(r.0) == Unanswered(s) && r.0.sid == s.sid
              && RetriesLeft(r.0) == RetriesLeft(s) - 1 && r.0.rule == s.rule
              && Says(w, r.1, s.sid, [Unanswered(s).value]) && LeavesMetering(w, r.1)
              && Starts(v, r.1, s.sid, r.0.responseTimer, s.responseTimeout)
            else
              && r.0.phase == CLOSE && Says(w, r.1, s.sid, [])
              && (if s.phase == METERING then Releases(o, w, r.1, s.rule) else r.1.meter == w.meter)
  {
    hide Removed, Owned, Releases;
    UninstallReleases(o, w, s.rule);
    SameMeter(o, w, w, Uninstall(o, w, s.rule), Uninstall(o, Fire(w, s.responseTimer), s.rule), s.rule);
  }

  lemma RetriesAreNatural(s: Ni, w: World)
    requires Waits(s, w)
    ensures RetriesLeft(s) >= 0
  {
  }

  /**
   * Without an answer, the request is sent again, unchanged, as often as retries are left; the next
   * timer ends the session, and what it metered.
   */
  lemma {:induction false} RetriesAreCounted(s: Ni, w: World, o: Oracle, n: nat)
    requires Waits(s, w) && n <= RetriesLeft(s) + 1
    ensures var r := Expired(s, w, o, n);
            && (r.0.phase == CLOSE <==> n == RetriesLeft(s) + 1)
            && Says(w, r.1, s.sid, Copies(Unanswered(s), if n <= RetriesLeft(s) then n else n - 1))
            && (if r.0.phase == CLOSE && s.phase == METERING then Releases(o, w, r.1, s.rule) else r.1.meter == w.meter)
    decreases n
  {
    hide Step, Waits, RetriesLeft, Unanswered, Starts, Releases, Says, Copies;
    RetriesAreNatural(s, w);
    StillOpen(s, w);
    if n > 0 {
      var r := Step(s, Fire(w, s.responseTimer), TimerFired(s.sid, s.responseTimer), o);
      OneExpires(s, w, o);
      if RetriesLeft(s) > 0 {
        RetriesAreCounted(r.0, r.1, o, n - 1);
        var r' := Expired(s, w, o, n);
        MoreCopies(w, r.1, r'.1, s.sid, Unanswered(s), if n <= RetriesLeft(s) then n else n - 1);
        if r'.0.phase == CLOSE && s.phase == METERING {
          SameMeter(o, r.1, w, r'.1, r'.1, s.rule);
        }
      }
    }
  }

  /** A request that is never answered is sent once, and once for each retry. */
  lemma RequestIsRepeated(sid: nat, seed: Serial, timeout: nat, maxRetries: nat, hops: nat, w: World, e: Event, o: Oracle)
    requires e.ApiConfigure? && e.lifetime > 0
    ensures var a := Step(NewNi(sid, seed, timeout, maxRetries, hops), w, e, o);
            var z := Expired(a.0, a.1, o, maxRetries + 1);
            && a.0.lastConfigure.Some? && a.0.lastConfigure.value.Configure?
            && z.0.phase == CLOSE && Says(w, z.1, sid, Copies(a.0.lastConfigure, maxRetries + 1)) && z.1.meter == w.meter
  {
    hide Taken, Left, SetupInterval, Timeout, Expired, Says, Copies, Starts, Fire;
    var s := NewNi(sid, seed, timeout, maxRetries, hops);
    RequestIsSent(s, w, e, o);
    var a := Step(s, w, e, o);
    RetriesAreCounted(a.0, a.1, o, maxRetries + 1);
    MoreCopies(w, a.1, Expired(a.0, a.1, o, maxRetries + 1).1, sid, a.0.lastConfigure, maxRetries + 1);
  }

  /** So is a REFRESH, and then the initiator stops metering. */
  lemma RefreshIsRepeated(s: Ni, w: World, o: Oracle)
    requires Talks(s) && s.phase == METERING && s.refreshTimer < w.nextTimer
    ensures var a := Step(s, w, TimerFired(s.sid, s.refreshTimer), o);
            var z := Expired(a.0, a.1, o, s.maxRetries + 1);
            && z.0.phase == CLOSE
            && Says(w, z.1, s.sid, Copies(Some(Refresh(s.lifetime, Next(s.msn))), s.maxRetries + 1))
            && Releases(o, w, z.1, s.rule)
  {
    hide Expired, Says, Copies, Starts, Releases, Fire;
    RefreshIsSent(s, w, o);
    var a := Step(s, w, TimerFired(s.sid, s.refreshTimer), o);
    RetriesAreCounted(a.0, a.1, o, s.maxRetries + 1);
    var z := Expired(a.0, a.1, o, s.maxRetries + 1);
    MoreCopies(w, a.1, z.1, s.sid, Some(Refresh(s.lifetime, Next(s.msn))), s.maxRetries + 1);
    SameMeter(o, a.1, w, z.1, z.1, s.rule);
  }

  lemma StillOpen(s: Ni, w: World)
    requires Waits(s, w)
    ensures s.phase != CLOSE && Unanswered(s).Some? && Says(w, w, s.sid, Copies(Unanswered(s), 0))
    ensures Copies(Unanswered(s), 0) == []
  {
  }

  function Copies(b: Option<Body>, n: int): seq<Body> {
    if b.None? || n <= 0 then [] else seq(n, i => b.value)
  }

  lemma MoreCopies(w: World, v: World, u: World, sid: nat, b: Option<Body>, n: nat)
    requires b.Some? && n > 0 && Says(w, v, sid, [b.value]) && Says(v, u, sid, Copies(b, n - 1))
    ensures Says(w, u, sid, Copies(b, n))
  {
    SaysThen(w, v, u, sid, [b.value], Copies(b, n - 1));
    assert [b.value] + Copies(b, n - 1) == Copies(b, n);
  }
}
