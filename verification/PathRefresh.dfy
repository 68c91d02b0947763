/** Refreshing a session along the path: every round leaves all nodes with the initiator's lifetime. */
module PathRefresh {
  import opened Options
  import opened Serial
  import opened PolicyRule
  import opened Session
  import opened Path
  import Initiator
  import Forwarder
  import Responder

  /** Every node meters, has seen the initiator's last number, and could keep its lifetime. */
  ghost predicate InStep(p: Path) {
    && p.ni.phase == METERING && p.ni.lifetime > 0
    && p.nr.phase == METERING && p.nr.msn == p.ni.msn && p.ni.lifetime <= p.nr.maxLifetime
    && forall i :: 0 <= i < |p.sites| ==> SiteInStep(p.sites[i], p.ni.msn, p.ni.lifetime)
  }

  ghost predicate SiteInStep(site: Site, msn: Serial, lifetime: nat) {
    site.nf.phase == METERING && site.nf.msn == msn && lifetime <= site.nf.maxLifetime
  }

  /** Every node has exactly the initiator's lifetime. */
  ghost predicate Equalized(p: Path) {
    && InStep(p) && p.nr.lifetime == p.ni.lifetime
    && forall i :: 0 <= i < |p.sites| ==> p.sites[i].nf.lifetime == p.ni.lifetime
  }

  /** The metering that is installed along the path is the same. */
  ghost predicate SameRules(p: Path, q: Path) {
    && q.ni.rule == p.ni.rule && q.nr.rule == p.nr.rule && |q.sites| == |p.sites|
    && forall i :: 0 <= i < |p.sites| ==> q.sites[i].nf.rule == p.sites[i].nf.rule
  }

  /** The initiator's refresh timer fires, its REFRESH reaches the responder, and the answer comes back. */
  function Round(p: Path): Path {
    Answered(Configured(p, TimerFired(p.ni.sid, p.ni.refreshTimer)))
  }

  function Rounds(p: Path, n: nat): Path {
    if n == 0 then p else Round(Rounds(p, n - 1))
  }

  lemma NextIsGreater(s: Serial)
    ensures IsGreater(Next(s), s)
  {
    GreaterAfter(s, 1);
    assert NextN(s, 1) == Next(NextN(s, 0));
  }

  // ----- the forwarders -----

  /** A forwarder that has passed this REFRESH on. */
  ghost predicate Asked(before: Site, after: Site, r: Body)
    requires r.Refresh?
  {
    && SiteInStep(after, r.msn, r.lifetime) && after.nf.lifetime == r.lifetime
    && after.nf.lastRefresh == Some(r) && after.nf.rule == before.nf.rule
  }

  ghost predicate AllAsked(before: seq<Site>, after: seq<Site>, r: Body)
    requires r.Refresh?
  {
    |before| == |after| && forall i :: 0 <= i < |before| ==> Asked(before[i], after[i], r)
  }

  lemma SiteRefreshes(site: Site, sid: nat, msn: Serial, r: Body)
    requires r.Refresh? && r.lifetime > 0 && SiteInStep(site, msn, r.lifetime) && IsGreater(r.msn, msn)
    ensures var t := Forwarder.Step(site.nf, site.w, Received(sid, r, false), site.o);
            Asked(site, Site(t.0, t.1, site.o), r) && Outgoing(t.1) == r
  {
  }

  lemma {:induction false} ForwardAsks(sid: nat, sites: seq<Site>, msn: Serial, r: Body)
    requires r.Refresh? && r.lifetime > 0 && IsGreater(r.msn, msn)
    requires forall i :: 0 <= i < |sites| ==> SiteInStep(sites[i], msn, r.lifetime)
    ensures AllAsked(sites, Forward(sid, sites, r).0, r) && Forward(sid, sites, r).1 == r
    decreases |sites|
  {
    hide Forwarder.Step, SiteInStep, Asked, Outgoing;
    if sites != [] {
      var t := Forwarder.Step(sites[0].nf, sites[0].w, Received(sid, r, false), sites[0].o);
      SiteRefreshes(sites[0], sid, msn, r);
      ForwardAsks(sid, sites[1..], msn, r);
      var after := [Site(t.0, t.1, sites[0].o)] + Forward(sid, sites[1..], r).0;
      forall i | 0 <= i < |sites|
        ensures Asked(sites[i], after[i], r)
      {
        assert i > 0 ==> sites[i] == sites[1..][i - 1] && after[i] == after[1..][i - 1];
      }
    }
  }

  /** A forwarder that has passed the answer back: it has what it had. */
  ghost predicate Settled(before: Site, after: Site) {
    && after.nf.phase == METERING && after.nf.lifetime == before.nf.lifetime && after.nf.msn == before.nf.msn
    && after.nf.maxLifetime == before.nf.maxLifetime && after.nf.rule == before.nf.rule
  }

  lemma SiteConcludes(first: Site, site: Site, sid: nat, r: Body, answer: Body)
    requires r.Refresh? && r.lifetime > 0 && Asked(first, site, r)
    requires answer.Response? && answer.success && answer.rmsn == Some(r.msn)
    ensures var t := Forwarder.Step(site.nf, site.w, Received(sid, answer, false), site.o);
            Settled(site, Site(t.0, t.1, site.o)) && Outgoing(t.1) == answer
  {
  }

  lemma {:induction false} BackwardSettles(sid: nat, first: seq<Site>, sites: seq<Site>, r: Body, answer: Body)
    requires r.Refresh? && r.lifetime > 0 && AllAsked(first, sites, r)
    requires answer.Response? && answer.success && answer.rmsn == Some(r.msn)
    ensures var b := Backward(sid, sites, answer);
            b.1 == answer && |b.0| == |sites| && forall i :: 0 <= i < |sites| ==> Settled(sites[i], b.0[i])
    decreases |sites|
  {
    hide Forwarder.Step, Asked, Settled, Outgoing;
    if sites != [] {
      assert AllAsked(first[1..], sites[1..], r) by {
        assert forall i :: 0 <= i < |sites| - 1 ==> first[1..][i] == first[i + 1] && sites[1..][i] == sites[i + 1];
      }
      BackwardSettles(sid, first[1..], sites[1..], r, answer);
      var rest := Backward(sid, sites[1..], answer);
      var t := Forwarder.Step(sites[0].nf, sites[0].w, Received(sid, rest.1, false), sites[0].o);
      SiteConcludes(first[0], sites[0], sid, r, answer);
      var after := [Site(t.0, t.1, sites[0].o)] + rest.0;
      forall i | 0 <= i < |sites|
        ensures Settled(sites[i], after[i])
      {
        assert i > 0 ==> sites[i] == sites[1..][i - 1] && after[i] == rest.0[i - 1];
      }
    }
  }

  // ----- the ends -----

  lemma InitiatorRefreshes(s: Initiator.Ni, w: World, o: Oracle)
    requires s.phase == METERING
    ensures var t := Initiator.Step(s, w, TimerFired(s.sid, s.refreshTimer), o);
            var r := Refresh(s.lifetime, Next(s.msn));
            && Outgoing(t.1) == r && t.0.lastRefresh == Some(r) && t.0.msn == r.msn
            && t.0.phase == METERING && t.0.lifetime == s.lifetime && t.0.rule == s.rule
  {
  }

  lemma ResponderRefreshes(s: Responder.Nr, w: World, sid: nat, o: Oracle, r: Body)
    requires r.Refresh? && 0 < r.lifetime <= s.maxLifetime && s.phase == METERING && IsGreater(r.msn, s.msn)
    ensures var t := Responder.Step(s, w, Received(sid, r, true), o);
            && t.0.phase == METERING && t.0.lifetime == r.lifetime && t.0.msn == r.msn
            && t.0.maxLifetime == s.maxLifetime && t.0.rule == s.rule
            && Outgoing(t.1) == SuccessTo(r, r.lifetime)
  {
  }

  lemma InitiatorIsAnswered(s: Initiator.Ni, w: World, o: Oracle, r: Body, answer: Body)
    requires s.phase == METERING && s.lastRefresh == Some(r) && r.Refresh?
    requires answer.Response? && answer.success && answer.rmsn == Some(r.msn)
    ensures var t := Initiator.Step(s, w, Received(s.sid, answer, false), o);
            t.0.phase == METERING && t.0.lifetime == s.lifetime && t.0.msn == s.msn && t.0.rule == s.rule
  {
  }

  // ----- the path -----

  /** When the REFRESH of a round has reached the responder, all nodes have taken it over. */
  lemma RoundGoesOut(p: Path)
    requires InStep(p)
    ensures var q, r := Configured(p, TimerFired(p.ni.sid, p.ni.refreshTimer)), Refresh(p.ni.lifetime, Next(p.ni.msn));
            && q.ni.phase == METERING && q.ni.lastRefresh == Some(r) && q.ni.msn == r.msn
            && q.ni.lifetime == p.ni.lifetime && q.ni.rule == p.ni.rule
            && AllAsked(p.sites, q.sites, r)
            && q.nr.phase == METERING && q.nr.lifetime == r.lifetime && q.nr.msn == r.msn
            && q.nr.maxLifetime == p.nr.maxLifetime && q.nr.rule == p.nr.rule
            && Outgoing(q.nrWorld) == SuccessTo(r, r.lifetime)
  {
    hide Initiator.Step, Forwarder.Step, Responder.Step, Outgoing, IsGreater, Next;
    var r := Refresh(p.ni.lifetime, Next(p.ni.msn));
    NextIsGreater(p.ni.msn);
    InitiatorRefreshes(p.ni, p.niWorld, p.niOracle);
    ForwardAsks(p.ni.sid, p.sites, p.ni.msn, r);
    ResponderRefreshes(p.nr, p.nrWorld, p.ni.sid, p.nrOracle, r);
  }

  /** One round gives every node exactly the initiator's lifetime, and keeps everything in step. */
  lemma RoundEqualizes(p: Path)
    requires InStep(p)
    ensures Equalized(Round(p)) && Round(p).ni.lifetime == p.ni.lifetime && SameRules(p, Round(p))
  {
    hide Initiator.Step, Forwarder.Step, Responder.Step, Outgoing, Next, Configured;
    var q, r := Configured(p, TimerFired(p.ni.sid, p.ni.refreshTimer)), Refresh(p.ni.lifetime, Next(p.ni.msn));
    RoundGoesOut(p);
    var answer := SuccessTo(r, r.lifetime);
    BackwardSettles(q.ni.sid, p.sites, q.sites, r, answer);
    InitiatorIsAnswered(q.ni, q.niWorld, q.niOracle, r, answer);
    forall i | 0 <= i < |p.sites|
      ensures SiteInStep(Round(p).sites[i], r.msn, r.lifetime) && Round(p).sites[i].nf.lifetime == r.lifetime
      ensures Round(p).sites[i].nf.rule == p.sites[i].nf.rule
    {
      assert Asked(p.sites[i], q.sites[i], r) && Settled(q.sites[i], Round(p).sites[i]);
    }
  }

  /** The set-up leaves the path in step. */
  lemma SetUpIsInStep(p: Path, e: Event)
    requires Ready(p) && e.ApiConfigure? && e.lifetime > 0
    requires Answered(Configured(p, e)).ni.phase == METERING
    ensures InStep(Answered(Configured(p, e)))
  {
    hide Initiator.Step, Forwarder.Step, Responder.Step, Configured, Answered, EveryoneCanInstall, Least, Stops, Meters;
    hide ReadySite, Objects;
    var r := Answered(Configured(p, e));
    PathMeters(p, e);
    PathNumbers(p, e);
    LeastIsPositive(p.ni.sid, p.sites, e.lifetime);
    PathIsShared(p, e, 0);
    assert |r.sites| == |p.sites|;
    forall i | 0 <= i < |p.sites|
      ensures SiteInStep(r.sites[i], r.ni.msn, r.ni.lifetime)
    {
      PathLifetimes(p, e, i);
    }
  }

  /**
   * However many refreshes follow the set-up, after each of them every node of the path holds
   * exactly the lifetime that the set-up agreed on, and what was installed stays as it was.
   */
  lemma {:induction false} RefreshEqualizes(p: Path, e: Event, n: nat)
    requires Ready(p) && e.ApiConfigure? && e.lifetime > 0 && n > 0
    requires Answered(Configured(p, e)).ni.phase == METERING
    ensures var r := Answered(Configured(p, e));
            Equalized(Rounds(r, n)) && Rounds(r, n).ni.lifetime == r.ni.lifetime && SameRules(r, Rounds(r, n))
    decreases n
  {
    hide Round, InStep, Ready, Configured, Answered;
    var r := Answered(Configured(p, e));
    if n == 1 {
      SetUpIsInStep(p, e);
      assert Rounds(r, 1) == Round(Rounds(r, 0));
      RoundEqualizes(r);
    } else {
      RefreshEqualizes(p, e, n - 1);
      RoundEqualizes(Rounds(r, n - 1));
    }
  }
}
