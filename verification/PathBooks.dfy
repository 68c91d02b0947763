/** The books of all nodes of a path, over a whole session: what is installed for it goes again when it ends. */
module PathBooks {
  import opened Serial
  import opened PolicyRule
  import opened Session
  import opened Ledger
  import opened Path
  import opened PathShares
  import opened PathRefresh
  import opened PathTeardown
  import D = Dispatcher
  import Initiator
  import Forwarder
  import Responder
  import InitiatorConduct

  /** The node's live commands are those that this session holds and, of other sessions, those it had at first. */
  ghost predicate Booked(s: D.SessionState, w: World, sid: nat, base: set<Command>) {
    && s.Sid() == sid && (!s.Final() ==> s.Kept(w))
    && forall c: Command :: c in Live(w) <==> if c.key.owner == sid then c in s.Held() else c in base
  }

  /** A step keeps the books. */
  lemma StepIsBooked(s: D.SessionState, w: World, e: Event, o: Oracle, sid: nat, base: set<Command>)
    requires s.Kept(w) && Booked(s, w, sid, base)
    ensures var r := s.Step(w, e, o); Booked(r.0, r.1, sid, base)
  {
    hide D.SessionState.Kept, D.SessionState.Step, D.SessionState.Held, Live;
    D.StepKeeps(s, w, e, o);
    var r := s.Step(w, e, o);
    D.HeldIsOwn(s, w);
    if r.0.Final() {
      D.FinalHoldsNothing(r.0);
    } else {
      D.HeldIsOwn(r.0, r.1);
    }
  }

  /** A session that is closed holds nothing, so the node has what it had. */
  lemma ClosedIsBooked(s: D.SessionState, w: World, sid: nat, base: set<Command>)
    requires Booked(s, w, sid, base) && s.Final() && forall c :: c in base ==> c.key.owner != sid
    ensures Live(w) == base
  {
    hide D.SessionState.Kept;
    D.FinalHoldsNothing(s);
  }

  // ----- all forwarders -----

  ghost predicate SitesBooked(before: seq<Site>, sites: seq<Site>, sid: nat) {
    |before| == |sites| && forall i :: 0 <= i < |sites| ==> Booked(D.NF(sites[i].nf), sites[i].w, sid, Live(before[i].w))
  }

  ghost predicate SitesKept(sites: seq<Site>) {
    forall i :: 0 <= i < |sites| ==> Forwarder.Kept(sites[i].nf, sites[i].w)
  }

  lemma SiteIsBooked(site: Site, e: Event, sid: nat, base: set<Command>)
    requires Forwarder.Kept(site.nf, site.w) && Booked(D.NF(site.nf), site.w, sid, base)
    ensures var r := Forwarder.Step(site.nf, site.w, e, site.o); Booked(D.NF(r.0), r.1, sid, base)
  {
    hide Booked, Forwarder.Step, Forwarder.Kept;
    StepIsBooked(D.NF(site.nf), site.w, e, site.o, sid, base);
  }

  lemma BookedTail(before: seq<Site>, sites: seq<Site>, sid: nat)
    requires SitesBooked(before, sites, sid) && SitesKept(sites) && sites != []
    ensures SitesBooked(before[1..], sites[1..], sid) && SitesKept(sites[1..])
  {
    hide Booked, Forwarder.Kept;
    assert forall i :: 0 <= i < |sites| - 1 ==> before[1..][i] == before[i + 1] && sites[1..][i] == sites[i + 1];
  }

  lemma BookedCons(before: seq<Site>, first: Site, rest: seq<Site>, sid: nat)
    requires before != [] && Booked(D.NF(first.nf), first.w, sid, Live(before[0].w)) && SitesBooked(before[1..], rest, sid)
    ensures SitesBooked(before, [first] + rest, sid)
  {
    hide Booked;
    forall i | 0 <= i < |before|
      ensures Booked(D.NF(([first] + rest)[i].nf), ([first] + rest)[i].w, sid, Live(before[i].w))
    {
      assert i > 0 ==> before[1..][i - 1] == before[i] && ([first] + rest)[i] == rest[i - 1];
    }
  }

  lemma {:induction false} ForwardBooked(before: seq<Site>, sid: nat, sites: seq<Site>, c: Body, to: nat)
    requires SitesBooked(before, sites, sid) && SitesKept(sites)
    ensures SitesBooked(before, Forward(to, sites, c).0, sid)
    decreases |sites|
  {
    hide Booked, Forwarder.Step, Forwarder.Kept, Outgoing;
    if sites != [] {
      var r := Forwarder.Step(sites[0].nf, sites[0].w, Received(to, c, false), sites[0].o);
      SiteIsBooked(sites[0], Received(to, c, false), sid, Live(before[0].w));
      BookedTail(before, sites, sid);
      ForwardBooked(before[1..], sid, sites[1..], Outgoing(r.1), to);
      BookedCons(before, Site(r.0, r.1, sites[0].o), Forward(to, sites[1..], Outgoing(r.1)).0, sid);
    }
  }

  lemma {:induction false} BackwardBooked(before: seq<Site>, sid: nat, sites: seq<Site>, answer: Body, to: nat)
    requires SitesBooked(before, sites, sid) && SitesKept(sites)
    ensures SitesBooked(before, Backward(to, sites, answer).0, sid)
    decreases |sites|
  {
    hide Booked, Forwarder.Step, Forwarder.Kept, Outgoing;
    if sites != [] {
      BookedTail(before, sites, sid);
      BackwardBooked(before[1..], sid, sites[1..], answer, to);
      var rest := Backward(to, sites[1..], answer);
      var r := Forwarder.Step(sites[0].nf, sites[0].w, Received(to, rest.1, false), sites[0].o);
      SiteIsBooked(sites[0], Received(to, rest.1, false), sid, Live(before[0].w));
      BookedCons(before, Site(r.0, r.1, sites[0].o), rest.0, sid);
    }
  }

  // ----- the path -----

  ghost predicate PathBooked(before: Path, p: Path) {
    && Booked(D.NI(p.ni), p.niWorld, before.ni.sid, Live(before.niWorld))
    && Booked(D.NR(p.nr), p.nrWorld, before.ni.sid, Live(before.nrWorld))
    && SitesBooked(before.sites, p.sites, before.ni.sid)
    && (p.ni.phase != CLOSE ==> InitiatorConduct.Talks(p.ni))
  }

  ghost predicate PathKept(p: Path) {
    Initiator.Kept(p.ni, p.niWorld) && Responder.Kept(p.nr, p.nrWorld) && SitesKept(p.sites) && InitiatorConduct.Talks(p.ni)
  }

  ghost predicate SitesOpen(sites: seq<Site>) {
    forall i :: 0 <= i < |sites| ==> sites[i].nf.phase != CLOSE
  }

  lemma OpenSites(before: seq<Site>, sites: seq<Site>, sid: nat)
    requires SitesBooked(before, sites, sid) && SitesOpen(sites)
    ensures SitesKept(sites)
  {
    forall i | 0 <= i < |sites|
      ensures Forwarder.Kept(sites[i].nf, sites[i].w)
    {
      assert Booked(D.NF(sites[i].nf), sites[i].w, sid, Live(before[i].w));
    }
  }

  lemma OpenPath(before: Path, p: Path)
    requires PathBooked(before, p) && p.ni.phase != CLOSE && p.nr.phase != CLOSE && SitesOpen(p.sites)
    ensures PathKept(p)
  {
    hide InitiatorConduct.Talks, Initiator.Kept, Responder.Kept;
    OpenSites(before.sites, p.sites, before.ni.sid);
  }

  lemma ConfiguredBooked(before: Path, p: Path, e: Event)
    requires PathBooked(before, p) && PathKept(p)
    ensures PathBooked(before, Configured(p, e))
  {
    hide Booked, SitesBooked, SitesKept, Initiator.Step, Responder.Step, Initiator.Kept, Responder.Kept, Forward, Outgoing;
    hide InitiatorConduct.Talks;
    var sid := before.ni.sid;
    var q := Configured(p, e);
    StepIsBooked(D.NI(p.ni), p.niWorld, e, p.niOracle, sid, Live(before.niWorld));
    InitiatorConduct.StepTalks(p.ni, p.niWorld, e, p.niOracle);
    var c := Outgoing(q.niWorld);
    ForwardBooked(before.sites, sid, p.sites, c, p.ni.sid);
    StepIsBooked(D.NR(p.nr), p.nrWorld, Received(p.ni.sid, Forward(p.ni.sid, p.sites, c).1, true), p.nrOracle,
                 sid, Live(before.nrWorld));
  }

  /** The answer finds all forwarders open; an initiator that is closed already does not listen to it. */
  lemma AnsweredBooked(before: Path, p: Path)
    requires PathBooked(before, p) && SitesOpen(p.sites)
    ensures PathBooked(before, Answered(p))
  {
    hide SitesBooked, SitesKept, SitesOpen, Initiator.Step, Initiator.Kept, Backward, Outgoing, InitiatorConduct.Talks;
    hide Live, D.SessionState.Held, Responder.Kept;
    var sid := before.ni.sid;
    OpenSites(before.sites, p.sites, sid);
    BackwardBooked(before.sites, sid, p.sites, Outgoing(p.nrWorld), p.ni.sid);
    var e := Received(p.ni.sid, Backward(p.ni.sid, p.sites, Outgoing(p.nrWorld)).1, false);
    if p.ni.phase == CLOSE {
      InitiatorConduct.OnlyRequestsOpen(p.ni, p.niWorld, e, p.niOracle);
    } else {
      StepIsBooked(D.NI(p.ni), p.niWorld, e, p.niOracle, sid, Live(before.niWorld));
      InitiatorConduct.StepTalks(p.ni, p.niWorld, e, p.niOracle);
    }
  }

  // ----- a whole session -----

  /** The nodes are valid, and none of them has anything of this session. */
  ghost predicate Unknown(p: Path) {
    && ValidWorld(p.niWorld) && ValidWorld(p.nrWorld)
    && (forall i :: 0 <= i < |p.sites| ==> ValidWorld(p.sites[i].w) && NotLive(p.sites[i].w, p.ni.sid))
    && NotLive(p.niWorld, p.ni.sid) && NotLive(p.nrWorld, p.ni.sid)
    && InitiatorConduct.Talks(p.ni)
  }

  ghost predicate NotLive(w: World, sid: nat) {
    forall c :: c in Live(w) ==> c.key.owner != sid
  }

  lemma NewSite(site: Site, sid: nat)
    requires ReadySite(site, sid) && ValidWorld(site.w) && NotLive(site.w, sid)
    ensures Forwarder.Kept(site.nf, site.w) && Booked(D.NF(site.nf), site.w, sid, Live(site.w))
  {
  }

  lemma NewEnds(p: Path)
    requires Ready(p) && Unknown(p)
    ensures Initiator.Kept(p.ni, p.niWorld) && Booked(D.NI(p.ni), p.niWorld, p.ni.sid, Live(p.niWorld))
    ensures Responder.Kept(p.nr, p.nrWorld) && Booked(D.NR(p.nr), p.nrWorld, p.ni.sid, Live(p.nrWorld))
  {
  }

  lemma NewPath(p: Path)
    requires Ready(p) && Unknown(p)
    ensures PathBooked(p, p) && PathKept(p)
  {
    hide Booked, Initiator.Kept, Responder.Kept, Forwarder.Kept, ReadySite, InitiatorConduct.Talks;
    NewEnds(p);
    forall i | 0 <= i < |p.sites|
      ensures Forwarder.Kept(p.sites[i].nf, p.sites[i].w)
      ensures Booked(D.NF(p.sites[i].nf), p.sites[i].w, p.ni.sid, Live(p.sites[i].w))
    {
      NewSite(p.sites[i], p.ni.sid);
    }
  }

  lemma {:induction false} SharedAreOpen(before: seq<Site>, after: seq<Site>, sid: nat, c: Body)
    requires c.Configure? && AllShared(before, after, sid, c)
    ensures SitesOpen(after)
    decreases |before|
  {
    if before != [] {
      SharedAreOpen(before[1..], after[1..], sid, PassedOn(before[0], c));
      assert forall i :: 0 < i < |after| ==> after[i] == after[1..][i - 1];
    }
  }

  lemma SetUpIsOpen(p: Path, e: Event)
    requires Ready(p) && e.ApiConfigure? && e.lifetime > 0
    ensures SitesOpen(Configured(p, e).sites)
  {
    hide Initiator.Step, Forwarder.Step, Responder.Step, Outgoing, PassedBy, KeptBy, ReadySite, AllShared, Least, SitesOpen;
    hide ForwarderStops, StopOf;
    InitiatorConfigures(p, e);
    var c := Configure(e.lifetime, Next(p.ni.msn), e.sme, p.ni.hops, PassedBy(StopOf(p.niOracle, Role.Initiator, e.sme), e.objs));
    ForwardShares(p.ni.sid, p.sites, c);
    SharedAreOpen(p.sites, Configured(p, e).sites, p.ni.sid, c);
  }

  lemma InStepIsOpen(p: Path)
    requires InStep(p)
    ensures p.ni.phase != CLOSE && p.nr.phase != CLOSE && SitesOpen(p.sites)
  {
  }

  lemma AskedAreOpen(before: seq<Site>, after: seq<Site>, r: Body)
    requires r.Refresh? && AllAsked(before, after, r)
    ensures SitesOpen(after)
  {
    assert forall i :: 0 <= i < |after| ==> Asked(before[i], after[i], r);
  }

  lemma ToldAreOpen(before: seq<Site>, after: seq<Site>, n: Serial)
    requires AllTold(before, after, n)
    ensures SitesOpen(after)
  {
    assert forall i :: 0 <= i < |after| ==> Told(before[i], after[i], n);
  }

  lemma {:induction false} RoundsAreBooked(before: Path, p: Path, n: nat)
    requires InStep(p) && PathBooked(before, p)
    ensures InStep(Rounds(p, n)) && PathBooked(before, Rounds(p, n))
    decreases n
  {
    hide InStep, PathBooked, PathKept, Configured, Answered, AllAsked, SitesOpen;
    if n > 0 {
      var m := Rounds(p, n - 1);
      RoundsAreBooked(before, p, n - 1);
      RoundEqualizes(m);
      InStepIsOpen(m);
      OpenPath(before, m);
      RoundGoesOut(m);
      var e := TimerFired(m.ni.sid, m.ni.refreshTimer);
      AskedAreOpen(m.sites, Configured(m, e).sites, Refresh(m.ni.lifetime, Next(m.ni.msn)));
      ConfiguredBooked(before, m, e);
      AnsweredBooked(before, Configured(m, e));
    }
  }

  /**
   * A whole session: it is set up, refreshed any number of times, and torn down. Then every node of
   * the path is closed, and has exactly the live commands that it had before; so where no removal is
   * refused, nothing of the session is left, and nothing of others has gone.
   */
  lemma SessionLeavesNothing(p: Path, e: Event, n: nat, i: nat)
    requires Ready(p) && Unknown(p) && e.ApiConfigure? && e.lifetime > 0
    requires Answered(Configured(p, e)).ni.phase == METERING
    ensures var z := TornDown(Rounds(Answered(Configured(p, e)), n));
            && z.ni.phase == CLOSE && Live(z.niWorld) == Live(p.niWorld)
            && z.nr.phase == CLOSE && Live(z.nrWorld) == Live(p.nrWorld)
            && |z.sites| == |p.sites|
            && (i < |p.sites| ==> z.sites[i].nf.phase == CLOSE && Live(z.sites[i].w) == Live(p.sites[i].w))
  {
    hide InStep, PathBooked, PathKept, Configured, Answered, Ready, Rounds, AllTold, SitesOpen, Unknown, Ended;
    NewPath(p);
    ConfiguredBooked(p, p, e);
    SetUpIsOpen(p, e);
    AnsweredBooked(p, Configured(p, e));
    SetUpIsInStep(p, e);
    RoundsAreBooked(p, Answered(Configured(p, e)), n);
    var m := Rounds(Answered(Configured(p, e)), n);
    TornDownIsBooked(p, m);
    TeardownEndsPath(m, i);
    AllClosed(p, m, i);
  }

  lemma TornDownIsBooked(before: Path, m: Path)
    requires InStep(m) && PathBooked(before, m)
    ensures PathBooked(before, TornDown(m)) && InitiatorConduct.Talks(m.ni)
  {
    hide InStep, PathBooked, Configured, Answered, AllTold, SitesOpen;
    InStepIsOpen(m);
    OpenPath(before, m);
    TeardownGoesOut(m);
    ToldAreOpen(m.sites, Configured(m, ApiTeardown(m.ni.sid)).sites, Next(m.ni.msn));
    ConfiguredBooked(before, m, ApiTeardown(m.ni.sid));
    AnsweredBooked(before, Configured(m, ApiTeardown(m.ni.sid)));
  }

  lemma AllClosed(p: Path, m: Path, i: nat)
    requires Unknown(p) && PathBooked(p, TornDown(m)) && InStep(m) && InitiatorConduct.Talks(m.ni)
    ensures var z := TornDown(m);
            && Live(z.niWorld) == Live(p.niWorld) && Live(z.nrWorld) == Live(p.nrWorld) && |z.sites| == |p.sites|
            && (i < |p.sites| ==> z.sites[i].nf.phase == CLOSE && Live(z.sites[i].w) == Live(p.sites[i].w))
  {
    hide TornDown, Booked, Live, InStep, InitiatorConduct.Talks;
    var z := TornDown(m);
    TeardownEndsPath(m, i);
    ClosedIsBooked(D.NI(z.ni), z.niWorld, p.ni.sid, Live(p.niWorld));
    ClosedIsBooked(D.NR(z.nr), z.nrWorld, p.ni.sid, Live(p.nrWorld));
    if i < |p.sites| {
      assert Booked(D.NF(z.sites[i].nf), z.sites[i].w, p.ni.sid, Live(p.sites[i].w));
      ClosedIsBooked(D.NF(z.sites[i].nf), z.sites[i].w, p.ni.sid, Live(p.sites[i].w));
    }
  }
}
