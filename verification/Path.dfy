/** Setting up a session along a path: an initiator, any number of forwarders, and a responder. */
module Path {
  import opened Options
  import opened Serial
  import opened PolicyRule
  import opened Session
  import opened PathShares
  import Initiator
  import Forwarder
  import Responder

  /** A forwarder with its surroundings. */
  datatype Site = Site(nf: Forwarder.Nf, w: World, o: Oracle)

  /** The last message a node sent. */
  function Outgoing(w: World): Body {
    if w.sent == [] then Other else w.sent[|w.sent| - 1].body
  }

  /** The CONFIGURE travels towards the responder, each node passing on what it makes of it. */
  function Forward(sid: nat, sites: seq<Site>, c: Body): (seq<Site>, Body)
    decreases |sites|
  {
    if sites == [] then ([], c)
    else
      var r := Forwarder.Step(sites[0].nf, sites[0].w, Received(sid, c, false), sites[0].o);
      var rest := Forward(sid, sites[1..], Outgoing(r.1));
      ([Site(r.0, r.1, sites[0].o)] + rest.0, rest.1)
  }

  /** The RESPONSE travels back. */
  function Backward(sid: nat, sites: seq<Site>, answer: Body): (seq<Site>, Body)
    decreases |sites|
  {
    if sites == [] then ([], answer)
    else
      var rest := Backward(sid, sites[1..], answer);
      var r := Forwarder.Step(sites[0].nf, sites[0].w, Received(sid, rest.1, false), sites[0].o);
      ([Site(r.0, r.1, sites[0].o)] + rest.0, Outgoing(r.1))
  }

  datatype Path = Path(ni: Initiator.Ni, niWorld: World, niOracle: Oracle, sites: seq<Site>,
                       nr: Responder.Nr, nrWorld: World, nrOracle: Oracle)

  /** The CONFIGURE has reached the responder; its answer is under way. */
  function Configured(p: Path, e: Event): Path {
    var a := Initiator.Step(p.ni, p.niWorld, e, p.niOracle);
    var f := Forward(p.ni.sid, p.sites, Outgoing(a.1));
    var z := Responder.Step(p.nr, p.nrWorld, Received(p.ni.sid, f.1, true), p.nrOracle);
    Path(a.0, a.1, p.niOracle, f.0, z.0, z.1, p.nrOracle)
  }

  /** The answer has come back to the initiator. */
  function Answered(p: Path): Path {
    var b := Backward(p.ni.sid, p.sites, Outgoing(p.nrWorld));
    var a := Initiator.Step(p.ni, p.niWorld, Received(p.ni.sid, b.1, false), p.niOracle);
    p.(ni := a.0, niWorld := a.1, sites := b.0)
  }

  /** All nodes are about to see this session for the first time; limits are positive. */
  ghost predicate Ready(p: Path) {
    && p.ni.phase == CLOSE && p.ni.rule == NO_RULE
    && (forall i :: 0 <= i < |p.sites| ==> ReadySite(p.sites[i], p.ni.sid))
    && p.nr.sid == p.ni.sid && p.nr.phase == CLOSE && p.nr.rule == NO_RULE && p.nr.maxLifetime > 0
  }

  ghost predicate ReadySite(site: Site, sid: nat) {
    site.nf.limit > 0 && site.nf == Forwarder.NewNf(sid, site.nf.limit)
  }

  function StopOf(o: Oracle, role: Role, sme: nat): Stop {
    Stop(Participates(role, sme), o)
  }

  function ForwarderStops(sites: seq<Site>, sme: nat): (r: seq<Stop>)
    ensures |r| == |sites|
    ensures forall i :: 0 <= i < |sites| ==> r[i] == StopOf(sites[i].o, Role.Forwarder, sme)
  {
    seq(|sites|, i requires 0 <= i < |sites| => StopOf(sites[i].o, Role.Forwarder, sme))
  }

  /** The least of a lifetime and the limits of these forwarders. */
  function Least(sites: seq<Site>, lifetime: nat): (r: nat)
    ensures r <= lifetime
    decreases |sites|
  {
    if sites == [] then lifetime else Least(sites[1..], Clipped(lifetime, sites[0].nf.limit))
  }

  // ----- one forwarder -----

  /** A forwarder that has passed a CONFIGURE on. */
  ghost predicate Shared(site: Site, sid: nat, limit: nat, c: Body)
    requires c.Configure?
  {
    && site.nf.sid == sid && site.nf.phase == PENDING
    && site.nf.lastConfigure == Some(c) && site.nf.msn == c.msn
    && site.nf.lifetime == Clipped(c.lifetime, limit) && site.nf.maxLifetime == limit
    && site.nf.rule.commands == []
    && Objects(site.nf.rule.objects) == KeptBy(StopOf(site.o, Role.Forwarder, c.sme), c.objs)
  }

  function PassedOn(site: Site, c: Body): Body
    requires c.Configure?
  {
    Configure(Clipped(c.lifetime, site.nf.limit), c.msn, c.sme, c.hops,
              PassedBy(StopOf(site.o, Role.Forwarder, c.sme), c.objs))
  }

  lemma SitePasses(site: Site, sid: nat, c: Body)
    requires ReadySite(site, sid) && c.Configure? && c.lifetime > 0
    ensures var r := Forwarder.Step(site.nf, site.w, Received(sid, c, false), site.o);
            Shared(Site(r.0, r.1, site.o), sid, site.nf.limit, c) && Outgoing(r.1) == PassedOn(site, c)
  {
    var takes := Participates(Role.Forwarder, c.sme);
    KeysDoNotMatter(site.o, takes, sid, site.w.nextKey, c.objs);
    assert [] + Taken(site.o, takes, sid, site.w.nextKey, c.objs) == Taken(site.o, takes, sid, site.w.nextKey, c.objs);
    hide Taken, Left, KeptBy;
  }

  /** A forwarder that sees the answer confirms exactly if it can install its share. */
  lemma SiteAnswers(site: Site, sid: nat, limit: nat, c: Body, answer: Body)
    requires c.Configure? && Shared(site, sid, limit, c) && answer.Response? && answer.rmsn == Some(c.msn)
    ensures var r := Forwarder.Step(site.nf, site.w, Received(sid, answer, false), site.o);
            if answer.success && AllDeployable(site.o, site.nf.rule.objects) then
              && r.0.phase == METERING && r.0.lifetime == site.nf.lifetime && r.0.maxLifetime == limit
              && r.0.sid == sid && r.0.msn == site.nf.msn
              && r.0.rule == InstallAll(site.o, site.nf.rule.objects) && r.0.rule.objects == site.nf.rule.objects
              && Outgoing(r.1) == answer
            else
              r.0.phase == CLOSE && Outgoing(r.1).Response? && !Outgoing(r.1).success && Outgoing(r.1).rmsn == answer.rmsn
  {
    WholeRuleIff(site.o, site.nf.rule.objects);
    hide InstallAll, Removed, Owned, KeptBy, Objects, Deployable;
  }

  // ----- all forwarders -----

  /** Every forwarder has taken its share of what its predecessor passed on. */
  ghost predicate AllShared(before: seq<Site>, after: seq<Site>, sid: nat, c: Body)
    requires c.Configure?
    decreases |before|
  {
    && |before| == |after|
    && (before != [] ==>
          && after[0].o == before[0].o
          && Shared(after[0], sid, before[0].nf.limit, c)
          && AllShared(before[1..], after[1..], sid, PassedOn(before[0], c)))
  }

  function Last(sites: seq<Site>, c: Body): (r: Body)
    requires c.Configure?
    ensures r.Configure?
  {
    Configure(Least(sites, c.lifetime), c.msn, c.sme, c.hops, Residual(ForwarderStops(sites, c.sme), c.objs))
  }

  lemma LastStep(sites: seq<Site>, c: Body)
    requires c.Configure? && sites != []
    ensures Last(sites, c) == Last(sites[1..], PassedOn(sites[0], c))
  {
    assert ForwarderStops(sites, c.sme)[1..] == ForwarderStops(sites[1..], c.sme);
  }

  lemma {:induction false} ForwardShares(sid: nat, sites: seq<Site>, c: Body)
    requires forall i :: 0 <= i < |sites| ==> ReadySite(sites[i], sid)
    requires c.Configure? && c.lifetime > 0
    ensures AllShared(sites, Forward(sid, sites, c).0, sid, c)
    ensures Forward(sid, sites, c).1 == Last(sites, c) && Last(sites, c).lifetime > 0
    decreases |sites|
  {
    hide Shared, Forwarder.Step, ReadySite, Outgoing;
    if sites != [] {
      var r := Forwarder.Step(sites[0].nf, sites[0].w, Received(sid, c, false), sites[0].o);
      SitePasses(sites[0], sid, c);
      LimitPositive(sites[0], sid);
      ForwardShares(sid, sites[1..], PassedOn(sites[0], c));
      LastStep(sites, c);
      var rest := Forward(sid, sites[1..], PassedOn(sites[0], c));
      assert ([Site(r.0, r.1, sites[0].o)] + rest.0)[1..] == rest.0;
    } else {
      assert ForwarderStops(sites, c.sme) == [];
    }
  }

  lemma LimitPositive(site: Site, sid: nat)
    requires ReadySite(site, sid)
    ensures site.nf.limit > 0
  {
  }

  /** Every forwarder has installed its whole share, and meters. */
  ghost predicate AllMeter(mid: seq<Site>, after: seq<Site>) {
    |mid| == |after| && forall i :: 0 <= i < |mid| ==> Meters(mid[i], after[i])
  }

  ghost predicate Meters(mid: Site, after: Site) {
    && after.nf.phase == METERING && after.nf.lifetime == mid.nf.lifetime && after.nf.maxLifetime == mid.nf.maxLifetime
    && after.nf.sid == mid.nf.sid && after.nf.msn == mid.nf.msn
    && after.nf.rule == InstallAll(mid.o, mid.nf.rule.objects)
    && after.nf.rule.objects == mid.nf.rule.objects
  }

  ghost predicate AllSitesDeployable(mid: seq<Site>) {
    forall i :: 0 <= i < |mid| ==> AllDeployable(mid[i].o, mid[i].nf.rule.objects)
  }

  /** The answer is a success at the initiator's end exactly if it was one at the other, and nobody failed. */
  lemma {:induction false} BackwardAnswers(sid: nat, before: seq<Site>, mid: seq<Site>, c: Body, answer: Body)
    requires c.Configure? && AllShared(before, mid, sid, c) && answer.Response? && answer.rmsn == Some(c.msn)
    ensures var r := Backward(sid, mid, answer);
            && r.1.Response? && r.1.rmsn == Some(c.msn)
            && (r.1.success <==> answer.success && AllSitesDeployable(mid))
            && (r.1.success ==> r.1 == answer && AllMeter(mid, r.0))
    decreases |before|
  {
    hide Shared, Forwarder.Step, AllDeployable, Outgoing, InstallAll;
    if mid != [] {
      BackwardAnswers(sid, before[1..], mid[1..], PassedOn(before[0], c), answer);
      var rest := Backward(sid, mid[1..], answer);
      var r := Forwarder.Step(mid[0].nf, mid[0].w, Received(sid, rest.1, false), mid[0].o);
      SiteAnswers(mid[0], sid, before[0].nf.limit, c, rest.1);
      SharedLimit(mid[0], sid, before[0].nf.limit, c);
      SplitDeployable(mid);
      if rest.1.success && AllDeployable(mid[0].o, mid[0].nf.rule.objects) {
        var after := [Site(r.0, r.1, mid[0].o)] + rest.0;
        forall i | 0 <= i < |mid|
          ensures Meters(mid[i], after[i])
        {
          assert i > 0 ==> mid[i] == mid[1..][i - 1] && after[i] == rest.0[i - 1];
        }
      }
    }
  }

  lemma SharedLimit(site: Site, sid: nat, limit: nat, c: Body)
    requires c.Configure? && Shared(site, sid, limit, c)
    ensures site.nf.maxLifetime == limit && site.nf.sid == sid
  {
  }

  lemma SplitDeployable(mid: seq<Site>)
    requires mid != []
    ensures AllSitesDeployable(mid) <==> AllDeployable(mid[0].o, mid[0].nf.rule.objects) && AllSitesDeployable(mid[1..])
  {
    hide AllDeployable;
    if AllSitesDeployable(mid[1..]) && AllDeployable(mid[0].o, mid[0].nf.rule.objects) {
      forall i | 0 <= i < |mid|
        ensures AllDeployable(mid[i].o, mid[i].nf.rule.objects)
      {
        assert i > 0 ==> mid[i] == mid[1..][i - 1];
      }
    }
    if AllSitesDeployable(mid) {
      forall i | 0 <= i < |mid| - 1
        ensures AllDeployable(mid[1..][i].o, mid[1..][i].nf.rule.objects)
      {
        assert mid[1..][i] == mid[i + 1];
      }
    }
  }

  // ----- the ends -----

  /** The targets that the responder makes of a CONFIGURE. */
  function ResponderTargets(p: Path, c: Body): seq<Target>
    requires c.Configure?
  {
    Taken(p.nrOracle, Participates(Receiver, c.sme), p.nr.sid, p.nrWorld.nextKey, c.objs)
  }

  /** The responder confirms exactly if nothing is left over and it can install its share. */
  lemma ResponderAnswers(p: Path, c: Body)
    requires c.Configure? && c.lifetime > 0 && p.nr.phase == CLOSE && p.nr.rule == NO_RULE && p.nr.maxLifetime > 0
    ensures var r := Responder.Step(p.nr, p.nrWorld, Received(p.nr.sid, c, true), p.nrOracle);
            var a := Outgoing(r.1);
            && a.Response? && a.rmsn == Some(c.msn)
            && (a.success <==> PassedBy(StopOf(p.nrOracle, Receiver, c.sme), c.objs) == []
                               && AllDeployable(p.nrOracle, ResponderTargets(p, c)))
            && (a.success ==>
                  && a.lifetime == Clipped(c.lifetime, p.nr.maxLifetime) == r.0.lifetime
                  && r.0.phase == METERING && r.0.maxLifetime == p.nr.maxLifetime && r.0.msn == c.msn
                  && r.0.rule == InstallAll(p.nrOracle, ResponderTargets(p, c)) && r.0.rule.objects == ResponderTargets(p, c))
  {
    var targets := ResponderTargets(p, c);
    WholeRuleIff(p.nrOracle, targets);
    assert [] + targets == targets;
    hide InstallAll, Removed, Owned, Taken, Deployable;
  }

  lemma InitiatorConfigures(p: Path, e: Event)
    requires p.ni.phase == CLOSE && p.ni.rule == NO_RULE && e.ApiConfigure? && e.lifetime > 0
    ensures var r := Initiator.Step(p.ni, p.niWorld, e, p.niOracle);
            var stop := StopOf(p.niOracle, Role.Initiator, e.sme);
            var c := Configure(e.lifetime, Next(p.ni.msn), e.sme, p.ni.hops, PassedBy(stop, e.objs));
            && Outgoing(r.1) == c && r.0.lastConfigure == Some(c)
            && r.0.sid == p.ni.sid && r.0.phase == PENDING && r.0.msn == c.msn
            && Objects(r.0.rule.objects) == KeptBy(stop, e.objs)
  {
    var takes := Participates(Role.Initiator, e.sme);
    var mine := Taken(p.niOracle, takes, p.ni.sid, p.niWorld.nextKey, e.objs);
    KeysDoNotMatter(p.niOracle, takes, p.ni.sid, p.niWorld.nextKey, e.objs);
    assert [] + mine == mine;
    hide Taken, Left, KeptBy;
  }

  lemma InitiatorHears(s: Initiator.Ni, w: World, o: Oracle, c: Body, answer: Body)
    requires s.phase == PENDING && c.Configure? && s.lastConfigure == Some(c)
    requires answer.Response? && answer.rmsn == Some(c.msn)
    ensures var r := Initiator.Step(s, w, Received(s.sid, answer, false), o);
            && (r.0.phase == METERING <==> answer.success && AllDeployable(o, s.rule.objects))
            && (r.0.phase == METERING ==>
                  && r.0.lifetime == answer.lifetime && r.0.msn == s.msn
                  && r.0.rule == InstallAll(o, s.rule.objects) && r.0.rule.objects == s.rule.objects)
  {
    WholeRuleIff(o, s.rule.objects);
    hide InstallAll, Removed, Owned, Deployable;
  }

  // ----- the path -----

  /** All nodes of the path, in order. */
  function Stops(p: Path, sme: nat): seq<Stop> {
    [StopOf(p.niOracle, Role.Initiator, sme)] + ForwarderStops(p.sites, sme) + [StopOf(p.nrOracle, Receiver, sme)]
  }

  lemma {:induction false} ResidualAppend(a: seq<Stop>, b: seq<Stop>, objs: seq<MeteringObject>)
    ensures Residual(a + b, objs) == Residual(b, Residual(a, objs))
    decreases |a|
  {
    if a == [] {
      assert a + b == b;
    } else {
      assert (a + b)[0] == a[0] && (a + b)[1..] == a[1..] + b;
      ResidualAppend(a[1..], b, PassedBy(a[0], objs));
    }
  }

  lemma ResidualOfPath(p: Path, sme: nat, objs: seq<MeteringObject>)
    ensures Residual(Stops(p, sme), objs) ==
            PassedBy(StopOf(p.nrOracle, Receiver, sme),
                     Residual(ForwarderStops(p.sites, sme), PassedBy(StopOf(p.niOracle, Role.Initiator, sme), objs)))
  {
    hide ForwarderStops, PassedBy;
    var a, f, z := StopOf(p.niOracle, Role.Initiator, sme), ForwarderStops(p.sites, sme), StopOf(p.nrOracle, Receiver, sme);
    ResidualAppend([a] + f, [z], objs);
    assert ([a] + f)[0] == a && ([a] + f)[1..] == f;
    assert [z][1..] == [];
  }

  /** What the responder is asked for. */
  function FinalConfigure(p: Path, e: Event): (c: Body)
    requires e.ApiConfigure?
    ensures c.Configure?
  {
    Last(p.sites, Configure(e.lifetime, Next(p.ni.msn), e.sme, p.ni.hops,
                            PassedBy(StopOf(p.niOracle, Role.Initiator, e.sme), e.objs)))
  }

  /** Every node can install what it took. */
  ghost predicate EveryoneCanInstall(p: Path, e: Event)
    requires e.ApiConfigure?
  {
    var q := Configured(p, e);
    && AllDeployable(p.niOracle, q.ni.rule.objects)
    && AllSitesDeployable(q.sites)
    && AllDeployable(p.nrOracle, ResponderTargets(p, FinalConfigure(p, e)))
  }

  /**
   * The initiator enters METERING exactly when no object is left over and every node can install
   * what it took; and then every node of the path has installed its share and meters.
   */
  lemma PathMeters(p: Path, e: Event)
    requires Ready(p) && e.ApiConfigure? && e.lifetime > 0
    ensures var q := Configured(p, e);
            var r := Answered(q);
            && (r.ni.phase == METERING <==> Residual(Stops(p, e.sme), e.objs) == [] && EveryoneCanInstall(p, e))
            && (r.ni.phase == METERING ==>
                  && AllMeter(q.sites, r.sites) && r.nr.phase == METERING
                  && r.ni.rule == InstallAll(p.niOracle, q.ni.rule.objects)
                  && r.nr.rule == InstallAll(p.nrOracle, ResponderTargets(p, FinalConfigure(p, e)))
                  && r.ni.lifetime == r.nr.lifetime == Clipped(Least(p.sites, e.lifetime), p.nr.maxLifetime))
  {
    var sid := p.ni.sid;
    InitiatorConfigures(p, e);
    var c := Configure(e.lifetime, Next(p.ni.msn), e.sme, p.ni.hops, PassedBy(StopOf(p.niOracle, Role.Initiator, e.sme), e.objs));
    hide Initiator.Step, Forwarder.Step, Responder.Step, Outgoing, AllShared, AllMeter, AllSitesDeployable, AllDeployable;
    hide ResponderTargets, InstallAll, PassedBy, Residual, Least, ReadySite, StopOf, ForwarderStops, Stops, Participates;
    ForwardShares(sid, p.sites, c);
    var last := Last(p.sites, c);
    ResponderAnswers(p, last);
    var q := Configured(p, e);
    BackwardAnswers(sid, p.sites, q.sites, c, Outgoing(q.nrWorld));
    InitiatorHears(q.ni, q.niWorld, p.niOracle, c, Backward(sid, q.sites, Outgoing(q.nrWorld)).1);
    ResidualOfPath(p, e.sme, e.objs);
  }

  // ----- who has what -----

  lemma {:induction false} SharePrefix(a: seq<Stop>, b: seq<Stop>, i: nat, objs: seq<MeteringObject>)
    requires i < |a|
    ensures Share(a + b, i, objs) == Share(a, i, objs)
    decreases i
  {
    assert (a + b)[0] == a[0] && (a + b)[1..] == a[1..] + b;
    if i > 0 {
      SharePrefix(a[1..], b, i - 1, PassedBy(a[0], objs));
    }
  }

  lemma {:induction false} ShareOfLast(a: seq<Stop>, z: Stop, objs: seq<MeteringObject>)
    ensures Share(a + [z], |a|, objs) == KeptBy(z, Residual(a, objs))
    decreases |a|
  {
    hide KeptBy, PassedBy;
    if a == [] {
      assert a + [z] == [z];
    } else {
      assert (a + [z])[0] == a[0] && (a + [z])[1..] == a[1..] + [z];
      ShareOfLast(a[1..], z, PassedBy(a[0], objs));
    }
  }

  lemma {:induction false} SiteHasShare(before: seq<Site>, after: seq<Site>, sid: nat, c: Body, i: nat)
    requires c.Configure? && AllShared(before, after, sid, c) && i < |before|
    ensures after[i].o == before[i].o
    ensures Objects(after[i].nf.rule.objects) == Share(ForwarderStops(before, c.sme), i, c.objs)
    decreases i
  {
    hide KeptBy, PassedBy, Objects;
    assert ForwarderStops(before, c.sme)[1..] == ForwarderStops(before[1..], c.sme);
    if i > 0 {
      SiteHasShare(before[1..], after[1..], sid, PassedOn(before[0], c), i - 1);
      assert after[i] == after[1..][i - 1] && before[i] == before[1..][i - 1];
    }
  }

  /** The objects each node of the path has taken: those for which it is the first node that wants them. */
  lemma PathIsShared(p: Path, e: Event, i: nat)
    requires Ready(p) && e.ApiConfigure? && e.lifetime > 0
    ensures var q, stops := Configured(p, e), Stops(p, e.sme);
            && |q.sites| == |p.sites|
            && Objects(q.ni.rule.objects) == WithFirst(stops, e.objs, 0)
            && (i < |p.sites| ==> Objects(q.sites[i].nf.rule.objects) == WithFirst(stops, e.objs, i + 1))
            && Objects(ResponderTargets(p, FinalConfigure(p, e))) == WithFirst(stops, e.objs, |p.sites| + 1)
            && Residual(stops, e.objs) == WithFirst(stops, e.objs, |p.sites| + 2)
  {
    hide Initiator.Step, Forwarder.Step, Responder.Step, Outgoing, PassedBy, KeptBy, ReadySite;
    hide ForwarderStops, StopOf, Participates, Least, Objects, Taken, WithFirst;
    InitiatorConfigures(p, e);
    var a, f, z := StopOf(p.niOracle, Role.Initiator, e.sme), ForwarderStops(p.sites, e.sme), StopOf(p.nrOracle, Receiver, e.sme);
    var c := Configure(e.lifetime, Next(p.ni.msn), e.sme, p.ni.hops, PassedBy(a, e.objs));
    ForwardShares(p.ni.sid, p.sites, c);
    PathStops(p, e.sme, e.objs, i);
    ResponderShare(p, FinalConfigure(p, e));
    ResidualIsUnwanted(Stops(p, e.sme), e.objs);
    ShareIsFirst(Stops(p, e.sme), 0, e.objs);
    ShareIsFirst(Stops(p, e.sme), |f| + 1, e.objs);
    if i < |p.sites| {
      SiteHasShare(p.sites, Configured(p, e).sites, p.ni.sid, c, i);
      ShareIsFirst(Stops(p, e.sme), i + 1, e.objs);
    }
  }

  /** Every object has commands here, and the metering process accepts them. */
  ghost predicate Willing(o: Oracle) {
    (forall x: MeteringObject :: o.targets(x) >= 1) && (forall c: Command :: o.accept(c))
  }

  lemma WillingDeploys(o: Oracle, objects: seq<Target>)
    requires Willing(o)
    ensures AllDeployable(o, objects)
  {
    forall i | 0 <= i < |objects|
      ensures Deployable(o, objects[i])
    {
      assert o.accept(Command(objects[i].key, 1)) && o.targets(objects[i].obj) >= 1;
    }
  }

  lemma {:induction false} ForwardKeepsOracles(sid: nat, sites: seq<Site>, c: Body)
    ensures |Forward(sid, sites, c).0| == |sites|
    ensures forall i :: 0 <= i < |sites| ==> Forward(sid, sites, c).0[i].o == sites[i].o
    decreases |sites|
  {
    hide Forwarder.Step, Outgoing;
    if sites != [] {
      var r := Forwarder.Step(sites[0].nf, sites[0].w, Received(sid, c, false), sites[0].o);
      ForwardKeepsOracles(sid, sites[1..], Outgoing(r.1));
    }
  }

  lemma {:induction false} NobodyWantsNothing(stops: seq<Stop>, objs: seq<MeteringObject>, i: nat)
    ensures WithFirst(stops, objs, i) == [] <==> forall k :: 0 <= k < |objs| ==> FirstFor(stops, objs[k]) != i
    decreases |objs|
  {
    hide FirstFor;
    if objs != [] {
      NobodyWantsNothing(stops, objs[1..], i);
      assert forall k :: 0 <= k < |objs| - 1 ==> objs[1..][k] == objs[k + 1];
      if forall k :: 0 <= k < |objs[1..]| ==> FirstFor(stops, objs[1..][k]) != i {
        forall k | 0 < k < |objs|
          ensures FirstFor(stops, objs[k]) != i
        {
          assert objs[k] == objs[1..][k - 1];
        }
      }
    }
  }

  /**
   * So where the metering process accepts everything, a session is set up exactly when every
   * requested object is one that some node of the path participates for and accepts.
   */
  lemma WillingPathMeters(p: Path, e: Event)
    requires Ready(p) && e.ApiConfigure? && e.lifetime > 0
    requires Willing(p.niOracle) && Willing(p.nrOracle)
    requires forall i :: 0 <= i < |p.sites| ==> Willing(p.sites[i].o)
    ensures Answered(Configured(p, e)).ni.phase == METERING <==>
            forall k :: 0 <= k < |e.objs| ==> FirstFor(Stops(p, e.sme), e.objs[k]) < |p.sites| + 2
  {
    hide Initiator.Step, Forwarder.Step, Responder.Step, Outgoing, ReadySite, Willing, AllDeployable, AllMeter;
    hide WithFirst, Residual, Answered, Participates, ResponderTargets, FinalConfigure, ForwarderStops, Forward;
    hide FirstFor;
    var q, stops := Configured(p, e), Stops(p, e.sme);
    PathMeters(p, e);
    ForwardKeepsOracles(p.ni.sid, p.sites, Outgoing(Initiator.Step(p.ni, p.niWorld, e, p.niOracle).1));
    WillingDeploys(p.niOracle, q.ni.rule.objects);
    WillingDeploys(p.nrOracle, ResponderTargets(p, FinalConfigure(p, e)));
    forall i | 0 <= i < |q.sites|
      ensures AllDeployable(q.sites[i].o, q.sites[i].nf.rule.objects)
    {
      WillingDeploys(q.sites[i].o, q.sites[i].nf.rule.objects);
    }
    ResidualIsUnwanted(stops, e.objs);
    NobodyWantsNothing(stops, e.objs, |stops|);
    FirstInRange(stops);
  }

  lemma FirstInRange(stops: seq<Stop>)
    ensures forall x :: FirstFor(stops, x) <= |stops|
  {
  }

  lemma ResponderShare(p: Path, c: Body)
    requires c.Configure?
    ensures Objects(ResponderTargets(p, c)) == KeptBy(StopOf(p.nrOracle, Receiver, c.sme), c.objs)
  {
    KeysDoNotMatter(p.nrOracle, Participates(Receiver, c.sme), p.nr.sid, p.nrWorld.nextKey, c.objs);
  }

  lemma PathStops(p: Path, sme: nat, objs: seq<MeteringObject>, i: nat)
    ensures var stops := Stops(p, sme);
            var a, f, z := StopOf(p.niOracle, Role.Initiator, sme), ForwarderStops(p.sites, sme), StopOf(p.nrOracle, Receiver, sme);
            && |stops| == |p.sites| + 2
            && Share(stops, 0, objs) == KeptBy(a, objs)
            && (i < |p.sites| ==> Share(stops, i + 1, objs) == Share(f, i, PassedBy(a, objs)))
            && Share(stops, |f| + 1, objs) == KeptBy(z, Residual(f, PassedBy(a, objs)))
  {
    hide ForwarderStops, PassedBy, KeptBy, StopOf;
    var a, f, z := StopOf(p.niOracle, Role.Initiator, sme), ForwarderStops(p.sites, sme), StopOf(p.nrOracle, Receiver, sme);
    assert ([a] + f) + [z] == [a] + (f + [z]);
    assert Stops(p, sme)[0] == a && Stops(p, sme)[1..] == f + [z];
    if i < |f| {
      SharePrefix(f, [z], i, PassedBy(a, objs));
    }
    ShareOfLast(f, z, PassedBy(a, objs));
  }

  function SiteObjects(sites: seq<Site>): multiset<MeteringObject>
    decreases |sites|
  {
    if sites == [] then multiset{} else multiset(Objects(sites[0].nf.rule.objects)) + SiteObjects(sites[1..])
  }

  lemma {:induction false} SitesConserve(before: seq<Site>, after: seq<Site>, sid: nat, c: Body)
    requires c.Configure? && AllShared(before, after, sid, c)
    ensures multiset(c.objs) == SiteObjects(after) + multiset(Last(before, c).objs)
    decreases |before|
  {
    if before == [] {
      assert ForwarderStops(before, c.sme) == [];
    } else {
      var stop := StopOf(after[0].o, Role.Forwarder, c.sme);
      TakenAndLeftAreAll(stop.o, stop.takes, 0, 0, c.objs);
      SitesConserve(before[1..], after[1..], sid, PassedOn(before[0], c));
      LastStep(before, c);
    }
  }

  /**
   * Conservation: when the CONFIGURE has reached the responder, the requested objects are the
   * disjoint union of what every node has taken and what is left over.
   */
  lemma PathConserves(p: Path, e: Event)
    requires Ready(p) && e.ApiConfigure? && e.lifetime > 0
    ensures var q := Configured(p, e);
            multiset(e.objs) == multiset(Objects(q.ni.rule.objects)) + SiteObjects(q.sites)
              + multiset(Objects(ResponderTargets(p, FinalConfigure(p, e)))) + multiset(Residual(Stops(p, e.sme), e.objs))
  {
    hide Initiator.Step, Forwarder.Step, Responder.Step, Outgoing, ReadySite, AllShared;
    hide ForwarderStops, Participates, Least, Objects, Taken, SiteObjects, Stops;
    InitiatorConfigures(p, e);
    var a, z := StopOf(p.niOracle, Role.Initiator, e.sme), StopOf(p.nrOracle, Receiver, e.sme);
    var c := Configure(e.lifetime, Next(p.ni.msn), e.sme, p.ni.hops, PassedBy(a, e.objs));
    ForwardShares(p.ni.sid, p.sites, c);
    SitesConserve(p.sites, Configured(p, e).sites, p.ni.sid, c);
    TakenAndLeftAreAll(a.o, a.takes, 0, 0, e.objs);
    TakenAndLeftAreAll(z.o, z.takes, 0, 0, FinalConfigure(p, e).objs);
    ResponderShare(p, FinalConfigure(p, e));
    ResidualOfPath(p, e.sme, e.objs);
  }

  // ----- lifetimes -----

  /** Least is the minimum: below everything, and one of them. */
  lemma {:induction false} LeastIsMinimum(sites: seq<Site>, lifetime: nat, i: nat)
    requires i < |sites|
    ensures Least(sites, lifetime) <= sites[i].nf.limit
    decreases i
  {
    if i > 0 {
      LeastIsMinimum(sites[1..], Clipped(lifetime, sites[0].nf.limit), i - 1);
    }
  }

  lemma {:induction false} LeastIsAttained(sites: seq<Site>, lifetime: nat)
    ensures Least(sites, lifetime) == lifetime || exists i :: 0 <= i < |sites| && Least(sites, lifetime) == sites[i].nf.limit
    decreases |sites|
  {
    if sites != [] {
      LeastIsAttained(sites[1..], Clipped(lifetime, sites[0].nf.limit));
      var r := Least(sites, lifetime);
      if exists i :: 0 <= i < |sites[1..]| && r == sites[1..][i].nf.limit {
        var i :| 0 <= i < |sites[1..]| && r == sites[1..][i].nf.limit;
        assert sites[i + 1].nf.limit == r;
      } else if r != lifetime {
        assert sites[0].nf.limit == r;
      }
    }
  }

  lemma {:induction false} SiteLifetime(before: seq<Site>, after: seq<Site>, sid: nat, c: Body, i: nat)
    requires c.Configure? && AllShared(before, after, sid, c) && i < |before|
    ensures |after| == |before|
    ensures Least(before, c.lifetime) <= after[i].nf.lifetime <= after[i].nf.maxLifetime == before[i].nf.limit
    ensures after[i].nf.msn == c.msn && after[i].nf.sid == sid
    decreases i
  {
    hide KeptBy, PassedBy, Objects;
    if i > 0 {
      SiteLifetime(before[1..], after[1..], sid, PassedOn(before[0], c), i - 1);
      assert after[i] == after[1..][i - 1] && before[i] == before[1..][i - 1];
    }
  }

  /**
   * Lifetimes: the initiator ends up with the minimum of the request and all limits, the responder
   * with the same, and no forwarder with less; no node exceeds its own limit.
   */
  lemma PathLifetimes(p: Path, e: Event, i: nat)
    requires Ready(p) && e.ApiConfigure? && e.lifetime > 0 && i < |p.sites|
    requires Answered(Configured(p, e)).ni.phase == METERING
    ensures var r := Answered(Configured(p, e));
            && |r.sites| == |p.sites|
            && r.ni.lifetime == r.nr.lifetime == Clipped(Least(p.sites, e.lifetime), p.nr.maxLifetime)
            && r.ni.lifetime <= r.sites[i].nf.lifetime <= r.sites[i].nf.maxLifetime == p.sites[i].nf.limit
            && r.sites[i].nf.msn == Next(p.ni.msn) && r.sites[i].nf.phase == METERING
  {
    hide Initiator.Step, Forwarder.Step, Responder.Step, Outgoing, ReadySite, PassedBy, InstallAll, Stops, EveryoneCanInstall;
    hide AllShared, Least;
    PathMeters(p, e);
    InitiatorConfigures(p, e);
    var c := Configure(e.lifetime, Next(p.ni.msn), e.sme, p.ni.hops, PassedBy(StopOf(p.niOracle, Role.Initiator, e.sme), e.objs));
    ForwardShares(p.ni.sid, p.sites, c);
    SiteLifetime(p.sites, Configured(p, e).sites, p.ni.sid, c, i);
    assert Meters(Configured(p, e).sites[i], Answered(Configured(p, e)).sites[i]);
  }

  lemma {:induction false} LeastIsPositive(sid: nat, sites: seq<Site>, lifetime: nat)
    requires lifetime > 0 && forall i :: 0 <= i < |sites| ==> ReadySite(sites[i], sid)
    ensures Least(sites, lifetime) > 0
    decreases |sites|
  {
    if sites != [] {
      LeastIsPositive(sid, sites[1..], Clipped(lifetime, sites[0].nf.limit));
    }
  }

  lemma PathNumbers(p: Path, e: Event)
    requires Ready(p) && e.ApiConfigure? && e.lifetime > 0
    requires Answered(Configured(p, e)).ni.phase == METERING
    ensures var r := Answered(Configured(p, e));
            && r.ni.msn == r.nr.msn == Next(p.ni.msn) && r.nr.phase == METERING && r.nr.maxLifetime == p.nr.maxLifetime
  {
    hide Initiator.Step, Forwarder.Step, Responder.Step, Outgoing, ReadySite, PassedBy, InstallAll, Stops, Participates;
    hide AllShared, Least, AllDeployable, AllSitesDeployable, AllMeter, ResponderTargets;
    InitiatorConfigures(p, e);
    var c := Configure(e.lifetime, Next(p.ni.msn), e.sme, p.ni.hops, PassedBy(StopOf(p.niOracle, Role.Initiator, e.sme), e.objs));
    ForwardShares(p.ni.sid, p.sites, c);
    var q := Configured(p, e);
    ResponderAnswers(p, Last(p.sites, c));
    BackwardAnswers(p.ni.sid, p.sites, q.sites, c, Outgoing(q.nrWorld));
    InitiatorHears(q.ni, q.niWorld, p.niOracle, c, Backward(p.ni.sid, q.sites, Outgoing(q.nrWorld)).1);
  }
}
