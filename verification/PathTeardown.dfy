/** Ending a session along the path: the teardown reaches every node, and nothing stays installed. */
module PathTeardown {
  import opened Options
  import opened Serial
  import opened PolicyRule
  import opened Session
  import opened Observed
  import opened Path
  import opened PathRefresh
  import Initiator
  import Forwarder
  import Responder
  import InitiatorConduct
  import ResponderConduct

  // ----- the REFRESH of lifetime 0, on its way -----

  /** A forwarder that has passed the teardown on, and waits for its answer. */
  ghost predicate Told(before: Site, after: Site, n: Serial) {
    && after.o == before.o && after.nf.phase == METERING && after.nf.lifetime == 0
    && after.nf.lastRefresh == Some(Refresh(0, n)) && after.nf.rule == before.nf.rule && after.w.meter == before.w.meter
  }

  lemma SiteIsTold(site: Site, sid: nat, n: Serial)
    requires site.nf.phase == METERING && IsGreater(n, site.nf.msn)
    ensures var t := Forwarder.Step(site.nf, site.w, Received(sid, Refresh(0, n), false), site.o);
            Told(site, Site(t.0, t.1, site.o), n) && Outgoing(t.1) == Refresh(0, n)
  {
    hide IsGreater;
  }

  ghost predicate AllTold(before: seq<Site>, after: seq<Site>, n: Serial) {
    |before| == |after| && forall i :: 0 <= i < |before| ==> Told(before[i], after[i], n)
  }

  lemma {:induction false} ForwardTells(sid: nat, sites: seq<Site>, n: Serial)
    requires forall i :: 0 <= i < |sites| ==> sites[i].nf.phase == METERING && IsGreater(n, sites[i].nf.msn)
    ensures AllTold(sites, Forward(sid, sites, Refresh(0, n)).0, n) && Forward(sid, sites, Refresh(0, n)).1 == Refresh(0, n)
    decreases |sites|
  {
    hide Forwarder.Step, Told, Outgoing, IsGreater;
    if sites != [] {
      var t := Forwarder.Step(sites[0].nf, sites[0].w, Received(sid, Refresh(0, n), false), sites[0].o);
      SiteIsTold(sites[0], sid, n);
      ForwardTells(sid, sites[1..], n);
      var after := [Site(t.0, t.1, sites[0].o)] + Forward(sid, sites[1..], Refresh(0, n)).0;
      forall i | 0 <= i < |sites|
        ensures Told(sites[i], after[i], n)
      {
        assert i > 0 ==> sites[i] == sites[1..][i - 1] && after[i] == after[1..][i - 1];
      }
    }
  }

  // ----- its answer, on its way back -----

  /** A forwarder that has passed the answer back: it is closed, and has asked for its commands to be removed. */
  ghost predicate Ended(before: Site, after: Site) {
    after.o == before.o && after.nf.phase == CLOSE && Releases(before.o, before.w, after.w, before.nf.rule)
  }

  lemma SiteEnds(first: Site, site: Site, sid: nat, n: Serial, answer: Body)
    requires Told(first, site, n) && answer.Response? && answer.success && answer.rmsn == Some(n)
    ensures var t := Forwarder.Step(site.nf, site.w, Received(sid, answer, false), site.o);
            Ended(first, Site(t.0, t.1, site.o)) && Outgoing(t.1) == answer
  {
    hide Owned, Removed, Releases;
    var t := Forwarder.Step(site.nf, site.w, Received(sid, answer, false), site.o);
    UninstallReleases(site.o, site.w, site.nf.rule);
    SameMeter(site.o, site.w, first.w, Uninstall(site.o, site.w, site.nf.rule), t.1, site.nf.rule);
  }

  lemma {:induction false} BackwardEnds(sid: nat, first: seq<Site>, sites: seq<Site>, n: Serial, answer: Body)
    requires AllTold(first, sites, n) && answer.Response? && answer.success && answer.rmsn == Some(n)
    ensures var b := Backward(sid, sites, answer);
            b.1 == answer && |b.0| == |first| && forall i :: 0 <= i < |first| ==> Ended(first[i], b.0[i])
    decreases |sites|
  {
    hide Forwarder.Step, Told, Ended, Outgoing;
    if sites != [] {
      assert AllTold(first[1..], sites[1..], n) by {
        assert forall i :: 0 <= i < |sites| - 1 ==> first[1..][i] == first[i + 1] && sites[1..][i] == sites[i + 1];
      }
      BackwardEnds(sid, first[1..], sites[1..], n, answer);
      var rest := Backward(sid, sites[1..], answer);
      var t := Forwarder.Step(sites[0].nf, sites[0].w, Received(sid, rest.1, false), sites[0].o);
      SiteEnds(first[0], sites[0], sid, n, answer);
      var after := [Site(t.0, t.1, sites[0].o)] + rest.0;
      forall i | 0 <= i < |first|
        ensures Ended(first[i], after[i])
      {
        assert i > 0 ==> first[i] == first[1..][i - 1] && after[i] == rest.0[i - 1];
      }
    }
  }

  // ----- the path -----

  /** The user ends the session: the teardown runs to the responder, and its answer comes back. */
  function TornDown(p: Path): Path {
    Answered(Configured(p, ApiTeardown(p.ni.sid)))
  }

  lemma LastSaid(w: World, w': World, sid: nat, b: Body)
    requires Says(w, w', sid, [b])
    ensures Outgoing(w') == b
  {
    assert w'.sent[|w.sent| + 0] == Message(sid, [b][0]);
  }

  /** When the teardown has reached the responder, both ends are closed, and the forwarders know. */
  lemma TeardownGoesOut(p: Path)
    requires InStep(p) && InitiatorConduct.Talks(p.ni)
    ensures var q, n := Configured(p, ApiTeardown(p.ni.sid)), Next(p.ni.msn);
            && q.ni.phase == CLOSE && Releases(p.niOracle, p.niWorld, q.niWorld, p.ni.rule)
            && AllTold(p.sites, q.sites, n)
            && q.nr.phase == CLOSE && Releases(p.nrOracle, p.nrWorld, q.nrWorld, p.nr.rule)
            && Outgoing(q.nrWorld) == Response(true, Some(n), 0)
  {
    hide Initiator.Step, Forwarder.Step, Responder.Step, Outgoing, IsGreater, Next, Releases, Says;
    var n := Next(p.ni.msn);
    NextIsGreater(p.ni.msn);
    InitiatorConduct.TeardownIsSent(p.ni, p.niWorld, ApiTeardown(p.ni.sid), p.niOracle);
    LastSaid(p.niWorld, Initiator.Step(p.ni, p.niWorld, ApiTeardown(p.ni.sid), p.niOracle).1, p.ni.sid, Refresh(0, n));
    ForwardTells(p.ni.sid, p.sites, n);
    var told := Received(p.ni.sid, Refresh(0, n), true);
    ResponderConduct.RefreshIsAnswered(p.nr, p.nrWorld, told, p.nrOracle);
    LastSaid(p.nrWorld, Responder.Step(p.nr, p.nrWorld, told, p.nrOracle).1, p.nr.sid, Response(true, Some(n), 0));
  }

  /** After it, every node of the path is closed, and has asked for the removal of exactly the commands it held. */
  lemma TeardownEndsPath(p: Path, i: nat)
    requires InStep(p) && InitiatorConduct.Talks(p.ni)
    ensures var z := TornDown(p);
            && z.ni.phase == CLOSE && Releases(p.niOracle, p.niWorld, z.niWorld, p.ni.rule)
            && z.nr.phase == CLOSE && Releases(p.nrOracle, p.nrWorld, z.nrWorld, p.nr.rule)
            && |z.sites| == |p.sites| && (i < |p.sites| ==> Ended(p.sites[i], z.sites[i]))
  {
    hide Initiator.Step, Forwarder.Step, Responder.Step, Outgoing, Configured, Ended, Releases;
    var q, n := Configured(p, ApiTeardown(p.ni.sid)), Next(p.ni.msn);
    TeardownGoesOut(p);
    var answer := Response(true, Some(n), 0);
    BackwardEnds(q.ni.sid, p.sites, q.sites, n, answer);
    InitiatorConduct.OnlyRequestsOpen(q.ni, q.niWorld, Received(q.ni.sid, answer, false), q.niOracle);
    assert Backward(q.ni.sid, q.sites, Outgoing(q.nrWorld)).1 == answer;
  }
}
