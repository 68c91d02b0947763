/** What the selection of metering entities in a request means on a path, place by place. */
module PathSelection {
  import opened Serial
  import opened PolicyRule
  import opened Session
  import opened PathShares
  import opened Path
  import Initiator
  import Forwarder
  import Responder

  /** Whether the node at this place meters for a request: 0 is the initiator, `last` the responder. */
  predicate Selected(sme: nat, place: nat, last: nat) {
    match sme
    case 1 => true
    case 2 => true
    case 3 => place == 0
    case 4 => place == last
    case 5 => place == 0 || place == last
    case _ => false
  }

  function End(p: Path): nat {
    |p.sites| + 1
  }

  function OracleAt(p: Path, place: nat): Oracle
    requires place <= End(p)
  {
    if place == 0 then p.niOracle else if place == End(p) then p.nrOracle else p.sites[place - 1].o
  }

  predicate Accepts(p: Path, sme: nat, place: nat, x: MeteringObject)
    requires place <= End(p)
  {
    Selected(sme, place, End(p)) && OracleAt(p, place).check(x)
  }

  /** No node before this place is selected and accepts the object. */
  predicate NoneBefore(p: Path, sme: nat, place: nat, x: MeteringObject)
    requires place <= End(p) + 1
  {
    forall k :: 0 <= k < place ==> !Accepts(p, sme, k, x)
  }

  /** The objects of a request that are for this node, which is the first to accept them, in their order. */
  function For(p: Path, sme: nat, place: nat, objs: seq<MeteringObject>): seq<MeteringObject>
    requires place <= End(p)
  {
    if objs == [] then []
    else
      (if Accepts(p, sme, place, objs[0]) && NoneBefore(p, sme, place, objs[0]) then [objs[0]] else [])
      + For(p, sme, place, objs[1..])
  }

  /** Those that get as far as this place; one behind the responder, they are for nobody. */
  function Beyond(p: Path, sme: nat, place: nat, objs: seq<MeteringObject>): seq<MeteringObject>
    requires place <= End(p) + 1
  {
    if objs == [] then []
    else (if NoneBefore(p, sme, place, objs[0]) then [objs[0]] else []) + Beyond(p, sme, place, objs[1..])
  }

  // ----- roles and places -----

  lemma RolesAndPlaces(sme: nat, place: nat, last: nat)
    requires 0 < last && place <= last
    ensures Selected(sme, place, last) <==>
            Participates(if place == 0 then Role.Initiator else if place == last then Receiver else Role.Forwarder, sme)
  {
  }

  lemma StopAt(p: Path, sme: nat, place: nat)
    requires place <= End(p)
    ensures |Stops(p, sme)| == End(p) + 1
    ensures Stops(p, sme)[place] == Stop(Selected(sme, place, End(p)), OracleAt(p, place))
  {
    hide Participates, Selected;
    RolesAndPlaces(sme, place, End(p));
  }

  /** Among the first n nodes. */
  lemma FirstForIs(p: Path, sme: nat, n: nat, place: nat, x: MeteringObject)
    requires place < n <= End(p) + 1 == |Stops(p, sme)|
    ensures var stops := Stops(p, sme)[..n];
            && (FirstFor(stops, x) == place <==> Accepts(p, sme, place, x) && NoneBefore(p, sme, place, x))
            && (FirstFor(stops, x) == n <==> NoneBefore(p, sme, n, x))
            && FirstFor(stops, x) <= n
  {
    var stops := Stops(p, sme)[..n];
    var first := FirstFor(stops, x);
    hide Stops, Selected, OracleAt;
    forall k | 0 <= k < n
      ensures Wants(stops[k], x) <==> Accepts(p, sme, k, x)
    {
      StopAt(p, sme, k);
    }
    if first < n {
      assert Accepts(p, sme, first, x);
    }
    if Accepts(p, sme, place, x) && NoneBefore(p, sme, place, x) {
      assert first <= place ==> Wants(stops[first], x);
    }
  }

  lemma {:induction false} WithFirstIs(p: Path, sme: nat, n: nat, place: nat, objs: seq<MeteringObject>)
    requires place < n <= End(p) + 1 == |Stops(p, sme)|
    ensures WithFirst(Stops(p, sme)[..n], objs, place) == For(p, sme, place, objs)
    ensures WithFirst(Stops(p, sme)[..n], objs, n) == Beyond(p, sme, n, objs)
    decreases |objs|
  {
    hide Stops, Accepts, NoneBefore, FirstFor;
    if objs != [] {
      FirstForIs(p, sme, n, place, objs[0]);
      WithFirstIs(p, sme, n, place, objs[1..]);
    }
  }

  // ----- what the nodes hold -----

  /** The CONFIGURE that reaches the responder. */
  function Reaching(p: Path, e: Event): Body {
    Forward(p.ni.sid, p.sites, Outgoing(Initiator.Step(p.ni, p.niWorld, e, p.niOracle).1)).1
  }

  lemma ReachingIs(p: Path, e: Event)
    requires Ready(p) && e.ApiConfigure? && e.lifetime > 0
    ensures Reaching(p, e) == FinalConfigure(p, e) && FinalConfigure(p, e).lifetime > 0
    ensures Reaching(p, e).objs == Residual(Stops(p, e.sme)[..End(p)], e.objs)
  {
    hide Initiator.Step, Forwarder.Step, Outgoing, PassedBy, KeptBy, ReadySite, ForwarderStops, StopOf, Participates, Least;
    InitiatorConfigures(p, e);
    var a, f := StopOf(p.niOracle, Role.Initiator, e.sme), ForwarderStops(p.sites, e.sme);
    ForwardShares(p.ni.sid, p.sites, Configure(e.lifetime, Next(p.ni.msn), e.sme, p.ni.hops, PassedBy(a, e.objs)));
    assert Stops(p, e.sme)[..End(p)] == [a] + f && ([a] + f)[0] == a && ([a] + f)[1..] == f;
  }

  /** The responder draws a key for every object it takes; it holds them if it can install them. */
  lemma ResponderTakes(p: Path, c: Body)
    requires c.Configure? && c.lifetime > 0 && p.nr.phase == CLOSE && p.nr.rule == NO_RULE && p.nr.maxLifetime > 0
    ensures var z := Responder.Step(p.nr, p.nrWorld, Received(p.nr.sid, c, true), p.nrOracle);
            && z.1.nextKey == p.nrWorld.nextKey + |ResponderTargets(p, c)|
            && (AllDeployable(p.nrOracle, ResponderTargets(p, c)) ==> z.0.rule.objects == ResponderTargets(p, c))
  {
    var targets := ResponderTargets(p, c);
    WholeRuleIff(p.nrOracle, targets);
    assert [] + targets == targets;
    hide InstallAll, Removed, Owned, Taken, Deployable;
  }

  lemma {:induction false} ObjectsLength(ts: seq<Target>)
    ensures |Objects(ts)| == |ts|
  {
    if ts != [] {
      ObjectsLength(ts[1..]);
    }
  }

  lemma NothingDeploys(o: Oracle)
    ensures AllDeployable(o, [])
  {
  }

  /** Each node of the path takes exactly the objects for which it is first, and passes on the others. */
  lemma EachTakesItsOwn(p: Path, e: Event, i: nat)
    requires Ready(p) && e.ApiConfigure? && e.lifetime > 0
    ensures var q := Configured(p, e);
            && |q.sites| == |p.sites|
            && Objects(q.ni.rule.objects) == For(p, e.sme, 0, e.objs)
            && (i < |p.sites| ==> Objects(q.sites[i].nf.rule.objects) == For(p, e.sme, i + 1, e.objs))
            && q.nrWorld.nextKey == p.nrWorld.nextKey + |For(p, e.sme, End(p), e.objs)|
            && (Willing(p.nrOracle) || For(p, e.sme, End(p), e.objs) == [] ==>
                  Objects(q.nr.rule.objects) == For(p, e.sme, End(p), e.objs))
    ensures Reaching(p, e).Configure? && Reaching(p, e).objs == Beyond(p, e.sme, End(p), e.objs)
  {
    hide Initiator.Step, Forwarder.Step, Responder.Step, Outgoing, ReadySite, Forward, Stops, WithFirst, For, Beyond;
    hide Willing, AllDeployable, ResponderTargets, FinalConfigure, Objects, Residual;
    var n, stops, targets := End(p), Stops(p, e.sme), ResponderTargets(p, FinalConfigure(p, e));
    PathIsShared(p, e, i);
    StopAt(p, e.sme, 0);
    assert stops[..n + 1] == stops;
    WithFirstIs(p, e.sme, n + 1, 0, e.objs);
    WithFirstIs(p, e.sme, n + 1, n, e.objs);
    if i < |p.sites| {
      WithFirstIs(p, e.sme, n + 1, i + 1, e.objs);
    }
    ReachingIs(p, e);
    WithFirstIs(p, e.sme, n, 0, e.objs);
    ResidualIsUnwanted(stops[..n], e.objs);
    ResponderTakes(p, FinalConfigure(p, e));
    ObjectsLength(targets);
    NothingDeploys(p.nrOracle);
    if Willing(p.nrOracle) {
      WillingDeploys(p.nrOracle, targets);
    }
  }

  /** Where everything can be installed, the session is set up exactly if each object is for some node. */
  lemma SetUpIff(p: Path, e: Event)
    requires Ready(p) && e.ApiConfigure? && e.lifetime > 0
    requires Willing(p.niOracle) && Willing(p.nrOracle)
    requires forall i :: 0 <= i < |p.sites| ==> Willing(p.sites[i].o)
    ensures Answered(Configured(p, e)).ni.phase == METERING <==>
            forall k :: 0 <= k < |e.objs| ==> !NoneBefore(p, e.sme, End(p) + 1, e.objs[k])
  {
    hide Answered, Configured, Ready, Willing, Stops, FirstFor, NoneBefore, Accepts;
    WillingPathMeters(p, e);
    StopAt(p, e.sme, 0);
    assert Stops(p, e.sme)[..End(p) + 1] == Stops(p, e.sme);
    forall k | 0 <= k < |e.objs|
      ensures FirstFor(Stops(p, e.sme), e.objs[k]) < |p.sites| + 2 <==> !NoneBefore(p, e.sme, End(p) + 1, e.objs[k])
    {
      FirstForIs(p, e.sme, End(p) + 1, 0, e.objs[k]);
    }
  }

  // ----- selection by selection -----

  function Checked(o: Oracle, objs: seq<MeteringObject>): seq<MeteringObject> {
    if objs == [] then [] else (if o.check(objs[0]) then [objs[0]] else []) + Checked(o, objs[1..])
  }

  function Unchecked(o: Oracle, objs: seq<MeteringObject>): seq<MeteringObject> {
    if objs == [] then [] else (if o.check(objs[0]) then [] else [objs[0]]) + Unchecked(o, objs[1..])
  }

  /** With 3 everything is up to the initiator, with 4 to the responder, with others than 1 to 5 to nobody. */
  lemma {:induction false} ForTheEnds(p: Path, objs: seq<MeteringObject>, place: nat, sme: nat)
    requires place <= End(p)
    ensures For(p, 3, place, objs) == if place == 0 then Checked(p.niOracle, objs) else []
    ensures For(p, 4, place, objs) == if place == End(p) then Checked(p.nrOracle, objs) else []
    ensures sme == 0 || sme > 5 ==> For(p, sme, place, objs) == []
    decreases |objs|
  {
    hide OracleAt;
    if objs != [] {
      ForTheEnds(p, objs[1..], place, sme);
      AtTheEnds(p, objs[0], place, sme);
    }
  }

  /** With 5 the responder gets what the initiator refuses. */
  lemma {:induction false} ForBothEnds(p: Path, objs: seq<MeteringObject>, place: nat)
    requires place <= End(p)
    ensures For(p, 5, place, objs) ==
            if place == 0 then Checked(p.niOracle, objs)
            else if place == End(p) then Checked(p.nrOracle, Unchecked(p.niOracle, objs)) else []
    decreases |objs|
  {
    hide Accepts, NoneBefore, OracleAt;
    if objs != [] {
      ForBothEnds(p, objs[1..], place);
      AtTheEnds(p, objs[0], place, 5);
      var rest := Unchecked(p.niOracle, objs[1..]);
      assert [objs[0]] + rest != [] && ([objs[0]] + rest)[1..] == rest && [] + rest == rest;
    }
  }

  lemma AtTheEnds(p: Path, x: MeteringObject, place: nat, sme: nat)
    requires place <= End(p)
    ensures Accepts(p, 3, place, x) && NoneBefore(p, 3, place, x) <==> place == 0 && p.niOracle.check(x)
    ensures Accepts(p, 4, place, x) && NoneBefore(p, 4, place, x) <==> place == End(p) && p.nrOracle.check(x)
    ensures Accepts(p, 5, place, x) && NoneBefore(p, 5, place, x) <==>
            (place == 0 && p.niOracle.check(x)) || (place == End(p) && p.nrOracle.check(x) && !p.niOracle.check(x))
    ensures sme == 0 || sme > 5 ==> !Accepts(p, sme, place, x)
    ensures NoneBefore(p, 3, End(p), x) <==> !p.niOracle.check(x)
    ensures NoneBefore(p, 4, End(p), x)
    ensures NoneBefore(p, 5, End(p), x) <==> !p.niOracle.check(x)
    ensures sme == 0 || sme > 5 ==> NoneBefore(p, sme, End(p), x)
  {
    assert Accepts(p, 3, 0, x) <==> p.niOracle.check(x);
    assert Accepts(p, 5, 0, x) <==> p.niOracle.check(x);
  }

  lemma {:induction false} BeyondTheFirst(p: Path, objs: seq<MeteringObject>, sme: nat)
    ensures Beyond(p, 3, End(p), objs) == Beyond(p, 5, End(p), objs) == Unchecked(p.niOracle, objs)
    ensures sme == 4 || sme == 0 || sme > 5 ==> Beyond(p, sme, End(p), objs) == objs
    decreases |objs|
  {
    hide NoneBefore;
    if objs != [] {
      BeyondTheFirst(p, objs[1..], sme);
      AtTheEnds(p, objs[0], 0, sme);
    }
  }

  /** Selection 3: the initiator takes all it accepts, and nobody behind it takes anything of the rest. */
  lemma SelectFirst(p: Path, e: Event, i: nat)
    requires Ready(p) && e.ApiConfigure? && e.lifetime > 0 && e.sme == 3
    ensures var q := Configured(p, e);
            && Objects(q.ni.rule.objects) == Checked(p.niOracle, e.objs)
            && (i < |p.sites| == |q.sites| ==> Objects(q.sites[i].nf.rule.objects) == [])
            && q.nrWorld.nextKey == p.nrWorld.nextKey && Objects(q.nr.rule.objects) == []
            && Reaching(p, e).Configure? && Reaching(p, e).objs == Unchecked(p.niOracle, e.objs)
  {
    hide Configured, Reaching, Ready, For, Beyond, Willing, Checked, Unchecked, Objects;
    EachTakesItsOwn(p, e, i);
    ForTheEnds(p, e.objs, 0, 0);
    ForTheEnds(p, e.objs, End(p), 0);
    ForTheEnds(p, e.objs, if i < |p.sites| then i + 1 else 0, 0);
    BeyondTheFirst(p, e.objs, 0);
  }

  /** Selection 4: every object reaches the responder, and it takes all it accepts. */
  lemma SelectLast(p: Path, e: Event, i: nat)
    requires Ready(p) && e.ApiConfigure? && e.lifetime > 0 && e.sme == 4
    ensures var q := Configured(p, e);
            && Objects(q.ni.rule.objects) == []
            && (i < |p.sites| == |q.sites| ==> Objects(q.sites[i].nf.rule.objects) == [])
            && q.nrWorld.nextKey == p.nrWorld.nextKey + |Checked(p.nrOracle, e.objs)|
            && (Willing(p.nrOracle) ==> Objects(q.nr.rule.objects) == Checked(p.nrOracle, e.objs))
            && Reaching(p, e).Configure? && Reaching(p, e).objs == e.objs
  {
    hide Configured, Reaching, Ready, For, Beyond, Willing, Checked, Unchecked, Objects;
    EachTakesItsOwn(p, e, i);
    ForTheEnds(p, e.objs, 0, 0);
    ForTheEnds(p, e.objs, End(p), 0);
    ForTheEnds(p, e.objs, if i < |p.sites| then i + 1 else 0, 0);
    BeyondTheFirst(p, e.objs, 4);
  }

  /** Selection 5: the initiator takes all it accepts, and the responder what it accepts of the rest. */
  lemma SelectEnds(p: Path, e: Event, i: nat)
    requires Ready(p) && e.ApiConfigure? && e.lifetime > 0 && e.sme == 5
    ensures var q, rest := Configured(p, e), Unchecked(p.niOracle, e.objs);
            && Objects(q.ni.rule.objects) == Checked(p.niOracle, e.objs)
            && (i < |p.sites| == |q.sites| ==> Objects(q.sites[i].nf.rule.objects) == [])
            && q.nrWorld.nextKey == p.nrWorld.nextKey + |Checked(p.nrOracle, rest)|
            && (Willing(p.nrOracle) ==> Objects(q.nr.rule.objects) == Checked(p.nrOracle, rest))
            && Reaching(p, e).Configure? && Reaching(p, e).objs == rest
  {
    hide Configured, Reaching, Ready, For, Beyond, Willing, Checked, Unchecked, Objects;
    EachTakesItsOwn(p, e, i);
    ForBothEnds(p, e.objs, 0);
    ForBothEnds(p, e.objs, End(p));
    ForBothEnds(p, e.objs, if i < |p.sites| then i + 1 else 0);
    BeyondTheFirst(p, e.objs, 0);
  }

  /** Any other number than 1 to 5: nobody takes anything. */
  lemma SelectNobody(p: Path, e: Event, i: nat)
    requires Ready(p) && e.ApiConfigure? && e.lifetime > 0 && !(1 <= e.sme <= 5)
    ensures var q := Configured(p, e);
            && Objects(q.ni.rule.objects) == []
            && (i < |p.sites| == |q.sites| ==> Objects(q.sites[i].nf.rule.objects) == [])
            && q.nrWorld.nextKey == p.nrWorld.nextKey && Objects(q.nr.rule.objects) == []
            && Reaching(p, e).Configure? && Reaching(p, e).objs == e.objs
  {
    hide Configured, Reaching, Ready, For, Beyond, Willing, Checked, Unchecked, Objects;
    EachTakesItsOwn(p, e, i);
    ForTheEnds(p, e.objs, 0, e.sme);
    ForTheEnds(p, e.objs, End(p), e.sme);
    ForTheEnds(p, e.objs, if i < |p.sites| then i + 1 else 0, e.sme);
    BeyondTheFirst(p, e.objs, e.sme);
  }

  lemma {:induction false} Members(p: Path, sme: nat, place: nat, objs: seq<MeteringObject>, x: MeteringObject)
    requires place <= End(p)
    ensures x in For(p, sme, place, objs) <==> x in objs && Accepts(p, sme, place, x) && NoneBefore(p, sme, place, x)
    ensures x in Beyond(p, sme, place, objs) <==> x in objs && NoneBefore(p, sme, place, x)
    decreases |objs|
  {
    hide Accepts, NoneBefore;
    if objs != [] {
      Members(p, sme, place, objs[1..], x);
    }
  }

  /** No initiator and none of the first n forwarders accepts this object. */
  predicate RefusedBy(p: Path, n: nat, x: MeteringObject)
    requires n <= |p.sites|
  {
    !p.niOracle.check(x) && forall k :: 0 <= k < n ==> !p.sites[k].o.check(x)
  }

  lemma EveryoneAccepts(p: Path, sme: nat, n: nat, x: MeteringObject)
    requires (sme == 1 || sme == 2) && n <= |p.sites|
    ensures NoneBefore(p, sme, n + 1, x) <==> RefusedBy(p, n, x)
    ensures forall k :: 0 <= k <= End(p) ==> (Accepts(p, sme, k, x) <==> OracleAt(p, k).check(x))
  {
    if RefusedBy(p, n, x) {
      forall k | 0 <= k < n + 1
        ensures !Accepts(p, sme, k, x)
      {
        assert k > 0 ==> !p.sites[k - 1].o.check(x);
      }
    }
    if NoneBefore(p, sme, n + 1, x) {
      assert !Accepts(p, sme, 0, x);
      forall k | 0 <= k < n
        ensures !p.sites[k].o.check(x)
      {
        assert !Accepts(p, sme, k + 1, x);
      }
    }
  }

  /** Selections 1 and 2: every node takes what it accepts, unless a node before it does. */
  lemma SelectEveryone(p: Path, e: Event, i: nat, x: MeteringObject)
    requires Ready(p) && e.ApiConfigure? && e.lifetime > 0 && (e.sme == 1 || e.sme == 2)
    ensures var q, n := Configured(p, e), |p.sites|;
            && (x in Objects(q.ni.rule.objects) <==> x in e.objs && p.niOracle.check(x))
            && (i < n == |q.sites| ==>
                  (x in Objects(q.sites[i].nf.rule.objects) <==> x in e.objs && p.sites[i].o.check(x) && RefusedBy(p, i, x)))
            && (Willing(p.nrOracle) ==>
                  (x in Objects(q.nr.rule.objects) <==> x in e.objs && p.nrOracle.check(x) && RefusedBy(p, n, x)))
            && Reaching(p, e).Configure? && (x in Reaching(p, e).objs <==> x in e.objs && RefusedBy(p, n, x))
  {
    hide Configured, Reaching, Ready, For, Beyond, Willing, Objects, Accepts;
    EachTakesItsOwn(p, e, i);
    Members(p, e.sme, 0, e.objs, x);
    Members(p, e.sme, End(p), e.objs, x);
    EveryoneAccepts(p, e.sme, |p.sites|, x);
    if i < |p.sites| {
      Members(p, e.sme, i + 1, e.objs, x);
      EveryoneAccepts(p, e.sme, i, x);
    }
  }
}
