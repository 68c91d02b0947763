/** How the objects of one request are shared out along a path: every object to the first node that wants it. */
module PathShares {
  import opened PolicyRule
  import opened Session

  /** A node of the path, as far as sharing goes: whether its role takes part, and what it can meter. */
  datatype Stop = Stop(takes: bool, o: Oracle)

  predicate Wants(s: Stop, x: MeteringObject) {
    s.takes && s.o.check(x)
  }

  function KeptBy(s: Stop, objs: seq<MeteringObject>): seq<MeteringObject> {
    Objects(Taken(s.o, s.takes, 0, 0, objs))
  }

  function PassedBy(s: Stop, objs: seq<MeteringObject>): seq<MeteringObject> {
    Left(s.o, s.takes, objs)
  }

  /** What is still to be placed behind these nodes. */
  function Residual(stops: seq<Stop>, objs: seq<MeteringObject>): seq<MeteringObject>
    decreases |stops|
  {
    if stops == [] then objs else Residual(stops[1..], PassedBy(stops[0], objs))
  }

  /** What node i takes. */
  function Share(stops: seq<Stop>, i: nat, objs: seq<MeteringObject>): seq<MeteringObject>
    requires i < |stops|
    decreases i
  {
    if i == 0 then KeptBy(stops[0], objs) else Share(stops[1..], i - 1, PassedBy(stops[0], objs))
  }

  // ----- the reference: who is first -----

  /** The first node of the path that wants this object; the length of the path if none does. */
  function FirstFor(stops: seq<Stop>, x: MeteringObject): (n: nat)
    ensures n <= |stops|
    ensures n < |stops| ==> Wants(stops[n], x)
    ensures forall i :: 0 <= i < n ==> !Wants(stops[i], x)
  {
    if stops == [] || Wants(stops[0], x) then 0 else 1 + FirstFor(stops[1..], x)
  }

  function WithFirst(stops: seq<Stop>, objs: seq<MeteringObject>, i: nat): seq<MeteringObject> {
    if objs == [] then []
    else if FirstFor(stops, objs[0]) == i then [objs[0]] + WithFirst(stops, objs[1..], i)
    else WithFirst(stops, objs[1..], i)
  }

  /** Which keys a node draws has no influence on what it takes. */
  lemma {:induction false} KeysDoNotMatter(o: Oracle, takes: bool, sid: nat, key: nat, objs: seq<MeteringObject>)
    ensures Objects(Taken(o, takes, sid, key, objs)) == KeptBy(Stop(takes, o), objs)
    ensures |Objects(Taken(o, takes, sid, key, objs))| == |Taken(o, takes, sid, key, objs)|
  {
    SameObjects(o, takes, sid, key, 0, 0, objs);
  }

  lemma {:induction false} SameObjects(o: Oracle, takes: bool, s1: nat, k1: nat, s2: nat, k2: nat, objs: seq<MeteringObject>)
    ensures Objects(Taken(o, takes, s1, k1, objs)) == Objects(Taken(o, takes, s2, k2, objs))
    ensures |Objects(Taken(o, takes, s1, k1, objs))| == |Taken(o, takes, s1, k1, objs)|
    decreases |objs|
  {
    if objs != [] {
      if takes && o.check(objs[0]) {
        SameObjects(o, takes, s1, k1 + 1, s2, k2 + 1, objs[1..]);
      } else {
        SameObjects(o, takes, s1, k1, s2, k2, objs[1..]);
      }
    }
  }

  lemma {:induction false} FirstStop(stops: seq<Stop>, objs: seq<MeteringObject>)
    requires stops != []
    ensures KeptBy(stops[0], objs) == WithFirst(stops, objs, 0)
    decreases |objs|
  {
    if objs != [] {
      FirstStop(stops, objs[1..]);
      var s := stops[0];
      KeysDoNotMatter(s.o, s.takes, 0, if Wants(s, objs[0]) then 1 else 0, objs[1..]);
    }
  }

  lemma {:induction false} LaterStops(stops: seq<Stop>, objs: seq<MeteringObject>, i: nat)
    requires stops != []
    ensures WithFirst(stops, objs, i + 1) == WithFirst(stops[1..], PassedBy(stops[0], objs), i)
    decreases |objs|
  {
    if objs != [] {
      LaterStops(stops, objs[1..], i);
    }
  }

  /** Each node takes exactly the objects for which it is the first that wants them, in their order. */
  lemma {:induction false} ShareIsFirst(stops: seq<Stop>, i: nat, objs: seq<MeteringObject>)
    requires i < |stops|
    ensures Share(stops, i, objs) == WithFirst(stops, objs, i)
    decreases i
  {
    if i == 0 {
      FirstStop(stops, objs);
    } else {
      LaterStops(stops, objs, i - 1);
      ShareIsFirst(stops[1..], i - 1, PassedBy(stops[0], objs));
    }
  }

  /** What is left over is what no node wants. */
  lemma {:induction false} ResidualIsUnwanted(stops: seq<Stop>, objs: seq<MeteringObject>)
    ensures Residual(stops, objs) == WithFirst(stops, objs, |stops|)
    decreases |stops|
  {
    if stops == [] {
      NobodyAsked(objs);
    } else {
      LaterStops(stops, objs, |stops| - 1);
      ResidualIsUnwanted(stops[1..], PassedBy(stops[0], objs));
    }
  }

  lemma {:induction false} NobodyAsked(objs: seq<MeteringObject>)
    ensures WithFirst([], objs, 0) == objs
    decreases |objs|
  {
    if objs != [] {
      NobodyAsked(objs[1..]);
    }
  }

  // ----- conservation -----

  /** All shares together. */
  function AllShares(stops: seq<Stop>, objs: seq<MeteringObject>): multiset<MeteringObject>
    decreases |stops|
  {
    if stops == [] then multiset{}
    else multiset(KeptBy(stops[0], objs)) + AllShares(stops[1..], PassedBy(stops[0], objs))
  }

  /** The request is the disjoint union of the shares and the residual: nothing is lost or metered twice. */
  lemma {:induction false} SharesConserve(stops: seq<Stop>, objs: seq<MeteringObject>)
    ensures multiset(objs) == AllShares(stops, objs) + multiset(Residual(stops, objs))
    decreases |stops|
  {
    if stops != [] {
      TakenAndLeftAreAll(stops[0].o, stops[0].takes, 0, 0, objs);
      SharesConserve(stops[1..], PassedBy(stops[0], objs));
    }
  }
}
