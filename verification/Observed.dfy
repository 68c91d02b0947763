/** What can be seen of one step of a session from outside. */
module Observed {
  import opened Options
  import opened Serial
  import opened PolicyRule
  import opened Session

  /** The step sends exactly these messages, in this order. */
  predicate Says(w: World, w': World, sid: nat, bodies: seq<Body>) {
    && |w'.sent| == |w.sent| + |bodies| && w'.sent[..|w.sent|] == w.sent
    && forall i :: 0 <= i < |bodies| ==> w'.sent[|w.sent| + i] == Message(sid, bodies[i])
  }

  /** It starts one timer, of so many seconds, and stops none. */
  predicate Starts(w: World, w': World, sid: nat, id: nat, seconds: nat) {
    id == w.nextTimer && w'.nextTimer == id + 1 && w'.armed == w.armed[id := Armed(sid, seconds)]
  }

  predicate StartsNothing(w: World, w': World) {
    w'.nextTimer == w.nextTimer && w'.armed == w.armed
  }

  /** It asks for the removal of every command of the rule, and of nothing else. */
  ghost predicate Releases(o: Oracle, w: World, w': World, rule: Rule) {
    && (forall c :: c in w'.meter.installed <==> c in w.meter.installed && !(c in Owned(rule) && o.release(c)))
    && (forall c :: c in w'.meter.refused <==> c in w.meter.refused || (c in Owned(rule) && !o.release(c)))
  }

  /** It leaves the metering process alone. */
  predicate LeavesMetering(w: World, w': World) {
    w'.meter == w.meter
  }

  /** A RESPONSE to the request with this number. */
  predicate Hears(e: Event, n: Serial) {
    e.Received? && e.body.Response? && e.body.rmsn == Some(n)
  }

  lemma UninstallReleases(o: Oracle, w: World, rule: Rule)
    ensures Releases(o, w, Uninstall(o, w, rule), rule)
  {
    if rule.commands == [] {
      assert Owned(rule) == {};
    }
  }

  /** Only the metering process matters. */
  lemma SameMeter(o: Oracle, w: World, w2: World, v: World, v2: World, rule: Rule)
    requires Releases(o, w, v, rule)
    ensures w2.meter == w.meter && v2.meter == v.meter ==> Releases(o, w2, v2, rule)
  {
  }

  lemma SaysThen(w: World, v: World, u: World, sid: nat, a: seq<Body>, b: seq<Body>)
    requires Says(w, v, sid, a) && Says(v, u, sid, b)
    ensures Says(w, u, sid, a + b)
  {
    assert u.sent[..|w.sent|] == u.sent[..|v.sent|][..|w.sent|];
    forall i | 0 <= i < |a + b|
      ensures u.sent[|w.sent| + i] == Message(sid, (a + b)[i])
    {
      if i < |a| {
        assert u.sent[..|v.sent|][|w.sent| + i] == Message(sid, a[i]);
      } else {
        assert u.sent[|v.sent| + (i - |a|)] == Message(sid, b[i - |a|]);
      }
    }
  }
}
