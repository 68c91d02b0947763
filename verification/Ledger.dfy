/** The books of a node: which command in the metering process belongs to which session. */
module Ledger {
  import opened PolicyRule
  import opened Session

  /** Installed commands, without those that the metering process refused to remove. */
  function Live(w: World): set<Command> {
    w.meter.installed - w.meter.refused
  }

  /** All keys of a rule were drawn by this session. */
  ghost predicate OwnKeys(rule: Rule, sid: nat, w: World) {
    && DistinctTargets(rule.objects)
    && (forall i :: 0 <= i < |rule.objects| ==> rule.objects[i].key.owner == sid && rule.objects[i].key.nr < w.nextKey)
    && (forall c :: c in Owned(rule) ==> c.key.owner == sid && c.key.nr < w.nextKey)
  }

  ghost predicate NothingInstalled(objects: seq<Target>, w: World) {
    forall c, i :: c in w.meter.installed && 0 <= i < |objects| ==> c.key != objects[i].key
  }

  /** The rule of a session in this phase, against the metering process. */
  ghost predicate RuleKept(phase: Phase, rule: Rule, sid: nat, w: World) {
    && OwnKeys(rule, sid, w)
    && (phase != METERING ==> rule.commands == [] && NothingInstalled(rule.objects, w))
    && (phase == METERING ==> Owned(rule) <= Live(w))
  }

  /**
   * What one step of a session may do to the world: exchange what it held for what it holds now,
   * start timers of its own, draw keys; nothing of another session is touched.
   */
  ghost predicate Exchanges(w: World, w': World, sid: nat, held: set<Command>, held': set<Command>) {
    && ValidWorld(w')
    && Live(w') == Live(w) - held + held'
    && w.meter.refused <= w'.meter.refused
    && (forall c: Command :: c.key.owner != sid ==> (c in w'.meter.installed <==> c in w.meter.installed))
    && (forall c: Command :: c.key.owner != sid ==> (c in w'.meter.refused <==> c in w.meter.refused))
    && w.nextKey <= w'.nextKey && w.nextTimer <= w'.nextTimer
    && (forall id :: id in w.armed ==> id in w'.armed && w'.armed[id] == w.armed[id])
    && (forall id :: id in w'.armed && id !in w.armed ==> w'.armed[id].sid == sid && w.nextTimer <= id)
  }

  lemma SendExchanges(w: World, sid: nat, body: Body, held: set<Command>)
    requires ValidWorld(w) && held <= Live(w)
    ensures Exchanges(w, Send(w, sid, body), sid, held, held)
  {
  }

  lemma StartExchanges(w: World, sid: nat, seconds: nat, held: set<Command>)
    requires ValidWorld(w) && held <= Live(w)
    ensures Exchanges(w, StartTimer(w, sid, seconds), sid, held, held)
  {
  }

  lemma ThenFromNothing(w: World, v: World, u: World, sid: nat, c: set<Command>)
    requires Exchanges(w, v, sid, {}, {}) && Exchanges(v, u, sid, {}, c)
    ensures Exchanges(w, u, sid, {}, c)
  {
  }

  /** Sending, or starting a timer, or both: nothing changes hands. */
  lemma QuietStep(w: World, sid: nat, body: Body, seconds: nat, phase: Phase, rule: Rule)
    requires ValidWorld(w) && RuleKept(phase, rule, sid, w)
    ensures var held := if phase == METERING then Owned(rule) else {};
            var v, t, u := Send(w, sid, body), StartTimer(w, sid, seconds), StartTimer(Send(w, sid, body), sid, seconds);
            && ValidWorld(v) && ValidWorld(t) && ValidWorld(u)
            && Exchanges(w, w, sid, held, held) && Exchanges(w, v, sid, held, held)
            && Exchanges(w, t, sid, held, held) && Exchanges(w, u, sid, held, held)
            && RuleKept(phase, rule, sid, v) && RuleKept(phase, rule, sid, t) && RuleKept(phase, rule, sid, u)
  {
  }

  lemma Then(w: World, v: World, u: World, sid: nat, a: set<Command>, b: set<Command>, c: set<Command>)
    requires a <= Live(w) && Exchanges(w, v, sid, a, b) && Exchanges(v, u, sid, b, c)
    requires forall x :: x in b ==> x in a || x !in Live(w)
    ensures Exchanges(w, u, sid, a, c)
  {
    forall x | x in b
      ensures x !in Live(w) - a
    {
    }
    assert (Live(w) - a + b) - b == Live(w) - a;
  }

  /** Commands made for keys that are new to the metering process are all added to the books. */
  lemma InstallExchanges(o: Oracle, w: World, sid: nat, objects: seq<Target>)
    requires ValidWorld(w) && OwnKeys(Rule(objects, []), sid, w) && NothingInstalled(objects, w)
    ensures var r := InstallAll(o, objects);
            && Exchanges(w, Install(o, w, Rule(objects, [])), sid, {}, Owned(r))
            && OwnKeys(r, sid, w)
            && Owned(r) * w.meter.installed == {}
  {
    var r := InstallAll(o, objects);
    forall c | c in Owned(r)
      ensures c.key.owner == sid && c.key.nr < w.nextKey && c !in w.meter.installed
    {
      InstallRecordsAccepted(o, objects, c);
    }
    InstallKeepsKeys(o, objects);
    assert Owned(Rule(objects, [])) == {};
  }

  lemma {:induction false} InstallKeepsKeys(o: Oracle, objects: seq<Target>)
    requires DistinctTargets(objects)
    ensures DistinctTargets(InstallAll(o, objects).objects)
    ensures forall t :: t in InstallAll(o, objects).objects ==> t in objects
  {
    if objects != [] {
      InstallKeepsKeys(o, objects[1..]);
      var rest := InstallAll(o, objects[1..]).objects;
      forall i | 0 <= i < |rest|
        ensures rest[i].key != objects[0].key
      {
        assert rest[i] in objects[1..];
      }
    }
  }

  /** Removing takes every command of the rule off the books; those refused stay, marked as refused. */
  lemma UninstallExchanges(o: Oracle, w: World, sid: nat, rule: Rule)
    requires ValidWorld(w) && OwnKeys(rule, sid, w) && Owned(rule) <= Live(w)
    ensures Exchanges(w, Uninstall(o, w, rule), sid, Owned(rule), {})
    ensures Uninstall(o, w, rule).meter.refused
         == w.meter.refused + (set c | c in Owned(rule) && !o.release(c))
  {
    if rule.commands == [] {
      assert Owned(rule) == {};
    }
  }

  /** Keys just drawn are new, also to a rule that already has objects. */
  lemma DrawKeys(o: Oracle, takes: bool, sid: nat, w: World, rule: Rule, objs: seq<MeteringObject>)
    requires ValidWorld(w) && OwnKeys(rule, sid, w) && NothingInstalled(rule.objects, w)
    ensures var ts := Taken(o, takes, sid, w.nextKey, objs);
            var w' := w.(nextKey := w.nextKey + |ts|);
            && ValidWorld(w')
            && OwnKeys(rule.(objects := rule.objects + ts), sid, w')
            && NothingInstalled(rule.objects + ts, w')
  {
    var ts := Taken(o, takes, sid, w.nextKey, objs);
    forall i | 0 <= i < |ts|
      ensures ts[i].key == RuleKey(sid, w.nextKey + i)
    {
      TakenIsAccepted(o, takes, sid, w.nextKey, objs, i);
    }
  }

  /** Drawing keys, and perhaps sending: nothing changes hands. */
  lemma DrawStep(w: World, n: nat, sid: nat, body: Body)
    requires ValidWorld(w)
    ensures var w1 := w.(nextKey := w.nextKey + n);
            Exchanges(w, w1, sid, {}, {}) && Exchanges(w, Send(w1, sid, body), sid, {}, {})
    ensures Exchanges(w, Send(w, sid, body), sid, {}, {}) && Exchanges(w, w, sid, {}, {})
  {
  }

  /** A step of one session leaves the rules of the others as they were. */
  lemma OthersKept(w: World, w': World, sid: nat, held: set<Command>, held': set<Command>,
                   other: nat, phase: Phase, rule: Rule)
    requires Exchanges(w, w', sid, held, held') && other != sid && RuleKept(phase, rule, other, w)
    ensures RuleKept(phase, rule, other, w')
  {
  }

  /** Removing a rule, and sending before or after it. */
  lemma ClosingStep(o: Oracle, w: World, sid: nat, body: Body, rule: Rule)
    requires ValidWorld(w) && RuleKept(METERING, rule, sid, w)
    ensures Exchanges(w, Uninstall(o, w, rule), sid, Owned(rule), {})
    ensures Exchanges(w, Send(Uninstall(o, w, rule), sid, body), sid, Owned(rule), {})
    ensures Exchanges(w, Uninstall(o, Send(w, sid, body), rule), sid, Owned(rule), {})
  {
    UninstallExchanges(o, w, sid, rule);
    UninstallExchanges(o, Send(w, sid, body), sid, rule);
  }
}
