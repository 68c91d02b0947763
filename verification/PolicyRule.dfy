/** Metering rules, and the installer that turns them into commands for the metering process. */
module PolicyRule {

  /** What is to be metered; the sessions only copy it. */
  datatype MeteringObject = MeteringObject(content: int)

  /** mspec_rule_key, a fresh uuid: here the session that drew it, and a number never drawn before. */
  datatype RuleKey = RuleKey(owner: nat, nr: nat)

  /** The rule "key_seq" of the metering process. */
  datatype Command = Command(key: RuleKey, seqNbr: nat)

  datatype Target = Target(key: RuleKey, obj: MeteringObject)
  datatype Keys = Keys(key: RuleKey, ids: seq<nat>)

  /** mt_policy_rule: its two maps, as lists of entries with distinct keys. */
  datatype Rule = Rule(objects: seq<Target>, commands: seq<Keys>)

  const NO_RULE := Rule([], [])

  /** What the metering process and the node's configuration answer; arbitrary. */
  datatype Oracle = Oracle(check: MeteringObject -> bool, targets: MeteringObject -> nat,
                           accept: Command -> bool, release: Command -> bool)

  /** The commands that are installed, and those among them whose removal was refused. */
  datatype Meter = Meter(installed: set<Command>, refused: set<Command>)

  // ----- install and remove -----

  /** The ids among i..n that the metering process accepts. */
  function Accepted(o: Oracle, key: RuleKey, i: nat, n: nat): seq<nat>
    decreases n + 1 - i
  {
    if i > n then []
    else (if o.accept(Command(key, i)) then [i] else []) + Accepted(o, key, i + 1, n)
  }

  /** install: an object is in the result when at least one of its commands was accepted. */
  function InstallAll(o: Oracle, objects: seq<Target>): Rule {
    if objects == [] then NO_RULE
    else
      var t, rest := objects[0], InstallAll(o, objects[1..]);
      var ids := Accepted(o, t.key, 1, o.targets(t.obj));
      if ids == [] then rest else Rule([t] + rest.objects, [Keys(t.key, ids)] + rest.commands)
  }

  function CommandsFrom(key: RuleKey, ids: seq<nat>): seq<Command> {
    if ids == [] then [] else [Command(key, ids[0])] + CommandsFrom(key, ids[1..])
  }

  /** The removals that remove issues, in order. */
  function Removals(commands: seq<Keys>): seq<Command> {
    if commands == [] then [] else CommandsFrom(commands[0].key, commands[0].ids) + Removals(commands[1..])
  }

  /** The commands a rule holds. */
  function Owned(rule: Rule): set<Command> {
    set c | c in Removals(rule.commands)
  }

  function Released(o: Oracle, cs: set<Command>): set<Command> {
    set c | c in cs && o.release(c)
  }

  function Installed(m: Meter, rule: Rule): Meter {
    m.(installed := m.installed + Owned(rule))
  }

  function Removed(o: Oracle, m: Meter, rule: Rule): Meter {
    var gone := Released(o, Owned(rule));
    Meter(m.installed - gone, m.refused + (Owned(rule) - gone))
  }

  // ----- what they conserve -----

  ghost predicate DistinctTargets(objects: seq<Target>) {
    forall i, j :: 0 <= i < j < |objects| ==> objects[i].key != objects[j].key
  }

  lemma {:induction false} AcceptedExactly(o: Oracle, key: RuleKey, i: nat, n: nat)
    ensures forall k :: k in Accepted(o, key, i, n) <==> i <= k <= n && o.accept(Command(key, k))
    ensures forall a, b :: 0 <= a < b < |Accepted(o, key, i, n)| ==> Accepted(o, key, i, n)[a] < Accepted(o, key, i, n)[b]
    decreases n + 1 - i
  {
    if i <= n {
      AcceptedExactly(o, key, i + 1, n);
      var rest := Accepted(o, key, i + 1, n);
      forall b | 0 <= b < |rest|
        ensures i < rest[b]
      {
        assert rest[b] in rest;
      }
    }
  }

  lemma {:induction false} CommandsOfIds(key: RuleKey, ids: seq<nat>)
    ensures |CommandsFrom(key, ids)| == |ids|
    ensures forall i :: 0 <= i < |ids| ==> CommandsFrom(key, ids)[i] == Command(key, ids[i])
  {
    if ids != [] {
      CommandsOfIds(key, ids[1..]);
    }
  }

  lemma {:induction false} CommandsMember(key: RuleKey, ids: seq<nat>, c: Command)
    ensures c in CommandsFrom(key, ids) <==> c.key == key && c.seqNbr in ids
  {
    if ids != [] {
      CommandsMember(key, ids[1..], c);
    }
  }

  /** install records exactly the accepted commands, each under the object it was made for. */
  lemma {:induction false} InstallRecordsAccepted(o: Oracle, objects: seq<Target>, c: Command)
    ensures c in Owned(InstallAll(o, objects)) <==>
            o.accept(c) && exists i :: 0 <= i < |objects| && objects[i].key == c.key && 1 <= c.seqNbr <= o.targets(objects[i].obj)
  {
    if objects != [] {
      var t, later := objects[0], objects[1..];
      var ids := Accepted(o, t.key, 1, o.targets(t.obj));
      var rest := InstallAll(o, later);
      InstallRecordsAccepted(o, later, c);
      AcceptedExactly(o, t.key, 1, o.targets(t.obj));
      CommandsMember(t.key, ids, c);
      assert Owned(InstallAll(o, objects)) == (set d | d in CommandsFrom(t.key, ids)) + Owned(rest) by {
        assert CommandsFrom(t.key, []) == [];
      }
      assert forall i :: 0 <= i < |later| ==> objects[i + 1] == later[i];
      if exists i :: 0 <= i < |objects| && objects[i].key == c.key && 1 <= c.seqNbr <= o.targets(objects[i].obj) {
        var i :| 0 <= i < |objects| && objects[i].key == c.key && 1 <= c.seqNbr <= o.targets(objects[i].obj);
        assert i > 0 ==> later[i - 1] == objects[i];
      }
    }
  }

  /** An object is installed when one of its commands is; whole rules are installed when all objects are. */
  ghost predicate Deployable(o: Oracle, t: Target) {
    exists i :: 1 <= i <= o.targets(t.obj) && o.accept(Command(t.key, i))
  }

  ghost predicate AllDeployable(o: Oracle, objects: seq<Target>) {
    forall i :: 0 <= i < |objects| ==> Deployable(o, objects[i])
  }

  lemma DeployableIff(o: Oracle, t: Target)
    ensures Deployable(o, t) <==> Accepted(o, t.key, 1, o.targets(t.obj)) != []
  {
    AcceptedExactly(o, t.key, 1, o.targets(t.obj));
    var ids := Accepted(o, t.key, 1, o.targets(t.obj));
    if ids != [] {
      assert ids[0] in ids;
    }
  }

  lemma InstallFirst(o: Oracle, objects: seq<Target>)
    requires objects != []
    ensures var t, rest, r := objects[0], InstallAll(o, objects[1..]), InstallAll(o, objects);
            if Deployable(o, t) then
              && r.objects == [t] + rest.objects && |r.commands| > 0 && r.commands[1..] == rest.commands
              && r.commands[0].key == t.key && r.commands[0].ids != []
            else r == rest
  {
    DeployableIff(o, objects[0]);
  }

  lemma {:induction false} WholeRuleIff(o: Oracle, objects: seq<Target>)
    ensures var r := InstallAll(o, objects);
            && |r.objects| == |r.commands| <= |objects|
            && (forall i :: 0 <= i < |r.objects| ==> r.objects[i].key == r.commands[i].key && r.commands[i].ids != [])
            && (|r.objects| == |objects| <==> forall i :: 0 <= i < |objects| ==> Deployable(o, objects[i]))
            && (|r.objects| == |objects| ==> r.objects == objects)
  {
    if objects != [] {
      InstallFirst(o, objects);
      WholeRuleIff(o, objects[1..]);
      hide InstallAll, Deployable;
      var rest := InstallAll(o, objects[1..]);
      assert forall i :: 0 <= i < |objects[1..]| ==> objects[i + 1] == objects[1..][i];
      if |rest.objects| == |objects| - 1 && Deployable(o, objects[0]) {
        forall i | 0 <= i < |objects|
          ensures Deployable(o, objects[i])
        {
          assert i > 0 ==> objects[i] == objects[1..][i - 1];
        }
      }
    }
  }

  ghost predicate NoDuplicates(cs: seq<Command>) {
    forall i, j :: 0 <= i < j < |cs| ==> cs[i] != cs[j]
  }

  lemma {:induction false} RemovalKeys(o: Oracle, objects: seq<Target>)
    ensures forall c :: c in Removals(InstallAll(o, objects).commands) ==>
              exists i :: 0 <= i < |objects| && objects[i].key == c.key
  {
    forall c | c in Removals(InstallAll(o, objects).commands)
      ensures exists i :: 0 <= i < |objects| && objects[i].key == c.key
    {
      assert c in Owned(InstallAll(o, objects));
      InstallRecordsAccepted(o, objects, c);
    }
  }

  /** Removing what install returned issues every recorded command once. */
  lemma {:induction false} EachRemovedOnce(o: Oracle, objects: seq<Target>)
    requires DistinctTargets(objects)
    ensures NoDuplicates(Removals(InstallAll(o, objects).commands))
  {
    if objects != [] {
      var t, later := objects[0], objects[1..];
      var ids := Accepted(o, t.key, 1, o.targets(t.obj));
      EachRemovedOnce(o, later);
      RemovalKeys(o, later);
      AcceptedExactly(o, t.key, 1, o.targets(t.obj));
      CommandsOfIds(t.key, ids);
      var a, b := CommandsFrom(t.key, ids), Removals(InstallAll(o, later).commands);
      forall i, j | 0 <= i < |a| && 0 <= j < |b|
        ensures a[i] != b[j]
      {
        assert b[j] in b;
      }
    }
  }

  // ----- the installer -----

  lemma AcceptedStep(o: Oracle, key: RuleKey, i: nat, n: nat)
    ensures Accepted(o, key, i, n) ==
            if i > n then [] else (if o.accept(Command(key, i)) then [i] else []) + Accepted(o, key, i + 1, n)
    ensures CommandsFrom(key, []) == []
  {
  }

  class Installer {
    var meter: Meter

    constructor ()
      ensures meter == Meter({}, {})
    {
      meter := Meter({}, {});
    }

    /** The commands of one object: every one is tried, and refusals are skipped. */
    method InstallObject(o: Oracle, t: Target) returns (ids: seq<nat>)
      modifies this
      ensures ids == Accepted(o, t.key, 1, o.targets(t.obj))
      ensures meter == Meter(old(meter).installed + (set c | c in CommandsFrom(t.key, ids)), old(meter).refused)
    {
      hide Accepted, CommandsFrom;
      ids := [];
      var n := o.targets(t.obj);
      AcceptedStep(o, t.key, 1, n);
      for k := 1 to n + 1
        invariant Accepted(o, t.key, 1, n) == ids + Accepted(o, t.key, k, n)
        invariant meter == Meter(old(meter).installed + (set c | c in CommandsFrom(t.key, ids)), old(meter).refused)
      {
        AcceptedStep(o, t.key, k, n);
        if o.accept(Command(t.key, k)) {
          meter := meter.(installed := meter.installed + {Command(t.key, k)});
          assert ids + ([k] + Accepted(o, t.key, k + 1, n)) == (ids + [k]) + Accepted(o, t.key, k + 1, n);
          CommandsSnoc(t.key, ids, k);
          ids := ids + [k];
        }
      }
      AcceptedStep(o, t.key, n + 1, n);
      assert ids + [] == ids;
    }

    method Install(o: Oracle, objects: seq<Target>) returns (result: Rule)
      modifies this
      ensures result == InstallAll(o, objects)
      ensures meter == Installed(old(meter), result)
    {
      result := NO_RULE;
      for i := 0 to |objects|
        invariant InstallAll(o, objects) == Joined(result, InstallAll(o, objects[i..]))
        invariant meter == Installed(old(meter), result)
      {
        InstallStep(o, objects, i);
        var ids := InstallObject(o, objects[i]);
        if ids != [] {
          JoinedOne(result, objects[i], ids, InstallAll(o, objects[i + 1..]));
          result := Rule(result.objects + [objects[i]], result.commands + [Keys(objects[i].key, ids)]);
        }
      }
      JoinedNothing(result);
    }

    /**
     * remove: every recorded command is tried; refusals are skipped. The result has as many keys as
     * the rule, whatever was refused, so the caller's test on them never throws.
     */
    method Remove(o: Oracle, rule: Rule) returns (keys: seq<Keys>, issued: seq<Command>)
      modifies this
      ensures |keys| == |rule.commands|
      ensures issued == Removals(rule.commands)
      ensures meter == Removed(o, old(meter), rule)
    {
      hide Without, Removals, CommandsFrom, Removed;
      keys, issued := [], [];
      WithoutNone(o, meter);
      assert rule.commands[0..] == rule.commands && [] + Removals(rule.commands) == Removals(rule.commands);
      var ids: seq<nat> := [];
      for i := 0 to |rule.commands|
        invariant |keys| == i && issued + Removals(rule.commands[i..]) == Removals(rule.commands)
        invariant meter == Without(o, old(meter), issued)
      {
        var one := rule.commands[i];
        RemovalsStep(rule.commands, i);
        ghost var before := issued;
        CommandsOfIds(one.key, one.ids);
        for k := 0 to |one.ids|
          invariant issued == before + CommandsFrom(one.key, one.ids)[..k]
          invariant meter == Without(o, old(meter), issued)
        {
          var c := Command(one.key, one.ids[k]);
          WithoutOne(o, old(meter), issued, c);
          meter := if o.release(c) then meter.(installed := meter.installed - {c})
                   else meter.(refused := meter.refused + {c});
          issued := issued + [c];
          if o.release(c) {
            ids := ids + [one.ids[k]];   // the original never empties this vector
          }
        }
        assert before + (CommandsFrom(one.key, one.ids) + Removals(rule.commands[i + 1..]))
            == (before + CommandsFrom(one.key, one.ids)) + Removals(rule.commands[i + 1..]);
        keys := keys + [Keys(one.key, ids)];
      }
      NoRemovals(rule.commands[|rule.commands|..]);
      assert issued + [] == issued;
      WithoutIsRemoved(o, old(meter), rule);
    }
  }

  lemma NoRemovals(commands: seq<Keys>)
    requires commands == []
    ensures Removals(commands) == []
  {
  }

  lemma RemovalsStep(commands: seq<Keys>, i: nat)
    requires i < |commands|
    ensures Removals(commands[i..]) == CommandsFrom(commands[i].key, commands[i].ids) + Removals(commands[i + 1..])
  {
    assert commands[i..][0] == commands[i] && commands[i..][1..] == commands[i + 1..];
  }

  lemma WithoutNone(o: Oracle, m: Meter)
    ensures Without(o, m, []) == m
  {
  }

  lemma WithoutIsRemoved(o: Oracle, m: Meter, rule: Rule)
    ensures Without(o, m, Removals(rule.commands)) == Removed(o, m, rule)
  {
  }

  /** The meter after these removals. */
  function Without(o: Oracle, m: Meter, cs: seq<Command>): Meter {
    Meter(m.installed - (set c | c in cs && o.release(c)), m.refused + (set c | c in cs && !o.release(c)))
  }

  lemma WithoutOne(o: Oracle, m: Meter, cs: seq<Command>, c: Command)
    ensures var w := Without(o, m, cs);
            Without(o, m, cs + [c]) ==
              if o.release(c) then w.(installed := w.installed - {c}) else w.(refused := w.refused + {c})
  {
    assert forall d :: d in cs + [c] <==> d in cs || d == c;
  }

  lemma InstallStep(o: Oracle, objects: seq<Target>, i: nat)
    requires i < |objects|
    ensures var t, rest := objects[i], InstallAll(o, objects[i + 1..]);
            var ids := Accepted(o, t.key, 1, o.targets(t.obj));
            InstallAll(o, objects[i..]) ==
              if ids == [] then rest else Rule([t] + rest.objects, [Keys(t.key, ids)] + rest.commands)
  {
    assert objects[i..][0] == objects[i] && objects[i..][1..] == objects[i + 1..];
  }

  lemma JoinedNothing(r: Rule)
    ensures Joined(r, NO_RULE) == r
  {
    assert r.objects + [] == r.objects && r.commands + [] == r.commands;
  }

  function Joined(a: Rule, b: Rule): Rule {
    Rule(a.objects + b.objects, a.commands + b.commands)
  }

  lemma CommandsSnoc(key: RuleKey, ids: seq<nat>, k: nat)
    ensures CommandsFrom(key, ids + [k]) == CommandsFrom(key, ids) + [Command(key, k)]
  {
    CommandsOfIds(key, ids);
    CommandsOfIds(key, ids + [k]);
  }

  lemma {:induction false} RemovalsAppend(a: seq<Keys>, b: seq<Keys>)
    ensures Removals(a + b) == Removals(a) + Removals(b)
  {
    if a == [] {
      assert a + b == b;
    } else {
      assert (a + b)[0] == a[0] && (a + b)[1..] == a[1..] + b;
      RemovalsAppend(a[1..], b);
      assert CommandsFrom(a[0].key, a[0].ids) + (Removals(a[1..]) + Removals(b))
          == (CommandsFrom(a[0].key, a[0].ids) + Removals(a[1..])) + Removals(b);
    }
  }

  lemma JoinedOne(r: Rule, t: Target, ids: seq<nat>, rest: Rule)
    ensures Joined(Rule(r.objects + [t], r.commands + [Keys(t.key, ids)]), rest) ==
            Joined(r, Rule([t] + rest.objects, [Keys(t.key, ids)] + rest.commands))
    ensures Owned(Rule(r.objects + [t], r.commands + [Keys(t.key, ids)])) ==
            Owned(r) + (set c | c in CommandsFrom(t.key, ids))
  {
    assert (r.objects + [t]) + rest.objects == r.objects + ([t] + rest.objects);
    assert (r.commands + [Keys(t.key, ids)]) + rest.commands == r.commands + ([Keys(t.key, ids)] + rest.commands);
    RemovalsAppend(r.commands, [Keys(t.key, ids)]);
    assert Removals([Keys(t.key, ids)]) == CommandsFrom(t.key, ids) + [];
  }
}
