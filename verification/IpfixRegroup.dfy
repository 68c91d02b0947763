/** What regrouping the records by template keeps: every exported record, and the order within a template. */
module IpfixRegroup {
  import opened Bytes
  import opened IpfixField
  import opened IpfixLayout
  import opened IpfixRenumbering

  /** The records that have one of these templates. */
  function Exported(ts: seq<Template>, recs: seq<Record>): seq<Record> {
    if recs == [] then []
    else (if recs[0].tid in Ids(ts) then [recs[0]] else []) + Exported(ts, recs[1..])
  }

  lemma FirstIds(ts: seq<Template>)
    requires ts != []
    ensures Ids(ts) == {ts[0].tid} + Ids(ts[1..])
    ensures DistinctIds(ts) ==> ts[0].tid !in Ids(ts[1..])
  {
    forall id | id in Ids(ts)
      ensures id in {ts[0].tid} + Ids(ts[1..])
    {
      var j :| 0 <= j < |ts| && ts[j].tid == id;
      assert j > 0 ==> ts[1..][j - 1] == ts[j];
    }
    forall id | id in Ids(ts[1..])
      ensures id in Ids(ts)
    {
      var j :| 0 <= j < |ts[1..]| && ts[1..][j].tid == id;
      assert ts[j + 1].tid == id;
    }
  }

  lemma {:induction false} ExportedSplits(ts: seq<Template>, recs: seq<Record>)
    requires ts != [] && DistinctIds(ts)
    ensures multiset(Exported(ts, recs)) == multiset(RecordsOf(ts[0], recs)) + multiset(Exported(ts[1..], recs))
    decreases |recs|
  {
    if recs != [] {
      FirstIds(ts);
      ExportedSplits(ts, recs[1..]);
    }
  }

  /** Regrouping loses no exported record and invents none. */
  lemma {:induction false} RegroupKeepsRecords(ts: seq<Template>, recs: seq<Record>)
    requires DistinctIds(ts)
    ensures multiset(Regroup(ts, recs)) == multiset(Exported(ts, recs))
    decreases |ts|
  {
    if ts == [] {
      NothingExported(recs);
    } else {
      ExportedSplits(ts, recs);
      RegroupKeepsRecords(ts[1..], recs);
    }
  }

  lemma {:induction false} NothingExported(recs: seq<Record>)
    ensures Exported([], recs) == []
    decreases |recs|
  {
    if recs != [] {
      NothingExported(recs[1..]);
    }
  }

  lemma RecordsOfAppend(t: Template, a: seq<Record>, b: seq<Record>)
    ensures RecordsOf(t, a + b) == RecordsOf(t, a) + RecordsOf(t, b)
  {
    FlatMapAppend((r: Record) => if r.tid == t.tid then [r] else [], a, b);
  }

  lemma {:induction false} RecordsOfRecordsOf(t: Template, u: Template, recs: seq<Record>)
    ensures RecordsOf(t, RecordsOf(u, recs)) == if t.tid == u.tid then RecordsOf(u, recs) else []
    decreases |recs|
  {
    if recs != [] {
      RecordsOfRecordsOf(t, u, recs[1..]);
      RecordsOfAppend(t, if recs[0].tid == u.tid then [recs[0]] else [], RecordsOf(u, recs[1..]));
    }
  }

  lemma {:induction false} OthersHaveNone(t: Template, ts: seq<Template>, recs: seq<Record>)
    requires t.tid !in Ids(ts)
    ensures RecordsOf(t, Regroup(ts, recs)) == []
    decreases |ts|
  {
    if ts != [] {
      FirstIds(ts);
      RecordsOfAppend(t, RecordsOf(ts[0], recs), Regroup(ts[1..], recs));
      RecordsOfRecordsOf(t, ts[0], recs);
      OthersHaveNone(t, ts[1..], recs);
    }
  }

  /** Regrouping is stable: each template's records keep their order. */
  lemma {:induction false} RegroupIsStable(ts: seq<Template>, recs: seq<Record>, i: nat)
    requires DistinctIds(ts) && i < |ts|
    ensures RecordsOf(ts[i], Regroup(ts, recs)) == RecordsOf(ts[i], recs)
    decreases |ts|
  {
    FirstIds(ts);
    RecordsOfAppend(ts[i], RecordsOf(ts[0], recs), Regroup(ts[1..], recs));
    RecordsOfRecordsOf(ts[i], ts[0], recs);
    if i == 0 {
      OthersHaveNone(ts[0], ts[1..], recs);
    } else {
      assert ts[i] == ts[1..][i - 1];
      RegroupIsStable(ts[1..], recs, i - 1);
    }
  }

  lemma {:induction false} DataSetsOfRecordsOf(t: Template, recs: seq<Record>)
    ensures DataSets(t, RecordsOf(t, recs)) == DataSets(t, recs)
    decreases |recs|
  {
    if recs != [] {
      DataSetsOfRecordsOf(t, recs[1..]);
      if recs[0].tid == t.tid {
        assert RecordsOf(t, recs)[1..] == RecordsOf(t, recs[1..]);
      } else {
        assert RecordsOf(t, recs) == RecordsOf(t, recs[1..]);
      }
    }
  }

  lemma {:induction false} RegroupedDataSets(ts: seq<Template>, us: seq<Template>, i: nat, recs: seq<Record>)
    requires DistinctIds(ts) && i <= |ts| && us == ts[i..]
    ensures AllDataSets(us, Regroup(ts, recs)) == AllDataSets(us, recs)
    ensures Regroup(us, Regroup(ts, recs)) == Regroup(us, recs)
    decreases |us|
  {
    if us != [] {
      RegroupIsStable(ts, recs, i);
      DataSetsOfRecordsOf(ts[i], recs);
      DataSetsOfRecordsOf(ts[i], Regroup(ts, recs));
      RegroupedDataSets(ts, us[1..], i + 1, recs);
    }
  }

  /** So the regrouped message has the very same octets: exporting what was imported changes nothing. */
  lemma RegroupedBody(ts: seq<Template>, recs: seq<Record>)
    requires DistinctIds(ts)
    ensures Body(ts, Regroup(ts, recs)) == Body(ts, recs)
    ensures Regroup(ts, Regroup(ts, recs)) == Regroup(ts, recs)
  {
    RegroupedDataSets(ts, ts, 0, recs);
  }
}
