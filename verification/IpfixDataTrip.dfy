/** Exported data sets are imported again, record after record, template after template. */
module IpfixDataTrip {
  import opened Bytes
  import opened IpfixField
  import opened IpfixLayout
  import opened IpfixReader
  import opened IpfixTemplateTrip
  import opened IpfixRecordTrip

  ghost predicate AllFit(t: Template, recs: seq<Record>) {
    forall i :: 0 <= i < |recs| && recs[i].tid == t.tid ==> Fits(t, recs[i])
  }

  /** A template that importing has put under its own id. */
  ghost predicate Known(dict: seq<FieldType>, t: Template, st: State) {
    256 <= t.tid < 65536 && WritableTemplate(dict, t) && t.tid in st.templates && st.templates[t.tid] == t
  }

  function WithRecords(st: State, recs: seq<Record>): State {
    st.(dataList := st.dataList + recs)
  }

  /** No field is empty on the wire, so no record is: the loop over records always advances. */
  lemma RecordIsNotEmpty(dict: seq<FieldType>, t: Template, r: Record)
    requires WritableTemplate(dict, t) && Fits(t, r)
    ensures RecordBody(t.datafields, r).Ok? && |RecordBody(t.datafields, r).value| > 0
  {
    ReadRecord(t, r, []);
    assert t.datafields[0].flength > 0 && FitsField(t.datafields[0], r);
    FieldDataParts(t.datafields[0], r);
  }

  lemma ReadOneRecord(dict: seq<FieldType>, t: Template, r: Record, rest: seq<Byte>, acc: seq<Record>)
    requires WritableTemplate(dict, t) && Fits(t, r) && RecordBody(t.datafields, r).Ok?
    ensures var body := RecordBody(t.datafields, r).value;
            ReadRecords(t, body + rest, |body|, acc) == Ok(acc + [r])
  {
    RecordIsNotEmpty(dict, t, r);
    ReadRecord(t, r, rest);
    assert ReadRecords(t, rest, 0, acc + [r]) == Ok(acc + [r]);
  }

  lemma ReadOneDataSet(dict: seq<FieldType>, t: Template, r: Record, rest: seq<Byte>, st: State)
    requires Known(dict, t, st) && Fits(t, r)
    requires RecordBody(t.datafields, r).Ok? && |RecordBody(t.datafields, r).value| < 65532
    ensures ReadSets(dict, DataSet(t.tid, RecordBody(t.datafields, r).value) + rest, st)
         == ReadSets(dict, rest, WithRecords(st, [r]))
  {
    var body := RecordBody(t.datafields, r).value;
    var s := DataSet(t.tid, body) + rest;
    Assoc(U16(t.tid), U16(4 + |body|), body);
    Assoc(U16(t.tid), U16(4 + |body|) + body, rest);
    Assoc(U16(4 + |body|), body, rest);
    ReadTwoWords(t.tid, 4 + |body|, body + rest);
    DropTwice(s, 4, |body|);
    assert (body + rest)[|body|..] == rest;
    RecordIsNotEmpty(dict, t, r);
    ReadOneRecord(dict, t, r, rest, st.dataList);
    assert ReadSet(dict, t.tid, body + rest, |body|, st) == Ok(WithRecords(st, [r]));
  }

  lemma RecordsOfStep(t: Template, recs: seq<Record>)
    requires recs != []
    ensures RecordsOf(t, recs) == (if recs[0].tid == t.tid then [recs[0]] else []) + RecordsOf(t, recs[1..])
  {
  }

  lemma {:induction false} ReadDataSets(dict: seq<FieldType>, t: Template, recs: seq<Record>, rest: seq<Byte>, st: State)
    requires Known(dict, t, st) && AllFit(t, recs)
    requires DataSets(t, recs).Ok? && |DataSets(t, recs).value| < 65536
    ensures ReadSets(dict, DataSets(t, recs).value + rest, st)
         == ReadSets(dict, rest, WithRecords(st, RecordsOf(t, recs)))
    decreases |recs|
  {
    if recs == [] {
      assert [] + rest == rest;
      assert st.dataList + [] == st.dataList;
    } else {
      RecordsOfStep(t, recs);
      if recs[0].tid != t.tid {
        assert [] + RecordsOf(t, recs[1..]) == RecordsOf(t, recs[1..]);
        ReadDataSets(dict, t, recs[1..], rest, st);
      } else {
        assert Fits(t, recs[0]);
        var first := DataSet(t.tid, RecordBody(t.datafields, recs[0]).value);
        var later := DataSets(t, recs[1..]).value;
        Assoc(first, later, rest);
        ReadOneDataSet(dict, t, recs[0], later + rest, st);
        ReadDataSets(dict, t, recs[1..], rest, WithRecords(st, [recs[0]]));
        Assoc(st.dataList, [recs[0]], RecordsOf(t, recs[1..]));
      }
    }
  }

  lemma {:induction false} ReadAllDataSets(dict: seq<FieldType>, ts: seq<Template>, recs: seq<Record>,
                                           rest: seq<Byte>, st: State)
    requires forall i :: 0 <= i < |ts| ==> Known(dict, ts[i], st) && AllFit(ts[i], recs)
    requires AllDataSets(ts, recs).Ok? && |AllDataSets(ts, recs).value| < 65536
    ensures ReadSets(dict, AllDataSets(ts, recs).value + rest, st)
         == ReadSets(dict, rest, WithRecords(st, Regroup(ts, recs)))
    decreases |ts|
  {
    if ts == [] {
      assert [] + rest == rest;
      assert st.dataList + [] == st.dataList;
    } else {
      var first, later := DataSets(ts[0], recs).value, AllDataSets(ts[1..], recs).value;
      Assoc(first, later, rest);
      ReadDataSets(dict, ts[0], recs, later + rest, st);
      ReadAllDataSets(dict, ts[1..], recs, rest, WithRecords(st, RecordsOf(ts[0], recs)));
      Assoc(st.dataList, RecordsOf(ts[0], recs), Regroup(ts[1..], recs));
    }
  }

  lemma {:induction false} DataSetsFit(t: Template, recs: seq<Record>)
    requires t.scopefields == [] && AllFit(t, recs)
    ensures DataSets(t, recs).Ok?
    decreases |recs|
  {
    if recs != [] {
      DataSetsFit(t, recs[1..]);
      if recs[0].tid == t.tid {
        assert Fits(t, recs[0]);
        ReadRecord(t, recs[0], []);
      }
    }
  }

  /** A message whose records fit their templates can be exported: `output` does not throw. */
  lemma {:induction false} AllDataSetsFit(ts: seq<Template>, recs: seq<Record>)
    requires forall i :: 0 <= i < |ts| ==> ts[i].scopefields == [] && AllFit(ts[i], recs)
    ensures AllDataSets(ts, recs).Ok?
    decreases |ts|
  {
    if ts != [] {
      DataSetsFit(ts[0], recs);
      AllDataSetsFit(ts[1..], recs);
    }
  }
}
