/** Importing the first output of a message: when it gives back the message, and what it gives back. */
module IpfixRoundTrip {
  import opened Bytes
  import opened IpfixField
  import opened IpfixLayout
  import opened IpfixReader
  import opened IpfixTemplateTrip
  import opened IpfixRecordTrip
  import opened IpfixDataTrip
  import opened IpfixRenumbering
  import opened IpfixRegroup

  /** What `new_template`, `add_field`, `include_data` and the 16-bit total length ask of a message. */
  ghost predicate WellFormed(dict: seq<FieldType>, m: Message) {
    && OwnIds(m.templates)
    && -0x8000_0000 <= m.sourceid < 0x8000_0000
    && (forall id :: id in m.templates ==> WritableTemplate(dict, m.templates[id]) && AllFit(m.templates[id], m.dataList))
    && (Body(WriteOrder(m.templates), m.dataList).Ok? ==>
          HDR_BYTES + |Body(WriteOrder(m.templates), m.dataList).value| < 65536)
  }

  // ----- the header -----

  lemma ReadHeader(total: int, now: int, nrecords: int, sourceid: int, rest: seq<Byte>)
    requires 0 <= total < 65536 && -0x8000_0000 <= sourceid < 0x8000_0000
    ensures var b := Header(total, now, nrecords, sourceid) + rest;
            && ReadU16(b) == IPFIX_VERSION && ReadU16(b[2..]) == total
            && ReadU32(b[4..]) == now % 0x1_0000_0000 && ReadU32(b[8..]) == nrecords % 0x1_0000_0000
            && ToInt32(ReadU32(b[12..])) == sourceid && b[HDR_BYTES..] == rest
  {
    var v, l, t, n, i := U16(IPFIX_VERSION), U16(total), U32(now), U32(nrecords), U32(sourceid);
    var b := Header(total, now, nrecords, sourceid) + rest;
    Assoc(v + l + t + n, i, rest);
    Assoc(v + l + t, n, i + rest);
    Assoc(v + l, t, n + (i + rest));
    Assoc(v, l, t + (n + (i + rest)));
    ReadTwoWords(IPFIX_VERSION, total, t + (n + (i + rest)));
    U32RoundTrip(now, n + (i + rest));
    DropTwice(b, 4, 4);
    U32RoundTrip(nrecords, i + rest);
    DropTwice(b, 8, 4);
    SignedRoundTrip(sourceid, rest);
    DropTwice(b, 12, 4);
  }

  // ----- data sets never change the templates -----

  lemma SkipOneDataSet(dict: seq<FieldType>, tid: int, body: seq<Byte>, rest: seq<Byte>, st: State)
    returns (st': State)
    requires 256 <= tid < 65536 && 0 < |body| < 65532
    ensures st'.templates == st.templates
    ensures var r := ReadSets(dict, DataSet(tid, body) + rest, st);
            r.Err? || r == ReadSets(dict, rest, st')
  {
    var s := DataSet(tid, body) + rest;
    Assoc(U16(tid), U16(4 + |body|), body);
    Assoc(U16(tid), U16(4 + |body|) + body, rest);
    Assoc(U16(4 + |body|), body, rest);
    ReadTwoWords(tid, 4 + |body|, body + rest);
    DropTwice(s, 4, |body|);
    assert (body + rest)[|body|..] == rest;
    var r := ReadSet(dict, tid, body + rest, |body|, st);
    st' := if r.Ok? then r.value else st;
  }

  lemma {:induction false} SkipDataSets(dict: seq<FieldType>, t: Template, recs: seq<Record>, rest: seq<Byte>, st: State)
    returns (st': State)
    requires 256 <= t.tid < 65536 && WritableTemplate(dict, t) && AllFit(t, recs)
    requires DataSets(t, recs).Ok? && |DataSets(t, recs).value| < 65536
    ensures st'.templates == st.templates
    ensures var r := ReadSets(dict, DataSets(t, recs).value + rest, st);
            r.Err? || r == ReadSets(dict, rest, st')
    decreases |recs|
  {
    if recs == [] {
      assert [] + rest == rest;
      st' := st;
    } else if recs[0].tid != t.tid {
      st' := SkipDataSets(dict, t, recs[1..], rest, st);
    } else {
      assert Fits(t, recs[0]);
      RecordIsNotEmpty(dict, t, recs[0]);
      var body, later := RecordBody(t.datafields, recs[0]).value, DataSets(t, recs[1..]).value;
      Assoc(DataSet(t.tid, body), later, rest);
      st' := SkipOneDataSet(dict, t.tid, body, later + rest, st);
      st' := SkipDataSets(dict, t, recs[1..], rest, st');
    }
  }

  lemma {:induction false} SkipAllDataSets(dict: seq<FieldType>, ts: seq<Template>, recs: seq<Record>,
                                           rest: seq<Byte>, st: State)
    requires forall i :: 0 <= i < |ts| ==>
               256 <= ts[i].tid < 65536 && WritableTemplate(dict, ts[i]) && AllFit(ts[i], recs)
    requires AllDataSets(ts, recs).Ok? && |AllDataSets(ts, recs).value| < 65536 && |rest| <= 4
    ensures var r := ReadSets(dict, AllDataSets(ts, recs).value + rest, st);
            r.Ok? ==> r.value.0.templates == st.templates
    decreases |ts|
  {
    if ts == [] {
      assert [] + rest == rest;
    } else {
      var first, later := DataSets(ts[0], recs).value, AllDataSets(ts[1..], recs).value;
      Assoc(first, later, rest);
      var st' := SkipDataSets(dict, ts[0], recs, later + rest, st);
      SkipAllDataSets(dict, ts[1..], recs, rest, st');
    }
  }

  // ----- the message -----

  lemma {:induction false} TemplatesAreFew(ts: seq<Template>)
    ensures 8 * |ts| <= |TemplateSets(ts)|
  {
    if ts != [] {
      TemplateSizeExact(ts[0]);
      TemplatesAreFew(ts[1..]);
    }
  }

  lemma ImportAfterHeader(dict: seq<FieldType>, total: int, now: int, nrecords: int, sourceid: int, sets: seq<Byte>)
    requires 0 <= total < 65536 && -0x8000_0000 <= sourceid < 0x8000_0000
    ensures var read := ReadSets(dict, sets, EMPTY);
            Import(dict, Header(total, now, nrecords, sourceid) + sets) ==
              if read.Err? then Err(read.error)
              else Ok(Imported(HDR_BYTES + |sets| - |read.value.1|, total, now % 0x1_0000_0000,
                               nrecords % 0x1_0000_0000, sourceid, read.value.0.templates, read.value.0.dataList))
  {
    ReadHeader(total, now, nrecords, sourceid, sets);
  }

  lemma OutputParts(dict: seq<FieldType>, m: Message, now: int) returns (heads: seq<Byte>, data: seq<Byte>)
    requires WellFormed(dict, m)
    ensures heads == TemplateSets(WireOrder(m.templates)) && 8 * |WriteOrder(m.templates)| <= |heads|
    ensures AllDataSets(WriteOrder(m.templates), m.dataList) == Ok(data)
    ensures HDR_BYTES + |heads + data| < 65536
    ensures Output(m, now) ==
            Ok(Header(HDR_BYTES + |heads + data|, now, |Regroup(WriteOrder(m.templates), m.dataList)|, m.sourceid)
               + (heads + data))
  {
    hide WriteOrder, Regroup, Header, AllDataSets, TemplateSets;
    var ts := WriteOrder(m.templates);
    WriteOrderLists(m.templates);
    AllDataSetsFit(ts, m.dataList);
    heads, data := TemplateSets(Reverse(ts)), AllDataSets(ts, m.dataList).value;
    ReverseAt(ts);
    TemplatesAreFew(Reverse(ts));
    assert Body(ts, m.dataList) == Ok(heads + data);
  }

  /** Import, once past the header and the template sets. */
  lemma ImportTemplates(dict: seq<FieldType>, wire: seq<Template>, data: seq<Byte>, pad: seq<Byte>,
                        now: int, n: int, sourceid: int)
    requires forall i :: 0 <= i < |wire| ==> WritableTemplate(dict, wire[i])
    requires HDR_BYTES + |TemplateSets(wire) + data| < 65536 && -0x8000_0000 <= sourceid < 0x8000_0000
    ensures var read := ReadSets(dict, data + pad, AddTemplates(EMPTY, wire));
            var total := HDR_BYTES + |TemplateSets(wire) + data|;
            Import(dict, Header(total, now, n, sourceid) + (TemplateSets(wire) + data) + pad) ==
              if read.Err? then Err(read.error)
              else Ok(Imported(total + |pad| - |read.value.1|, total, now % 0x1_0000_0000, n % 0x1_0000_0000,
                               sourceid, read.value.0.templates, read.value.0.dataList))
  {
    hide ReadSets, AddTemplates, Header, Import, SpecifiedTemplate;
    var heads := TemplateSets(wire);
    var total := HDR_BYTES + |heads + data|;
    Assoc(Header(total, now, n, sourceid), heads + data, pad);
    ImportAfterHeader(dict, total, now, n, sourceid, (heads + data) + pad);
    Assoc(heads, data, pad);
    ReadTemplateSets(dict, wire, data + pad, EMPTY);
  }

  /** Templates that import put under their own ids get all their records back. */
  lemma ReadRegrouped(dict: seq<FieldType>, ts: seq<Template>, recs: seq<Record>, pad: seq<Byte>, st: State)
    requires Lists(ts, st.templates) && OwnIds(st.templates) && st.dataList == [] && |pad| <= 4
    requires forall i :: 0 <= i < |ts| ==> WritableTemplate(dict, ts[i]) && AllFit(ts[i], recs)
    requires AllDataSets(ts, recs).Ok? && |AllDataSets(ts, recs).value| < 65536
    ensures ReadSets(dict, AllDataSets(ts, recs).value + pad, st)
         == Ok((State(st.templates, st.lastTid, Regroup(ts, recs)), pad))
  {
    ReadAllDataSets(dict, ts, recs, pad, st);
    assert [] + Regroup(ts, recs) == Regroup(ts, recs);
  }

  lemma OtherShapesLose(dict: seq<FieldType>, m: Message, data: seq<Byte>, pad: seq<Byte>)
    requires WellFormed(dict, m) && !SmallShape(m.templates) && |pad| <= 4 && |WriteOrder(m.templates)| <= 8192
    requires AllDataSets(WriteOrder(m.templates), m.dataList) == Ok(data) && |data| < 65536
    ensures var read := ReadSets(dict, data + pad, AddTemplates(EMPTY, WireOrder(m.templates)));
            read.Ok? ==> read.value.0.templates != m.templates
  {
    var ts, wire := WriteOrder(m.templates), WireOrder(m.templates);
    WriteOrderLists(m.templates);
    SkipAllDataSets(dict, ts, m.dataList, pad, AddTemplates(EMPTY, wire));
    ConsecutiveShape(m.templates);
    WireOrderLists(m.templates);
    if AddTemplates(EMPTY, wire).templates == m.templates {
      OnlyConsecutiveIdsSurvive(m.templates, wire);
    }
  }

  lemma SmallShapesKeep(dict: seq<FieldType>, m: Message, data: seq<Byte>, pad: seq<Byte>)
    requires WellFormed(dict, m) && SmallShape(m.templates) && |pad| <= 4 && |WriteOrder(m.templates)| <= 8192
    requires AllDataSets(WriteOrder(m.templates), m.dataList) == Ok(data) && |data| < 65536
    ensures var read := ReadSets(dict, data + pad, AddTemplates(EMPTY, WireOrder(m.templates)));
            && read.Ok? && read.value.1 == pad
            && read.value.0.templates == m.templates
            && read.value.0.dataList == Regroup(WriteOrder(m.templates), m.dataList)
  {
    hide ReadSets, AllDataSets, Regroup, SmallShape, WireOrder, WriteOrder;
    WriteOrderLists(m.templates);
    WireOrderLists(m.templates);
    ConsecutiveShape(m.templates);
    ConsecutiveIdsSurvive(m.templates, WireOrder(m.templates));
    ReadRegrouped(dict, WriteOrder(m.templates), m.dataList, pad, AddTemplates(EMPTY, WireOrder(m.templates)));
  }

  lemma WireIsWritable(dict: seq<FieldType>, m: Message)
    requires WellFormed(dict, m)
    ensures -0x8000_0000 <= m.sourceid < 0x8000_0000
    ensures var wire := WireOrder(m.templates); forall i :: 0 <= i < |wire| ==> WritableTemplate(dict, wire[i])
  {
    hide WireOrder, WriteOrder, WritableTemplate;
    WireOrderLists(m.templates);
  }

  /**
   * The round trip. Any first output, with up to four octets of padding behind it, imports to the
   * same templates exactly when their ids are consecutive on the wire. And then everything is
   * back: the header, the templates, and the records regrouped by template.
   */
  lemma RoundTrip(dict: seq<FieldType>, m: Message, now: int, pad: seq<Byte>)
    requires WellFormed(dict, m) && |pad| <= 4
    ensures Output(m, now).Ok?
    ensures var out := Output(m, now).value;
            var recs := Regroup(WriteOrder(m.templates), m.dataList);
            var r := Import(dict, out + pad);
            && (r.Ok? && r.value.templates == m.templates <==> SmallShape(m.templates))
            && (SmallShape(m.templates) ==> r == Ok(Imported(|out|, |out|, now % 0x1_0000_0000,
                  |recs| % 0x1_0000_0000, m.sourceid, m.templates, recs)))
  {
    hide Import, Output, ReadSets, AddTemplates, Header, WriteOrder, Regroup, AllDataSets, SmallShape;
    hide WellFormed, WireOrder, WritableTemplate, TemplateSets;
    var heads, data := OutputParts(dict, m, now);
    var n := |Regroup(WriteOrder(m.templates), m.dataList)|;
    WireIsWritable(dict, m);
    ImportTemplates(dict, WireOrder(m.templates), data, pad, now, n, m.sourceid);
    if SmallShape(m.templates) {
      SmallShapesKeep(dict, m, data, pad);
    } else {
      OtherShapesLose(dict, m, data, pad);
    }
  }

  /** A message that came back exports to the octets it came from. */
  lemma ExportIsCanonical(dict: seq<FieldType>, m: Message, now: int)
    requires WellFormed(dict, m) && SmallShape(m.templates)
    ensures Output(m, now).Ok?
    ensures var r := Import(dict, Output(m, now).value);
            r.Ok? && Output(Message(r.value.sourceid, r.value.templates, r.value.dataList), now) == Output(m, now)
  {
    RoundTrip(dict, m, now, []);
    assert Output(m, now).value + [] == Output(m, now).value;
    WriteOrderLists(m.templates);
    RegroupedBody(WriteOrder(m.templates), m.dataList);
  }

  // ----- a second output -----

  lemma {:induction false} FirstSetOf(dict: seq<FieldType>, t: Template, recs: seq<Record>)
    returns (body: seq<Byte>, rest: seq<Byte>)
    requires WritableTemplate(dict, t) && AllFit(t, recs) && DataSets(t, recs).Ok? && RecordsOf(t, recs) != []
    ensures body != [] && DataSets(t, recs).value == DataSet(t.tid, body) + rest
    decreases |recs|
  {
    hide WritableTemplate, Fits;
    assert recs != [];
    RecordsOfStep(t, recs);
    if recs[0].tid == t.tid {
      assert Fits(t, recs[0]);
      RecordIsNotEmpty(dict, t, recs[0]);
      WritableIsReadable(dict, t);
      body, rest := RecordOctets(t, recs[0]).value, DataSets(t, recs[1..]).value;
    } else {
      body, rest := FirstSetOf(dict, t, recs[1..]);
    }
  }

  lemma WritableIsReadable(dict: seq<FieldType>, t: Template)
    requires WritableTemplate(dict, t)
    ensures t.Readable() && t.Fields() == t.datafields
  {
  }

  lemma {:induction false} NoSets(t: Template, recs: seq<Record>)
    requires RecordsOf(t, recs) == []
    ensures DataSets(t, recs) == Ok([])
    decreases |recs|
  {
    if recs != [] {
      RecordsOfStep(t, recs);
      NoSets(t, recs[1..]);
    }
  }

  /** Either there is nothing to export, or the first octets are a data set. */
  lemma {:induction false} FirstSet(dict: seq<FieldType>, ts: seq<Template>, recs: seq<Record>)
    returns (k: nat, body: seq<Byte>, rest: seq<Byte>)
    requires AllDataSets(ts, recs).Ok? && forall i :: 0 <= i < |ts| ==> WritableTemplate(dict, ts[i]) && AllFit(ts[i], recs)
    ensures Regroup(ts, recs) == [] ==> AllDataSets(ts, recs).value == []
    ensures Regroup(ts, recs) != [] ==>
              k < |ts| && body != [] && AllDataSets(ts, recs).value == DataSet(ts[k].tid, body) + rest
    decreases |ts|
  {
    hide WritableTemplate, AllFit, DataSets, RecordsOf, DataSet;
    k, body, rest := 0, [], [];
    if ts != [] {
      var d, later := DataSets(ts[0], recs).value, AllDataSets(ts[1..], recs).value;
      if RecordsOf(ts[0], recs) != [] {
        k := 0;
        body, rest := FirstSetOf(dict, ts[0], recs);
        Assoc(DataSet(ts[0].tid, body), rest, later);
        rest := rest + later;
      } else {
        NoSets(ts[0], recs);
        assert d + later == later;
        k, body, rest := FirstSet(dict, ts[1..], recs);
        k := k + 1;
      }
    }
  }

  lemma UnknownSet(dict: seq<FieldType>, tid: int, body: seq<Byte>, rest: seq<Byte>)
    requires 256 <= tid < 65536 && 0 < |body| < 65532
    ensures ReadSets(dict, DataSet(tid, body) + rest, EMPTY) == Err(BadArgument)
  {
    var s := DataSet(tid, body) + rest;
    Assoc(U16(tid), U16(4 + |body|), body);
    Assoc(U16(tid), U16(4 + |body|) + body, rest);
    Assoc(U16(4 + |body|), body, rest);
    ReadTwoWords(tid, 4 + |body|, body + rest);
    assert ReadSet(dict, tid, s[4..], |body|, EMPTY) == Err(BadArgument);
  }

  /** Everything that is written is writable, and fits. */
  lemma OrderIsWritable(dict: seq<FieldType>, m: Message)
    requires WellFormed(dict, m)
    ensures var ts := WriteOrder(m.templates);
            forall i :: 0 <= i < |ts| ==>
              256 <= ts[i].tid < 65536 && ts[i].tid in m.templates && WritableTemplate(dict, ts[i]) && AllFit(ts[i], m.dataList)
  {
    hide WriteOrder, WritableTemplate, AllFit;
    WriteOrderLists(m.templates);
  }

  lemma BareOutput(dict: seq<FieldType>, m: Message, count: nat, now: int) returns (data: seq<Byte>)
    requires WellFormed(dict, m)
    ensures AllDataSets(WriteOrder(m.templates), m.dataList) == Ok(data) && HDR_BYTES + |data| < 65536
    ensures OutputAfter(m, m.templates.Keys, count, now) ==
            Ok(Header(HDR_BYTES + |data|, now, count + |Regroup(WriteOrder(m.templates), m.dataList)|, m.sourceid) + data)
  {
    hide WriteOrder, AllDataSets, WellFormed, WritableTemplate, AllFit, Regroup, Header;
    var heads;
    heads, data := OutputParts(dict, m, now);
    OrderIsWritable(dict, m);
    AllSent(m.templates.Keys, WriteOrder(m.templates));
    NoHeads(data);
  }

  lemma NoHeads(data: seq<Byte>)
    ensures TemplateSets(Reverse([])) + data == data
  {
  }

  /**
   * An output after all templates were sent has no template sets. Nobody can import it who does not
   * keep templates from message to message: it is refused exactly if it has a record.
   */
  lemma SecondOutputIsBare(dict: seq<FieldType>, m: Message, count: nat, now: int)
    requires WellFormed(dict, m)
    ensures OutputAfter(m, m.templates.Keys, count, now).Ok?
    ensures var r := Import(dict, OutputAfter(m, m.templates.Keys, count, now).value);
            if Regroup(WriteOrder(m.templates), m.dataList) != [] then r == Err(BadArgument)
            else r.Ok? && r.value.templates == map[]
  {
    hide ReadSets, Header, Import, AllDataSets, Regroup, WriteOrder, WritableTemplate, AllFit, OutputAfter, DataSet;
    var ts := WriteOrder(m.templates);
    var data := BareOutput(dict, m, count, now);
    OrderIsWritable(dict, m);
    var k, body, rest := FirstSet(dict, ts, m.dataList);
    ImportAfterHeader(dict, HDR_BYTES + |data|, now, count + |Regroup(ts, m.dataList)|, m.sourceid, data);
    if Regroup(ts, m.dataList) != [] {
      SetSize(ts[k].tid, body);
      UnknownSet(dict, ts[k].tid, body, rest);
    } else {
      NoMoreSets(dict, data);
    }
  }

  lemma SetSize(tid: int, body: seq<Byte>)
    ensures |DataSet(tid, body)| == 4 + |body|
  {
  }

  lemma NoMoreSets(dict: seq<FieldType>, s: seq<Byte>)
    requires s == []
    ensures ReadSets(dict, s, EMPTY) == Ok((EMPTY, s))
  {
  }
}
