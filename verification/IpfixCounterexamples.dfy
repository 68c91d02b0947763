/** Concrete messages for which the codec does not do what one would expect of it. */
module IpfixCounterexamples {
  import opened Bytes
  import opened IpfixField
  import opened IpfixLayout
  import opened IpfixReader
  import opened IpfixTemplateTrip
  import opened IpfixRecordTrip
  import opened IpfixRenumbering
  import opened IpfixProgress
  import opened IpfixSpace
  import opened IpfixRoundTrip

  /** sourceTransportPort */
  const PORT := FieldType(0, 7, 2, CUint)

  /** dataLinkFrameSection, as an element of variable length */
  const FRAME := FieldType(0, 315, VARLEN, CBytes)

  lemma {:induction false} CountIds(ts: seq<Template>)
    requires DistinctIds(ts)
    ensures |Ids(ts)| == |ts|
  {
    if ts != [] {
      var front, last := ts[..|ts| - 1], ts[|ts| - 1];
      CountIds(front);
      assert Ids(ts) == Ids(front) + {last.tid};
    }
  }

  lemma OrderSize(templates: map<int, Template>)
    requires OwnIds(templates)
    ensures |WriteOrder(templates)| == |templates.Keys|
  {
    hide WriteOrder;
    WriteOrderLists(templates);
    CountIds(WriteOrder(templates));
  }

  lemma OrderedAt(templates: map<int, Template>, i: nat)
    requires OwnIds(templates) && i < |WriteOrder(templates)|
    ensures WriteOrder(templates)[i].tid in templates && WriteOrder(templates)[i] == templates[WriteOrder(templates)[i].tid]
  {
    hide WriteOrder;
    WriteOrderLists(templates);
  }

  // ----- two data templates -----

  function PortTemplate(tid: int): Template {
    Template(tid, DataTemplate, 1, [TemplateField(2, true, PORT)], [])
  }

  /** What two calls of `new_data_template` and `add_field` build. */
  function TwoPorts(): Message {
    Message(0, map[256 := PortTemplate(256), 257 := PortTemplate(257)], [])
  }

  lemma {:induction false} PortSets(ts: seq<Template>)
    requires forall i :: 0 <= i < |ts| ==> ts[i] == PortTemplate(ts[i].tid)
    ensures |TemplateSets(ts)| == 12 * |ts|
  {
    if ts != [] {
      TemplateSizeExact(ts[0]);
      assert SpecSizes(ts[0].datafields[1..]) == 0;
      PortSets(ts[1..]);
    }
  }

  lemma {:induction false} NothingToWrite(ts: seq<Template>, recs: seq<Record>)
    requires recs == []
    ensures AllDataSets(ts, recs) == Ok([])
  {
    if ts != [] {
      NothingToWrite(ts[1..], recs);
      var none: seq<Byte> := [];
      assert DataSets(ts[0], recs) == Ok(none) && none + none == none;
    }
  }

  lemma TwoPortsOrder() returns (ts: seq<Template>)
    ensures ts == WriteOrder(TwoPorts().templates) && |ts| <= 2
    ensures forall i :: 0 <= i < |ts| ==> ts[i] == PortTemplate(ts[i].tid) && ts[i].Readable()
  {
    hide WriteOrder;
    var templates := TwoPorts().templates;
    ts := WriteOrder(templates);
    assert templates.Keys == {256, 257};
    OrderSize(templates);
    forall i | 0 <= i < |ts|
      ensures ts[i] == PortTemplate(ts[i].tid) && ts[i].Readable()
    {
      OrderedAt(templates, i);
    }
  }

  lemma TwoPortsSize()
    ensures Body(WriteOrder(TwoPorts().templates), []).Ok?
    ensures |Body(WriteOrder(TwoPorts().templates), []).value| <= 24
  {
    hide WriteOrder, AllDataSets, TemplateSets, PortTemplate;
    var ts := TwoPortsOrder();
    ReverseAt(ts);
    PortSets(Reverse(ts));
    NothingToWrite(ts, []);
  }

  lemma TwoPortsWellFormed()
    ensures WellFormed([PORT], TwoPorts())
  {
    hide WriteOrder, Body, WritableTemplate;
    TwoPortsSize();
    PortIsWritable(256);
    PortIsWritable(257);
  }

  lemma PortIsWritable(tid: int)
    requires 0 <= tid < 65536
    ensures WritableTemplate([PORT], PortTemplate(tid))
  {
    assert SpecSizes(PortTemplate(tid).datafields[1..]) == 0;
  }

  /** They are written in reverse and renumbered in that order: the second takes the place of the first. */
  lemma TwoTemplatesAreLost(now: int)
    ensures WellFormed([PORT], TwoPorts())
    ensures Output(TwoPorts(), now).Ok?
    ensures var r := Import([PORT], Output(TwoPorts(), now).value);
            !(r.Ok? && r.value.templates == TwoPorts().templates)
  {
    hide WellFormed, Output, Import;
    TwoPortsWellFormed();
    RoundTrip([PORT], TwoPorts(), now, []);
    assert Output(TwoPorts(), now).value + [] == Output(TwoPorts(), now).value;
    assert 257 in TwoPorts().templates.Keys && 256 in TwoPorts().templates.Keys;
  }

  // ----- a record loop without an end -----

  /** One field of length zero. */
  function HollowTemplate(): Template {
    Template(256, DataTemplate, 1, [TemplateField(0, true, PORT)], [])
  }

  lemma HollowIsHollow()
    ensures Hollow(HollowTemplate(), 0) && SpecifiedTemplate([PORT], HollowTemplate())
  {
    var t := HollowTemplate();
    assert t.GetField(0) == Ok(TemplateField(0, true, PORT));
    NothingDecodes(PORT);
    assert SpecSizes(t.datafields[1..]) == 0;
  }

  lemma NothingDecodes(ft: FieldType)
    requires ft.coding == CUint
    ensures Decode(ft, []) == Ok(Octets([]))
  {
  }

  /** A message of 33 octets: this template, and a data set of one octet. */
  function HollowOctets(now: int): seq<Byte> {
    Header(33, now, 1, 0) + (TemplateSet(HollowTemplate()) + DataSet(256, [0]))
  }

  lemma HollowDataSet(st: State)
    requires 256 in st.templates && Hollow(st.templates[256], 0)
    ensures ReadSets([PORT], DataSet(256, [0]), st) == Err(Endless)
  {
    hide ReadRecords, Hollow;
    var s := DataSet(256, [0]);
    Assoc(U16(256), U16(5), [0]);
    ReadTwoWords(256, 5, [0]);
    SetsStep([PORT], s, st);
    assert |s| == 5 && s[4..] == [0];
    EndlessIff(st.templates[256], s[4..], 1, st.dataList);
  }

  /** Import does not end on these octets. */
  lemma EmptyFieldNeverEnds(now: int)
    ensures |HollowOctets(now)| == 33 && Import([PORT], HollowOctets(now)) == Err(Endless)
  {
    hide ReadSets, Header, TemplateSet, DataSet, Hollow, Import, SpecifiedTemplate;
    var t := HollowTemplate();
    HollowIsHollow();
    HollowSizes();
    ImportAfterHeader([PORT], 33, now, 1, 0, TemplateSet(t) + DataSet(256, [0]));
    ReadOneTemplateSet([PORT], t, DataSet(256, [0]), EMPTY);
    assert AddTemplate(EMPTY, t).templates == map[256 := t];
    HollowDataSet(AddTemplate(EMPTY, t));
  }

  lemma HollowSizes()
    ensures |TemplateSet(HollowTemplate())| == 12 && |DataSet(256, [0])| == 5
  {
    TemplateSizeExact(HollowTemplate());
    assert SpecSizes(HollowTemplate().datafields[1..]) == 0;
  }

  // ----- one long record -----

  function FrameTemplate(): Template {
    Template(256, DataTemplate, 1, [TemplateField(VARLEN, true, FRAME)], [])
  }

  function FrameRecord(n: nat): Record {
    Record(256, map[Rank(0, 315) := Octets(seq(n, i => 0))])
  }

  function OneFrame(n: nat): Message {
    Message(0, map[256 := FrameTemplate()], [FrameRecord(n)])
  }

  lemma OneFrameOrder(n: nat)
    ensures WriteOrder(OneFrame(n).templates) == [FrameTemplate()]
  {
    hide WriteOrder;
    var templates := OneFrame(n).templates;
    assert templates.Keys == {256};
    OrderSize(templates);
    OrderedAt(templates, 0);
  }

  lemma OneFrameFits(n: nat)
    requires n < 60000
    ensures Fits(FrameTemplate(), FrameRecord(n)) && WritableTemplate([FRAME], FrameTemplate())
  {
    assert SpecSizes(FrameTemplate().datafields[1..]) == 0;
    assert RankSet(FrameTemplate().datafields[1..]) == {};
  }

  lemma OneFrameSets(n: nat)
    requires 254 < n < 60000
    ensures TemplateSize(FrameTemplate()) == 12 && FrameTemplate().Readable()
    ensures RecordOctets(FrameTemplate(), FrameRecord(n)).Ok?
    ensures |RecordOctets(FrameTemplate(), FrameRecord(n)).value| == 3 + n
  {
    var t, r := FrameTemplate(), FrameRecord(n);
    OneFrameFits(n);
    assert FitsField(t.datafields[0], r);
    FieldDataParts(t.datafields[0], r);
    assert RecordBody(t.datafields[1..], r) == Ok([]);
    assert SpecSizes(t.datafields[1..]) == 0;
  }

  lemma OneFrameData(n: nat)
    requires 254 < n < 60000
    ensures DataSets(FrameTemplate(), [FrameRecord(n)]).Ok?
    ensures |DataSets(FrameTemplate(), [FrameRecord(n)]).value| == 7 + n
    ensures AllDataSets([FrameTemplate()], [FrameRecord(n)]) == DataSets(FrameTemplate(), [FrameRecord(n)])
  {
    hide RecordOctets, FrameTemplate, FrameRecord;
    FrameIds(n);
    OneFrameSets(n);
    OneDataSet(FrameTemplate(), FrameRecord(n));
  }

  lemma FrameIds(n: nat)
    ensures FrameTemplate().tid == FrameRecord(n).tid == 256
  {
  }

  lemma {:induction false} OneDataSet(t: Template, r: Record)
    requires r.tid == t.tid && RecordOctets(t, r).Ok?
    ensures DataSets(t, [r]) == Ok(DataSet(t.tid, RecordOctets(t, r).value)) == AllDataSets([t], [r])
  {
    hide RecordOctets;
    var d := DataSet(t.tid, RecordOctets(t, r).value);
    assert DataSets(t, [r][1..]) == Ok([]) && AllDataSets([t][1..], [r]) == Ok([]);
    assert d + [] == d;
  }

  lemma OneFrameBody(n: nat)
    requires 254 < n < 60000
    ensures Body([FrameTemplate()], [FrameRecord(n)]).Ok?
    ensures |Body([FrameTemplate()], [FrameRecord(n)]).value| == 19 + n
  {
    hide DataSets, AllDataSets, FrameTemplate, FrameRecord, TemplateSize, TemplateSet;
    OneFrameSets(n);
    OneFrameData(n);
    OneHead(FrameTemplate());
  }

  lemma OneHead(t: Template)
    ensures Reverse([t]) == [t] && |TemplateSets([t])| == TemplateSize(t)
  {
    assert [t][1..] == [];
    FlatMapOne(TemplateSet, t);
    TemplateSizeExact(t);
  }

  lemma OneFrameWellFormed(n: nat)
    requires 254 < n < 60000
    ensures WellFormed([FRAME], OneFrame(n)) && SmallShape(OneFrame(n).templates)
    ensures Output(OneFrame(n), 0).Ok? && |Output(OneFrame(n), 0).value| == 35 + n
  {
    hide WriteOrder, AllDataSets, TemplateSets, Fits, WritableTemplate, Body, Regroup, Header, RecordBody;
    OneFrameOrder(n);
    OneFrameFits(n);
    OneFrameBody(n);
  }

  /**
   * What becomes of one record with a value of n octets: it is exported up to 1365 octets; with more,
   * the header runs over the end of the buffer, or is refused; with still more, the data set runs
   * over it, until that is refused too.
   */
  lemma OneFrameOutcome(n: nat)
    requires 254 < n < 60000
    ensures AllDataSets(WriteOrder(OneFrame(n).templates), OneFrame(n).dataList).Ok?
    ensures PlaceOutput(OneFrame(n), {}, BUFLEN) ==
            if n <= 1365 then Ok(35 + n)
            else if n <= 1373 then Err(Overrun)
            else if n <= 1381 then Err(NoRoom)
            else if n <= 2769 then Err(Overrun)
            else Err(NoRoom)
  {
    hide WriteOrder, FrameTemplate, FrameRecord, RecordOctets, TemplateSize, AllDataSets, DataSets;
    OneFrameOrder(n);
    OneFrameSets(n);
    OneFrameData(n);
    FrameIds(n);
    OneSetIsPlaced(FrameTemplate(), FrameRecord(n));
  }

  lemma {:induction false} OneSetIsPlaced(t: Template, r: Record)
    requires r.tid == t.tid && RecordOctets(t, r).Ok? && DataSets(t, [r]).Ok? && AllDataSets([t], [r]).Ok?
    ensures var tsize, size := TemplateSize(t), |RecordOctets(t, r).value|;
            var head := Place(0, tsize, tsize, BUFLEN);
            PlaceSets({}, [t], [r], 0, BUFLEN) ==
              if head.Err? then head else Place(head.value, 4 + size, 4 + size, BUFLEN)
  {
    hide Place, RecordOctets, TemplateSize, PlaceRecords;
    var ts, recs, tsize := [t], [r], TemplateSize(t);
    assert ts[1..] == [] && t.tid !in {};
    var head := Place(0, tsize, tsize, BUFLEN);
    if head.Ok? {
      OneRecordIsPlaced(t, recs, head.value);
    }
  }

  lemma {:induction false} OneRecordIsPlaced(t: Template, recs: seq<Record>, offset: nat)
    requires |recs| == 1 && recs[0].tid == t.tid && DataSets(t, recs).Ok?
    ensures var size := |RecordOctets(t, recs[0]).value|;
            PlaceRecords(t, recs, 4, offset, BUFLEN) == Place(offset, 4 + size, 4 + size, BUFLEN)
  {
    hide Place, RecordOctets;
    assert recs[1..] == [];
  }

  // ----- two records -----

  function TwoFrames(n: nat): Message {
    OneFrame(n).(dataList := [FrameRecord(n), FrameRecord(n)])
  }

  lemma {:induction false} TwoDataSets(t: Template, r: Record)
    requires r.tid == t.tid && RecordOctets(t, r).Ok?
    ensures DataSets(t, [r, r]).Ok? && AllDataSets([t], [r, r]).Ok?
  {
    hide RecordOctets;
    OneDataSet(t, r);
    assert [r, r][1..] == [r] && [t][1..] == [];
  }

  lemma {:induction false} TwoSetsArePlaced(t: Template, r: Record, offset: nat)
    requires r.tid == t.tid && RecordOctets(t, r).Ok? && DataSets(t, [r, r]).Ok?
    ensures var size := |RecordOctets(t, r).value|;
            var first := Place(offset, 4 + size, 4 + size, BUFLEN);
            PlaceRecords(t, [r, r], 4, offset, BUFLEN) ==
              if first.Err? then first else Place(first.value, 4 + 2 * size, 4 + size, BUFLEN)
  {
    hide Place, RecordOctets;
    var recs, last, size := [r, r], [r], |RecordOctets(t, r).value|;
    assert recs[0] == r && recs[1..] == last && last[0] == r && last[1..] == [];
    assert DataSets(t, last).Ok?;
    var first := Place(offset, 4 + size, 4 + size, BUFLEN);
    if first.Ok? {
      assert PlaceRecords(t, [], 4 + size + size, 0, BUFLEN) == Ok(0);
      assert PlaceRecords(t, last, 4 + size, first.value, BUFLEN) == Place(first.value, 4 + size + size, 4 + size, BUFLEN);
    }
  }

  lemma {:induction false} FramesArePlaced(t: Template, r: Record)
    requires r.tid == t.tid && RecordOctets(t, r).Ok? && AllDataSets([t], [r, r]).Ok? && TemplateSize(t) <= BUFLEN
    ensures PlaceSets({}, [t], [r, r], 0, BUFLEN) == PlaceRecords(t, [r, r], 4, TemplateSize(t), BUFLEN)
  {
    hide RecordOctets, TemplateSize, PlaceRecords;
    assert [t][1..] == [] && t.tid !in {};
  }

  /**
   * What is asked for accumulates over the records of a set, so two records need more room than they
   * take: they are exported up to 679 octets each. With more, it is again the header that runs over
   * the end or is refused, and then the second record.
   */
  lemma TwoFramesOutcome(n: nat)
    requires 254 < n < 60000
    ensures AllDataSets(WriteOrder(TwoFrames(n).templates), TwoFrames(n).dataList).Ok?
    ensures PlaceOutput(TwoFrames(n), {}, BUFLEN) ==
            if n <= 679 then Ok(42 + 2 * n)
            else if n <= 683 then Err(Overrun)
            else if n <= 687 then Err(NoRoom)
            else if n <= 688 then Err(Overrun)
            else if n <= 1381 then Err(NoRoom)
            else if n <= 2769 then Err(Overrun)
            else Err(NoRoom)
  {
    hide WriteOrder, FrameTemplate, FrameRecord, RecordOctets, TemplateSize, AllDataSets, DataSets, PlaceSets, PlaceRecords;
    OneFrameOrder(n);
    OneFrameSets(n);
    FrameIds(n);
    TwoDataSets(FrameTemplate(), FrameRecord(n));
    FramesArePlaced(FrameTemplate(), FrameRecord(n));
    TwoSetsArePlaced(FrameTemplate(), FrameRecord(n), 12);
  }

  /** Octets of another exporter that import would read, but that do not fit into the message's buffer. */
  lemma LongMessageOverruns()
    ensures Output(OneFrame(1366), 0).Ok? && Import([FRAME], Output(OneFrame(1366), 0).value).Ok?
    ensures ImportInto([FRAME], Output(OneFrame(1366), 0).value, BUFLEN) == Err(Overrun)
  {
    hide WellFormed, Output, Import, SmallShape, OneFrame, WriteOrder, Regroup;
    OneFrameWellFormed(1366);
    var out := Output(OneFrame(1366), 0).value;
    RoundTrip([FRAME], OneFrame(1366), 0, []);
    assert out + [] == out;
  }
}
