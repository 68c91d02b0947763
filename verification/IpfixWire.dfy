/** The wire format of IPFIX in literal octets: section 3 of RFC 7011, with no constant of the codec. */
module IpfixWire {
  import opened Bytes
  import opened IpfixField
  import opened IpfixLayout
  import opened IpfixCounterexamples

  /** A 16-bit word, most significant octet first. */
  function Word(n: int): seq<Byte> {
    [(n / 256) % 256, n % 256]
  }

  /** A 32-bit word. */
  function Long(n: int): seq<Byte> {
    [(n / 0x100_0000) % 256, (n / 65536) % 256, (n / 256) % 256, n % 256]
  }

  lemma WordIs(n: int)
    ensures U16(n) == Word(n)
  {
  }

  lemma LongIs(n: int)
    ensures U32(n) == Long(n)
  {
    assert n / 65536 / 256 == n / 0x100_0000;
  }

  // ----- the parts -----

  /** A field specifier; that of a vendor starts with a set bit, and ends with the number of the vendor. */
  lemma FieldSpecOctets(tf: TemplateField)
    requires 0 <= tf.elem.ftype < 32768
    ensures var s, e := FieldSpec(tf), tf.elem;
            if e.eno == 0 then s == Word(e.ftype) + Word(tf.flength) && s[0] < 128
            else s == Word(32768 + e.ftype) + Word(tf.flength) + Long(e.eno) && s[0] >= 128
  {
    hide U16, U32, Word, Long;
    var f := tf.elem.ftype;
    WordIs(f);
    WordIs(tf.flength);
    WordIs(32768 + f);
    LongIs(tf.elem.eno);
    FirstBit(f);
    assert f % 32768 == f;
  }

  lemma FirstBit(f: int)
    requires 0 <= f < 32768
    ensures |Word(f)| == |Word(32768 + f)| == 2 && Word(f)[0] < 128 && Word(32768 + f)[0] >= 128
  {
    assert (32768 + f) / 256 == 128 + f / 256;
  }

  /** A template set: id 2, or 3 with options; its length in octets; the template's id, and how many fields it has. */
  lemma TemplateSetOctets(t: Template)
    requires t.Readable()
    ensures var s, n := TemplateSet(t), |t.datafields| + |t.scopefields|;
            var specs := FieldSpecs(t.scopefields + t.datafields);
            if t.kind == OptionTemplate then s == [0, 3] + Word(|s|) + Word(t.tid) + Word(n) + Word(|t.scopefields|) + specs
            else s == [0, 2] + Word(|s|) + Word(t.tid) + Word(n) + specs
  {
    TemplateSizeExact(t);
    assert t.scopefields + t.datafields == t.Fields();
    WordIs(TemplateSize(t));
    WordIs(t.tid);
    WordIs(|t.Fields()|);
    WordIs(|t.scopefields|);
  }

  /** A data set: the template's id, its length with this header, and the values. */
  lemma DataSetOctets(tid: int, body: seq<Byte>)
    ensures DataSet(tid, body) == Word(tid) + Word(|body| + 4) + body
  {
    WordIs(tid);
    WordIs(|body| + 4);
  }

  /** The header: version 10, the length of everything, the time, a count, and the domain. */
  lemma OutputOctets(m: Message, sent: set<int>, count: nat, now: int)
    requires OutputAfter(m, sent, count, now).Ok?
    ensures var s := OutputAfter(m, sent, count, now).value;
            var records := count + |Regroup(WriteOrder(m.templates), m.dataList)|;
            |s| >= 16 && s[..16] == [0, 10] + Word(|s|) + Long(now) + Long(records) + Long(m.sourceid)
  {
    hide Assemble, WriteOrder, Regroup, Unsent, U16, U32;
    var s, ts := OutputAfter(m, sent, count, now).value, WriteOrder(m.templates);
    WordIs(10);
    WordIs(|s|);
    LongIs(now);
    LongIs(count + |Regroup(ts, m.dataList)|);
    LongIs(m.sourceid);
    assert Word(10) == [0, 10];
  }

  /**
   * A value in a record: present, shorter than 65536 octets, and no longer than the length in the
   * template, unless that is 65535. It is written as it is, never filled up; for 65535 its length
   * comes first, in one octet, or after the octet 255 in two.
   */
  lemma ValueOctets(tf: TemplateField, r: Record)
    requires r.Get(tf.elem.eno, tf.elem.ftype).Ok?
    ensures var v := r.Get(tf.elem.eno, tf.elem.ftype).value;
            var s := FieldData(tf, r);
            && (s.Ok? <==>
                  && v.Length() < 65536
                  && (tf.flength == 65535 || v.Length() <= tf.flength)
                  && (v.Octets? || tf.elem.coding in {CInt, CUint, CNtp, CFloat}))
            && (s.Ok? ==>
                  s.value == (if tf.flength != 65535 then []
                              else if v.Length() < 255 then [v.Length()]
                              else [255] + Word(v.Length())) + Encode(tf.elem, v))
  {
    var v := r.Get(tf.elem.eno, tf.elem.ftype).value;
    WordIs(v.Length());
    assert v.Number? && NumberLengths(tf.elem.coding) == {} <==> v.Number? && tf.elem.coding !in {CInt, CUint, CNtp, CFloat} by {
      assert 4 in {1, 2, 4, 8} && 4 in {4, 8};
    }
  }

  lemma NoValue(tf: TemplateField, r: Record)
    requires r.Get(tf.elem.eno, tf.elem.ftype).Err?
    ensures FieldData(tf, r) == Err(BadArgument)
  {
  }

  /** Numbers go out least significant octet first; octets as they are; what an element cannot be, as 255s. */
  lemma EncodedOctets(ft: FieldType, v: Value)
    requires v.Octets? || ft.coding in {CInt, CUint, CNtp, CFloat}
    ensures v.Octets? && ft.coding in {CBytes, CIpAddr, CString, COther} ==> Encode(ft, v) == v.bytes
    ensures v.Number? && ft.coding in {CInt, CUint, CNtp} && v.len == 1 ==> Encode(ft, v) == [v.n % 256]
    ensures v.Number? && ft.coding in {CInt, CUint, CNtp} && v.len == 2 ==> Encode(ft, v) == [v.n % 256, (v.n / 256) % 256]
    ensures v.Number? && ft.coding in {CInt, CUint, CNtp, CFloat} && v.len == 4 ==>
              Encode(ft, v) == [v.n % 256, (v.n / 256) % 256, (v.n / 65536) % 256, (v.n / 0x100_0000) % 256]
    ensures v.Number? && (v.len !in {1, 2, 4, 8} || (ft.coding == CFloat && v.len !in {4, 8})) ==>
              Encode(ft, v) == seq(v.len, i => 255)
  {
    hide HostBytes;
    if v.Number? {
      HostFour(v.n);
      HostStep(v.n, 0);
      HostStep(v.n / 256, 0);
      assert v.n / 65536 / 256 == v.n / 0x100_0000;
    }
  }

  // ----- one whole message -----

  /** An element of vendor 9999, of variable length */
  const LABEL := FieldType(9999, 5, 65535, CBytes)

  function MixedFields(): seq<TemplateField> {
    [TemplateField(2, true, PORT), TemplateField(65535, true, LABEL)]
  }

  function MixedTemplate(): Template {
    Template(256, DataTemplate, 2, MixedFields(), [])
  }

  function MixedRecord(): Record {
    Record(256, map[7 := Number(2, 80), 9999005 := Octets([1, 2, 3])])
  }

  /** Domain 7, a template with a standard and a vendor field, and one record. */
  function Mixed(): Message {
    Message(7, map[256 := MixedTemplate()], [MixedRecord()])
  }

  lemma MixedOrder()
    ensures WriteOrder(Mixed().templates) == [MixedTemplate()]
  {
    hide WriteOrder;
    assert Mixed().templates.Keys == {256};
    OrderSize(Mixed().templates);
    OrderedAt(Mixed().templates, 0);
  }

  lemma MixedSpecs()
    ensures FieldSpecs(MixedFields()) == [0, 7, 0, 2, 128, 5, 255, 255, 0, 0, 39, 15]
  {
    var tfs := MixedFields();
    FieldSpecOctets(tfs[0]);
    FieldSpecOctets(tfs[1]);
    assert FieldSpec(tfs[0]) == [0, 7, 0, 2] && FieldSpec(tfs[1]) == [128, 5, 255, 255, 0, 0, 39, 15];
    hide FieldSpec;
    FlatMapAppend(FieldSpec, [tfs[0]], [tfs[1]]);
    FlatMapOne(FieldSpec, tfs[0]);
    FlatMapOne(FieldSpec, tfs[1]);
    assert tfs == [tfs[0]] + [tfs[1]];
  }

  lemma MixedTemplateSet()
    ensures TemplateSet(MixedTemplate()) == [0, 2, 0, 20, 1, 0, 0, 2, 0, 7, 0, 2, 128, 5, 255, 255, 0, 0, 39, 15]
  {
    hide TemplateSet, FieldSpecs;
    MixedSpecs();
    TemplateSetOctets(MixedTemplate());
    assert MixedTemplate().scopefields + MixedTemplate().datafields == MixedFields();
  }

  lemma MixedValues()
    ensures FieldData(MixedFields()[0], MixedRecord()) == Ok([80, 0])
    ensures FieldData(MixedFields()[1], MixedRecord()) == Ok([3, 1, 2, 3])
  {
    var tfs, r := MixedFields(), MixedRecord();
    assert Rank(0, 7) == 7 && Rank(9999, 5) == 9999005;
    assert r.Get(0, 7) == Ok(Number(2, 80)) && r.Get(9999, 5) == Ok(Octets([1, 2, 3]));
    hide FieldData, Encode;
    ValueOctets(tfs[0], r);
    EncodedOctets(PORT, Number(2, 80));
    assert [] + [80, 0] == [80, 0];
    ValueOctets(tfs[1], r);
    EncodedOctets(LABEL, Octets([1, 2, 3]));
    assert [3] + [1, 2, 3] == [3, 1, 2, 3];
  }

  lemma TwoValues(tfs: seq<TemplateField>, r: Record, a: seq<Byte>, b: seq<Byte>)
    requires |tfs| == 2 && FieldData(tfs[0], r) == Ok(a) && FieldData(tfs[1], r) == Ok(b)
    ensures RecordBody(tfs, r) == Ok(a + b)
  {
    hide FieldData;
    assert tfs[1..][0] == tfs[1] && tfs[1..][1..] == [];
    assert RecordBody(tfs[1..], r) == Ok(b + []);
    assert b + [] == b;
  }

  lemma MixedDataSet()
    ensures RecordOctets(MixedTemplate(), MixedRecord()) == Ok([80, 0, 3, 1, 2, 3])
    ensures DataSet(256, [80, 0, 3, 1, 2, 3]) == [1, 0, 0, 10, 80, 0, 3, 1, 2, 3]
  {
    hide FieldData, RecordBody, MixedFields, DataSet;
    MixedValues();
    MixedTwoFields();
    TwoValues(MixedFields(), MixedRecord(), [80, 0], [3, 1, 2, 3]);
    assert [80, 0] + [3, 1, 2, 3] == [80, 0, 3, 1, 2, 3];
    DataSetOctets(256, [80, 0, 3, 1, 2, 3]);
  }

  lemma MixedTwoFields()
    ensures |MixedFields()| == 2
  {
  }

  lemma MixedBody()
    ensures Body([MixedTemplate()], [MixedRecord()]) ==
            Ok([0, 2, 0, 20, 1, 0, 0, 2, 0, 7, 0, 2, 128, 5, 255, 255, 0, 0, 39, 15] + [1, 0, 0, 10, 80, 0, 3, 1, 2, 3])
  {
    hide TemplateSet, RecordOctets, DataSet, MixedTemplate, MixedRecord, TemplateSets, AllDataSets;
    MixedTemplateSet();
    MixedDataSet();
    MixedReadable();
    var t, r := MixedTemplate(), MixedRecord();
    OneDataSet(t, r);
    assert Reverse([t]) == [t] by {
      ReverseAt([t]);
    }
    OneTemplateSet(t);
  }

  lemma OneTemplateSet(t: Template)
    ensures TemplateSets([t]) == TemplateSet(t)
  {
    FlatMapOne(TemplateSet, t);
  }

  /** Its 46 octets at time 1; the port is in the order of the host. */
  lemma MixedOctets()
    ensures Output(Mixed(), 1) ==
            Ok([0, 10, 0, 46, 0, 0, 0, 1, 0, 0, 0, 1, 0, 0, 0, 7]
               + ([0, 2, 0, 20, 1, 0, 0, 2, 0, 7, 0, 2, 128, 5, 255, 255, 0, 0, 39, 15]
                  + [1, 0, 0, 10, 80, 0, 3, 1, 2, 3]))
  {
    hide WriteOrder, Body, Regroup, MixedTemplate, MixedRecord, Header;
    MixedOrder();
    MixedBody();
    MixedReadable();
    OneRecord(MixedTemplate(), MixedRecord());
    MixedHeader();
  }

  lemma MixedReadable()
    ensures MixedTemplate().Readable() && MixedTemplate().tid == MixedRecord().tid == 256
  {
  }

  lemma OneRecord(t: Template, r: Record)
    requires r.tid == t.tid
    ensures |Regroup([t], [r])| == 1
  {
    FlatMapOne((u: Template) => RecordsOf(u, [r]), t);
    FlatMapOne((k: Record) => if k.tid == t.tid then [k] else [], r);
  }

  lemma MixedHeader()
    ensures Header(46, 1, 1, 7) == [0, 10, 0, 46, 0, 0, 0, 1, 0, 0, 0, 1, 0, 0, 0, 7]
  {
    hide U16, U32;
    WordIs(10);
    WordIs(46);
    LongIs(1);
    LongIs(7);
  }
}
