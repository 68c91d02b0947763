/** Templates, messages, and the octets of an exported message: what `output` puts where. */
module IpfixLayout {
  import opened Bytes
  import opened IpfixField

  const IPFIX_VERSION := 10
  const HDR_BYTES := 16
  const BUFLEN := 1400   // IPFIX_DEFAULT_BUFLEN: the buffer of every message
  const SETID_TEMPLATE := 2
  const SETID_OPTTEMPLATE := 3
  const VARLEN := 65535
  const VENDOR_BIT := 0x8000

  datatype TemplateKind = DataTemplate | OptionTemplate

  datatype TemplateField = TemplateField(flength: nat, known: bool, elem: FieldType)

  datatype Template = Template(tid: int, kind: TemplateKind, maxfields: int,
                               datafields: seq<TemplateField>, scopefields: seq<TemplateField>) {
    function NumFields(): nat {
      |datafields| + |scopefields|
    }

    /** get_field: the scope count is not subtracted from a data field's index. */
    function GetField(i: nat): (r: Result<TemplateField>)
      ensures scopefields == [] && i < NumFields() ==> r == Ok(datafields[i])
    {
      if i < |scopefields| then Ok(scopefields[i])
      else if i < |datafields| then Ok(datafields[i])
      else Err(OutOfBounds)
    }

    /** The loops over all fields stay inside the two vectors. */
    predicate Readable() {
      scopefields == [] || datafields == []
    }

    /** What they then visit. */
    function Fields(): seq<TemplateField> {
      if scopefields == [] then datafields else scopefields
    }
  }

  /** A loop over the fields of a template succeeds exactly if it has no scope fields or nothing else. */
  lemma ReadableIff(t: Template)
    ensures t.Readable() <==> forall i :: 0 <= i < t.NumFields() ==> t.GetField(i).Ok?
    ensures t.Readable() ==> |t.Fields()| == t.NumFields()
    ensures t.Readable() ==> forall i :: 0 <= i < t.NumFields() ==> t.GetField(i) == Ok(t.Fields()[i])
  {
    if !t.Readable() {
      assert t.GetField(t.NumFields() - 1).Err?;
    }
  }

  datatype Message = Message(sourceid: int, templates: map<int, Template>, dataList: seq<Record>)

  // ----- a template set -----

  function FieldSpec(tf: TemplateField): seq<Byte> {
    if tf.elem.eno == 0 then U16(tf.elem.ftype) + U16(tf.flength)
    else U16(tf.elem.ftype % VENDOR_BIT + VENDOR_BIT) + U16(tf.flength) + U32(tf.elem.eno)
  }

  function FieldSpecs(tfs: seq<TemplateField>): seq<Byte> {
    FlatMap(FieldSpec, tfs)
  }

  /** The size that `_write_template` adds up before it writes. */
  function SpecSizes(tfs: seq<TemplateField>): nat {
    if tfs == [] then 0 else (if tfs[0].elem.eno == 0 then 4 else 8) + SpecSizes(tfs[1..])
  }

  function TemplateSize(t: Template): nat {
    (if t.kind == OptionTemplate then 10 else 8) + SpecSizes(t.Fields())
  }

  function TemplateHead(t: Template): seq<Byte> {
    if t.kind == OptionTemplate then
      U16(SETID_OPTTEMPLATE) + U16(TemplateSize(t)) + U16(t.tid) + U16(|t.Fields()|) + U16(|t.scopefields|)
    else
      U16(SETID_TEMPLATE) + U16(TemplateSize(t)) + U16(t.tid) + U16(|t.Fields()|)
  }

  function TemplateSet(t: Template): seq<Byte> {
    TemplateHead(t) + FieldSpecs(t.Fields())
  }

  lemma {:induction false} SpecSizesExact(tfs: seq<TemplateField>)
    ensures |FieldSpecs(tfs)| == SpecSizes(tfs)
  {
    if tfs != [] {
      SpecSizesExact(tfs[1..]);
    }
  }

  /** The precomputed size is the number of octets of the set, for any mix of elements. */
  lemma TemplateSizeExact(t: Template)
    ensures |TemplateSet(t)| == TemplateSize(t)
  {
    SpecSizesExact(t.Fields());
  }

  // ----- a data set -----

  function LengthPrefix(n: nat): seq<Byte>
    requires n < 65536
  {
    if n > 254 then [255] + U16(n) else [n]
  }

  function FieldData(tf: TemplateField, r: Record): Result<seq<Byte>> {
    var v :- r.Get(tf.elem.eno, tf.elem.ftype);
    if v.Length() >= 65536 then Err(OutOfBounds)   // get_length returns only 16 bits of it
    else if tf.flength != VARLEN && v.Length() > tf.flength then Err(BadArgument)
    else if v.Number? && NumberLengths(tf.elem.coding) == {} then Err(OutOfBounds)
    else Ok((if tf.flength == VARLEN then LengthPrefix(v.Length()) else []) + Encode(tf.elem, v))
  }

  function RecordBody(tfs: seq<TemplateField>, r: Record): Result<seq<Byte>> {
    if tfs == [] then Ok([])
    else
      var first :- FieldData(tfs[0], r);
      var rest :- RecordBody(tfs[1..], r);
      Ok(first + rest)
  }

  /** The values of a record, in the order of the template's fields. */
  function RecordOctets(t: Template, r: Record): Result<seq<Byte>> {
    if t.Readable() then RecordBody(t.Fields(), r) else Err(OutOfBounds)
  }

  function DataSet(tid: int, body: seq<Byte>): seq<Byte> {
    U16(tid) + U16(4 + |body|) + body
  }

  /** One data set per record of this template, in list order. */
  function DataSets(t: Template, recs: seq<Record>): Result<seq<Byte>> {
    if recs == [] then Ok([])
    else if recs[0].tid != t.tid then DataSets(t, recs[1..])
    else
      var body :- RecordOctets(t, recs[0]);
      var rest :- DataSets(t, recs[1..]);
      Ok(DataSet(t.tid, body) + rest)
  }

  function RecordsOf(t: Template, recs: seq<Record>): seq<Record> {
    FlatMap((r: Record) => if r.tid == t.tid then [r] else [], recs)
  }

  // ----- the whole message -----

  function TemplateSets(ts: seq<Template>): seq<Byte> {
    FlatMap(TemplateSet, ts)
  }

  function AllDataSets(ts: seq<Template>, recs: seq<Record>): Result<seq<Byte>> {
    if ts == [] then Ok([])
    else
      var first :- DataSets(ts[0], recs);
      var rest :- AllDataSets(ts[1..], recs);
      Ok(first + rest)
  }

  /** The record list regrouped by template, each group in its old order. */
  function Regroup(ts: seq<Template>, recs: seq<Record>): seq<Record> {
    FlatMap((t: Template) => RecordsOf(t, recs), ts)
  }

  function Reverse(ts: seq<Template>): seq<Template> {
    if ts == [] then [] else Reverse(ts[1..]) + [ts[0]]
  }

  lemma {:induction false} ReverseAt(ts: seq<Template>)
    ensures |Reverse(ts)| == |ts|
    ensures forall i :: 0 <= i < |ts| ==> Reverse(ts)[i] == ts[|ts| - 1 - i]
  {
    if ts != [] {
      ReverseAt(ts[1..]);
    }
  }

  lemma {:induction false} ReverseSnoc(ts: seq<Template>, t: Template)
    ensures Reverse(ts + [t]) == [t] + Reverse(ts)
  {
    if ts == [] {
      assert [] + [t] == [t];
    } else {
      assert (ts + [t])[0] == ts[0] && (ts + [t])[1..] == ts[1..] + [t];
      ReverseSnoc(ts[1..], t);
      Assoc([t], Reverse(ts[1..]), [ts[0]]);
    }
  }

  /** The template ids in the iteration order of `std::map<uint16_t, ...>`. */
  function IdsFrom(templates: map<int, Template>, first: nat): (ids: seq<int>)
    requires first <= 65536
    ensures forall i :: 0 <= i < |ids| ==> first <= ids[i] < 65536 && ids[i] in templates
    ensures forall i, j :: 0 <= i < j < |ids| ==> ids[i] < ids[j]
    decreases 65536 - first
  {
    if first == 65536 then []
    else (if first in templates then [first] else []) + IdsFrom(templates, first + 1)
  }

  function OfKind(templates: map<int, Template>, ids: seq<int>, kind: TemplateKind): seq<Template>
    requires forall i :: 0 <= i < |ids| ==> ids[i] in templates
  {
    if ids == [] then []
    else
      (if templates[ids[0]].kind == kind then [templates[ids[0]]] else []) + OfKind(templates, ids[1..], kind)
  }

  /** The order of the two loops of `output`: option templates first, then the others. */
  function WriteOrder(templates: map<int, Template>): seq<Template> {
    var ids := IdsFrom(templates, 0);
    OfKind(templates, ids, OptionTemplate) + OfKind(templates, ids, DataTemplate)
  }

  function Header(total: int, now: int, nrecords: int, sourceid: int): (h: seq<Byte>)
    ensures |h| == HDR_BYTES
  {
    U16(IPFIX_VERSION) + U16(total) + U32(now) + U32(nrecords) + U32(sourceid)
  }

  predicate AllReadable(ts: seq<Template>) {
    forall i :: 0 <= i < |ts| ==> ts[i].Readable()
  }

  /** The templates that `output` has not written before: their tsend is still zero. */
  function Unsent(sent: set<int>, ts: seq<Template>): seq<Template> {
    if ts == [] then []
    else if ts[0].tid in sent then Unsent(sent, ts[1..])
    else [ts[0]] + Unsent(sent, ts[1..])
  }

  /** The sets of these templates, in reverse, in front of the data sets of those. */
  function Assemble(heads: seq<Template>, ts: seq<Template>, recs: seq<Record>): Result<seq<Byte>> {
    if !AllReadable(heads) then Err(OutOfBounds)
    else
      var data :- AllDataSets(ts, recs);
      Ok(TemplateSets(Reverse(heads)) + data)
  }

  function Body(ts: seq<Template>, recs: seq<Record>): Result<seq<Byte>> {
    Assemble(ts, ts, recs)
  }

  function Seal(body: seq<Byte>, now: int, nrecords: int, sourceid: int): seq<Byte> {
    Header(HDR_BYTES + |body|, now, nrecords, sourceid) + body
  }

  /** The octets of the first `output` of a message at time `now`. */
  function Output(m: Message, now: int): Result<seq<Byte>> {
    var ts := WriteOrder(m.templates);
    var body :- Body(ts, m.dataList);
    Ok(Seal(body, now, |Regroup(ts, m.dataList)|, m.sourceid))
  }

  /** The octets of any `output`, after these templates were sent and so many records counted. */
  function OutputAfter(m: Message, sent: set<int>, count: nat, now: int): Result<seq<Byte>> {
    var ts := WriteOrder(m.templates);
    var body :- Assemble(Unsent(sent, ts), ts, m.dataList);
    Ok(Seal(body, now, count + |Regroup(ts, m.dataList)|, m.sourceid))
  }

  lemma {:induction false} NoneSent(ts: seq<Template>)
    ensures Unsent({}, ts) == ts
  {
    if ts != [] {
      NoneSent(ts[1..]);
      assert ts == [ts[0]] + ts[1..];
    }
  }

  lemma {:induction false} AllSent(sent: set<int>, ts: seq<Template>)
    requires forall i :: 0 <= i < |ts| ==> ts[i].tid in sent
    ensures Unsent(sent, ts) == []
  {
    if ts != [] {
      AllSent(sent, ts[1..]);
    }
  }

  lemma {:induction false} UnsentSnoc(sent: set<int>, ts: seq<Template>, t: Template)
    ensures Unsent(sent, ts + [t]) == Unsent(sent, ts) + if t.tid in sent then [] else [t]
  {
    if ts == [] {
      assert [] + [t] == [t] && [t][1..] == [];
    } else {
      assert (ts + [t])[0] == ts[0] && (ts + [t])[1..] == ts[1..] + [t];
      UnsentSnoc(sent, ts[1..], t);
    }
  }

  /** The first output is the one before which nothing was sent. */
  lemma FirstOutput(m: Message, now: int)
    ensures OutputAfter(m, {}, 0, now) == Output(m, now)
  {
    NoneSent(WriteOrder(m.templates));
  }

  // ----- how the layout grows -----

  lemma {:induction false} AllDataSetsAppend(a: seq<Template>, b: seq<Template>, recs: seq<Record>)
    requires AllDataSets(a, recs).Ok?
    ensures AllDataSets(a + b, recs) ==
            if AllDataSets(b, recs).Err? then AllDataSets(b, recs)
            else Ok(AllDataSets(a, recs).value + AllDataSets(b, recs).value)
  {
    if a == [] {
      assert a + b == b;
      assert AllDataSets(b, recs).Ok? ==> [] + AllDataSets(b, recs).value == AllDataSets(b, recs).value;
    } else {
      assert (a + b)[0] == a[0];
      AllDataSetsAppend(a[1..], b, recs);
      assert (a + b)[1..] == a[1..] + b;
      if AllDataSets(b, recs).Ok? {
        Assoc(DataSets(a[0], recs).value, AllDataSets(a[1..], recs).value, AllDataSets(b, recs).value);
      }
    }
  }

  /**
   * One more `output_set`: its template set, if it was not sent before, goes in front of everything,
   * and its data sets behind everything, so every template precedes all data.
   */
  lemma BodyGrows(heads: seq<Template>, ts: seq<Template>, t: Template, unsent: bool, recs: seq<Record>)
    requires Assemble(heads, ts, recs).Ok? && DataSets(t, recs).Ok? && (unsent ==> t.Readable())
    ensures Assemble(heads + if unsent then [t] else [], ts + [t], recs) ==
            Ok((if unsent then TemplateSet(t) else []) + Assemble(heads, ts, recs).value + DataSets(t, recs).value)
  {
    var head := if unsent then TemplateSet(t) else [];
    AllDataSetsAppend(ts, [t], recs);
    assert AllDataSets([t], recs) == Ok(DataSets(t, recs).value + []);
    assert DataSets(t, recs).value + [] == DataSets(t, recs).value;
    HeadsGrow(heads, t, unsent);
    Assoc(head + TemplateSets(Reverse(heads)), AllDataSets(ts, recs).value, DataSets(t, recs).value);
    Assoc(head, TemplateSets(Reverse(heads)), AllDataSets(ts, recs).value);
  }

  lemma HeadsGrow(heads: seq<Template>, t: Template, unsent: bool)
    ensures TemplateSets(Reverse(heads + if unsent then [t] else [])) ==
            (if unsent then TemplateSet(t) else []) + TemplateSets(Reverse(heads))
  {
    if unsent {
      ReverseSnoc(heads, t);
      FlatMapAppend(TemplateSet, [t], Reverse(heads));
      FlatMapOne(TemplateSet, t);
    } else {
      assert heads + [] == heads && [] + TemplateSets(Reverse(heads)) == TemplateSets(Reverse(heads));
    }
  }
}
