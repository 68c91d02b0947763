/** The exporter with its buffer: templates go in front, data sets behind, lengths are patched afterwards. */
module IpfixWriter {
  import opened Bytes
  import opened IpfixField
  import opened IpfixLayout
  import opened IpfixRecordTrip
  import opened IpfixRenumbering
  import opened IpfixSpace

  /** memcpy to the end of what is written so far. */
  method Append(a: array<Byte>, at: nat, bytes: seq<Byte>)
    requires at + |bytes| <= a.Length
    modifies a
    ensures a[..at + |bytes|] == old(a[..at]) + bytes
    ensures forall i :: at + |bytes| <= i < a.Length ==> a[i] == old(a[i])
  {
    forall i | 0 <= i < |bytes| {
      a[at + i] := bytes[i];
    }
  }

  /** memcpy over octets written before. */
  method Patch(a: array<Byte>, at: nat, bytes: seq<Byte>)
    requires at + |bytes| <= a.Length
    modifies a
    ensures a[..] == old(a[..at]) + bytes + old(a[at + |bytes|..])
  {
    forall i | 0 <= i < |bytes| {
      a[at + i] := bytes[i];
    }
  }

  /** memmove of the first n octets, to make room for `gap` octets in front of them. */
  method MoveUp(a: array<Byte>, gap: nat, n: nat)
    requires gap + n <= a.Length
    modifies a
    ensures a[gap..gap + n] == old(a[..n])
  {
    forall i | 0 <= i < n {
      a[gap + i] := a[i];
    }
  }

  // ----- sizes that are computed before anything is written -----

  /** The size loop accepts this field of the record. */
  predicate Measured(tf: TemplateField, r: Record) {
    && RankOf(tf) in r.fields
    && r.fields[RankOf(tf)].Length() < 65536
    && (tf.flength != VARLEN ==> r.fields[RankOf(tf)].Length() <= tf.flength)
  }

  function FieldSize(tf: TemplateField, n: nat): nat {
    (if tf.flength == VARLEN then if n > 254 then 3 else 1 else 0) + n
  }

  function RecordSize(tfs: seq<TemplateField>, r: Record): nat
    requires forall i :: 0 <= i < |tfs| ==> Measured(tfs[i], r)
  {
    if tfs == [] then 0
    else
      assert Measured(tfs[0], r);
      FieldSize(tfs[0], r.fields[RankOf(tfs[0])].Length()) + RecordSize(tfs[1..], r)
  }

  lemma {:induction false} SpecSizesGrow(tfs: seq<TemplateField>, i: nat)
    requires i < |tfs|
    ensures SpecSizes(tfs[..i + 1]) == SpecSizes(tfs[..i]) + (if tfs[i].elem.eno == 0 then 4 else 8)
    decreases i
  {
    assert tfs[..i + 1][0] == tfs[0] && tfs[..i + 1][1..] == tfs[1..][..i];
    if i == 0 {
      assert tfs[..0] == [] && tfs[1..][..0] == [];
    } else {
      assert tfs[..i][0] == tfs[0] && tfs[..i][1..] == tfs[1..][..i - 1];
      SpecSizesGrow(tfs[1..], i - 1);
    }
  }

  lemma {:induction false} RecordSizeGrows(tfs: seq<TemplateField>, r: Record, i: nat)
    requires i < |tfs| && forall k :: 0 <= k <= i ==> Measured(tfs[k], r)
    ensures RecordSize(tfs[..i + 1], r) == RecordSize(tfs[..i], r) + FieldSize(tfs[i], r.fields[RankOf(tfs[i])].Length())
    decreases i
  {
    assert tfs[..i + 1][0] == tfs[0] && tfs[..i + 1][1..] == tfs[1..][..i];
    if i == 0 {
      assert tfs[..0] == [] && tfs[1..][..0] == [];
    } else {
      assert tfs[..i][0] == tfs[0] && tfs[..i][1..] == tfs[1..][..i - 1];
      RecordSizeGrows(tfs[1..], r, i - 1);
    }
  }

  lemma StartOfRest(tfs: seq<TemplateField>, r: Record, i: nat) returns (size: nat)
    requires i < |tfs| && forall k :: 0 <= k < |tfs| ==> Measured(tfs[k], r)
    ensures Measured(tfs[i], r) && size == FieldSize(tfs[i], r.fields[RankOf(tfs[i])].Length())
    ensures RecordSize(tfs[i..], r) == size + RecordSize(tfs[i + 1..], r)
  {
    assert tfs[i..][0] == tfs[i] && tfs[i..][1..] == tfs[i + 1..];
    size := FieldSize(tfs[i], r.fields[RankOf(tfs[i])].Length());
  }

  lemma {:induction false} RecordBodyGrows(tfs: seq<TemplateField>, r: Record, i: nat)
    requires i < |tfs| && RecordBody(tfs[..i], r).Ok?
    ensures RecordBody(tfs[..i + 1], r) ==
            if FieldData(tfs[i], r).Err? then Err(FieldData(tfs[i], r).error)
            else Ok(RecordBody(tfs[..i], r).value + FieldData(tfs[i], r).value)
    decreases i
  {
    assert tfs[..i + 1][0] == tfs[0] && tfs[..i + 1][1..] == tfs[1..][..i];
    if i == 0 {
      assert tfs[..0] == [] && tfs[1..][..0] == [];
      if FieldData(tfs[0], r).Ok? {
        assert FieldData(tfs[0], r).value + [] == [] + FieldData(tfs[0], r).value;
      }
    } else {
      assert tfs[..i][0] == tfs[0] && tfs[..i][1..] == tfs[1..][..i - 1];
      RecordBodyGrows(tfs[1..], r, i - 1);
      if FieldData(tfs[i], r).Ok? {
        Assoc(FieldData(tfs[0], r).value, RecordBody(tfs[1..][..i - 1], r).value, FieldData(tfs[i], r).value);
      }
    }
  }

  lemma {:induction false} RecordSizeExact(tfs: seq<TemplateField>, r: Record)
    requires RecordBody(tfs, r).Ok? && forall i :: 0 <= i < |tfs| ==> Measured(tfs[i], r)
    ensures RecordSize(tfs, r) == |RecordBody(tfs, r).value|
  {
    if tfs != [] {
      assert Measured(tfs[0], r);
      RecordSizeExact(tfs[1..], r);
    }
  }

  lemma {:induction false} BadFieldSpoilsRecord(tfs: seq<TemplateField>, r: Record, i: nat)
    requires i < |tfs| && FieldData(tfs[i], r).Err?
    ensures RecordBody(tfs, r).Err?
    decreases i
  {
    if i > 0 {
      BadFieldSpoilsRecord(tfs[1..], r, i - 1);
    }
  }

  /** Overwriting the header of the last set leaves everything else as it was. */
  lemma PatchedSet(a: seq<Byte>, was: seq<Byte>, header: seq<Byte>, header': seq<Byte>, body: seq<Byte>)
    requires |header| == |header'| && |was| + |header| + |body| <= |a|
    requires a[..|was| + |header| + |body|] == was + header + body
    ensures var k := |was|;
            (a[..k] + header' + a[k + |header|..])[..k + |header| + |body|] == was + (header' + body)
  {
    var k, n := |was|, |was| + |header| + |body|;
    assert a[..n][..k] == a[..k] == was;
    assert a[..n][k + |header|..] == body;
    assert a[k + |header|..][..|body|] == a[..n][k + |header|..];
  }

  lemma {:induction false} DataSetsAppend(t: Template, a: seq<Record>, b: seq<Record>)
    ensures DataSets(t, a).Err? ==> DataSets(t, a + b).Err?
    ensures DataSets(t, a).Ok? ==>
              DataSets(t, a + b) ==
              if DataSets(t, b).Err? then DataSets(t, b) else Ok(DataSets(t, a).value + DataSets(t, b).value)
    decreases |a|
  {
    if a == [] {
      assert a + b == b;
      assert DataSets(t, b).Ok? ==> [] + DataSets(t, b).value == DataSets(t, b).value;
    } else {
      assert (a + b)[0] == a[0] && (a + b)[1..] == a[1..] + b;
      DataSetsAppend(t, a[1..], b);
      if DataSets(t, a).Ok? && a[0].tid == t.tid && DataSets(t, b).Ok? {
        Assoc(DataSet(t.tid, RecordOctets(t, a[0]).value), DataSets(t, a[1..]).value, DataSets(t, b).value);
      }
    }
  }

  /** One more record: its set goes behind the sets so far, and within the sets of the whole list. */
  lemma DataSetsGrow(t: Template, recs: seq<Record>, i: nat)
    requires i < |recs| && DataSets(t, recs[..i]).Ok?
    ensures var one := if recs[i].tid != t.tid then Ok([]) else RecordOctets(t, recs[i]);
            && (one.Err? ==> DataSets(t, recs).Err?)
            && (one.Ok? ==>
                  var added := if recs[i].tid != t.tid then [] else DataSet(t.tid, one.value);
                  DataSets(t, recs[..i + 1]) == Ok(DataSets(t, recs[..i]).value + added))
            && (DataSets(t, recs).Ok? ==> |DataSets(t, recs[..i + 1]).value| <= |DataSets(t, recs).value|)
    ensures RecordsOf(t, recs[..i + 1]) == RecordsOf(t, recs[..i]) + if recs[i].tid != t.tid then [] else [recs[i]]
  {
    var last := [recs[i]];
    assert recs[..i + 1] == recs[..i] + last && last[1..] == [];
    assert recs == recs[..i + 1] + recs[i + 1..];
    DataSetsAppend(t, recs[..i], last);
    DataSetsAppend(t, recs[..i + 1], recs[i + 1..]);
    if recs[i].tid == t.tid && RecordOctets(t, recs[i]).Ok? {
      var one := DataSet(t.tid, RecordOctets(t, recs[i]).value);
      assert DataSets(t, last) == Ok(one + []);
      assert one + [] == one;
    }
    FlatMapAppend((r: Record) => if r.tid == t.tid then [r] else [], recs[..i], last);
    FlatMapOne((r: Record) => if r.tid == t.tid then [r] else [], recs[i]);
  }

  lemma OfKindFrom(templates: map<int, Template>, ids: seq<int>, kind: TemplateKind, i: nat)
    requires i < |ids| && forall i :: 0 <= i < |ids| ==> ids[i] in templates
    ensures var rest, later := OfKind(templates, ids[i..], kind), OfKind(templates, ids[i + 1..], kind);
            rest == if templates[ids[i]].kind == kind then [templates[ids[i]]] + later else later
  {
    assert ids[i..][0] == ids[i] && ids[i..][1..] == ids[i + 1..];
  }

  /** What is left to do, one template at a time. */
  lemma FirstOfRest(was: set<int>, t: Template, later: seq<Template>, recs: seq<Record>)
    ensures |Regroup([t] + later, recs)| == |RecordsOf(t, recs)| + |Regroup(later, recs)|
    ensures AllReadable(Unsent(was, [t] + later)) <==> (t.tid !in was ==> t.Readable()) && AllReadable(Unsent(was, later))
    ensures AllDataSets([t] + later, recs).Ok? <==> DataSets(t, recs).Ok? && AllDataSets(later, recs).Ok?
  {
    var ts := [t] + later;
    assert ts[0] == t && ts[1..] == later;
    ReadableParts(if t.tid in was then [] else [t], Unsent(was, later));
    assert [] + Unsent(was, later) == Unsent(was, later);
  }

  lemma {:induction false} FirstIsPlaced(was: set<int>, t: Template, later: seq<Template>, recs: seq<Record>, offset: nat, capacity: nat)
    requires DataSets(t, recs).Ok? && AllDataSets(later, recs).Ok?
    ensures AllDataSets([t] + later, recs).Ok?
    ensures var one := PlaceSet(t.tid !in was, t, recs, offset, capacity);
            PlaceSets(was, [t] + later, recs, offset, capacity) ==
              if one.Err? then Err(one.error) else PlaceSets(was, later, recs, one.value, capacity)
  {
    hide PlaceSet, DataSets;
    var ts := [t] + later;
    assert ts[0] == t && ts[1..] == later;
  }

  lemma ReadableParts(a: seq<Template>, b: seq<Template>)
    ensures AllReadable(a + b) <==> AllReadable(a) && AllReadable(b)
  {
    if AllReadable(a + b) {
      assert forall i :: 0 <= i < |a| ==> (a + b)[i] == a[i];
      assert forall i :: 0 <= i < |b| ==> (a + b)[|a| + i] == b[i];
    }
  }

  /** The records from i on, one at a time. */
  lemma {:induction false} RecordIsPlaced(t: Template, recs: seq<Record>, i: nat, announced: nat, offset: nat, capacity: nat)
    requires i < |recs| && DataSets(t, recs[i..]).Ok?
    ensures DataSets(t, recs[i + 1..]).Ok?
    ensures recs[i].tid != t.tid ==>
              PlaceRecords(t, recs[i..], announced, offset, capacity) == PlaceRecords(t, recs[i + 1..], announced, offset, capacity)
    ensures recs[i].tid == t.tid ==>
              var body := RecordOctets(t, recs[i]);
              && body.Ok?
              && var p := Place(offset, announced + |body.value|, 4 + |body.value|, capacity);
              PlaceRecords(t, recs[i..], announced, offset, capacity) ==
                if p.Err? then Err(p.error)
                else PlaceRecords(t, recs[i + 1..], announced + |body.value|, p.value, capacity)
  {
    hide Place, RecordOctets;
    assert recs[i..][0] == recs[i] && recs[i..][1..] == recs[i + 1..];
  }

  // ----- the exporting message -----

  class Exporter {
    const sourceid: int
    const capacity: nat              // IPFIX_DEFAULT_BUFLEN in the original
    var templates: map<int, Template>
    var dataList: seq<Record>
    var sent: set<int>               // the templates with a non-zero tsend
    var requireOutput: bool
    var buffer: array<Byte>
    var offset: nat                  // octets written
    var nrecords: nat
    var seqno: nat
    var csTid: int                   // the set that is being written, 0 if none
    var csBytes: nat
    var csHeader: nat
    var length: int
    var exporttime: int

    constructor (sourceid: int, capacity: nat, templates: map<int, Template>, dataList: seq<Record>)
      requires forall id :: id in templates ==> 0 < id < 65536 && templates[id].tid == id   // as new_template does it
      ensures Valid() && fresh(buffer) && Value() == Message(sourceid, templates, dataList)
      ensures this.capacity == capacity && nrecords == 0 && sent == {} && requireOutput
    {
      this.sourceid, this.capacity := sourceid, capacity;
      this.templates, this.dataList := templates, dataList;
      sent, requireOutput := {}, true;
      buffer := new Byte[capacity];
      offset, nrecords, seqno := 0, 0, 0;
      csTid, csBytes, csHeader := 0, 0, 0;
      length, exporttime := 0, 0;
    }

    function Value(): Message
      reads this
    {
      Message(sourceid, templates, dataList)
    }

    /**
     * The message that import leaves: nothing was sent, the records are counted, and the last set of
     * data that was read is still open. Its header is in the buffer that the next output deletes.
     */
    constructor FromImport(sourceid: int, capacity: nat, templates: map<int, Template>, dataList: seq<Record>, open: nat)
      requires forall id :: id in templates ==> 0 < id < 65536 && templates[id].tid == id
      ensures Valid() && fresh(buffer) && Value() == Message(sourceid, templates, dataList)
      ensures this.capacity == capacity && nrecords == |dataList| && sent == {} && !requireOutput && csTid == open
    {
      this.sourceid, this.capacity := sourceid, capacity;
      this.templates, this.dataList := templates, dataList;
      sent, requireOutput := {}, false;
      buffer := new Byte[capacity];
      offset, nrecords, seqno := 0, |dataList|, 0;
      csTid, csBytes, csHeader := open, 0, 0;
      length, exporttime := 0, 0;
    }

    ghost predicate Valid()
      reads this
    {
      && offset <= buffer.Length && csTid >= 0
      && forall id :: id in templates ==> 0 < id < 65536 && templates[id].tid == id
    }

    /** include_data */
    method IncludeData(tid: int, r: Record) returns (result: Result<()>)
      requires Valid()
      modifies this`dataList, this`requireOutput
      ensures Valid()
      ensures result.Ok? <==> tid in templates && templates[tid].NumFields() == |r.fields|
      ensures dataList == old(dataList) + if result.Ok? then [r] else []
      ensures requireOutput == (old(requireOutput) || result.Ok?)
    {
      if tid !in templates || templates[tid].NumFields() != |r.fields| {
        return Err(BadArgument);
      }
      dataList, requireOutput := dataList + [r], true;
      result := Ok(());
    }

    /** allocate_additional_memory: it either does nothing, or throws although it could allocate. */
    method AllocateAdditional(additional: nat) returns (result: Result<()>)
      ensures result == if offset + additional > buffer.Length then Err(NoRoom) else Ok(())
    {
      result := if offset + additional > buffer.Length then Err(NoRoom) else Ok(());
    }

    /** The check before every write, and whether the write that follows stays in the buffer. */
    method CheckSpace(announced: nat, actual: nat) returns (result: Result<()>)
      requires Valid()
      ensures AgreesAt(result, Place(offset, announced, actual, buffer.Length), offset + actual)
      ensures result.Ok? ==> offset + actual <= buffer.Length
    {
      if offset + announced > buffer.Length {
        result := AllocateAdditional(offset + announced - buffer.Length);
        if result.Err? {
          return;
        }
      }
      result := if offset + actual > buffer.Length then Err(Overrun) else Ok(());
    }

    /** The size loop of `output_set`: throws for a missing or an oversized value. */
    method Measure(t: Template, r: Record, datasetlen: nat) returns (size: Result<nat>)
      ensures size.Err? ==> RecordOctets(t, r).Err?
      ensures size.Ok? ==> t.Readable() && forall k :: 0 <= k < |t.Fields()| ==> Measured(t.Fields()[k], r)
      ensures size.Ok? ==> size.value == datasetlen + RecordSize(t.Fields(), r)
    {
      if !t.Readable() {
        return Err(OutOfBounds);   // see ReadableIff
      }
      var tfs := t.Fields();
      var sum := datasetlen;
      for i := 0 to |tfs|
        invariant forall k :: 0 <= k < i ==> Measured(tfs[k], r)
        invariant sum == datasetlen + RecordSize(tfs[..i], r)
      {
        var tf := tfs[i];
        var v := r.Get(tf.elem.eno, tf.elem.ftype);
        if v.Err? || v.value.Length() >= 65536 || (tf.flength != VARLEN && v.value.Length() > tf.flength) {
          BadFieldSpoilsRecord(tfs, r, i);
          return Err(BadArgument);
        }
        RecordSizeGrows(tfs, r, i);
        sum := sum + FieldSize(tf, v.value.Length());
      }
      assert tfs[..|tfs|] == tfs;
      size := Ok(sum);
    }

    method WriteField(tf: TemplateField, r: Record, at: nat) returns (end: Result<nat>)
      requires Measured(tf, r)
      requires at + FieldSize(tf, r.fields[RankOf(tf)].Length()) <= buffer.Length
      modifies buffer
      ensures end.Ok? <==> FieldData(tf, r).Ok?
      ensures end.Ok? ==> |FieldData(tf, r).value| == FieldSize(tf, r.fields[RankOf(tf)].Length())
      ensures end.Ok? ==> end.value == at + |FieldData(tf, r).value|
      ensures end.Ok? ==> buffer[..end.value] == old(buffer[..at]) + FieldData(tf, r).value
    {
      var v := r.fields[RankOf(tf)];
      if v.Number? && NumberLengths(tf.elem.coding) == {} {
        return Err(OutOfBounds);   // memcpy reads NULL
      }
      var pos := at;
      if tf.flength == VARLEN {
        Append(buffer, pos, LengthPrefix(v.Length()));
        pos := pos + |LengthPrefix(v.Length())|;
      }
      assert buffer[..pos] == old(buffer[..at]) + Prefix(tf, v.Length());
      Append(buffer, pos, Encode(tf.elem, v));
      Assoc(old(buffer[..at]), Prefix(tf, v.Length()), Encode(tf.elem, v));
      end := Ok(pos + v.Length());
    }

    /** The loop that fills the buffer with one record's fields, from position `at` on. */
    method WriteRecord(tfs: seq<TemplateField>, r: Record, at: nat) returns (end: Result<nat>)
      requires forall k :: 0 <= k < |tfs| ==> Measured(tfs[k], r)
      requires at + RecordSize(tfs, r) <= buffer.Length
      modifies buffer
      ensures end.Ok? <==> RecordBody(tfs, r).Ok?
      ensures end.Ok? ==> end.value == at + |RecordBody(tfs, r).value| <= buffer.Length
      ensures end.Ok? ==> buffer[..end.value] == old(buffer[..at]) + RecordBody(tfs, r).value
    {
      var pos := at;
      ghost var written: seq<Byte> := [];
      for i := 0 to |tfs|
        invariant RecordBody(tfs[..i], r) == Ok(written)
        invariant pos == at + |written|
        invariant pos + RecordSize(tfs[i..], r) <= buffer.Length
        invariant buffer[..pos] == old(buffer[..at]) + written
      {
        ghost var next := StartOfRest(tfs, r, i);
        RecordBodyGrows(tfs, r, i);
        var step := WriteField(tfs[i], r, pos);
        if step.Err? {
          BadFieldSpoilsRecord(tfs, r, i);
          return Err(step.error);
        }
        Assoc(old(buffer[..at]), written, FieldData(tfs[i], r).value);
        written := written + FieldData(tfs[i], r).value;
        pos := step.value;
      }
      assert tfs[..|tfs|] == tfs;
      end := Ok(pos);
    }

    // ----- a template set goes in front -----

    /** The size loop of `_write_template`. */
    method SizeOf(t: Template) returns (tsize: Result<nat>)
      ensures tsize == if t.Readable() then Ok(TemplateSize(t)) else Err(OutOfBounds)
    {
      if !t.Readable() {
        return Err(OutOfBounds);   // see ReadableIff
      }
      var tfs := t.Fields();
      var sum := if t.kind == OptionTemplate then 10 else 8;
      ghost var head := sum;
      for i := 0 to |tfs|
        invariant sum == head + SpecSizes(tfs[..i])
      {
        SpecSizesGrow(tfs, i);
        sum := sum + 4;
        if tfs[i].elem.eno != 0 {
          sum := sum + 4;
        }
      }
      assert tfs[..|tfs|] == tfs;
      tsize := Ok(sum);
    }

    method WriteFieldSpec(tf: TemplateField, at: nat) returns (end: nat)
      requires at + |FieldSpec(tf)| <= buffer.Length
      modifies buffer
      ensures end == at + |FieldSpec(tf)|
      ensures buffer[..end] == old(buffer[..at]) + FieldSpec(tf)
      ensures forall i :: end <= i < buffer.Length ==> buffer[i] == old(buffer[i])
    {
      ghost var was := buffer[..at];
      if tf.elem.eno == 0 {
        Append(buffer, at, U16(tf.elem.ftype));
        Append(buffer, at + 2, U16(tf.flength));
        Assoc(was, U16(tf.elem.ftype), U16(tf.flength));
        end := at + 4;
      } else {
        var tmp16 := tf.elem.ftype % VENDOR_BIT + VENDOR_BIT;
        Append(buffer, at, U16(tmp16));
        Append(buffer, at + 2, U16(tf.flength));
        Append(buffer, at + 4, U32(tf.elem.eno));
        Assoc(was, U16(tmp16), U16(tf.flength));
        Assoc(was, U16(tmp16) + U16(tf.flength), U32(tf.elem.eno));
        end := at + 8;
      }
    }

    method WriteTemplateHead(t: Template, tsize: nat) returns (end: nat)
      requires tsize == TemplateSize(t) <= buffer.Length
      modifies buffer
      ensures end == |TemplateHead(t)| <= tsize && buffer[..end] == TemplateHead(t)
      ensures forall i :: end <= i < buffer.Length ==> buffer[i] == old(buffer[i])
    {
      var setid := if t.kind == OptionTemplate then SETID_OPTTEMPLATE else SETID_TEMPLATE;
      Append(buffer, 0, U16(setid));
      Append(buffer, 2, U16(tsize));
      Append(buffer, 4, U16(t.tid));
      Append(buffer, 6, U16(|t.Fields()|));
      end := 8;
      if t.kind == OptionTemplate {
        Append(buffer, 8, U16(|t.scopefields|));
        end := 10;
      }
    }

    method WriteTemplate(t: Template) returns (result: Result<()>)
      requires Valid()
      modifies this`offset, this`sent, buffer
      ensures !t.Readable() ==> result == Err(OutOfBounds)
      ensures t.Readable() ==>
                AgreesAt(result, Place(old(offset), TemplateSize(t), TemplateSize(t), buffer.Length), offset)
      ensures result.Ok? ==> Valid() && t.Readable() && sent == old(sent) + {t.tid}
      ensures result.Ok? ==> buffer[..offset] == TemplateSet(t) + old(buffer[..offset])
    {
      var tsize := SizeOf(t);
      if tsize.Err? {
        return Err(tsize.error);
      }
      result := CheckSpace(tsize.value, tsize.value);
      if result.Ok? {
        PutTemplate(t, tsize.value);
      }
    }

    method PutTemplate(t: Template, tsize: nat)
      requires Valid() && tsize == TemplateSize(t) && offset + tsize <= buffer.Length
      modifies this`offset, this`sent, buffer
      ensures Valid() && sent == old(sent) + {t.tid}
      ensures offset == old(offset) + tsize
      ensures buffer[..offset] == TemplateSet(t) + old(buffer[..offset])
    {
      hide TemplateSize, TemplateHead, FieldSpecs, SpecSizes;
      TemplateSizeParts(t);
      ghost var was := buffer[..offset];
      MoveUp(buffer, tsize, offset);
      assert forall i :: 0 <= i < offset ==> buffer[tsize..tsize + offset][i] == was[i];
      var pos := WriteTemplateHead(t, tsize);
      pos := WriteFieldSpecs(t, tsize, pos);
      sent := sent + {t.tid};
      offset := offset + tsize;
      assert buffer[..offset] == buffer[..tsize] + buffer[tsize..offset];
      assert buffer[tsize..offset] == was;
    }

    method WriteFieldSpecs(t: Template, tsize: nat, at: nat) returns (end: nat)
      requires at + SpecSizes(t.Fields()) == tsize <= buffer.Length
      modifies buffer
      ensures end == tsize
      ensures buffer[..tsize] == old(buffer[..at]) + FieldSpecs(t.Fields())
      ensures forall i :: tsize <= i < buffer.Length ==> buffer[i] == old(buffer[i])
    {
      var tfs := t.Fields();
      end := at;
      assert tfs[0..] == tfs && old(buffer[..at]) + FieldSpecs(tfs[..0]) == old(buffer[..at]);
      for i := 0 to |tfs|
        invariant end + SpecSizes(tfs[i..]) == tsize
        invariant buffer[..end] == old(buffer[..at]) + FieldSpecs(tfs[..i])
        invariant forall i :: tsize <= i < buffer.Length ==> buffer[i] == old(buffer[i])
      {
        assert tfs[i..][0] == tfs[i] && tfs[i..][1..] == tfs[i + 1..];
        assert tfs[..i + 1] == tfs[..i] + [tfs[i]];
        FlatMapAppend(FieldSpec, tfs[..i], [tfs[i]]);
        FlatMapOne(FieldSpec, tfs[i]);
        end := WriteFieldSpec(tfs[i], end);
        Assoc(old(buffer[..at]), FieldSpecs(tfs[..i]), FieldSpec(tfs[i]));
      }
      assert tfs[..|tfs|] == tfs;
    }

    // ----- data sets go behind -----

    /** Writes the id and the real length over the header of the set being written, and closes the set. */
    method FinishCs()
      requires csTid > 0 && csHeader + 4 <= buffer.Length
      modifies this`csTid, this`csBytes, this`csHeader, buffer
      ensures csTid == 0
      ensures buffer[..] == old(buffer[..csHeader] + (U16(csTid) + U16(csBytes)) + buffer[csHeader + 4..])
    {
      Patch(buffer, csHeader, U16(csTid) + U16(csBytes));
      csTid, csBytes, csHeader := 0, 0, 0;
    }

    method WriteSet(t: Template, r: Record, datasetlen: nat) returns (end: Result<nat>)
      requires t.Readable() && forall k :: 0 <= k < |t.Fields()| ==> Measured(t.Fields()[k], r)
      requires offset + 4 + RecordSize(t.Fields(), r) <= buffer.Length
      modifies buffer
      ensures end.Ok? <==> RecordOctets(t, r).Ok?
      ensures end.Ok? ==> end.value == offset + 4 + |RecordOctets(t, r).value| <= buffer.Length
      ensures end.Ok? ==> buffer[..end.value] ==
                          old(buffer[..offset]) + (U16(t.tid) + U16(datasetlen)) + RecordOctets(t, r).value
    {
      Append(buffer, offset, U16(t.tid) + U16(datasetlen));
      end := WriteRecord(t.Fields(), r, offset + 4);
    }

    method OutputRecord(t: Template, r: Record, datasetlen: nat) returns (result: Result<()>)
      requires Valid() && csTid == 0 && t.tid > 0
      requires t.Readable() && forall k :: 0 <= k < |t.Fields()| ==> Measured(t.Fields()[k], r)
      requires offset + 4 + RecordSize(t.Fields(), r) <= buffer.Length
      modifies this`csTid, this`csBytes, this`csHeader, this`offset, this`nrecords, this`seqno, buffer
      ensures result.Ok? <==> RecordOctets(t, r).Ok?
      ensures result.Ok? ==> Valid() && csTid == 0 && nrecords == old(nrecords) + 1
      ensures result.Ok? ==> offset == old(offset) + 4 + |RecordOctets(t, r).value|
      ensures result.Ok? ==>
                buffer[..offset] == old(buffer[..offset]) + DataSet(t.tid, RecordOctets(t, r).value)
    {
      hide RecordOctets, RecordSize, U16;
      ghost var was := buffer[..offset];
      csBytes, csHeader, csTid := 0, offset, t.tid;
      var end := WriteSet(t, r, datasetlen);
      if end.Err? {
        return Err(end.error);
      }
      ghost var body := RecordOctets(t, r).value;
      ghost var before := buffer[..];
      nrecords := nrecords + 1;
      csBytes := csBytes + (end.value - offset);
      offset := end.value;
      FinishCs();
      PatchedSet(before, was, U16(t.tid) + U16(datasetlen), U16(t.tid) + U16(4 + |body|), body);
      assert buffer[..][..offset] == buffer[..offset];
      seqno := seqno + 1;
      result := Ok(());
    }

    /** One record: measure it, check the space, write its set. */
    method AddRecord(t: Template, r: Record, datasetlen: nat) returns (size: Result<nat>)
      requires Valid() && csTid == 0 && t.tid > 0 && datasetlen >= 4
      modifies this`csTid, this`csBytes, this`csHeader, this`offset, this`nrecords, this`seqno, buffer
      ensures size.Ok? ==> RecordOctets(t, r).Ok?
      ensures size.Ok? ==> size.value == datasetlen + |RecordOctets(t, r).value|
      ensures size.Ok? ==> Valid() && csTid == 0 && nrecords == old(nrecords) + 1
      ensures size.Ok? ==>
                buffer[..offset] == old(buffer[..offset]) + DataSet(t.tid, RecordOctets(t, r).value)
      ensures RecordOctets(t, r).Ok? ==>
                var n := |RecordOctets(t, r).value|;
                AgreesAt(size, Place(old(offset), datasetlen + n, 4 + n, buffer.Length), offset)
    {
      hide Place, RecordSize;
      size := Measure(t, r, datasetlen);
      if size.Ok? {
        if RecordOctets(t, r).Ok? {
          RecordSizeExact(t.Fields(), r);
        }
        var space := CheckSpace(size.value, 4 + (size.value - datasetlen));
        if space.Err? {
          return Err(space.error);
        }
        var written := OutputRecord(t, r, size.value);
        if written.Err? {
          return Err(written.error);
        }
      }
    }

    /**
     * A record for a set that an import left open: it is measured, its space is checked, it is written
     * without a set header, and then the header in the deleted buffer is written.
     */
    method AddToOpenSet(t: Template, r: Record) returns (error: IpfixError)
      requires Valid()
      ensures RecordOctets(t, r).Ok? ==>
                var n := |RecordOctets(t, r).value|;
                var p := Place(offset, n, n, buffer.Length);
                error == if p.Err? then p.error else Released
    {
      hide Place, RecordSize;
      var size := Measure(t, r, 0);
      if size.Err? {
        return size.error;
      }
      if RecordOctets(t, r).Ok? {
        RecordSizeExact(t.Fields(), r);
      }
      var space := CheckSpace(size.value, size.value);
      error := if space.Err? then space.error else Released;
    }

    /** The loop over the records of one template; the length it announces accumulates over them. */
    method OutputRecords(t: Template) returns (result: Result<()>)
      requires Valid() && t.tid > 0
      modifies this`csTid, this`csBytes, this`csHeader, this`offset, this`nrecords, this`seqno, buffer
      ensures result.Ok? ==> Valid() && csTid == old(csTid) && DataSets(t, dataList).Ok?
      ensures result.Ok? && csTid > 0 ==> RecordsOf(t, dataList) == []
      ensures result.Ok? ==> nrecords == old(nrecords) + |RecordsOf(t, dataList)|
      ensures result.Ok? ==> buffer[..offset] == old(buffer[..offset]) + DataSets(t, dataList).value
      ensures DataSets(t, dataList).Ok? && (old(csTid) == 0 || RecordsOf(t, dataList) == []) ==>
                AgreesAt(result, PlaceRecords(t, dataList, 4, old(offset), buffer.Length), offset)
    {
      hide Place, RecordOctets, DataSets, PlaceRecords, DataSet, RecordsOf;
      var datasetlen: nat := 4;
      ghost var was := buffer[..offset];
      ghost var data: seq<Byte> := [];
      NoRecords(t, dataList, 4, offset, buffer.Length);
      assert was + data == was;
      for i := 0 to |dataList|
        invariant Valid() && datasetlen >= 4 && csTid == old(csTid)
        invariant csTid > 0 ==> RecordsOf(t, dataList[..i]) == []
        invariant DataSets(t, dataList[..i]) == Ok(data)
        invariant buffer[..offset] == was + data
        invariant nrecords == old(nrecords) + |RecordsOf(t, dataList[..i])|
        invariant DataSets(t, dataList).Ok? ==> DataSets(t, dataList[i..]).Ok?
        invariant DataSets(t, dataList).Ok? ==>
                    PlaceRecords(t, dataList[i..], datasetlen, offset, buffer.Length)
                    == PlaceRecords(t, dataList, 4, old(offset), buffer.Length)
      {
        DataSetsGrow(t, dataList, i);
        if DataSets(t, dataList).Ok? {
          RecordIsPlaced(t, dataList, i, datasetlen, offset, buffer.Length);
        }
        if dataList[i].tid == t.tid {
          if csTid > 0 {
            MatchIsListed(t, dataList, i);
            var error := AddToOpenSet(t, dataList[i]);
            return Err(error);
          }
          var size := AddRecord(t, dataList[i], datasetlen);
          if size.Err? {
            return Err(size.error);
          }
          datasetlen := size.value;
          ghost var one := DataSet(t.tid, RecordOctets(t, dataList[i]).value);
          Assoc(was, data, one);
          data := data + one;
        } else {
          assert data + [] == data;
        }
      }
      assert dataList[..|dataList|] == dataList;
      NoRecords(t, dataList[|dataList|..], datasetlen, offset, buffer.Length);
      result := Ok(());
    }

    /** A template that is not in the message makes get_template throw; an open set of another template is finished. */
    method OutputSet(tid: int) returns (result: Result<()>)
      requires Valid()
      modifies this`csTid, this`csBytes, this`csHeader, this`offset, this`nrecords, this`seqno, this`sent, buffer
      ensures tid !in templates ==> result == Err(BadArgument)
      ensures result.Ok? ==> Valid() && csTid == old(csTid) && CleanFor(csTid, templates[tid], dataList)
      ensures result.Ok? ==> sent == old(sent) + {tid} && DataSets(templates[tid], dataList).Ok?
      ensures result.Ok? ==> tid !in old(sent) ==> templates[tid].Readable()
      ensures result.Ok? ==> nrecords == old(nrecords) + |RecordsOf(templates[tid], dataList)|
      ensures result.Ok? ==>
                var head := if tid !in old(sent) then TemplateSet(templates[tid]) else [];
                buffer[..offset] == head + old(buffer[..offset]) + DataSets(templates[tid], dataList).value
      ensures tid in templates && DataSets(templates[tid], dataList).Ok? && CleanFor(old(csTid), templates[tid], dataList) ==>
                (tid !in old(sent) ==> templates[tid].Readable()) ==>
                  AgreesAt(result, PlaceSet(tid !in old(sent), templates[tid], dataList, old(offset), buffer.Length), offset)
    {
      hide Place, DataSets, PlaceRecords, TemplateSet, RecordsOf;
      if tid !in templates {
        return Err(BadArgument);
      }
      var t := templates[tid];
      if tid !in sent {
        result := WriteTemplate(t);
        if result.Err? {
          return;
        }
      } else {
        assert [] + buffer[..offset] == buffer[..offset];
      }
      if csTid > 0 && csTid != t.tid {
        return Err(Released);   // finish_cs writes to the header of the set, which is in the deleted buffer
      }
      result := OutputRecords(t);
    }

    /** One that fits exactly fits; ten octets before the end of the buffer it runs over it: see PlaceIff. */
    method WriteHdr(now: int) returns (result: Result<()>)
      requires Valid()
      modifies this`offset, this`length, this`exporttime, buffer
      ensures AgreesAt(result, Place(old(offset), HDR_BYTES, HDR_BYTES, buffer.Length), offset)
      ensures result.Ok? ==> Valid() && offset == old(offset) + HDR_BYTES
      ensures result.Ok? ==> length == offset % 65536 && exporttime == now % 0x1_0000_0000
      ensures result.Ok? ==>
                buffer[..offset] == Header(offset, now, nrecords, sourceid) + old(buffer[..offset])
    {
      result := CheckSpace(HDR_BYTES, HDR_BYTES);
      if result.Ok? {
        PutHdr(now);
      }
    }

    method PutHdr(now: int)
      requires Valid() && offset + HDR_BYTES <= buffer.Length
      modifies this`offset, this`length, this`exporttime, buffer
      ensures Valid() && offset == old(offset) + HDR_BYTES
      ensures length == offset % 65536 && exporttime == now % 0x1_0000_0000
      ensures buffer[..offset] == Header(offset, now, nrecords, sourceid) + old(buffer[..offset])
    {
      hide Header;
      ghost var was := buffer[..offset];
      MoveUp(buffer, HDR_BYTES, offset);
      ghost var moved := buffer[HDR_BYTES..HDR_BYTES + offset];
      assert moved == was;
      PutHdrFields(now);
      length := (offset + HDR_BYTES) % 65536;
      exporttime := now % 0x1_0000_0000;
      offset := offset + HDR_BYTES;
      assert buffer[HDR_BYTES..offset] == moved;
      assert buffer[..offset] == buffer[..HDR_BYTES] + buffer[HDR_BYTES..offset];
    }

    method PutHdrFields(now: int)
      requires offset + HDR_BYTES <= buffer.Length
      modifies buffer
      ensures buffer[..HDR_BYTES] == Header(offset + HDR_BYTES, now, nrecords, sourceid)
      ensures forall i :: HDR_BYTES <= i < buffer.Length ==> buffer[i] == old(buffer[i])
    {
      hide U16, U32;
      var total := offset + HDR_BYTES;
      Append(buffer, 0, U16(IPFIX_VERSION));
      assert buffer[..2] == U16(IPFIX_VERSION);
      Append(buffer, 2, U16(total));
      assert buffer[..4] == U16(IPFIX_VERSION) + U16(total);
      Append(buffer, 4, U32(now));
      assert buffer[..8] == U16(IPFIX_VERSION) + U16(total) + U32(now);
      Append(buffer, 8, U32(nrecords));
      assert buffer[..12] == U16(IPFIX_VERSION) + U16(total) + U32(now) + U32(nrecords);
      Append(buffer, 12, U32(sourceid));
    }

    // ----- the whole message -----

    /** `output_set` in terms of the layout; `was` is what was sent before this output. */
    method OutputNext(tid: int, ghost was: set<int>, ghost done: seq<Template>) returns (result: Result<()>)
      requires Valid() && tid in templates && (tid in sent <==> tid in was)
      requires Assemble(Unsent(was, done), done, dataList) == Ok(buffer[..offset])
      modifies this`csTid, this`csBytes, this`csHeader, this`offset, this`nrecords, this`seqno, this`sent, buffer
      ensures result.Ok? ==> Valid() && sent == old(sent) + {tid}
      ensures result.Ok? ==> csTid == old(csTid) && CleanFor(csTid, templates[tid], dataList)
      ensures result.Ok? ==>
                var longer := done + [templates[tid]];
                Assemble(Unsent(was, longer), longer, dataList) == Ok(buffer[..offset])
      ensures result.Ok? ==> nrecords == old(nrecords) + |RecordsOf(templates[tid], dataList)|
      ensures DataSets(templates[tid], dataList).Ok? && CleanFor(old(csTid), templates[tid], dataList) ==>
                (tid !in was ==> templates[tid].Readable()) ==>
                  AgreesAt(result, PlaceSet(tid !in was, templates[tid], dataList, old(offset), buffer.Length), offset)
    {
      hide Assemble, DataSets, PlaceSet, TemplateSet, RecordsOf, CleanFor;
      result := OutputSet(tid);
      if result.Ok? {
        UnsentSnoc(was, done, templates[tid]);
        BodyGrows(Unsent(was, done), done, templates[tid], tid !in was, dataList);
      }
    }

    /** One of the two loops of `output`; `written` are the templates that are in the buffer already. */
    method OutputKind(kind: TemplateKind, ids: seq<int>, ghost was: set<int>, ghost written: seq<Template>)
      returns (result: Result<()>)
      requires Valid() && AscendingIds(ids)
      requires forall i :: 0 <= i < |ids| ==> ids[i] in templates
      requires forall id :: id in templates && templates[id].kind == kind ==> (id in sent <==> id in was)
      requires Assemble(Unsent(was, written), written, dataList) == Ok(buffer[..offset])
      modifies this`csTid, this`csBytes, this`csHeader, this`offset, this`nrecords, this`seqno, this`sent, buffer
      ensures result.Ok? ==>
                var all := written + OfKind(templates, ids, kind);
                Valid() && Assemble(Unsent(was, all), all, dataList) == Ok(buffer[..offset])
      ensures result.Ok? ==> nrecords == old(nrecords) + |Regroup(OfKind(templates, ids, kind), dataList)|
      ensures result.Ok? ==> OthersSame(templates, kind, sent, old(sent))
      ensures result.Ok? ==> old(sent) <= sent && SentIn(templates, ids, kind, sent)
      ensures result.Ok? ==> csTid == old(csTid) && Clean(csTid, OfKind(templates, ids, kind), dataList)
      ensures var ts := OfKind(templates, ids, kind);
              AllDataSets(ts, dataList).Ok? && AllReadable(Unsent(was, ts)) && Clean(old(csTid), ts, dataList) ==>
                AgreesAt(result, PlaceSets(was, ts, dataList, old(offset), buffer.Length), offset)
    {
      hide Assemble, AllDataSets, DataSets, PlaceSet, PlaceSets, Regroup, RecordsOf, OfKind, Unsent, AllReadable;
      hide Clean, CleanFor, SentIn, AscendingIds, SameFrom, OthersSame;
      ghost var ts := OfKind(templates, ids, kind);
      ghost var done := written;
      ghost var rest := ts;
      ghost var fine := AllDataSets(ts, dataList).Ok? && AllReadable(Unsent(was, ts)) && Clean(csTid, ts, dataList);
      assert ids[0..] == ids;
      UnsentIds(templates, sent, was, ids, kind);
      NoneSentYet(templates, ids, kind, sent);
      for i := 0 to |ids|
        invariant Valid() && rest == OfKind(templates, ids[i..], kind)
        invariant done + rest == written + ts
        invariant Assemble(Unsent(was, done), done, dataList) == Ok(buffer[..offset])
        invariant SameFrom(templates, ids, kind, i, sent, was) && OthersSame(templates, kind, sent, old(sent))
        invariant old(sent) <= sent && SentIn(templates, ids[..i], kind, sent)
        invariant fine ==> AllDataSets(rest, dataList).Ok? && AllReadable(Unsent(was, rest)) && Clean(csTid, rest, dataList)
        invariant csTid == old(csTid) && (Clean(csTid, rest, dataList) ==> Clean(csTid, ts, dataList))
        invariant fine ==>
                    PlaceSets(was, rest, dataList, offset, buffer.Length) == PlaceSets(was, ts, dataList, old(offset), buffer.Length)
        invariant nrecords + |Regroup(rest, dataList)| == old(nrecords) + |Regroup(ts, dataList)|
      {
        OfKindFrom(templates, ids, kind, i);
        ghost var before := sent;
        if templates[ids[i]].kind == kind {
          ghost var t, later := templates[ids[i]], OfKind(templates, ids[i + 1..], kind);
          FirstOfRest(was, t, later, dataList);
          FirstIsClean(csTid, t, later, dataList);
          SameAtFirst(templates, ids, kind, i, sent, was);
          if fine {
            FirstIsPlaced(was, t, later, dataList, offset, buffer.Length);
          }
          result := OutputNext(ids[i], was, done);
          if result.Err? {
            return;
          }
          Assoc(done, [t], later);
          done, rest := done + [t], later;
        }
        SentStep(templates, ids, kind, before, sent, i);
        SameStep(templates, ids, kind, i, before, sent, was, old(sent));
      }
      NothingLeft(templates, dataList, kind, was, offset, buffer.Length);
      NothingIsClean(csTid, dataList);
      assert done + [] == done && ids[..|ids|] == ids && ids[|ids|..] == [];
      result := Ok(());
    }

    /** The two loops of `output`: the template sets, in reverse, and all data sets. */
    method OutputSets() returns (result: Result<()>)
      requires Valid() && offset == 0
      modifies this`csTid, this`csBytes, this`csHeader, this`offset, this`nrecords, this`seqno, this`sent, buffer
      ensures result.Ok? ==> Valid() && nrecords == old(nrecords) + |Regroup(WriteOrder(templates), dataList)|
      ensures result.Ok? ==> old(sent) <= sent && forall id :: id in templates ==> id in sent
      ensures result.Ok? ==> csTid == old(csTid) && Clean(csTid, WriteOrder(templates), dataList)
      ensures result.Ok? ==>
                var ts := WriteOrder(templates);
                Assemble(Unsent(old(sent), ts), ts, dataList) == Ok(buffer[..offset])
      ensures var ts := WriteOrder(templates);
              AllDataSets(ts, dataList).Ok? && AllReadable(Unsent(old(sent), ts)) && Clean(old(csTid), ts, dataList) ==>
                AgreesAt(result, PlaceSets(old(sent), ts, dataList, 0, buffer.Length), offset)
    {
      hide Assemble, AllDataSets, PlaceSets, Regroup, OfKind, IdsFrom, AllReadable, SentIn, Clean;
      var ids := IdsFrom(templates, 0);
      ghost var was := sent;
      ghost var os, ds := OfKind(templates, ids, OptionTemplate), OfKind(templates, ids, DataTemplate);
      NothingWritten(was, dataList);
      assert buffer[..offset] == [];
      GroupsFit(was, os, ds, dataList);
      GroupsAreClean(csTid, os, ds, dataList);
      if AllDataSets(os + ds, dataList).Ok? {
        GroupsArePlaced(was, os, ds, dataList, 0, buffer.Length);
      }
      result := OutputKind(OptionTemplate, ids, was, []);
      if result.Err? {
        return;
      }
      ghost var between := sent;
      assert [] + os == os;
      result := OutputKind(DataTemplate, ids, was, os);
      RegroupAppend(os, ds, dataList);
      if result.Ok? {
        AllAreSent(templates, ids, between, sent);
      }
    }

    /**
     * Any `output` leaves in the buffer exactly the octets of the specification; it succeeds, throws
     * or runs over the end of the buffer exactly as PlaceOutput says. After an import, which leaves a
     * set open, it fails unless there is nothing that would finish or extend that set.
     */
    method Output(now: int) returns (result: Result<()>)
      requires Valid()
      modifies this, buffer
      ensures Value() == old(Value())
      ensures !old(requireOutput) ==> result.Ok? && unchanged(this) && unchanged(buffer)
      ensures old(requireOutput) && result.Ok? ==>
                && Valid() && !requireOutput && fresh(buffer)
                && OutputAfter(Value(), old(sent), old(nrecords), now) == Ok(buffer[..offset])
                && length == offset % 65536 && exporttime == now % 0x1_0000_0000
                && old(sent) <= sent && forall id :: id in templates ==> id in sent
      ensures old(requireOutput) && !Clean(old(csTid), WriteOrder(templates), dataList) ==> result.Err?
      ensures old(requireOutput) && OutputAfter(Value(), old(sent), old(nrecords), now).Ok? ==>
                Clean(old(csTid), WriteOrder(templates), dataList) ==>
                  AgreesAt(result, PlaceOutput(Value(), old(sent), capacity), offset)
    {
      hide WriteOrder, Regroup, Assemble, AllDataSets, PlaceSets, Place, Seal, AllReadable, Clean;
      OutputNeedsBody(Value(), sent, nrecords, now);
      if !requireOutput {
        return Ok(());
      }
      ghost var was, count := sent, nrecords;
      buffer := new Byte[capacity];
      offset := 0;
      result := OutputSets();
      if result.Err? {
        return;
      }
      OutputIs(Value(), was, count, now, buffer[..offset]);
      ghost var body := buffer[..offset];
      result := WriteHdr(now);
      if result.Ok? {
        SealIs(body, now, nrecords, sourceid);
        requireOutput := false;
      }
    }
  }

  /** No set is open, or it is one of this template, and the template has no records. */
  ghost predicate CleanFor(open: int, t: Template, recs: seq<Record>) {
    open == 0 || (t.tid == open && RecordsOf(t, recs) == [])
  }

  ghost predicate Clean(open: int, ts: seq<Template>, recs: seq<Record>) {
    forall i :: 0 <= i < |ts| ==> CleanFor(open, ts[i], recs)
  }

  lemma FirstIsClean(open: int, t: Template, later: seq<Template>, recs: seq<Record>)
    ensures Clean(open, [t] + later, recs) <==> CleanFor(open, t, recs) && Clean(open, later, recs)
  {
    hide CleanFor;
    var first := [t];
    assert first[0] == t;
    assert Clean(open, first, recs) <==> CleanFor(open, t, recs);
    GroupsAreClean(open, first, later, recs);
  }

  lemma GroupsAreClean(open: int, os: seq<Template>, ds: seq<Template>, recs: seq<Record>)
    ensures Clean(open, os + ds, recs) <==> Clean(open, os, recs) && Clean(open, ds, recs)
  {
    hide CleanFor;
    if Clean(open, os + ds, recs) {
      assert forall i :: 0 <= i < |os| ==> (os + ds)[i] == os[i];
      assert forall i :: 0 <= i < |ds| ==> (os + ds)[|os| + i] == ds[i];
    }
  }

  lemma NothingIsClean(open: int, recs: seq<Record>)
    ensures Clean(open, [], recs)
  {
  }

  /** A message that was imported, with its templates, can only be output if it has a single one without records. */
  lemma OpenSetIsClean(open: int, ts: seq<Template>, recs: seq<Record>)
    requires DistinctIds(ts) && open > 0
    ensures Clean(open, ts, recs) <==> ts == [] || (|ts| == 1 && ts[0].tid == open && RecordsOf(ts[0], recs) == [])
  {
    hide RecordsOf;
    assert |ts| > 1 ==> ts[0].tid != open || ts[1].tid != open;
  }

  lemma {:induction false} MatchIsListed(t: Template, recs: seq<Record>, i: nat)
    requires i < |recs| && recs[i].tid == t.tid
    ensures RecordsOf(t, recs) != []
  {
    var f := (r: Record) => if r.tid == t.tid then [r] else [];
    assert recs == recs[..i] + [recs[i]] + recs[i + 1..];
    FlatMapAppend(f, recs[..i] + [recs[i]], recs[i + 1..]);
    FlatMapAppend(f, recs[..i], [recs[i]]);
    FlatMapOne(f, recs[i]);
  }

  /** The outcome that a placement predicts, and where it ends. */
  ghost predicate AgreesAt<T>(result: Result<T>, place: Result<nat>, offset: nat) {
    && (result.Ok? <==> place.Ok?)
    && (place.Err? ==> result == Err(place.error))
    && (place.Ok? ==> offset == place.value)
  }

  /** The sizes that the two halves of a template set have. */
  lemma TemplateSizeParts(t: Template)
    ensures |TemplateHead(t)| + SpecSizes(t.Fields()) == TemplateSize(t)
  {
  }

  lemma NoRecords(t: Template, recs: seq<Record>, announced: nat, offset: nat, capacity: nat)
    ensures DataSets(t, recs[..0]) == Ok([]) && RecordsOf(t, recs[..0]) == [] && recs[0..] == recs
    ensures recs == [] ==> DataSets(t, recs) == Ok([]) && PlaceRecords(t, recs, announced, offset, capacity) == Ok(offset)
  {
  }

  ghost predicate SentIn(templates: map<int, Template>, ids: seq<int>, kind: TemplateKind, sent: set<int>)
    requires forall i :: 0 <= i < |ids| ==> ids[i] in templates
  {
    forall i :: 0 <= i < |ids| && templates[ids[i]].kind == kind ==> ids[i] in sent
  }

  lemma NoneSentYet(templates: map<int, Template>, ids: seq<int>, kind: TemplateKind, sent: set<int>)
    requires forall i :: 0 <= i < |ids| ==> ids[i] in templates
    ensures SentIn(templates, ids[..0], kind, sent)
  {
  }

  lemma SentStep(templates: map<int, Template>, ids: seq<int>, kind: TemplateKind, sent: set<int>, later: set<int>, i: nat)
    requires i < |ids| && forall i :: 0 <= i < |ids| ==> ids[i] in templates
    requires SentIn(templates, ids[..i], kind, sent)
    requires sent <= later && (templates[ids[i]].kind == kind ==> ids[i] in later)
    ensures SentIn(templates, ids[..i + 1], kind, later)
  {
    assert forall k :: 0 <= k < i ==> ids[..i + 1][k] == ids[..i][k];
  }

  lemma AllAreSent(templates: map<int, Template>, ids: seq<int>, between: set<int>, sent: set<int>)
    requires ids == IdsFrom(templates, 0) && between <= sent && forall id :: id in templates ==> 0 < id < 65536
    requires SentIn(templates, ids, OptionTemplate, between) && SentIn(templates, ids, DataTemplate, sent)
    ensures forall id :: id in templates ==> id in sent
  {
    hide IdsFrom;
    forall id | id in templates
      ensures id in sent
    {
      var i := IdsCover(templates, 0, id);
      assert templates[ids[i]].kind == OptionTemplate || templates[ids[i]].kind == DataTemplate;
    }
  }

  lemma NothingLeft(templates: map<int, Template>, recs: seq<Record>, kind: TemplateKind, was: set<int>, offset: nat, capacity: nat)
    ensures OfKind(templates, [], kind) == [] && Regroup([], recs) == []
    ensures AllDataSets([], recs).Ok? && PlaceSets(was, [], recs, offset, capacity) == Ok(offset)
  {
  }

  /** From index i on, the templates of this kind are sent if they were before. */
  ghost predicate SameFrom(templates: map<int, Template>, ids: seq<int>, kind: TemplateKind, i: nat, sent: set<int>, was: set<int>)
    requires forall i :: 0 <= i < |ids| ==> ids[i] in templates
  {
    forall k :: i <= k < |ids| && templates[ids[k]].kind == kind ==> (ids[k] in sent <==> ids[k] in was)
  }

  /** The templates of the other kind are sent if they were before. */
  ghost predicate OthersSame(templates: map<int, Template>, kind: TemplateKind, sent: set<int>, was: set<int>) {
    forall id :: id in templates && templates[id].kind != kind ==> (id in sent <==> id in was)
  }

  lemma UnsentIds(templates: map<int, Template>, sent: set<int>, was: set<int>, ids: seq<int>, kind: TemplateKind)
    requires forall i :: 0 <= i < |ids| ==> ids[i] in templates
    requires forall id :: id in templates && templates[id].kind == kind ==> (id in sent <==> id in was)
    ensures SameFrom(templates, ids, kind, 0, sent, was) && OthersSame(templates, kind, sent, sent)
  {
    forall i | 0 <= i < |ids| && templates[ids[i]].kind == kind
      ensures ids[i] in sent <==> ids[i] in was
    {
      var id := ids[i];
      assert id in templates && templates[id].kind == kind;
    }
  }

  lemma SameAtFirst(templates: map<int, Template>, ids: seq<int>, kind: TemplateKind, i: nat, sent: set<int>, was: set<int>)
    requires i < |ids| && (forall i :: 0 <= i < |ids| ==> ids[i] in templates) && templates[ids[i]].kind == kind
    requires SameFrom(templates, ids, kind, i, sent, was)
    ensures ids[i] in sent <==> ids[i] in was
  {
  }

  lemma SameStep(templates: map<int, Template>, ids: seq<int>, kind: TemplateKind, i: nat,
                 before: set<int>, sent: set<int>, was: set<int>, start: set<int>)
    requires AscendingIds(ids) && i < |ids| && forall i :: 0 <= i < |ids| ==> ids[i] in templates
    requires SameFrom(templates, ids, kind, i, before, was) && OthersSame(templates, kind, before, start)
    requires sent == if templates[ids[i]].kind == kind then before + {ids[i]} else before
    ensures SameFrom(templates, ids, kind, i + 1, sent, was) && OthersSame(templates, kind, sent, start)
  {
    forall k | i + 1 <= k < |ids| && templates[ids[k]].kind == kind
      ensures ids[k] in sent <==> ids[k] in was
    {
      assert ids[i] < ids[k];
    }
  }

  lemma OutputNeedsBody(m: Message, sent: set<int>, count: nat, now: int)
    ensures OutputAfter(m, sent, count, now).Ok? ==>
              var ts := WriteOrder(m.templates);
              AllDataSets(ts, m.dataList).Ok? && AllReadable(Unsent(sent, ts))
  {
    hide AllDataSets, Unsent, WriteOrder, AllReadable;
  }

  lemma OutputIs(m: Message, sent: set<int>, count: nat, now: int, body: seq<Byte>)
    requires Assemble(Unsent(sent, WriteOrder(m.templates)), WriteOrder(m.templates), m.dataList) == Ok(body)
    ensures OutputAfter(m, sent, count, now) ==
            Ok(Seal(body, now, count + |Regroup(WriteOrder(m.templates), m.dataList)|, m.sourceid))
  {
    hide Assemble, WriteOrder, Regroup, Seal, Unsent;
  }

  lemma SealIs(body: seq<Byte>, now: int, nrecords: int, sourceid: int)
    ensures Seal(body, now, nrecords, sourceid) == Header(|body| + HDR_BYTES, now, nrecords, sourceid) + body
  {
  }

  lemma {:induction false} UnsentAppend(sent: set<int>, a: seq<Template>, b: seq<Template>)
    ensures Unsent(sent, a + b) == Unsent(sent, a) + Unsent(sent, b)
    decreases |a|
  {
    if a == [] {
      assert a + b == b && [] + Unsent(sent, b) == Unsent(sent, b);
    } else {
      assert (a + b)[0] == a[0] && (a + b)[1..] == a[1..] + b;
      UnsentAppend(sent, a[1..], b);
      Assoc([a[0]], Unsent(sent, a[1..]), Unsent(sent, b));
    }
  }

  lemma {:induction false} BadGroupSpoilsAll(a: seq<Template>, b: seq<Template>, recs: seq<Record>)
    requires AllDataSets(a, recs).Err?
    ensures AllDataSets(a + b, recs).Err?
    decreases |a|
  {
    assert (a + b)[0] == a[0] && (a + b)[1..] == a[1..] + b;
    if DataSets(a[0], recs).Ok? {
      BadGroupSpoilsAll(a[1..], b, recs);
    }
  }

  lemma GroupsFit(was: set<int>, os: seq<Template>, ds: seq<Template>, recs: seq<Record>)
    ensures AllDataSets(os + ds, recs).Ok? <==> AllDataSets(os, recs).Ok? && AllDataSets(ds, recs).Ok?
    ensures AllReadable(Unsent(was, os + ds)) <==> AllReadable(Unsent(was, os)) && AllReadable(Unsent(was, ds))
  {
    UnsentAppend(was, os, ds);
    ReadableParts(Unsent(was, os), Unsent(was, ds));
    if AllDataSets(os, recs).Ok? {
      AllDataSetsAppend(os, ds, recs);
    } else {
      BadGroupSpoilsAll(os, ds, recs);
    }
  }

  lemma {:induction false} GroupsArePlaced(was: set<int>, os: seq<Template>, ds: seq<Template>, recs: seq<Record>, offset: nat, capacity: nat)
    requires AllDataSets(os, recs).Ok? && AllDataSets(ds, recs).Ok? && AllDataSets(os + ds, recs).Ok?
    ensures var first := PlaceSets(was, os, recs, offset, capacity);
            PlaceSets(was, os + ds, recs, offset, capacity) ==
              if first.Err? then Err(first.error) else PlaceSets(was, ds, recs, first.value, capacity)
    decreases |os|
  {
    hide PlaceSet, DataSets;
    if os == [] {
      assert os + ds == ds;
    } else {
      assert (os + ds)[0] == os[0] && (os + ds)[1..] == os[1..] + ds;
      var one := PlaceSet(os[0].tid !in was, os[0], recs, offset, capacity);
      if one.Ok? {
        GroupsArePlaced(was, os[1..], ds, recs, one.value, capacity);
      }
    }
  }

  lemma NothingWritten(was: set<int>, recs: seq<Record>)
    ensures Assemble(Unsent(was, []), [], recs) == Ok([])
  {
    assert TemplateSets([]) + [] == [];
  }

  lemma RegroupAppend(os: seq<Template>, ds: seq<Template>, recs: seq<Record>)
    ensures Regroup(os + ds, recs) == Regroup(os, recs) + Regroup(ds, recs)
  {
    FlatMapAppend((t: Template) => RecordsOf(t, recs), os, ds);
  }
}
