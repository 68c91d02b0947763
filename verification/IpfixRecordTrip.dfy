/** Exported data records are imported again, with the values they had. */
module IpfixRecordTrip {
  import opened Bytes
  import opened IpfixField
  import opened IpfixLayout
  import opened IpfixReader

  function RankOf(tf: TemplateField): int {
    Rank(tf.elem.eno, tf.elem.ftype)
  }

  function RankSet(tfs: seq<TemplateField>): set<int> {
    if tfs == [] then {} else {RankOf(tfs[0])} + RankSet(tfs[1..])
  }

  /** The value of a field is there, and is one that its element and its template field can carry. */
  predicate FitsField(tf: TemplateField, r: Record) {
    && RankOf(tf) in r.fields
    && var v := r.fields[RankOf(tf)];
    && v.Valid()
    && v.Length() < 65536
    && Carries(tf.elem, v)
    && (tf.flength != VARLEN ==> v.Length() == tf.flength)
  }

  ghost predicate Fits(t: Template, r: Record) {
    && r.tid == t.tid
    && r.fields.Keys == RankSet(t.datafields)
    && forall i :: 0 <= i < |t.datafields| ==> FitsField(t.datafields[i], r)
  }

  // ----- one value -----

  function Prefix(tf: TemplateField, n: nat): seq<Byte>
    requires n < 65536
  {
    if tf.flength == VARLEN then LengthPrefix(n) else []
  }

  lemma ReadPrefix(tf: TemplateField, n: nat, rest: seq<Byte>)
    requires n < 65536 && (tf.flength != VARLEN ==> n == tf.flength)
    ensures ReadLength(tf, Prefix(tf, n) + rest) == Ok((n, rest))
  {
    var s := Prefix(tf, n) + rest;
    if tf.flength != VARLEN {
      assert s == rest;
    } else if n > 254 {
      assert s[1..] == U16(n) + rest;
      U16RoundTrip(n, rest);
      DropTwice(s, 1, 2);
    }
  }

  lemma FieldDataParts(tf: TemplateField, r: Record)
    requires FitsField(tf, r)
    ensures var v := r.fields[RankOf(tf)];
            && (NumberLengths(tf.elem.coding) == {} ==> v.Octets?)
            && FieldData(tf, r) == Ok(Prefix(tf, v.Length()) + Encode(tf.elem, v))
  {
  }

  lemma FitsParts(tf: TemplateField, r: Record)
    requires FitsField(tf, r)
    ensures RankOf(tf) in r.fields
    ensures var v := r.fields[RankOf(tf)];
            && v.Valid() && v.Length() < 65536 && Carries(tf.elem, v) && (tf.flength != VARLEN ==> v.Length() == tf.flength)
  {
  }

  lemma ReadOneValue(t: Template, i: nat, r: Record, rest: seq<Byte>, left: int, acc: Record)
    requires t.scopefields == [] && i < |t.datafields| && FitsField(t.datafields[i], r)
    requires left >= r.fields[RankOf(t.datafields[i])].Length()
    ensures var tf := t.datafields[i];
            var v := r.fields[RankOf(tf)];
            && FieldData(tf, r).Ok?
            && ReadValues(t, i, FieldData(tf, r).value + rest, left, acc)
               == ReadValues(t, i + 1, rest, left - v.Length(), acc.Insert(tf.elem.eno, tf.elem.ftype, v))
  {
    hide ReadValues, ReadLength, FitsField, FieldData, Carries, Prefix, Encode, Decode, RankOf;
    var tf := t.datafields[i];
    FitsParts(tf, r);
    var v := r.fields[RankOf(tf)];
    FieldDataParts(tf, r);
    var bytes := Encode(tf.elem, v);
    ValuesStep(t, i, FieldData(tf, r).value + rest, left, acc);
    Assoc(Prefix(tf, v.Length()), bytes, rest);
    ReadPrefix(tf, v.Length(), bytes + rest);
    DecodeInvertsEncode(tf.elem, v);
    assert (bytes + rest)[..v.Length()] == bytes;
    assert (bytes + rest)[v.Length()..] == rest;
  }

  // ----- one record -----

  ghost predicate AgreesWith(a: Record, r: Record) {
    forall k :: k in a.fields ==> k in r.fields && a.fields[k] == r.fields[k]
  }

  lemma RecordBodySplit(t: Template, i: nat, r: Record)
    requires i < |t.datafields| && FitsField(t.datafields[i], r)
    requires RecordBody(t.datafields[i + 1..], r).Ok?
    ensures FieldData(t.datafields[i], r).Ok?
    ensures RecordBody(t.datafields[i..], r)
         == Ok(FieldData(t.datafields[i], r).value + RecordBody(t.datafields[i + 1..], r).value)
    ensures RankSet(t.datafields[i..]) == {RankOf(t.datafields[i])} + RankSet(t.datafields[i + 1..])
  {
    var tfs := t.datafields[i..];
    assert tfs[0] == t.datafields[i] && tfs[1..] == t.datafields[i + 1..];
    FieldDataParts(tfs[0], r);
  }

  lemma {:induction false} RecordBodyFits(t: Template, i: nat, r: Record)
    requires i <= |t.datafields|
    requires forall k :: 0 <= k < |t.datafields| ==> FitsField(t.datafields[k], r)
    ensures RecordBody(t.datafields[i..], r).Ok?
    decreases |t.datafields| - i
  {
    if i < |t.datafields| {
      RecordBodyFits(t, i + 1, r);
      RecordBodySplit(t, i, r);
    }
  }

  lemma InsertAgrees(tf: TemplateField, r: Record, acc: Record) returns (acc': Record)
    requires FitsField(tf, r) && AgreesWith(acc, r)
    ensures acc' == acc.Insert(tf.elem.eno, tf.elem.ftype, r.fields[RankOf(tf)])
    ensures AgreesWith(acc', r) && acc'.fields.Keys == acc.fields.Keys + {RankOf(tf)} && acc'.tid == acc.tid
    ensures FieldData(tf, r).Ok? && r.fields[RankOf(tf)].Length() <= |FieldData(tf, r).value|
  {
    FieldDataParts(tf, r);
    acc' := acc.Insert(tf.elem.eno, tf.elem.ftype, r.fields[RankOf(tf)]);
  }

  lemma ReadOneMoreValue(t: Template, i: nat, r: Record, rest: seq<Byte>, left: int, acc: Record)
    returns (left': int, acc': Record)
    requires t.scopefields == [] && i < |t.datafields| && AgreesWith(acc, r)
    requires forall k :: 0 <= k < |t.datafields| ==> FitsField(t.datafields[k], r)
    requires RecordBody(t.datafields[i..], r).Ok?
    requires left >= |RecordBody(t.datafields[i..], r).value|
    ensures AgreesWith(acc', r) && acc'.tid == acc.tid
    ensures acc'.fields.Keys == acc.fields.Keys + {RankOf(t.datafields[i])}
    ensures RankSet(t.datafields[i..]) == {RankOf(t.datafields[i])} + RankSet(t.datafields[i + 1..])
    ensures RecordBody(t.datafields[i + 1..], r).Ok?
    ensures left' >= |RecordBody(t.datafields[i + 1..], r).value|
    ensures ReadValues(t, i, RecordBody(t.datafields[i..], r).value + rest, left, acc)
         == ReadValues(t, i + 1, RecordBody(t.datafields[i + 1..], r).value + rest, left', acc')
  {
    hide *;
    var tf := t.datafields[i];
    FitsParts(tf, r);
    RecordBodyFits(t, i + 1, r);
    RecordBodySplit(t, i, r);
    var later := RecordBody(t.datafields[i + 1..], r).value;
    acc' := InsertAgrees(tf, r, acc);
    left' := left - r.fields[RankOf(tf)].Length();
    ReadOneValue(t, i, r, later + rest, left, acc);
    Assoc(FieldData(tf, r).value, later, rest);
  }

  /** Reading the octets of the remaining fields copies the record's values, field by field. */
  lemma {:induction false} ReadBody(t: Template, i: nat, r: Record, rest: seq<Byte>, left: int, acc: Record)
    returns (read: Record)
    requires t.scopefields == [] && i <= |t.datafields| && AgreesWith(acc, r)
    requires forall k :: 0 <= k < |t.datafields| ==> FitsField(t.datafields[k], r)
    requires RecordBody(t.datafields[i..], r).Ok?
    requires left >= |RecordBody(t.datafields[i..], r).value|
    ensures ReadValues(t, i, RecordBody(t.datafields[i..], r).value + rest, left, acc) == Ok((read, rest))
    ensures AgreesWith(read, r) && read.tid == acc.tid
    ensures read.fields.Keys == acc.fields.Keys + RankSet(t.datafields[i..])
    decreases |t.datafields| - i
  {
    if i == |t.datafields| {
      assert [] + rest == rest;
      read := acc;
    } else {
      var left', acc' := ReadOneMoreValue(t, i, r, rest, left, acc);
      read := ReadBody(t, i + 1, r, rest, left', acc');
      assert acc.fields.Keys + RankSet(t.datafields[i..]) == acc'.fields.Keys + RankSet(t.datafields[i + 1..]);
    }
  }

  lemma AgreementIsEquality(a: Record, r: Record)
    requires AgreesWith(a, r) && a.fields.Keys == r.fields.Keys && a.tid == r.tid
    ensures a == r
  {
    forall k | k in r.fields.Keys
      ensures k in a.fields && a.fields[k] == r.fields[k]
    {
      assert k in a.fields.Keys;
    }
    assert a.fields == r.fields;
  }

  /** A record of a template is read back as it was, consuming exactly its octets. */
  lemma ReadRecord(t: Template, r: Record, rest: seq<Byte>)
    requires t.scopefields == [] && Fits(t, r)
    ensures var body := RecordBody(t.datafields, r);
            && body.Ok?
            && ReadValues(t, 0, body.value + rest, |body.value|, Record(t.tid, map[])) == Ok((r, rest))
  {
    assert t.datafields[0..] == t.datafields;
    RecordBodyFits(t, 0, r);
    var body := RecordBody(t.datafields, r).value;
    var read := ReadBody(t, 0, r, rest, |body|, Record(t.tid, map[]));
    AgreementIsEquality(read, r);
  }
}
