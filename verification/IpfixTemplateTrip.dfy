/** Exported templates are imported again, under the ids that import hands out. */
module IpfixTemplateTrip {
  import opened Bytes
  import opened IpfixField
  import opened IpfixLayout
  import opened IpfixReader

  // ----- what may be exported -----

  /** A field that import reads back as it was specified. */
  ghost predicate SpecifiedField(dict: seq<FieldType>, tf: TemplateField) {
    && tf.known
    && tf.flength < 65536
    && 0 <= tf.elem.ftype < VENDOR_BIT
    && -0x8000_0000 <= tf.elem.eno < 0x8000_0000
    && Lookup(dict, tf.elem.eno, tf.elem.ftype) == Ok(tf.elem)
  }

  ghost predicate SpecifiedTemplate(dict: seq<FieldType>, t: Template) {
    && t.scopefields == []
    && 1 <= |t.datafields| == t.maxfields
    && 0 <= t.tid < 65536
    && TemplateSize(t) < 65536
    && forall i :: 0 <= i < |t.datafields| ==> SpecifiedField(dict, t.datafields[i])
  }

  /** Such a template, with fields that take octets. */
  ghost predicate WritableTemplate(dict: seq<FieldType>, t: Template) {
    SpecifiedTemplate(dict, t) && forall i :: 0 <= i < |t.datafields| ==> t.datafields[i].flength > 0
  }

  // ----- templates -----

  lemma ReadTwoWords(a: int, b: int, rest: seq<Byte>)
    requires 0 <= a < 65536 && 0 <= b < 65536
    ensures var s := U16(a) + (U16(b) + rest);
            ReadU16(s) == a && ReadU16(s[2..]) == b && s[4..] == rest
  {
    U16RoundTrip(a, U16(b) + rest);
    U16RoundTrip(b, rest);
    DropTwice(U16(a) + (U16(b) + rest), 2, 2);
  }

  lemma ReadFieldSpec(dict: seq<FieldType>, tf: TemplateField, rest: seq<Byte>)
    requires SpecifiedField(dict, tf)
    ensures ReadField(dict, FieldSpec(tf) + rest) == Ok((tf, rest))
  {
    hide U16, U32, ReadU16, ReadU32, Lookup;
    var w := FieldSpec(tf) + rest;
    var ftype := if tf.elem.eno == 0 then tf.elem.ftype else tf.elem.ftype + VENDOR_BIT;
    var tail := if tf.elem.eno == 0 then rest else U32(tf.elem.eno) + rest;
    Assoc(U16(ftype), U16(tf.flength), rest);
    Assoc(U16(ftype) + U16(tf.flength), U32(tf.elem.eno), rest);
    Assoc(U16(ftype), U16(tf.flength), tail);
    assert w == U16(ftype) + (U16(tf.flength) + tail);
    ReadTwoWords(ftype, tf.flength, tail);
    if tf.elem.eno != 0 {
      SignedRoundTrip(tf.elem.eno, rest);
      DropTwice(w, 4, 4);
    }
  }

  lemma ReadOneMoreField(dict: seq<FieldType>, tfs: seq<TemplateField>, rest: seq<Byte>, i: nat, n: nat, t: Template)
    requires tfs != [] && SpecifiedField(dict, tfs[0]) && i < n
    ensures ReadFields(dict, FieldSpecs(tfs) + rest, i, n, 0, t)
         == ReadFields(dict, FieldSpecs(tfs[1..]) + rest, i + 1, n, 0, t.(datafields := t.datafields + [tfs[0]]))
  {
    Assoc(FieldSpec(tfs[0]), FieldSpecs(tfs[1..]), rest);
    ReadFieldSpec(dict, tfs[0], FieldSpecs(tfs[1..]) + rest);
  }

  lemma {:induction false} ReadFieldSpecs(dict: seq<FieldType>, tfs: seq<TemplateField>, rest: seq<Byte>,
                                          i: nat, n: nat, t: Template)
    requires forall k :: 0 <= k < |tfs| ==> SpecifiedField(dict, tfs[k])
    requires n == i + |tfs|
    ensures ReadFields(dict, FieldSpecs(tfs) + rest, i, n, 0, t)
         == Ok((t.(datafields := t.datafields + tfs), rest))
    decreases |tfs|
  {
    if tfs == [] {
      assert t.datafields + tfs == t.datafields;
      assert FieldSpecs(tfs) + rest == rest;
    } else {
      ReadOneMoreField(dict, tfs, rest, i, n, t);
      ReadFieldSpecs(dict, tfs[1..], rest, i + 1, n, t.(datafields := t.datafields + [tfs[0]]));
      Assoc(t.datafields, [tfs[0]], tfs[1..]);
      assert [tfs[0]] + tfs[1..] == tfs;
    }
  }

  /** What import makes of one exported template: the same template under the next free id. */
  function AddTemplate(st: State, t: Template): State {
    Store(st, t.tid, t.(tid := NextTid(st)))
  }

  function AddTemplates(st: State, ts: seq<Template>): State
    decreases |ts|
  {
    if ts == [] then st else AddTemplates(AddTemplate(st, ts[0]), ts[1..])
  }

  function SetIdOf(t: Template): int {
    if t.kind == OptionTemplate then SETID_OPTTEMPLATE else SETID_TEMPLATE
  }

  lemma FieldCountFits(tfs: seq<TemplateField>)
    ensures 4 * |tfs| <= SpecSizes(tfs)
  {
  }

  /** The octets of a template set after its set header. */
  function TemplateRecord(t: Template): seq<Byte> {
    U16(t.tid) + (U16(|t.Fields()|) +
      ((if t.kind == OptionTemplate then U16(|t.scopefields|) else []) + FieldSpecs(t.Fields())))
  }

  lemma TemplateSetParts(t: Template)
    ensures TemplateSet(t) == U16(SetIdOf(t)) + (U16(TemplateSize(t)) + TemplateRecord(t))
    ensures |TemplateRecord(t)| == TemplateSize(t) - 4
  {
    TemplateSizeExact(t);
    var specs := FieldSpecs(t.Fields());
    var a, b, c, d := U16(SetIdOf(t)), U16(TemplateSize(t)), U16(t.tid), U16(|t.Fields()|);
    var e := U16(|t.scopefields|);
    if t.kind == OptionTemplate {
      Assoc(a + b + c + d, e, specs);
      Assoc(a + b + c, d, e + specs);
      Assoc(a + b, c, d + (e + specs));
      Assoc(a, b, c + (d + (e + specs)));
    } else {
      assert [] + specs == specs;
      Assoc(a + b + c, d, specs);
      Assoc(a + b, c, d + specs);
      Assoc(a, b, c + (d + specs));
    }
  }

  lemma ReadTemplateHeadOf(t: Template)
    requires 0 <= t.tid < 65536 && TemplateSize(t) < 65536 && t.scopefields == []
    ensures ReadTemplateHead(SetIdOf(t), TemplateRecord(t))
         == Ok((t.tid, |t.datafields|, 0, FieldSpecs(t.datafields)))
  {
    FieldCountFits(t.datafields);
    var specs, w := FieldSpecs(t.datafields), TemplateRecord(t);
    ReadTwoWords(t.tid, |t.datafields|, (if t.kind == OptionTemplate then U16(0) else []) + specs);
    if t.kind == OptionTemplate {
      U16RoundTrip(0, specs);
      DropTwice(w, 4, 2);
    } else {
      assert [] + specs == specs;
    }
  }

  lemma ReadOneTemplateSet(dict: seq<FieldType>, t: Template, rest: seq<Byte>, st: State)
    requires SpecifiedTemplate(dict, t)
    ensures ReadSets(dict, TemplateSet(t) + rest, st) == ReadSets(dict, rest, AddTemplate(st, t))
  {
    var w, size := TemplateRecord(t), TemplateSize(t);
    var s := TemplateSet(t) + rest;
    TemplateSetParts(t);
    Assoc(U16(SetIdOf(t)), U16(size) + w, rest);
    Assoc(U16(size), w, rest);
    ReadTwoWords(SetIdOf(t), size, w + rest);
    assert s[4..][..size - 4] == w;
    DropTwice(s, 4, size - 4);
    assert s[size..] == rest;
    ReadTemplateHeadOf(t);
    var blank := Template(NextTid(st), KindOf(SetIdOf(t)), |t.datafields|, [], []);
    ReadFieldSpecs(dict, t.datafields, [], 0, |t.datafields|, blank);
    assert FieldSpecs(t.datafields) + [] == FieldSpecs(t.datafields);
    assert [] + t.datafields == t.datafields;
    FieldCountFits(t.datafields);
    assert ReadTemplateRecord(dict, SetIdOf(t), w, st) == Ok((AddTemplate(st, t), []));
    assert ReadTemplates(dict, SetIdOf(t), w, st) == Ok(AddTemplate(st, t));
  }

  lemma {:induction false} ReadTemplateSets(dict: seq<FieldType>, ts: seq<Template>, rest: seq<Byte>, st: State)
    requires forall i :: 0 <= i < |ts| ==> SpecifiedTemplate(dict, ts[i])
    ensures ReadSets(dict, TemplateSets(ts) + rest, st) == ReadSets(dict, rest, AddTemplates(st, ts))
    decreases |ts|
  {
    if ts == [] {
      assert TemplateSets(ts) + rest == rest;
    } else {
      Assoc(TemplateSet(ts[0]), TemplateSets(ts[1..]), rest);
      ReadOneTemplateSet(dict, ts[0], TemplateSets(ts[1..]) + rest, st);
      ReadTemplateSets(dict, ts[1..], rest, AddTemplate(st, ts[0]));
    }
  }
}
