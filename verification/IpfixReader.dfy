/** What importing a string of octets means, set by set, and the importer with its cursors. */
module IpfixReader {
  import opened Bytes
  import opened IpfixField
  import opened IpfixLayout

  const SETID_TEMPLATE_NF9 := 0
  const SETID_OPTTEMPLATE_NF9 := 1
  const FIRST_LAST_TID := 255

  /** What an import has built so far: message->templates, g_lasttid and data_list. */
  datatype State = State(templates: map<int, Template>, lastTid: int, dataList: seq<Record>)

  datatype Imported = Imported(nread: nat, length: int, exporttime: int, seqno: int, sourceid: int,
                               templates: map<int, Template>, dataList: seq<Record>)

  const EMPTY := State(map[], FIRST_LAST_TID, [])

  // ----- template records; every read is bounded by the octets left in the set -----

  function ReadField(dict: seq<FieldType>, w: seq<Byte>): (r: Result<(TemplateField, seq<Byte>)>)
    ensures r.Ok? ==> |r.value.1| + 4 <= |w| && r.value.1 == w[|w| - |r.value.1|..]
  {
    if |w| < 4 then Err(BadArgument)
    else
      var ftype, flength := ReadU16(w), ReadU16(w[2..]);
      if ftype >= VENDOR_BIT && |w| < 8 then Err(BadArgument)
      else
        var eno := if ftype >= VENDOR_BIT then ToInt32(ReadU32(w[4..])) else 0;
        var rest := if ftype >= VENDOR_BIT then w[8..] else w[4..];
        var elem := Lookup(dict, eno, ftype % VENDOR_BIT);
        if elem.Ok? then Ok((TemplateField(flength, true, elem.value), rest))
        else
          var unknown :- Lookup(dict, 0, 0);
          Ok((TemplateField(flength, false, unknown), rest))
  }

  function AddField(t: Template, tf: TemplateField, isScope: bool): Template {
    if isScope then t.(scopefields := t.scopefields + [tf]) else t.(datafields := t.datafields + [tf])
  }

  function ReadFields(dict: seq<FieldType>, w: seq<Byte>, i: nat, nfields: nat, nscope: nat, t: Template)
    : (r: Result<(Template, seq<Byte>)>)
    requires i <= nfields
    ensures r.Ok? ==> |r.value.1| + 4 * (nfields - i) <= |w| && r.value.1 == w[|w| - |r.value.1|..]
    decreases nfields - i
  {
    if i == nfields then Ok((t, w))
    else
      var field :- ReadField(dict, w);
      ReadFields(dict, field.1, i + 1, nfields, nscope, AddField(t, field.0, i < nscope))
  }

  /** The id, field count and scope count of a template record, and the octets after them. */
  function ReadTemplateHead(setid: int, w: seq<Byte>): (r: Result<(int, nat, nat, seq<Byte>)>)
    ensures r.Ok? ==> |r.value.3| + 4 <= |w| && r.value.3 == w[|w| - |r.value.3|..]
  {
    if setid == SETID_OPTTEMPLATE then
      if |w| < 6 then Err(BadArgument)
      else Ok((ReadU16(w), ReadU16(w[2..]), ReadU16(w[4..]), w[6..]))
    else if setid == SETID_OPTTEMPLATE_NF9 then
      if |w| < 6 || ReadU16(w[2..]) + ReadU16(w[4..]) < |w| then Err(BadArgument)
      else Ok((ReadU16(w), ReadU16(w[2..]) / 4 + ReadU16(w[4..]) / 4, ReadU16(w[2..]) / 4, w[6..]))
    else
      if |w| < 4 then Err(BadArgument) else Ok((ReadU16(w), ReadU16(w[2..]), 0, w[4..]))
  }

  function KindOf(setid: int): TemplateKind {
    if setid == SETID_OPTTEMPLATE || setid == SETID_OPTTEMPLATE_NF9 then OptionTemplate else DataTemplate
  }

  /** A template record is stored under the next free id, whatever its id on the wire. */
  function Store(st: State, wireId: int, t: Template): State {
    st.(templates := (st.templates - {wireId})[t.tid := t], lastTid := t.tid)
  }

  function NextTid(st: State): int {
    (st.lastTid + 1) % 65536
  }

  function ReadTemplateRecord(dict: seq<FieldType>, setid: int, w: seq<Byte>, st: State)
    : (r: Result<(State, seq<Byte>)>)
    ensures r.Ok? ==> |r.value.1| + 8 <= |w| && r.value.1 == w[|w| - |r.value.1|..]
  {
    var (wireId, nfields, nscope, rest) :- ReadTemplateHead(setid, w);
    if nfields == 0 then Err(BadArgument)   // a withdrawal: new_template refuses a template without fields
    else
      var (t, rest') :- ReadFields(dict, rest, 0, nfields, nscope,
                                   Template(NextTid(st), KindOf(setid), nfields, [], []));
      Ok((Store(st, wireId, t), rest'))
  }

  function ReadTemplates(dict: seq<FieldType>, setid: int, w: seq<Byte>, st: State): Result<State>
    decreases |w|
  {
    if |w| <= 4 then Ok(st)
    else
      var (st', rest) :- ReadTemplateRecord(dict, setid, w, st);
      ReadTemplates(dict, setid, rest, st')
  }

  // ----- data records; `left` counts value octets only, so reads may run past the set -----

  function ReadLength(tf: TemplateField, s: seq<Byte>): (r: Result<(nat, seq<Byte>)>)
    ensures r.Ok? ==> |r.value.1| <= |s| && r.value.1 == s[|s| - |r.value.1|..]
  {
    if tf.flength != VARLEN then Ok((tf.flength, s))
    else if |s| < 1 then Err(OutOfBounds)
    else if s[0] != 255 then Ok((s[0] as int, s[1..]))
    else if |s| < 3 then Err(OutOfBounds)
    else Ok((ReadU16(s[1..]), s[3..]))
  }

  function ReadValues(t: Template, i: nat, s: seq<Byte>, left: int, r: Record)
    : (result: Result<(Record, seq<Byte>)>)
    requires i <= t.NumFields()
    ensures result.Ok? ==> |result.value.1| <= |s|
    decreases t.NumFields() - i
  {
    if i == t.NumFields() then Ok((r, s))
    else
      var tf :- t.GetField(i);
      var (len, s') :- ReadLength(tf, s);
      if left < len then Err(BadArgument)
      else if |s'| < len then Err(OutOfBounds)
      else
        var v :- Decode(tf.elem, s'[..len]);
        ReadValues(t, i + 1, s'[len..], left - len, r.Insert(tf.elem.eno, tf.elem.ftype, v))
  }

  function ReadRecords(t: Template, s: seq<Byte>, left: int, acc: seq<Record>): Result<seq<Record>>
    decreases |s|
  {
    if left <= 0 then Ok(acc)
    else
      var (r, rest) :- ReadValues(t, 0, s, left, Record(t.tid, map[]));
      if |rest| == |s| then Err(Endless)
      else ReadRecords(t, rest, left - (|s| - |rest|), acc + [r])
  }

  // ----- sets and the message -----

  /** One set: s starts after the set header and runs to the end of the buffer. */
  function ReadSet(dict: seq<FieldType>, setid: int, s: seq<Byte>, len: nat, st: State): Result<State>
    requires len <= |s|
  {
    if 0 <= setid <= 3 then ReadTemplates(dict, setid, s[..len], st)
    else if setid <= 255 then Ok(st)
    else if setid !in st.templates then Err(BadArgument)   // get_template throws
    else
      var recs :- ReadRecords(st.templates[setid], s, len, st.dataList);
      Ok(st.(dataList := recs))
  }

  function ReadSets(dict: seq<FieldType>, s: seq<Byte>, st: State): (r: Result<(State, seq<Byte>)>)
    ensures r.Ok? ==> |r.value.1| <= |s|
    decreases |s|
  {
    if |s| <= 4 then Ok((st, s))
    else
      var setid, setlen := ReadU16(s), ReadU16(s[2..]);
      if setlen < 4 then ReadSets(dict, s[4..], st)
      else if setlen > |s| then Ok((st, s[4..]))
      else
        var st' :- ReadSet(dict, setid, s[4..], setlen - 4, st);
        ReadSets(dict, s[setlen..], st')
  }

  function Import(dict: seq<FieldType>, b: seq<Byte>): Result<Imported> {
    if |b| < 2 then Err(BadArgument)
    else if ReadU16(b) == 9 then Err(OtherVersion)
    else if ReadU16(b) != IPFIX_VERSION || |b| < HDR_BYTES then Err(BadArgument)
    else
      var (st, rest) :- ReadSets(dict, b[HDR_BYTES..], EMPTY);
      Ok(Imported(|b| - |rest|, ReadU16(b[2..]), ReadU32(b[4..]), ReadU32(b[8..]), ToInt32(ReadU32(b[12..])),
                  st.templates, st.dataList))
  }

  /** The octets that were read are kept in the message's buffer, which is copied into unchecked. */
  function ImportInto(dict: seq<FieldType>, b: seq<Byte>, capacity: nat): Result<Imported> {
    var i :- Import(dict, b);
    if i.nread > capacity then Err(Overrun) else Ok(i)
  }

  // ----- one step of each reader -----

  lemma {:induction false} FieldsStep(dict: seq<FieldType>, w: seq<Byte>, i: nat, nfields: nat, nscope: nat, t: Template)
    requires i <= nfields
    ensures var field := ReadField(dict, w);
            ReadFields(dict, w, i, nfields, nscope, t) ==
              if i == nfields then Ok((t, w))
              else if field.Err? then Err(field.error)
              else ReadFields(dict, field.value.1, i + 1, nfields, nscope, AddField(t, field.value.0, i < nscope))
  {
  }

  lemma {:induction false} ValuesStep(t: Template, i: nat, s: seq<Byte>, left: int, r: Record)
    requires i <= t.NumFields()
    ensures ReadValues(t, i, s, left, r) ==
              if i == t.NumFields() then Ok((r, s))
              else if t.GetField(i).Err? then Err(t.GetField(i).error)
              else
                var tf := t.GetField(i).value;
                if ReadLength(tf, s).Err? then Err(ReadLength(tf, s).error)
                else
                  var (len, s') := ReadLength(tf, s).value;
                  if left < len then Err(BadArgument)
                  else if |s'| < len then Err(OutOfBounds)
                  else if Decode(tf.elem, s'[..len]).Err? then Err(Decode(tf.elem, s'[..len]).error)
                  else ReadValues(t, i + 1, s'[len..], left - len,
                                  r.Insert(tf.elem.eno, tf.elem.ftype, Decode(tf.elem, s'[..len]).value))
  {
  }

  lemma {:induction false} TemplatesStep(dict: seq<FieldType>, setid: int, w: seq<Byte>, st: State)
    ensures var one := ReadTemplateRecord(dict, setid, w, st);
            ReadTemplates(dict, setid, w, st) ==
              if |w| <= 4 then Ok(st)
              else if one.Err? then Err(one.error)
              else ReadTemplates(dict, setid, one.value.1, one.value.0)
  {
  }

  lemma {:induction false} RecordsStep(t: Template, s: seq<Byte>, left: int, acc: seq<Record>)
    ensures var one := ReadValues(t, 0, s, left, Record(t.tid, map[]));
            ReadRecords(t, s, left, acc) ==
              if left <= 0 then Ok(acc)
              else if one.Err? then Err(one.error)
              else if |one.value.1| == |s| then Err(Endless)
              else ReadRecords(t, one.value.1, left - (|s| - |one.value.1|), acc + [one.value.0])
  {
    hide ReadValues;
  }

  lemma {:induction false} SetsStep(dict: seq<FieldType>, s: seq<Byte>, st: State)
    ensures ReadSets(dict, s, st) ==
              if |s| <= 4 then Ok((st, s))
              else
                var setid, setlen := ReadU16(s), ReadU16(s[2..]);
                if setlen < 4 then ReadSets(dict, s[4..], st)
                else if setlen > |s| then Ok((st, s[4..]))
                else if ReadSet(dict, setid, s[4..], setlen - 4, st).Err?
                then Err(ReadSet(dict, setid, s[4..], setlen - 4, st).error)
                else ReadSets(dict, s[setlen..], ReadSet(dict, setid, s[4..], setlen - 4, st).value)
  {
  }
}
