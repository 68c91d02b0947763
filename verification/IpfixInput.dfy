/** What import makes of octets that this program's exporter does not write, octet by octet. */
module IpfixInput {
  import opened Bytes
  import opened IpfixField
  import opened IpfixLayout
  import opened IpfixReader

  function Sixteen(a: Byte, b: Byte): nat {
    var x: int := a;
    256 * x + b
  }

  function ThirtyTwo(a: Byte, b: Byte, c: Byte, d: Byte): nat {
    0x1_0000 * Sixteen(a, b) + Sixteen(c, d)
  }

  /** An `int` with the bits of this word. */
  function Signed(n: nat): int {
    if n < 0x8000_0000 then n else n - 0x1_0000_0000
  }

  lemma WordsAt(s: seq<Byte>, i: nat)
    requires i + 4 <= |s|
    ensures ReadU16(s[i..]) == Sixteen(s[i], s[i + 1]) && ReadU32(s[i..]) == ThirtyTwo(s[i], s[i + 1], s[i + 2], s[i + 3])
    ensures ReadU32(s[i..]) < 0x1_0000_0000 && ToInt32(ReadU32(s[i..])) == Signed(ReadU32(s[i..]))
  {
    assert s[i..][2..][0] == s[i + 2];
  }

  // ----- the message -----

  /** Version 10 and sixteen octets; the length is not looked at; then the sets, with ids from 256 on. */
  lemma HeaderIsRead(dict: seq<FieldType>, b: seq<Byte>)
    ensures var r := Import(dict, b);
            if |b| >= 2 && b[0] == 0 && b[1] == 9 then r == Err(OtherVersion)
            else if |b| < 16 || b[0] != 0 || b[1] != 10 then r == Err(BadArgument)
            else
              var sets := ReadSets(dict, b[16..], State(map[], 255, []));
              if sets.Err? then r == Err(sets.error)
              else
                && r.Ok? && r.value.nread == |b| - |sets.value.1|
                && r.value.templates == sets.value.0.templates && r.value.dataList == sets.value.0.dataList
                && r.value.exporttime == ThirtyTwo(b[4], b[5], b[6], b[7])
                && r.value.seqno == ThirtyTwo(b[8], b[9], b[10], b[11])
                && r.value.sourceid == Signed(ThirtyTwo(b[12], b[13], b[14], b[15]))
  {
    hide ReadSets, ReadU32, ThirtyTwo;
    if |b| >= 16 {
      WordsAt(b, 4);
      WordsAt(b, 8);
      WordsAt(b, 12);
    }
  }

  /**
   * At most four octets are left alone. A set that is shorter than its header only loses its header; one
   * that is longer than the octets ends the import there, without an error. Ids from 4 to 255 are skipped,
   * and 256 and more need a template of this message.
   */
  lemma SetIsRead(dict: seq<FieldType>, s: seq<Byte>, st: State)
    ensures |s| <= 4 ==> ReadSets(dict, s, st) == Ok((st, s))
    ensures |s| > 4 ==>
              var r, setid, len := ReadSets(dict, s, st), Sixteen(s[0], s[1]), Sixteen(s[2], s[3]);
              if len < 4 then r == ReadSets(dict, s[4..], st)
              else if len > |s| then r == Ok((st, s[4..]))
              else if 4 <= setid <= 255 then r == ReadSets(dict, s[len..], st)
              else
                var one := if setid <= 3 then ReadTemplates(dict, setid, s[4..len], st)
                           else if setid !in st.templates then Err(BadArgument)
                           else
                             var recs := ReadRecords(st.templates[setid], s[4..], len - 4, st.dataList);
                             if recs.Err? then Err(recs.error) else Ok(st.(dataList := recs.value));
                if one.Err? then r == Err(one.error) else r == ReadSets(dict, s[len..], one.value)
  {
    hide ReadTemplates, ReadRecords, ReadSets;
    SetsStep(dict, s, st);
    if |s| > 4 {
      var len := Sixteen(s[2], s[3]);
      assert 4 <= len <= |s| ==> s[4..][..len - 4] == s[4..len];
    }
  }

  // ----- templates -----

  /** Five octets or more are another record: its id does not matter, and without fields it is an error. */
  lemma TemplateIsRead(dict: seq<FieldType>, w: seq<Byte>, st: State)
    ensures |w| <= 4 ==> ReadTemplates(dict, 2, w, st) == ReadTemplates(dict, 3, w, st) == Ok(st)
    ensures |w| > 4 ==>
              var r, n, tid := ReadTemplates(dict, 2, w, st), Sixteen(w[2], w[3]), (st.lastTid + 1) % 65536;
              if n == 0 then r == Err(BadArgument)
              else
                var t := ReadFields(dict, w[4..], 0, n, 0, Template(tid, DataTemplate, n, [], []));
                if t.Err? then r == Err(t.error)
                else
                  var (t', rest) := t.value;
                  var kept := st.templates - {Sixteen(w[0], w[1])};
                  r == ReadTemplates(dict, 2, rest, st.(templates := kept[t'.tid := t'], lastTid := t'.tid))
    ensures |w| == 5 ==> ReadTemplates(dict, 3, w, st) == Err(BadArgument)
    ensures |w| > 5 ==>
              var r, n, scopes, tid := ReadTemplates(dict, 3, w, st), Sixteen(w[2], w[3]), Sixteen(w[4], w[5]), (st.lastTid + 1) % 65536;
              if n == 0 then r == Err(BadArgument)
              else
                var t := ReadFields(dict, w[6..], 0, n, scopes, Template(tid, OptionTemplate, n, [], []));
                if t.Err? then r == Err(t.error)
                else
                  var (t', rest) := t.value;
                  var kept := st.templates - {Sixteen(w[0], w[1])};
                  r == ReadTemplates(dict, 3, rest, st.(templates := kept[t'.tid := t'], lastTid := t'.tid))
  {
    hide ReadFields, ReadTemplates;
    TemplatesStep(dict, 2, w, st);
    TemplatesStep(dict, 3, w, st);
  }

  lemma RecordStep(dict: seq<FieldType>, setid: int, w: seq<Byte>, st: State)
    ensures var r, head := ReadTemplateRecord(dict, setid, w, st), ReadTemplateHead(setid, w);
            if head.Err? then r == Err(head.error)
            else if head.value.1 == 0 then r == Err(BadArgument)
            else
              var (wireId, n, scopes, later) := head.value;
              var t := ReadFields(dict, later, 0, n, scopes, Template((st.lastTid + 1) % 65536, KindOf(setid), n, [], []));
              if t.Err? then r == Err(t.error)
              else
                var (t', rest) := t.value;
                var kept := st.templates - {wireId};
                r == Ok((st.(templates := kept[t'.tid := t'], lastTid := t'.tid), rest))
  {
    hide ReadFields, ReadTemplateHead;
  }

  /** Template sets of version 9 are taken too: 0 as 2 is, and 1 with lengths, which must cover the set, for counts. */
  lemma OlderTemplateIsRead(dict: seq<FieldType>, w: seq<Byte>, st: State)
    ensures ReadTemplateRecord(dict, 0, w, st) == ReadTemplateRecord(dict, 2, w, st)
    ensures var r := ReadTemplateRecord(dict, 1, w, st);
            if |w| < 6 || Sixteen(w[2], w[3]) + Sixteen(w[4], w[5]) < |w| then r == Err(BadArgument)
            else
              var scopes, n, tid := Sixteen(w[2], w[3]) / 4, Sixteen(w[2], w[3]) / 4 + Sixteen(w[4], w[5]) / 4, (st.lastTid + 1) % 65536;
              if n == 0 then r == Err(BadArgument)
              else
                var t := ReadFields(dict, w[6..], 0, n, scopes, Template(tid, OptionTemplate, n, [], []));
                if t.Err? then r == Err(t.error)
                else
                  var (t', rest) := t.value;
                  var kept := st.templates - {Sixteen(w[0], w[1])};
                  r == Ok((st.(templates := kept[t'.tid := t'], lastTid := t'.tid), rest))
  {
    hide ReadFields, ReadTemplateRecord, ReadTemplateHead, Sixteen;
    RecordStep(dict, 0, w, st);
    RecordStep(dict, 2, w, st);
    RecordStep(dict, 1, w, st);
    OlderHead(w);
  }

  lemma OlderHead(w: seq<Byte>)
    ensures ReadTemplateHead(0, w) == ReadTemplateHead(2, w)
    ensures var r := ReadTemplateHead(1, w);
            if |w| < 6 || Sixteen(w[2], w[3]) + Sixteen(w[4], w[5]) < |w| then r == Err(BadArgument)
            else
              var scope, option := Sixteen(w[2], w[3]), Sixteen(w[4], w[5]);
              r == Ok((Sixteen(w[0], w[1]), scope / 4 + option / 4, scope / 4, w[6..]))
  {
    hide ReadU16, Sixteen;
    if |w| >= 6 {
      SixteenAt(w, 0);
      SixteenAt(w, 2);
      SixteenAt(w, 4);
    }
  }

  lemma SixteenAt(s: seq<Byte>, i: nat)
    requires i + 2 <= |s|
    ensures ReadU16(s[i..]) == Sixteen(s[i], s[i + 1]) && s[0..] == s
  {
  }

  /** The first of the fields are scope fields, as many as the option template says. */
  lemma {:induction false} FieldsAreSplit(dict: seq<FieldType>, w: seq<Byte>, i: nat, n: nat, scopes: nat, t: Template)
    requires i <= n
    ensures var r := ReadFields(dict, w, i, n, scopes, t);
            r.Ok? ==>
              var (t', rest) := r.value;
              && t'.tid == t.tid && t'.kind == t.kind && t'.maxfields == t.maxfields
              && |t'.scopefields| == |t.scopefields| + (if scopes <= i then 0 else if scopes < n then scopes - i else n - i)
              && |t'.datafields| + |t'.scopefields| == |t.datafields| + |t.scopefields| + (n - i)
    decreases n - i
  {
    hide ReadField;
    if i < n && ReadField(dict, w).Ok? {
      var field := ReadField(dict, w).value;
      FieldsAreSplit(dict, field.1, i + 1, n, scopes, AddField(t, field.0, i < scopes));
    }
  }

  /**
   * A field specifier: four octets, or eight with the first bit set. An element that is not known is
   * read as element 0 of enterprise 0; without that one in the dictionary it is an error.
   */
  lemma FieldIsRead(dict: seq<FieldType>, w: seq<Byte>)
    ensures var r := ReadField(dict, w);
            if |w| < 4 || (w[0] >= 128 && |w| < 8) then r == Err(BadArgument)
            else
              var high: int := w[0];
              var vendor := high >= 128;
              var ftype := 256 * (if vendor then high - 128 else high) + w[1];
              var eno := if vendor then Signed(ThirtyTwo(w[4], w[5], w[6], w[7])) else 0;
              var elem, unknown := Lookup(dict, eno, ftype), Lookup(dict, 0, 0);
              if elem.Err? && unknown.Err? then r == Err(BadArgument)
              else
                && r.Ok? && r.value.1 == w[if vendor then 8 else 4..] && r.value.0.flength == Sixteen(w[2], w[3])
                && r.value.0.known == elem.Ok? && r.value.0.elem == if elem.Ok? then elem.value else unknown.value
  {
    hide Lookup, ReadU32, ThirtyTwo;
    if |w| >= 8 {
      WordsAt(w, 4);
    }
    if |w| >= 4 {
      var high: int, low: int := w[0], w[1];
      assert 256 * high + low < 0x8000 <==> high < 128;
      LookupErrs(dict, 0, 0);
    }
  }

  lemma {:induction false} LookupErrs(dict: seq<FieldType>, eno: int, ftype: int)
    ensures Lookup(dict, eno, ftype).Err? ==> Lookup(dict, eno, ftype) == Err(BadArgument)
  {
    if dict != [] {
      LookupErrs(dict[1..], eno, ftype);
    }
  }

  // ----- data records -----

  /** Fixed lengths take no octets; a variable one takes one, or, after 255, two more. */
  lemma LengthIsRead(tf: TemplateField, s: seq<Byte>)
    ensures var r := ReadLength(tf, s);
            if tf.flength != 65535 then r == Ok((tf.flength, s))
            else if |s| == 0 || (s[0] == 255 && |s| < 3) then r == Err(OutOfBounds)
            else if s[0] < 255 then r == Ok((s[0] as int, s[1..]))
            else r == Ok((Sixteen(s[1], s[2]), s[3..]))
  {
  }

  /**
   * One value of a record. Only the octets of values count against what is left of the set, so a record
   * may run past its end, and past the end of all octets; the first value under a key is kept.
   */
  lemma ValueIsRead(t: Template, i: nat, s: seq<Byte>, left: int, r: Record)
    requires i < |t.datafields| && t.scopefields == [] && ReadLength(t.datafields[i], s).Ok?
    ensures var tf, result, (len, rest) := t.datafields[i], ReadValues(t, i, s, left, r), ReadLength(t.datafields[i], s).value;
            if left < len then result == Err(BadArgument)
            else if |rest| < len then result == Err(OutOfBounds)
            else
              var v, rank := Decode(tf.elem, rest[..len]), 1000 * tf.elem.eno + tf.elem.ftype;
              if v.Err? then result == Err(v.error)
              else
                var r' := if rank in r.fields then r else r.(fields := r.fields[rank := v.value]);
                result == ReadValues(t, i + 1, rest[len..], left - len, r')
  {
    hide ReadValues, ReadLength, Decode;
    ValuesStep(t, i, s, left, r);
    assert t.GetField(i) == Ok(t.datafields[i]);
  }

  /** What an element is decoded to; numbers of another length than 1, 2, 4 and 8 octets come out empty. */
  lemma ValueIsDecoded(ft: FieldType, s: seq<Byte>)
    ensures var r, n := Decode(ft, s), |s|;
            match ft.coding
            case CIpAddr => r == (if n == ft.length then Ok(Octets(s)) else Err(BadArgument))
            case CBytes => r == (if n == ft.length || ft.length == 65535 then Ok(Octets(s)) else Err(BadArgument))
            case CString => r == Err(BadArgument)
            case COther => r == Err(BadArgument)
            case CFloat =>
              if n == 4 || n == 8 then r == (if n == ft.length then Ok(Number(n, HostValue(s))) else Err(BadArgument))
              else r == Ok(Octets([]))
            case _ =>
              if n == 1 || n == 2 || n == 4 || n == 8
              then r == (if n == ft.length then Ok(Number(n, HostValue(s))) else Err(BadArgument))
              else r == Ok(Octets([]))
  {
  }
}
