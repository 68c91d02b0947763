/** The importer with its cursors: four nested loops over one buffer, proved against IpfixReader. */
module IpfixImporter {
  import opened Bytes
  import opened IpfixField
  import opened IpfixLayout
  import opened IpfixReader

  class Importer {
    const dict: seq<FieldType>
    const capacity: nat   // IPFIX_DEFAULT_BUFLEN in the original
    var raw: seq<Byte>    // the octets kept, as get_message returns them
    var templates: map<int, Template>
    var lastTid: int
    var dataList: seq<Record>
    var length: int
    var exporttime: int
    var seqno: int
    var sourceid: int

    constructor (dict: seq<FieldType>, capacity: nat)
      ensures this.dict == dict && this.capacity == capacity && Current() == EMPTY
    {
      this.dict, this.capacity, raw := dict, capacity, [];
      templates, lastTid, dataList := map[], FIRST_LAST_TID, [];
      length, exporttime, seqno, sourceid := 0, 0, 0, 0;
    }

    function Current(): State
      reads this
    {
      State(templates, lastTid, dataList)
    }

    /** read_field, on the octets from offset to end. */
    method ReadFieldAt(buf: seq<Byte>, offset: nat, end: nat) returns (r: Result<(TemplateField, nat)>)
      requires offset <= end <= |buf|
      ensures var spec := ReadField(dict, buf[offset..end]);
              r == if spec.Err? then Err(spec.error) else Ok((spec.value.0, end - |spec.value.1|))
    {
      var w := buf[offset..end];
      if end - offset < 4 {
        return Err(BadArgument);
      }
      var ftype, flength := ReadU16(w), ReadU16(w[2..]);
      var next := offset + 4;
      var eno := 0;
      if ftype >= VENDOR_BIT {
        if end - offset < 8 {
          return Err(BadArgument);
        }
        eno := ToInt32(ReadU32(w[4..]));
        next := next + 4;
      }
      var elem := Lookup(dict, eno, ftype % VENDOR_BIT);
      if elem.Ok? {
        return Ok((TemplateField(flength, true, elem.value), next));
      }
      elem := Lookup(dict, 0, 0);
      if elem.Err? {
        return Err(elem.error);
      }
      r := Ok((TemplateField(flength, false, elem.value), next));
    }

    /** The loop over the field definitions of the template that was just stored. */
    method ReadFieldsAt(buf: seq<Byte>, offset: nat, end: nat, tid: int, nfields: nat, nscope: nat)
      returns (r: Result<nat>)
      requires offset <= end <= |buf| && tid in templates
      modifies this`templates
      ensures var spec := ReadFields(dict, buf[offset..end], 0, nfields, nscope, old(templates)[tid]);
              && (spec.Err? ==> r == Err(spec.error))
              && (spec.Ok? ==> r == Ok(end - |spec.value.1|) && templates == old(templates)[tid := spec.value.0])
    {
      hide ReadField, ReadFields, AddField;
      var pos := offset;
      for i := 0 to nfields
        invariant offset <= pos <= end && tid in templates
        invariant templates == old(templates)[tid := templates[tid]]
        invariant ReadFields(dict, buf[pos..end], i, nfields, nscope, templates[tid])
               == ReadFields(dict, buf[offset..end], 0, nfields, nscope, old(templates)[tid])
      {
        FieldsStep(dict, buf[pos..end], i, nfields, nscope, templates[tid]);
        var field := ReadFieldAt(buf, pos, end);
        if field.Err? {
          return Err(field.error);
        }
        SuffixOfSlice(buf, pos, end, field.value.1 - pos);
        pos := field.value.1;
        templates := templates[tid := AddField(templates[tid], field.value.0, i < nscope)];
      }
      FieldsStep(dict, buf[pos..end], nfields, nfields, nscope, templates[tid]);
      r := Ok(pos);
    }

    /** mnslp_ipfix_decode_trecord: returns where the next template record starts. */
    method DecodeTrecord(setid: int, buf: seq<Byte>, offset: nat, end: nat) returns (r: Result<nat>)
      requires offset <= end <= |buf|
      modifies this`templates, this`lastTid
      ensures var spec := ReadTemplateRecord(dict, setid, buf[offset..end], old(Current()));
              && (spec.Err? ==> r == Err(spec.error))
              && (spec.Ok? ==> r == Ok(end - |spec.value.1|) && Current() == spec.value.0)
    {
      hide ReadTemplateHead, ReadFields;
      var head := ReadTemplateHead(setid, buf[offset..end]);
      if head.Err? {
        return Err(head.error);
      }
      var (wireId, nfields, nscope, rest) := head.value;
      if nfields == 0 {
        return Err(BadArgument);
      }
      var pos := end - |rest|;
      SuffixOfSlice(buf, offset, end, pos - offset);
      templates := templates - {wireId};
      lastTid := (lastTid + 1) % 65536;
      templates := templates[lastTid := Template(lastTid, KindOf(setid), nfields, [], [])];
      ReadFieldsKeepId(dict, rest, 0, nfields, nscope, templates[lastTid]);
      r := ReadFieldsAt(buf, pos, end, lastTid, nfields, nscope);
    }

    /** The length of the next value, and where the value starts. */
    method ReadLengthAt(tf: TemplateField, buf: seq<Byte>, pos: nat) returns (r: Result<(nat, nat)>)
      requires pos <= |buf|
      ensures var spec := ReadLength(tf, buf[pos..]);
              && (spec.Err? ==> r == Err(spec.error))
              && (spec.Ok? ==> r == Ok((spec.value.0, |buf| - |spec.value.1|)) && buf[r.value.1..] == spec.value.1)
    {
      if tf.flength != VARLEN {
        return Ok((tf.flength, pos));
      }
      if pos >= |buf| {
        return Err(OutOfBounds);
      }
      if buf[pos] != 255 {
        return Ok((buf[pos], pos + 1));
      }
      if pos + 3 > |buf| {
        return Err(OutOfBounds);
      }
      r := Ok((ReadU16(buf[pos + 1..]), pos + 3));
    }

    /** mnslp_ipfix_decode_datarecord: reads one record from pos on, and returns where it stopped. */
    method DecodeDatarecord(t: Template, buf: seq<Byte>, offset: nat, bytesleft: int) returns (r: Result<nat>)
      requires offset <= |buf|
      modifies this`dataList
      ensures var spec := ReadValues(t, 0, buf[offset..], bytesleft, Record(t.tid, map[]));
              && (spec.Err? ==> r == Err(spec.error) && dataList == old(dataList))
              && (spec.Ok? ==> r == Ok(|buf| - |spec.value.1|) && dataList == old(dataList) + [spec.value.0])
              && (spec.Ok? ==> buf[r.value..] == spec.value.1)
    {
      hide ReadValues, ReadLength, Decode;
      var pos, left := offset, bytesleft;
      var data := Record(t.tid, map[]);
      for i := 0 to t.NumFields()
        invariant offset <= pos <= |buf| && dataList == old(dataList)
        invariant ReadValues(t, i, buf[pos..], left, data) == ReadValues(t, 0, buf[offset..], bytesleft, Record(t.tid, map[]))
      {
        ValuesStep(t, i, buf[pos..], left, data);
        var tf := t.GetField(i);
        if tf.Err? {
          return Err(tf.error);
        }
        var lenAndPos := ReadLengthAt(tf.value, buf, pos);
        if lenAndPos.Err? {
          return Err(lenAndPos.error);
        }
        var (len, start) := lenAndPos.value;
        left := left - len;
        if left < 0 {
          return Err(BadArgument);
        }
        if start + len > |buf| {
          return Err(OutOfBounds);
        }
        var v := Decode(tf.value.elem, buf[start..start + len]);
        assert buf[start..][..len] == buf[start..start + len];
        if v.Err? {
          return Err(v.error);
        }
        DropTwice(buf, start, len);
        data := data.Insert(tf.value.elem.eno, tf.value.elem.ftype, v.value);
        pos := start + len;
      }
      ValuesStep(t, t.NumFields(), buf[pos..], left, data);
      dataList := dataList + [data];
      r := Ok(pos);
    }

    /** The loop over the template records of one set. */
    method ReadTemplatesAt(setid: int, buf: seq<Byte>, offset: nat, end: nat) returns (r: Result<()>)
      requires offset <= end <= |buf|
      modifies this`templates, this`lastTid
      ensures var spec := ReadTemplates(dict, setid, buf[offset..end], old(Current()));
              && (spec.Err? ==> r == Err(spec.error))
              && (spec.Ok? ==> r.Ok? && Current() == spec.value)
    {
      hide ReadTemplateRecord, ReadTemplates;
      var pos := offset;
      while end - pos > 4
        invariant offset <= pos <= end
        invariant ReadTemplates(dict, setid, buf[pos..end], Current())
               == ReadTemplates(dict, setid, buf[offset..end], old(Current()))
      {
        TemplatesStep(dict, setid, buf[pos..end], Current());
        var next := DecodeTrecord(setid, buf, pos, end);
        if next.Err? {
          return Err(next.error);
        }
        SuffixOfSlice(buf, pos, end, next.value - pos);
        pos := next.value;
      }
      TemplatesStep(dict, setid, buf[pos..end], Current());
      r := Ok(());
    }

    /** The loop over the data records of one set; the original does not stop when no octet is consumed. */
    method ReadRecordsAt(t: Template, buf: seq<Byte>, offset: nat, setlen: nat) returns (r: Result<()>)
      requires offset + setlen <= |buf|
      modifies this`dataList
      ensures var spec := ReadRecords(t, buf[offset..], setlen, old(dataList));
              && (spec.Err? ==> r == Err(spec.error))
              && (spec.Ok? ==> r.Ok? && dataList == spec.value)
    {
      hide ReadValues, ReadRecords;
      var pos, left: int := offset, setlen;
      while left > 0
        invariant offset <= pos <= |buf|
        invariant ReadRecords(t, buf[pos..], left, dataList) == ReadRecords(t, buf[offset..], setlen, old(dataList))
        decreases |buf| - pos
      {
        RecordsStep(t, buf[pos..], left, dataList);
        var next := DecodeDatarecord(t, buf, pos, left);
        if next.Err? {
          return Err(next.error);
        }
        if next.value == pos {
          return Err(Endless);
        }
        left := left - (next.value - pos);
        pos := next.value;
      }
      RecordsStep(t, buf[pos..], left, dataList);
      r := Ok(());
    }

    /** One set, whose header has been read. */
    method ReadSetAt(setid: int, buf: seq<Byte>, offset: nat, setlen: nat) returns (r: Result<()>)
      requires offset + setlen <= |buf|
      modifies this`templates, this`lastTid, this`dataList
      ensures var spec := ReadSet(dict, setid, buf[offset..], setlen, old(Current()));
              && (spec.Err? ==> r == Err(spec.error))
              && (spec.Ok? ==> r.Ok? && Current() == spec.value)
    {
      hide ReadTemplates, ReadRecords;
      if 0 <= setid <= 3 {
        assert buf[offset..][..setlen] == buf[offset..offset + setlen];
        r := ReadTemplatesAt(setid, buf, offset, offset + setlen);
      } else if setid > 255 {
        if setid !in templates {
          return Err(BadArgument);
        }
        r := ReadRecordsAt(templates[setid], buf, offset, setlen);
      } else {
        r := Ok(());
      }
    }

    /** copy_raw_message compares the old fill level, zero, with the capacity, and copies n octets. */
    method CopyRawMessage(buf: seq<Byte>, n: nat) returns (r: Result<()>)
      modifies this`raw
      ensures r == if n > capacity then Err(Overrun) else Ok(())
      ensures r.Ok? && n <= |buf| ==> raw == buf[..n]
    {
      if n > capacity {
        return Err(Overrun);
      }
      raw := if n <= |buf| then buf[..n] else buf;
      r := Ok(());
    }

    /** mnslp_ipfix_import: returns the number of octets read. */
    method Import(buf: seq<Byte>) returns (r: Result<nat>)
      requires Current() == EMPTY
      modifies this
      ensures var spec := ImportInto(dict, buf, capacity);
              && (spec.Err? ==> r == Err(spec.error))
              && (spec.Ok? ==> r == Ok(spec.value.nread))
              && (spec.Ok? ==>
                    spec.value == Imported(r.value, length, exporttime, seqno, sourceid, templates, dataList))
              && (spec.Ok? ==> raw == buf[..r.value])
    {
      hide ReadSet, ReadSets;
      if |buf| < 2 {
        return Err(BadArgument);
      }
      var version := ReadU16(buf);
      if version == 9 {
        return Err(OtherVersion);
      }
      if version != IPFIX_VERSION || |buf| < HDR_BYTES {
        return Err(BadArgument);
      }
      length, exporttime := ReadU16(buf[2..]), ReadU32(buf[4..]);
      seqno, sourceid := ReadU32(buf[8..]), ToInt32(ReadU32(buf[12..]));
      r := ReadSetsAt(buf);
      if r.Ok? {
        var copied := CopyRawMessage(buf, r.value);
        if copied.Err? {
          return Err(copied.error);
        }
      }
    }

    /** The loop over the sets of a message. */
    method ReadSetsAt(buf: seq<Byte>) returns (r: Result<nat>)
      requires |buf| >= HDR_BYTES
      modifies this`templates, this`lastTid, this`dataList
      ensures var spec := ReadSets(dict, buf[HDR_BYTES..], old(Current()));
              && (spec.Err? ==> r == Err(spec.error))
              && (spec.Ok? ==> r == Ok(|buf| - |spec.value.1|) && Current() == spec.value.0)
    {
      hide ReadSet, ReadSets, ReadU16;
      var nread := HDR_BYTES;
      while nread + 4 < |buf|
        invariant HDR_BYTES <= nread <= |buf|
        invariant ReadSets(dict, buf[nread..], Current()) == ReadSets(dict, buf[HDR_BYTES..], old(Current()))
        decreases |buf| - nread
      {
        SetsStep(dict, buf[nread..], Current());
        var setid, setlen := ReadU16(buf[nread..]), ReadU16(buf[nread + 2..]);
        DropTwice(buf, nread, 2);
        DropTwice(buf, nread, 4);
        nread := nread + 4;
        if setlen >= 4 {
          setlen := setlen - 4;
          if setlen > |buf| - nread {
            return Ok(nread);
          }
          var read := ReadSetAt(setid, buf, nread, setlen);
          if read.Err? {
            return Err(read.error);
          }
          DropTwice(buf, nread - 4, setlen + 4);
          nread := nread + setlen;
        }
      }
      SetsStep(dict, buf[nread..], Current());
      r := Ok(nread);
    }
  }

  lemma SuffixOfSlice(buf: seq<Byte>, offset: nat, end: nat, n: nat)
    requires offset + n <= end <= |buf|
    ensures buf[offset..end][n..] == buf[offset + n..end]
  {
  }

  lemma {:induction false} ReadFieldsKeepId(dict: seq<FieldType>, w: seq<Byte>, i: nat, nfields: nat, nscope: nat, t: Template)
    requires i <= nfields
    ensures var r := ReadFields(dict, w, i, nfields, nscope, t);
            r.Ok? ==> r.value.0.tid == t.tid
    decreases nfields - i
  {
    if i < nfields && ReadField(dict, w).Ok? {
      var field := ReadField(dict, w).value;
      ReadFieldsKeepId(dict, field.1, i + 1, nfields, nscope, AddField(t, field.0, i < nscope));
    }
  }

}
