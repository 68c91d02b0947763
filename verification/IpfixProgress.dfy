/** When the record loop of the importer advances, and when the original would run for ever. */
module IpfixProgress {
  import opened Bytes
  import opened IpfixField
  import opened IpfixLayout
  import opened IpfixReader

  /** From field i on, no field takes an octet. */
  ghost predicate EmptyFrom(t: Template, i: nat) {
    forall k :: i <= k < t.NumFields() ==> t.GetField(k).Err? || t.GetField(k).value.flength == 0
  }

  lemma LengthAdvances(tf: TemplateField, s: seq<Byte>)
    ensures var r := ReadLength(tf, s);
            && (r.Ok? ==> |r.value.1| <= |s|)
            && (r.Ok? ==> (r.value.0 == 0 && |r.value.1| == |s| <==> tf.flength == 0))
            && r != Err(Endless)
  {
  }

  lemma DecodeError(ft: FieldType, s: seq<Byte>)
    ensures Decode(ft, s) != Err(Endless)
  {
  }

  /** A record takes no octet exactly when all its fields have length zero. */
  lemma {:induction false} RecordAdvances(t: Template, i: nat, s: seq<Byte>, left: int, r: Record)
    requires i <= t.NumFields() && ReadValues(t, i, s, left, r).Ok?
    ensures |ReadValues(t, i, s, left, r).value.1| == |s| <==> EmptyFrom(t, i)
    decreases t.NumFields() - i
  {
    hide ReadValues, ReadLength, Decode;
    ValuesStep(t, i, s, left, r);
    if i < t.NumFields() {
      var tf := t.GetField(i).value;
      LengthAdvances(tf, s);
      var (len, s') := ReadLength(tf, s).value;
      var r' := r.Insert(tf.elem.eno, tf.elem.ftype, Decode(tf.elem, s'[..len]).value);
      RecordAdvances(t, i + 1, s'[len..], left - len, r');
    }
  }

  /** A template all of whose fields have length zero, and decode to nothing. */
  ghost predicate Hollow(t: Template, i: nat) {
    forall k :: i <= k < t.NumFields() ==>
      t.GetField(k).Ok? && t.GetField(k).value.flength == 0 && Decode(t.GetField(k).value.elem, []).Ok?
  }

  lemma EmptyField(tf: TemplateField, s: seq<Byte>)
    requires tf.flength == 0
    ensures ReadLength(tf, s) == Ok((0, s)) && s[..0] == [] && s[0..] == s
  {
  }

  lemma HollowStep(t: Template, i: nat)
    requires i <= t.NumFields()
    ensures i == t.NumFields() ==> Hollow(t, i) && EmptyFrom(t, i)
    ensures i < t.NumFields() ==>
              var tf := t.GetField(i);
              && (Hollow(t, i) <==> tf.Ok? && tf.value.flength == 0 && Decode(tf.value.elem, []).Ok? && Hollow(t, i + 1))
              && (EmptyFrom(t, i) <==> (tf.Err? || tf.value.flength == 0) && EmptyFrom(t, i + 1))
  {
    hide Decode;
  }

  /** One field of length zero: the record goes on with the same octets, if it decodes. */
  lemma EmptyValuesStep(t: Template, i: nat, s: seq<Byte>, left: nat, r: Record)
    requires i < t.NumFields() && t.GetField(i).Ok? && t.GetField(i).value.flength == 0
    ensures var tf := t.GetField(i).value;
            var v := Decode(tf.elem, []);
            ReadValues(t, i, s, left, r) ==
              if v.Err? then Err(v.error) else ReadValues(t, i + 1, s, left, r.Insert(tf.elem.eno, tf.elem.ftype, v.value))
  {
    hide ReadValues, ReadLength, Decode;
    EmptyField(t.GetField(i).value, s);
    ValuesStep(t, i, s, left, r);
  }

  /** A record of such a template, and only of such a one, decodes without taking an octet. */
  lemma {:induction false} HollowIff(t: Template, i: nat, s: seq<Byte>, left: nat, r: Record)
    requires i <= t.NumFields()
    ensures EmptyFrom(t, i) && ReadValues(t, i, s, left, r).Ok? <==> Hollow(t, i)
    decreases t.NumFields() - i
  {
    hide ReadValues, ReadLength, Decode, EmptyFrom, Hollow;
    HollowStep(t, i);
    ValuesStep(t, i, s, left, r);
    if i < t.NumFields() && t.GetField(i).Ok? && t.GetField(i).value.flength == 0 {
      var tf := t.GetField(i).value;
      EmptyValuesStep(t, i, s, left, r);
      if Decode(tf.elem, []).Ok? {
        HollowIff(t, i + 1, s, left, r.Insert(tf.elem.eno, tf.elem.ftype, Decode(tf.elem, []).value));
      }
    }
  }

  /** The record loop fails to stop exactly for such a template, whatever the octets; one could look before. */
  lemma EndlessIff(t: Template, s: seq<Byte>, left: int, acc: seq<Record>)
    ensures ReadRecords(t, s, left, acc) == Err(Endless) <==> left > 0 && Hollow(t, 0)
  {
    hide ReadRecords, ReadValues, Hollow, EmptyFrom;
    EndlessOnce(t, s, left, acc);
    if left > 0 {
      HollowIff(t, 0, s, left, Record(t.tid, map[]));
    }
  }

  /** It does not stop at all, or it does not at its first record. */
  lemma {:induction false} EndlessOnce(t: Template, s: seq<Byte>, left: int, acc: seq<Record>)
    ensures ReadRecords(t, s, left, acc) == Err(Endless) <==>
            left > 0 && EmptyFrom(t, 0) && ReadValues(t, 0, s, left, Record(t.tid, map[])).Ok?
    decreases |s|
  {
    hide ReadValues;
    NeverEndlessInside(t, 0, s, left, Record(t.tid, map[]));
    var one := ReadValues(t, 0, s, left, Record(t.tid, map[]));
    if left > 0 && one.Ok? {
      RecordAdvances(t, 0, s, left, Record(t.tid, map[]));
      if |one.value.1| < |s| {
        EndlessOnce(t, one.value.1, left - (|s| - |one.value.1|), acc + [one.value.0]);
      }
    }
  }

  lemma {:induction false} NeverEndlessInside(t: Template, i: nat, s: seq<Byte>, left: int, r: Record)
    requires i <= t.NumFields()
    ensures ReadValues(t, i, s, left, r) != Err(Endless)
    decreases t.NumFields() - i
  {
    hide ReadValues, ReadLength, Decode;
    ValuesStep(t, i, s, left, r);
    if i < t.NumFields() && t.GetField(i).Ok? {
      LengthAdvances(t.GetField(i).value, s);
    }
    if i < t.NumFields() && t.GetField(i).Ok? && ReadLength(t.GetField(i).value, s).Ok? {
      var tf := t.GetField(i).value;
      var (len, s') := ReadLength(tf, s).value;
      if left >= len && |s'| >= len {
        DecodeError(tf.elem, s'[..len]);
      }
      if left >= len && |s'| >= len && Decode(tf.elem, s'[..len]).Ok? {
        var r' := r.Insert(tf.elem.eno, tf.elem.ftype, Decode(tf.elem, s'[..len]).value);
        NeverEndlessInside(t, i + 1, s'[len..], left - len, r');
      }
    }
  }
}
