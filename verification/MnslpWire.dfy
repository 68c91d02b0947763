/** The wire format of MNSLP in literal octets: which messages are written, and what is where in them. */
module MnslpWire {
  import opened Bytes
  import opened IpfixField
  import opened MnslpObject
  import opened IeStore
  import opened MnslpMsg
  import opened MnslpRoundTrip
  import IpfixReader
  import Wire = IpfixWire

  // ----- one object -----

  /** An object of 32 bits: treatment and type, one word, and the value. */
  lemma WordOctets(o: Object)
    requires o.Word? && o.Valid()
    ensures ObjectOctets(o) == [64 * o.treatment, o.otype, 0, 1] + Wire.Long(o.value)
  {
    hide U32, HeaderWord, Wire.Long;
    var h := HeaderWord(o);
    WordHeader(o);
    HighOctets(o.treatment, o.otype, h);
    LowOctets(o.treatment * 0x4000 + o.otype, 1, h);
    Wire.LongIs(h);
    Wire.LongIs(o.value);
    LongOctets(h);
  }

  lemma WordHeader(o: Object)
    requires o.Word? && o.Valid()
    ensures HeaderWord(o) == 65536 * (o.treatment * 0x4000 + o.otype) + 1
    ensures HeaderWord(o) / 65536 == o.treatment * 0x4000 + o.otype
  {
    PackedWord(o.treatment, o.otype, 1);
  }

  lemma LongOctets(h: int)
    ensures Wire.Long(h) == [(h / 0x100_0000) % 256, (h / 65536) % 256, (h / 256) % 256, h % 256]
  {
  }

  lemma HighOctets(treatment: int, otype: int, h: int)
    requires 0 <= treatment < 4 && 0 <= otype < 256 && 0 <= h && h / 65536 == treatment * 0x4000 + otype
    ensures (h / 0x100_0000) % 256 == 64 * treatment && (h / 65536) % 256 == otype
  {
    assert h / 0x100_0000 == h / 65536 / 256;
    assert h / 65536 == 256 * (64 * treatment) + otype;
  }

  /** A metering object: its length in words, its octets, and zeros up to a full word. */
  lemma MspecOctets(o: Object)
    requires o.Mspec? && o.Valid() && |o.raw| <= 65532
    ensures var s, n := ObjectOctets(o), |o.raw|;
            && n + 4 <= |s| < n + 8 && |s| % 4 == 0
            && s[..4] == [64 * o.treatment, 0xF9] + Wire.Word(|s| / 4 - 1)
            && s[4..n + 4] == o.raw
            && forall k :: n + 4 <= k < |s| ==> s[k] == 0
  {
    hide U32, HeaderWord, PadOf;
    var n, pad := |o.raw|, PadOf(|o.raw|);
    var h, words := HeaderWord(o), (|o.raw| + PadOf(|o.raw|)) / 4;
    MspecHeader(o);
    PackedWord(o.treatment, 0xF9, words);
    HighOctets(o.treatment, 0xF9, h);
    Wire.LongIs(h);
    LowOctets(o.treatment * 0x4000 + 0xF9, words, h);
    assert ObjectOctets(o) == U32(h) + o.raw + Zeros(pad);
  }

  lemma MspecHeader(o: Object)
    requires o.Mspec? && o.Valid() && |o.raw| <= 65532
    ensures HeaderWord(o) == 65536 * (o.treatment * 0x4000 + 0xF9) + (|o.raw| + PadOf(|o.raw|)) / 4
  {
    hide PadOf;
    var n := |o.raw| + PadOf(|o.raw|);
    assert n % 65536 == n;
  }

  lemma LowOctets(high: int, words: int, h: int)
    requires 0 <= words < 65536 && h == 65536 * high + words
    ensures (h / 256) % 256 == words / 256 && h % 256 == words % 256
  {
    assert h / 256 == 256 * high + words / 256;
    assert h == 256 * (256 * high + words / 256) + words % 256;
  }

  // ----- one message -----

  /** The octets of a unique object. */
  function One(u: Uniques, t: nat): seq<Byte>
    requires t in u && u[t].Word? && 0 <= u[t].treatment < 4 && t < 256
  {
    [64 * u[t].treatment, t, 0, 1] + Wire.Long(u[t].value)
  }

  /** What every message holds: unique objects under their types, and metering objects. */
  ghost predicate Holds(u: Uniques, ms: seq<Object>) {
    ValidUniques(u) && AllMspec(ms) && forall t :: t in u ==> u[t].Valid()
  }

  lemma {:induction false} PickedOctets(u: Uniques, types: seq<nat>)
    requires Holds(u, []) && types != [] && forall i :: 0 <= i < |types| ==> types[i] in u
    ensures EncodeAll(Picked(u, types)) == One(u, types[0]) + EncodeAll(Picked(u, types[1..]))
  {
    hide ObjectOctets;
    assert types[0] in u;
    WordOctets(u[types[0]]);
  }

  lemma FourOctets(u: Uniques, a: nat, b: nat, c: nat, d: nat)
    requires Holds(u, []) && a in u && b in u && c in u && d in u
    ensures EncodeAll(Picked(u, [a, b, c, d])) == One(u, a) + One(u, b) + One(u, c) + One(u, d)
    ensures EncodeAll(Picked(u, [b, c, d])) == One(u, b) + One(u, c) + One(u, d)
    ensures EncodeAll(Picked(u, [c, d])) == One(u, c) + One(u, d)
  {
    hide EncodeAll, One, Picked;
    PickedOctets(u, [a, b, c, d]);
    assert [a, b, c, d][1..] == [b, c, d] && [b, c, d][1..] == [c, d] && [c, d][1..] == [d] && [d][1..] == [];
    PickedOctets(u, [b, c, d]);
    PickedOctets(u, [c, d]);
    PickedOctets(u, [d]);
    NothingPicked(u);
    assert One(u, d) + [] == One(u, d);
    assert One(u, b) + (One(u, c) + One(u, d)) == One(u, b) + One(u, c) + One(u, d);
    assert One(u, a) + (One(u, b) + One(u, c) + One(u, d)) == One(u, a) + One(u, b) + One(u, c) + One(u, d);
  }

  lemma NothingPicked(u: Uniques)
    ensures EncodeAll(Picked(u, [])) == []
  {
  }

  /** Type octet, the unique objects, and the metering objects: written when all are there. */
  lemma Parts(msgType: int, u: Uniques, ms: seq<Object>, types: seq<nat>)
    requires Holds(u, ms) && types == WireTypes(msgType) && CheckMessage(msgType, Layout(u, ms))
    requires msgType in {1, 2, 5} && (msgType == 5 ==> ms == [])
    requires forall i :: 0 <= i < |types| ==> 0xF4 <= types[i] <= 0xF8
    ensures var r := EncodeMessage(msgType, Layout(u, ms));
            && (r.Success? <==> AllThere(u, types) && AllChecked(ms))
            && (r.Success? ==> r.value == [msgType, 0, 0, 0] + (EncodeAll(Picked(u, types)) + EncodeAll(ms)))
  {
    hide CheckMessage, Layout, EncodeUniques, EncodeMspecs, EncodeAll, WireTypes, U32, Object.Check, Holds, Picked;
    assert ValidUniques(u) && AllMspec(ms) by {
      HoldsParts(u, ms);
    }
    EncodeUniquesIff(u, ms, types);
    MaxSequenceIsCount(u, ms);
    EncodeMspecsIff(u, ms, 1);
    assert ms[0..] == ms;
    EncodeNothing();
    TypeOctets(msgType);
  }

  lemma HoldsParts(u: Uniques, ms: seq<Object>)
    requires Holds(u, ms)
    ensures ValidUniques(u) && AllMspec(ms) && Holds(u, [])
  {
  }

  lemma EncodeNothing()
    ensures EncodeAll([]) == []
  {
  }

  lemma NothingBehind(s: seq<Byte>)
    ensures s + [] == s
  {
  }

  lemma TypeOctets(msgType: int)
    requires msgType in {1, 2, 5}
    ensures U32(msgType * 0x100_0000) == [msgType, 0, 0, 0]
  {
    var n := msgType * 0x100_0000;
    assert n / 65536 == 256 * msgType && n / 256 == 256 * (256 * msgType);
  }

  /** Everything but an information code may be written as it is. */
  lemma WordsChecked(u: Uniques)
    requires ValidUniques(u)
    ensures forall t :: t in u && t != 0xF4 ==> u[t].Check()
    ensures 0xF4 in u ==> (u[0xF4].Check() <==> u[0xF4].value < 0x1000_0000 && u[0xF4].value % 65536 == 0)
  {
  }

  /** A CONFIGURE is written exactly when it has its four unique objects; then they come in this order. */
  lemma ConfigureOctets(u: Uniques, ms: seq<Object>)
    requires Holds(u, ms)
    ensures var r := EncodeMessage(1, Layout(u, ms));
            && (r.Success? <==> {0xF5, 0xF6, 0xF7, 0xF8} <= u.Keys && AllChecked(ms))
            && (r.Success? ==>
                  r.value == [1, 0, 0, 0] + ((One(u, 0xF7) + One(u, 0xF8) + One(u, 0xF5) + One(u, 0xF6)) + EncodeAll(ms)))
  {
    hide EncodeMessage, EncodeAll, Layout, One, Holds, CheckMessage, Picked, Object.Check, WireTypes;
    HoldsParts(u, ms);
    ChecksIff(u, ms);
    ConfigureTypes();
    if {0xF5, 0xF6, 0xF7, 0xF8} <= u.Keys {
      Parts(1, u, ms, [0xF7, 0xF8, 0xF5, 0xF6]);
      WordsChecked(u);
      FourOctets(u, 0xF7, 0xF8, 0xF5, 0xF6);
    } else {
      CheckFails(1, u, ms);
    }
  }

  lemma ConfigureTypes()
    ensures WireTypes(1) == [0xF7, 0xF8, 0xF5, 0xF6]
    ensures WireTypes(2) == [0xF7, 0xF4, 0xF8]
    ensures WireTypes(5) == [0xF7, 0xF8]
  {
  }

  lemma CheckFails(msgType: int, u: Uniques, ms: seq<Object>)
    requires !CheckMessage(msgType, Layout(u, ms))
    ensures EncodeMessage(msgType, Layout(u, ms)) == Failure(BadObject)
  {
  }

  /** A RESPONSE is written exactly when it has its three unique objects, and no others. */
  lemma ResponseOctets(u: Uniques, ms: seq<Object>)
    requires Holds(u, ms)
    ensures var r := EncodeMessage(2, Layout(u, ms));
            && (r.Success? <==>
                  && u.Keys == {0xF4, 0xF7, 0xF8} && AllChecked(ms)
                  && u[0xF4].value < 0x1000_0000 && u[0xF4].value % 65536 == 0)
            && (r.Success? ==>
                  r.value == [2, 0, 0, 0] + ((One(u, 0xF7) + One(u, 0xF4) + One(u, 0xF8)) + EncodeAll(ms)))
  {
    hide EncodeMessage, EncodeAll, Layout, One, Holds, CheckMessage, Picked, Object.Check, WireTypes;
    HoldsParts(u, ms);
    ChecksIff(u, ms);
    ConfigureTypes();
    if u.Keys <= {0xF4, 0xF7, 0xF8} {
      Parts(2, u, ms, [0xF7, 0xF4, 0xF8]);
      WordsChecked(u);
      var types: seq<nat> := [0xF7, 0xF4, 0xF8];
      assert AllThere(u, types) ==> types[0] in u && types[1] in u && types[2] in u;
      if u.Keys == {0xF4, 0xF7, 0xF8} {
        FourOctets(u, 0xF7, 0xF7, 0xF4, 0xF8);
      }
    } else {
      CheckFails(2, u, ms);
    }
  }

  /** A REFRESH is written exactly when it has its two unique objects and nothing else. */
  lemma RefreshOctets(u: Uniques, ms: seq<Object>)
    requires Holds(u, ms)
    ensures var r := EncodeMessage(5, Layout(u, ms));
            && (r.Success? <==> u.Keys == {0xF7, 0xF8} && ms == [])
            && (r.Success? ==> r.value == [5, 0, 0, 0] + (One(u, 0xF7) + One(u, 0xF8)))
  {
    hide EncodeMessage, EncodeAll, Layout, One, Holds, CheckMessage, Picked, Object.Check, WireTypes;
    HoldsParts(u, ms);
    ChecksIff(u, ms);
    ConfigureTypes();
    if u.Keys == {0xF7, 0xF8} && ms == [] {
      Parts(5, u, ms, [0xF7, 0xF8]);
      WordsChecked(u);
      FourOctets(u, 0xF7, 0xF7, 0xF7, 0xF8);
      EncodeNothing();
      NothingBehind(EncodeAll(Picked(u, [0xF7, 0xF8])));
    } else {
      CheckFails(5, u, ms);
    }
  }

  /** So the objects of a CONFIGURE are at these places. */
  lemma ConfigurePlaces(u: Uniques, ms: seq<Object>)
    requires Holds(u, ms) && {0xF5, 0xF6, 0xF7, 0xF8} <= u.Keys && AllChecked(ms)
    ensures EncodeMessage(1, Layout(u, ms)).Success?
    ensures var s := EncodeMessage(1, Layout(u, ms)).value;
            && |s| >= 36 && s[0] == 1 && s[5] == 0xF7 && s[13] == 0xF8 && s[21] == 0xF5 && s[29] == 0xF6
            && s[8..12] == Wire.Long(u[0xF7].value) && s[16..20] == Wire.Long(u[0xF8].value)
            && s[24..28] == Wire.Long(u[0xF5].value) && s[32..36] == Wire.Long(u[0xF6].value)
            && s[36..] == EncodeAll(ms)
  {
    hide EncodeMessage, EncodeAll, Layout, Object.Check, Wire.Long;
    ConfigureOctets(u, ms);
    FourLong(u[0xF7].value);
    FourLong(u[0xF8].value);
    FourLong(u[0xF5].value);
    FourLong(u[0xF6].value);
  }

  lemma FourLong(n: int)
    ensures |Wire.Long(n)| == 4
  {
  }

  // ----- one message, as it is -----

  /** Number 5, 60 seconds, the selection 1, 3 hops. */
  function Sample(): Uniques {
    map[0xF5 := Word(0xF5, 0, 1), 0xF6 := Word(0xF6, 0, 3), 0xF7 := Word(0xF7, 0, 5), 0xF8 := Word(0xF8, 0, 60)]
  }

  lemma SampleOctets(o: Object)
    requires o.Mspec? && o.treatment == 0 && o.raw == [9, 8, 7]
    ensures EncodeMessage(1, Layout(Sample(), [o])) ==
            Success([1, 0, 0, 0]
                    + (([0, 0xF7, 0, 1, 0, 0, 0, 5] + [0, 0xF8, 0, 1, 0, 0, 0, 60]
                        + [0, 0xF5, 0, 1, 0, 0, 0, 1] + [0, 0xF6, 0, 1, 0, 0, 0, 3])
                       + [0, 0xF9, 0, 1, 9, 8, 7, 0]))
  {
    hide EncodeMessage, ObjectOctets, Layout, AllMspec, EncodeAll, One, Holds, Sample;
    SampleHolds(o);
    SampleParts(o);
    ConfigureOctets(Sample(), [o]);
  }

  lemma SampleHolds(o: Object)
    requires o.Mspec? && o.treatment == 0 && o.raw == [9, 8, 7]
    ensures Holds(Sample(), [o]) && {0xF5, 0xF6, 0xF7, 0xF8} <= Sample().Keys && AllChecked([o])
  {
  }

  lemma SampleParts(o: Object)
    requires o.Mspec? && o.treatment == 0 && o.raw == [9, 8, 7]
    ensures EncodeAll([o]) == [0, 0xF9, 0, 1, 9, 8, 7, 0]
    ensures One(Sample(), 0xF7) == [0, 0xF7, 0, 1, 0, 0, 0, 5] && One(Sample(), 0xF8) == [0, 0xF8, 0, 1, 0, 0, 0, 60]
    ensures One(Sample(), 0xF5) == [0, 0xF5, 0, 1, 0, 0, 0, 1] && One(Sample(), 0xF6) == [0, 0xF6, 0, 1, 0, 0, 0, 3]
  {
    hide ObjectOctets;
    MspecOctets(o);
    FlatMapOne(ObjectOctets, o);
    assert ObjectOctets(o) == [0, 0xF9, 0, 1, 9, 8, 7, 0];
  }

  // ----- what is read -----

  /** Twelve bits. */
  function Twelve(high: Byte, low: Byte): nat {
    var h: int := high;
    256 * (h % 16) + low
  }

  /** Thirty-two bits. */
  function Value(a: Byte, b: Byte, c: Byte, d: Byte): nat {
    var x: int, y: int, z: int := a, b, c;
    0x100_0000 * x + 65536 * y + 256 * z + d
  }

  lemma ValueRead(s: seq<Byte>)
    requires |s| >= 4
    ensures ReadU32(s) == Value(s[0], s[1], s[2], s[3])
  {
  }

  lemma ValueParts(a: Byte, b: Byte, c: Byte, d: Byte)
    ensures var v, x, y := Value(a, b, c, d), a as int, c as int;
            && v / 0x4000_0000 == x / 64 && (v / 65536) % 4096 == Twelve(a, b) && v % 4096 == Twelve(c, d)
            && v % 0x1000_0000 == Value(x % 16, b, c, d) && v % 65536 == 256 * y + d && v / 0x100_0000 == x
  {
    var x: int, y: int, z: int := a, b, c;
    var v := Value(a, b, c, d);
    assert v == 65536 * (256 * x + y) + (256 * z + d);
    assert v / 65536 == 256 * x + y;
    Parted(x, y);
    Parted(z, d);
    assert v / 0x4000_0000 == v / 65536 / 0x4000;
    assert v / 0x100_0000 == v / 65536 / 256;
    LowParts(x, Value(x % 16, b, c, d), v);
    assert 65536 * (256 * x + y) == 4096 * (16 * (256 * x + y));
    LowTwelve(256 * z + d, 16 * (256 * x + y));
  }

  /** Twelve of sixteen bits, and the other four, and two of them. */
  lemma Parted(x: int, y: int)
    requires 0 <= x < 256 && 0 <= y < 256
    ensures (256 * x + y) % 4096 == 256 * (x % 16) + y && (256 * x + y) / 0x4000 == x / 64 && (256 * x + y) / 256 == x
  {
    assert 256 * x + y == 4096 * (x / 16) + (256 * (x % 16) + y);
    assert 256 * x + y == 0x4000 * (x / 64) + (256 * (x % 64) + y);
  }

  lemma LowTwelve(low: int, q: int)
    ensures (4096 * q + low) % 4096 == low % 4096
  {
    assert (4096 * q + low) - 4096 * (q + low / 4096) == low % 4096;
  }

  lemma LowParts(x: int, low: int, v: int)
    requires 0 <= x < 256 && 0 <= low - 0x100_0000 * (x % 16) < 0x100_0000 && v == low + 0x100_0000 * (x - x % 16)
    ensures v % 0x1000_0000 == low
  {
    assert x - x % 16 == 16 * (x / 16);
    assert v == 0x1000_0000 * (x / 16) + low;
  }

  /** The header of an object that is read: 2 bits, 12 bits of type, 12 bits for its length in words. */
  lemma HeaderOctets(s: seq<Byte>)
    requires |s| >= 4
    ensures var h, first := ReadU32(s), s[0] as int;
            && HeaderTreatment(h) == first / 64
            && HeaderType(h) == Twelve(s[0], s[1])
            && HeaderLength(h) == 4 * Twelve(s[2], s[3])
  {
    hide ReadU32, Value, Twelve;
    ValueRead(s);
    ValueParts(s[0], s[1], s[2], s[3]);
  }

  /** A unique object is read from eight octets, whatever length its header states, if there are that many. */
  lemma WordIsRead(dict: seq<FieldType>, s: seq<Byte>)
    requires |s| >= 4 && 0xF4 <= Twelve(s[0], s[1]) <= 0xF8
    ensures var r, otype, first := DecodeObject(dict, s), Twelve(s[0], s[1]), s[0] as int;
            if |s| < 4 + 4 * Twelve(s[2], s[3]) || |s| < 8 then r == Failure(TooShort)
            else
              var a: int := s[4];
              if otype != 0xF4 then r == Success((Word(otype, first / 64, Value(s[4], s[5], s[6], s[7])), s[8..]))
              else if s[6] != 0 || s[7] != 0 then r == Failure(BadObject)
              else r == Success((Word(otype, first / 64, Value(a % 16, s[5], 0, 0)), s[8..]))
  {
    hide HeaderType, HeaderLength, HeaderTreatment, ReadU32, DecodeIpfix, Twelve, Value;
    HeaderOctets(s);
    if |s| >= 8 {
      ValueRead(s[4..]);
      ValueParts(s[4], s[5], s[6], s[7]);
      SmallValue((s[4] as int) % 16, s[5], s[6], s[7]);
      assert s[4..][4..] == s[8..];
    }
  }

  lemma SmallValue(a: int, b: Byte, c: Byte, d: Byte)
    requires 0 <= a < 16
    ensures Value(a, b, c, d) < 0x1000_0000 && Value(a, b, c, d) % 65536 == 256 * (c as int) + d
  {
    var y: int, z: int := b, c;
    assert Value(a, b, c, d) == 65536 * (256 * a + y) + (256 * z + d);
  }

  /** A metering object is read if its body imports, and only zeros follow what import has read. */
  lemma MspecIsRead(dict: seq<FieldType>, s: seq<Byte>)
    requires |s| >= 4 && Twelve(s[0], s[1]) == 0xF9
    ensures var r, len, first := DecodeObject(dict, s), 4 * Twelve(s[2], s[3]), s[0] as int;
            if |s| < 4 + len then r == Failure(TooShort)
            else
              var body := s[4..][..len];
              var i := IpfixReader.ImportInto(dict, body, 1400);
              && (r.Success? <==>
                    i.Ok? && i.value.nread <= len && forall k :: i.value.nread <= k < len ==> body[k] == 0)
              && (r.Success? ==> r.value.1 == s[4..][len..] && r.value.0.Mspec? && r.value.0.treatment == first / 64)
              && (r.Success? ==> r.value.0.raw == body[..i.value.nread] && r.value.0.message.sourceid == i.value.sourceid)
              && (r.Success? ==> r.value.0.now == i.value.exporttime && r.value.0.message.templates == i.value.templates)
              && (r.Success? ==> r.value.0.message.dataList == i.value.dataList)
  {
    hide HeaderType, HeaderLength, HeaderTreatment, ReadU32, IpfixReader.ImportInto, Twelve;
    HeaderOctets(s);
  }

  lemma OtherTypes(dict: seq<FieldType>, s: seq<Byte>)
    requires |s| >= 4 && !(0xF4 <= Twelve(s[0], s[1]) <= 0xF9)
    ensures DecodeObject(dict, s) == Failure(WrongType)
  {
    hide HeaderType, HeaderLength, HeaderTreatment, ReadU32, Twelve;
    HeaderOctets(s);
  }

  /** A message is read up to its first octet, its type, and three that do not matter. */
  lemma MessageIsRead(dict: seq<FieldType>, s: seq<Byte>)
    ensures var r := DecodeMessage(dict, s);
            if |s| < 4 then r == Failure(TooShort)
            else if !(1 <= s[0] <= 5) then r == Failure(WrongType)
            else if |s| == 4 then r == Failure(EmptyMessage)
            else
              var es := DecodeObjects(dict, s[4..], []);
              if es.Failure? then r == Failure(es.error) else r == Success((s[0] as int, es.value))
  {
    hide DecodeObject, SetObject, ReadU32;
    if |s| >= 4 {
      ValueRead(s);
      ValueParts(s[0], s[1], s[2], s[3]);
      NeverEmpty(dict, s[4..], []);
    }
  }

  /** Once an object has been read, the message is not empty. */
  lemma {:induction false} NeverEmpty(dict: seq<FieldType>, s: seq<Byte>, es: seq<Entry>)
    ensures var r := DecodeObjects(dict, s, es); r.Success? && (s != [] || es != []) ==> r.value != []
    decreases |s|
  {
    hide DecodeObject, MaxSequence, Get;
    if s != [] && DecodeObject(dict, s).Success? {
      var (o, rest) := DecodeObject(dict, s).value;
      NeverEmpty(dict, rest, SetObject(es, o));
    }
  }

  /** A second unique object of one type ends the reading, a second metering object does not. */
  lemma TwinsAreRefused(dict: seq<FieldType>, s: seq<Byte>, u: Uniques, ms: seq<Object>)
    requires ValidUniques(u) && AllMspec(ms) && s != [] && DecodeObject(dict, s).Success?
    requires var o := DecodeObject(dict, s).value.0; o.Valid() && (o.Mspec? ==> AllMspec(ms + [o]))
    ensures var (o, rest) := DecodeObject(dict, s).value;
            DecodeObjects(dict, s, Layout(u, ms)) ==
              if o.Word? && o.otype in u then Failure(Duplicate)
              else DecodeObjects(dict, rest, if o.Word? then Layout(u[o.otype := o], ms) else Layout(u, ms + [o]))
  {
    hide DecodeObjects, Layout, DecodeObject, AllMspec, ValidUniques, Get, SetObject;
    var (o, rest) := DecodeObject(dict, s).value;
    DecodeStep(dict, s, o, rest, Layout(u, ms));
    SetOne(u, ms, o);
    if o.Word? {
      LookupIsExact(u, ms, Key(o.otype, 1));
    }
  }
}
