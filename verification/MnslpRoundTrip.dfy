/** What a message is after it has been written and read again. */
module MnslpRoundTrip {
  import opened Bytes
  import opened IpfixField
  import opened IpfixLayout
  import opened IpfixReader
  import opened IpfixRenumbering
  import opened IpfixRegroup
  import opened IpfixRoundTrip
  import opened IpfixSpace
  import opened MnslpObject
  import opened IeStore
  import opened MnslpMsg

  /** A metering object that was output at time `now` and whose templates survive an import. */
  ghost predicate Exported(dict: seq<FieldType>, o: Object) {
    && o.Mspec?
    && WellFormed(dict, o.message) && SmallShape(o.message.templates)
    && 0 <= o.now < WORD32
    && Output(o.message, o.now) == Result.Ok(o.raw)
  }

  /** The object as the reader sees it: its records grouped by template. */
  function Canonical(o: Object): Object {
    if o.Word? then o
    else o.(message := o.message.(dataList := Regroup(WriteOrder(o.message.templates), o.message.dataList)))
  }

  lemma CanonicalTwice(dict: seq<FieldType>, o: Object)
    requires Exported(dict, o)
    ensures Canonical(Canonical(o)) == Canonical(o)
  {
    WriteOrderLists(o.message.templates);
    RegroupedBody(WriteOrder(o.message.templates), o.message.dataList);
  }

  // ----- one object -----

  lemma BodySize(o: Object)
    ensures |BodyOf(o)| == ObjectSize(o) - 4
  {
  }

  lemma OctetsSize(o: Object)
    ensures |ObjectOctets(o)| == ObjectSize(o)
  {
  }

  lemma DecodeHeader(dict: seq<FieldType>, o: Object, rest: seq<Byte>)
    requires o.Valid()
    ensures DecodeObject(dict, ObjectOctets(o) + rest) == DecodeBehind(dict, HeaderWord(o), BodyOf(o) + rest)
  {
    hide DecodeBehind, HeaderWord, BodyOf, ReadU32, U32;
    HeaderRoundTrip(o);
    Assoc(U32(HeaderWord(o)), BodyOf(o), rest);
    U32RoundTrip(HeaderWord(o), BodyOf(o) + rest);
  }

  lemma DecodeWord(dict: seq<FieldType>, o: Object, rest: seq<Byte>)
    requires o.Word? && o.Valid() && o.Check()
    ensures DecodeObject(dict, ObjectOctets(o) + rest) == Success((o, rest))
  {
    hide Import, ObjectOctets, HeaderWord, HeaderType, HeaderLength, HeaderTreatment, ReadU32, U32;
    DecodeHeader(dict, o, rest);
    HeaderRoundTrip(o);
    U32RoundTrip(o.value, rest);
  }

  lemma OutputNotEmpty(m: Message, now: int)
    requires Output(m, now).Ok?
    ensures HDR_BYTES <= |Output(m, now).value|
  {
  }

  lemma DecodeBody(dict: seq<FieldType>, o: Object)
    requires Exported(dict, o)
    ensures DecodeIpfix(dict, o.treatment, BodyOf(o)) ==
            if |o.raw| <= BUFLEN then Success(Canonical(o)) else Failure(BadIpfix(Overrun))
  {
    hide Import, Regroup, WriteOrder, Output, WellFormed, SmallShape;
    var pad := Zeros(PadOf(|o.raw|));
    RoundTrip(dict, o.message, o.now, pad);
    var i := Import(dict, o.raw + pad).value;
    assert i.nread == |o.raw| && (o.raw + pad)[..i.nread] == o.raw;
    assert forall k :: i.nread <= k < |o.raw + pad| ==> (o.raw + pad)[k] == pad[k - |o.raw|] == 0;
  }

  lemma BehindIpfix(dict: seq<FieldType>, h: int, s: seq<Byte>)
    requires HeaderType(h) == IPFIX_OBJECT && 0 <= HeaderLength(h) <= |s|
    ensures var o := DecodeIpfix(dict, HeaderTreatment(h), s[..HeaderLength(h)]);
            DecodeBehind(dict, h, s) ==
              if o.Failure? then Failure(o.error) else Success((o.value, s[HeaderLength(h)..]))
  {
    hide DecodeIpfix, HeaderType, HeaderLength, HeaderTreatment;
  }

  /** A metering object survives the wire exactly when its octets fit into the receiver's buffer. */
  lemma DecodeMspec(dict: seq<FieldType>, o: Object, rest: seq<Byte>)
    requires Exported(dict, o) && o.Valid()
    ensures o.Check()
    ensures DecodeObject(dict, ObjectOctets(o) + rest) == Success((Canonical(o), rest)) <==> |o.raw| <= BUFLEN
  {
    OutputNotEmpty(o.message, o.now);
    hide Import, Output, WellFormed, SmallShape, Canonical, ObjectOctets, BodyOf, DecodeIpfix;
    hide HeaderWord, HeaderType, HeaderLength, HeaderTreatment, DecodeBehind;
    DecodeHeader(dict, o, rest);
    HeaderRoundTrip(o);
    BodySize(o);
    BehindIpfix(dict, HeaderWord(o), BodyOf(o) + rest);
    var body, len := BodyOf(o), HeaderLength(HeaderWord(o));
    if ObjectSize(o) - 4 < 16384 {
      assert (body + rest)[..len] == body && (body + rest)[len..] == rest;
      DecodeBody(dict, o);
    } else {
      assert |(body + rest)[len..]| > |rest|;
    }
  }

  /** The object comes from an exporter whose buffer is that of the program: see Exporter.Output. */
  ghost predicate FromExporter(dict: seq<FieldType>, o: Object) {
    Exported(dict, o) && AllDataSets(WriteOrder(o.message.templates), o.message.dataList).Ok?
    && PlaceOutput(o.message, {}, BUFLEN).Ok?
  }

  /** So every metering object that the program itself exports survives the wire, whatever its size. */
  lemma OutputSurvives(dict: seq<FieldType>, o: Object, rest: seq<Byte>)
    requires FromExporter(dict, o) && o.Valid()
    ensures |o.raw| <= BUFLEN && Sendable(dict, o)
    ensures DecodeObject(dict, ObjectOctets(o) + rest) == Success((Canonical(o), rest))
  {
    hide WellFormed, SmallShape, Output, OutputAfter, PlaceOutput, Canonical, DecodeObject, ObjectOctets, AllDataSets;
    FirstOutput(o.message, o.now);
    PlacedOutput(o.message, {}, 0, o.now, BUFLEN);
    DecodeMspec(dict, o, rest);
  }

  // ----- all objects of a message -----

  /** An object that survives the wire. */
  ghost predicate Sendable(dict: seq<FieldType>, o: Object) {
    o.Valid() && o.Check() && (o.Mspec? ==> Exported(dict, o) && |o.raw| <= BUFLEN)
  }

  ghost predicate AllSendable(dict: seq<FieldType>, objs: seq<Object>) {
    forall i :: 0 <= i < |objs| ==> Sendable(dict, objs[i])
  }

  function EncodeAll(objs: seq<Object>): seq<Byte> {
    FlatMap(ObjectOctets, objs)
  }

  function CanonicalAll(objs: seq<Object>): (r: seq<Object>)
    ensures |r| == |objs|
  {
    if objs == [] then [] else [Canonical(objs[0])] + CanonicalAll(objs[1..])
  }

  /** No unique object comes twice, and none that u has. */
  ghost predicate NoneTwice(u: Uniques, objs: seq<Object>) {
    forall i :: 0 <= i < |objs| && objs[i].Word? ==>
      objs[i].otype !in u && forall j :: 0 <= j < i && objs[j].Word? ==> objs[j].otype != objs[i].otype
  }

  lemma DecodeOne(dict: seq<FieldType>, o: Object, rest: seq<Byte>)
    requires Sendable(dict, o)
    ensures DecodeObject(dict, ObjectOctets(o) + rest) == Success((Canonical(o), rest))
  {
    hide Exported, DecodeObject, ObjectOctets;
    if o.Word? {
      DecodeWord(dict, o, rest);
    } else {
      DecodeMspec(dict, o, rest);
    }
  }

  lemma DecodeStep(dict: seq<FieldType>, s: seq<Byte>, o: Object, rest: seq<Byte>, es: seq<Entry>)
    requires s != [] && DecodeObject(dict, s) == Success((o, rest))
    ensures DecodeObjects(dict, s, es) ==
            if o.Unique() && Get(es, Key(o.Type(), 1)).Some? then Failure(Duplicate)
            else DecodeObjects(dict, rest, SetObject(es, o))
  {
    hide DecodeObject;
  }

  lemma SendableKind(dict: seq<FieldType>, o: Object)
    requires Sendable(dict, o)
    ensures o.Check() && Canonical(o).Word? == o.Word? && Canonical(o).Valid()
    ensures o.Word? ==> INFORMATION_CODE <= o.otype <= SESSION_LIFETIME && Canonical(o) == o
  {
    hide Exported;
  }

  lemma DecodeNext(dict: seq<FieldType>, o: Object, rest: seq<Byte>, u: Uniques, ms: seq<Object>)
    requires Sendable(dict, o) && ValidUniques(u) && AllMspec(if o.Word? then ms else ms + [Canonical(o)])
    requires o.Word? ==> o.otype !in u
    ensures DecodeObjects(dict, ObjectOctets(o) + rest, Layout(u, ms)) ==
            DecodeObjects(dict, rest,
              if o.Word? then Layout(u[o.otype := o], ms) else Layout(u, ms + [Canonical(o)]))
  {
    hide DecodeObjects, Layout, DecodeObject, ObjectOctets, Sendable, AllMspec, ValidUniques, Canonical, Get, SetObject;
    DecodeOne(dict, o, rest);
    OctetsSize(o);
    SendableKind(dict, o);
    DecodeStep(dict, ObjectOctets(o) + rest, Canonical(o), rest, Layout(u, ms));
    SetOne(u, ms, Canonical(o));
    if o.Word? {
      LookupIsExact(u, ms, Key(o.otype, 1));
    }
  }

  /** Reading a run of written objects sets them one after the other. */
  lemma {:induction false} DecodeAll(dict: seq<FieldType>, objs: seq<Object>, u: Uniques, ms: seq<Object>)
    requires AllSendable(dict, objs) && NoneTwice(u, objs) && ValidUniques(u)
    requires AllMspec(ms) && |ms| + |Mspecs(objs)| < WORD32 - IPFIX_OBJECT
    ensures DecodeObjects(dict, EncodeAll(objs), Layout(u, ms)) ==
            Success(Layout(Overwritten(u, objs), ms + Mspecs(CanonicalAll(objs))))
    decreases |objs|
  {
    hide Layout, ObjectOctets, Sendable, DecodeObject, Canonical;
    if objs == [] {
      assert ms + [] == ms;
    } else {
      var o, later := objs[0], objs[1..];
      assert Sendable(dict, o);
      assert forall i :: 0 <= i < |later| ==> later[i] == objs[i + 1];
      SendableKind(dict, o);
      DecodeNext(dict, o, EncodeAll(later), u, ms);
      if o.Word? {
        DecodeAll(dict, later, u[o.otype := o], ms);
        assert [] + Mspecs(CanonicalAll(later)) == Mspecs(CanonicalAll(later));
      } else {
        DecodeAll(dict, later, u, ms + [Canonical(o)]);
        Assoc(ms, [Canonical(o)], Mspecs(CanonicalAll(later)));
      }
    }
  }

  // ----- the message -----

  /** Takes the unique objects of these types. */
  function Picked(u: Uniques, types: seq<nat>): seq<Object>
    requires forall i :: 0 <= i < |types| ==> types[i] in u
  {
    if types == [] then [] else [u[types[0]]] + Picked(u, types[1..])
  }

  /** The types of WireTypes, as a set. */
  function WireKeys(msgType: int): set<int> {
    if msgType == CONFIGURE then {MSG_SEQUENCE, SESSION_LIFETIME, SELECTION_ENTITIES, HOP_COUNT}
    else if msgType == RESPONSE then {MSG_SEQUENCE, INFORMATION_CODE, SESSION_LIFETIME}
    else {MSG_SEQUENCE, SESSION_LIFETIME}
  }

  /** What the setters of each kind of message build: its unique objects, and metering objects if it has any. */
  ghost predicate Complete(dict: seq<FieldType>, msgType: int, u: Uniques, ms: seq<Object>) {
    && msgType in {CONFIGURE, RESPONSE, REFRESH}
    && ValidUniques(u) && AllMspec(ms)
    && u.Keys == WireKeys(msgType)
    && (forall t :: t in u ==> Sendable(dict, u[t]))
    && AllSendable(dict, ms)
    && (msgType == REFRESH ==> ms == [])
  }

  /** These unique objects are all there, and pass their checks. */
  predicate AllThere(u: Uniques, types: seq<nat>) {
    forall i :: 0 <= i < |types| ==> types[i] in u && u[types[i]].Check()
  }

  /** The unique objects are written exactly if all are there: octets in the order of the types. */
  lemma {:induction false} EncodeUniquesIff(u: Uniques, ms: seq<Object>, types: seq<nat>)
    requires ValidUniques(u) && AllMspec(ms) && forall i :: 0 <= i < |types| ==> 0xF4 <= types[i] <= 0xF8
    ensures EncodeUniques(Layout(u, ms), types).Success? <==> AllThere(u, types)
    ensures AllThere(u, types) ==> EncodeUniques(Layout(u, ms), types) == Success(EncodeAll(Picked(u, types)))
    decreases |types|
  {
    hide Layout, ObjectOctets, Object.Check;
    if types != [] {
      assert types[0] == types[0..][0];
      LookupIsExact(u, ms, Key(types[0], 1));
      EncodeUniquesIff(u, ms, types[1..]);
      ThereStep(u, types);
    }
  }

  lemma ThereStep(u: Uniques, types: seq<nat>)
    requires types != []
    ensures AllThere(u, types) <==> types[0] in u && u[types[0]].Check() && AllThere(u, types[1..])
  {
    hide Object.Check;
    assert forall i :: 0 <= i < |types| - 1 ==> types[1..][i] == types[i + 1];
    if types[0] in u && u[types[0]].Check() && AllThere(u, types[1..]) {
      forall i | 0 <= i < |types|
        ensures types[i] in u && u[types[i]].Check()
      {
        assert i > 0 ==> types[i] == types[1..][i - 1];
      }
    }
  }

  predicate AllChecked(ms: seq<Object>) {
    forall i :: 0 <= i < |ms| ==> ms[i].Check()
  }

  lemma {:induction false} EncodeMspecsIff(u: Uniques, ms: seq<Object>, i: nat)
    requires AllMspec(ms) && 1 <= i <= |ms| + 1
    ensures EncodeMspecs(Layout(u, ms), i, |ms|).Success? <==> AllChecked(ms[i - 1..])
    ensures AllChecked(ms[i - 1..]) ==> EncodeMspecs(Layout(u, ms), i, |ms|) == Success(EncodeAll(ms[i - 1..]))
    decreases |ms| + 1 - i
  {
    hide Layout, ObjectOctets, Object.Check;
    if i <= |ms| {
      LookupIsExact(u, ms, Key(IPFIX_OBJECT, i));
      EncodeMspecsIff(u, ms, i + 1);
      var rest := ms[i - 1..];
      assert rest[0] == ms[i - 1] && rest[1..] == ms[i..];
      CheckedStep(rest);
    }
  }

  lemma CheckedStep(ms: seq<Object>)
    requires ms != []
    ensures AllChecked(ms) <==> ms[0].Check() && AllChecked(ms[1..])
  {
    hide Object.Check;
    assert forall k :: 0 <= k < |ms| - 1 ==> ms[1..][k] == ms[k + 1];
    if ms[0].Check() && AllChecked(ms[1..]) {
      forall k | 0 <= k < |ms|
        ensures ms[k].Check()
      {
        assert k > 0 ==> ms[k] == ms[1..][k - 1];
      }
    }
  }

  lemma {:induction false} PickedSendable(dict: seq<FieldType>, u: Uniques, types: seq<nat>)
    requires forall t :: t in u ==> Sendable(dict, u[t])
    requires forall i :: 0 <= i < |types| ==> types[i] in u
    ensures AllSendable(dict, Picked(u, types)) && AllThere(u, types)
    decreases |types|
  {
    hide Exported;
    if types != [] {
      assert types[0] in u;
      PickedSendable(dict, u, types[1..]);
    }
  }

  // ----- check() and the size of a complete message -----

  lemma {:induction false} SlotIsThere(u: Uniques, ms: seq<Object>, t: nat, k: nat) returns (i: nat)
    requires t <= k < IPFIX_OBJECT && k in u
    ensures i < |LayoutFrom(u, ms, t)| && LayoutFrom(u, ms, t)[i] == Entry(Key(k, 1), u[k])
    decreases IPFIX_OBJECT - t
  {
    LayoutStep(u, ms, t);
    if t == k {
      i := 0;
    } else {
      i := SlotIsThere(u, ms, t + 1, k);
      i := i + |Slot(u, t)|;
    }
  }

  lemma SlotCount(u: Uniques)
    ensures |SlotsFrom(u, INFORMATION_CODE)| ==
            |Slot(u, 0xF4)| + |Slot(u, 0xF5)| + |Slot(u, 0xF6)| + |Slot(u, 0xF7)| + |Slot(u, 0xF8)|
  {
    hide Slot;
    assert SlotsFrom(u, 0xF9) == [];
    assert SlotsFrom(u, 0xF8) == Slot(u, 0xF8) + SlotsFrom(u, 0xF9);
    assert SlotsFrom(u, 0xF7) == Slot(u, 0xF7) + SlotsFrom(u, 0xF8);
    assert SlotsFrom(u, 0xF6) == Slot(u, 0xF6) + SlotsFrom(u, 0xF7);
    assert SlotsFrom(u, 0xF5) == Slot(u, 0xF5) + SlotsFrom(u, 0xF6);
  }

  lemma WireTypesAreKeys(msgType: int, u: Uniques)
    requires u.Keys == WireKeys(msgType)
    ensures forall i :: 0 <= i < |WireTypes(msgType)| ==> WireTypes(msgType)[i] in u
    ensures forall t :: t in u ==> t in WireTypes(msgType)
    ensures forall i, j :: 0 <= i < j < |WireTypes(msgType)| ==> WireTypes(msgType)[i] != WireTypes(msgType)[j]
    ensures |SlotsFrom(u, INFORMATION_CODE)| == |WireTypes(msgType)|
  {
    SlotCount(u);
  }

  lemma HasTypeIff(u: Uniques, ms: seq<Object>, t: nat)
    requires 0xF4 <= t <= 0xF8
    ensures HasType(Layout(u, ms), t) <==> t in u
  {
    hide SlotsFrom, Numbered;
    SlotRanks(u, INFORMATION_CODE);
    NumberedRanks(ms, 1);
    if t in u {
      var i := SlotIsThere(u, ms, INFORMATION_CODE, t);
    }
  }

  lemma OnlyTypesIff(u: Uniques, ms: seq<Object>)
    requires ValidUniques(u)
    ensures CheckMessage(2, Layout(u, ms)) <==> u.Keys <= {0xF4, 0xF7, 0xF8}
  {
    hide SlotsFrom, Numbered;
    SlotRanks(u, INFORMATION_CODE);
    NumberedRanks(ms, 1);
    forall t: nat | t in u && t !in {0xF4, 0xF7, 0xF8}
      ensures !CheckMessage(2, Layout(u, ms))
    {
      var i := SlotIsThere(u, ms, INFORMATION_CODE, t);
    }
  }

  lemma TwoObjectsIff(u: Uniques, ms: seq<Object>)
    requires ValidUniques(u) && AllMspec(ms)
    ensures CheckMessage(5, Layout(u, ms)) <==> u.Keys == {0xF7, 0xF8} && ms == []
  {
    hide Get, SlotsFrom, Numbered, Object.Valid;
    LookupIsExact(u, ms, Key(MSG_SEQUENCE, 1));
    LookupIsExact(u, ms, Key(SESSION_LIFETIME, 1));
    SlotCount(u);
    NumberedRanks(ms, 1);
    if CheckMessage(5, Layout(u, ms)) {
      assert forall t :: t in u.Keys <==> t in {0xF7, 0xF8};
    }
  }

  /** check(), on the objects that a message holds. */
  lemma ChecksIff(u: Uniques, ms: seq<Object>)
    requires ValidUniques(u) && AllMspec(ms)
    ensures CheckMessage(1, Layout(u, ms)) <==> {0xF5, 0xF6, 0xF7, 0xF8} <= u.Keys
    ensures CheckMessage(2, Layout(u, ms)) <==> u.Keys <= {0xF4, 0xF7, 0xF8}
    ensures CheckMessage(5, Layout(u, ms)) <==> u.Keys == {0xF7, 0xF8} && ms == []
  {
    hide Layout, HasType, ValidUniques, AllMspec, CheckMessage;
    FourTypesIff(u, ms);
    OnlyTypesIff(u, ms);
    TwoObjectsIff(u, ms);
  }

  lemma FourTypesIff(u: Uniques, ms: seq<Object>)
    ensures CheckMessage(1, Layout(u, ms)) <==> {0xF5, 0xF6, 0xF7, 0xF8} <= u.Keys
  {
    hide Layout, HasType;
    HasTypeIff(u, ms, 0xF5);
    HasTypeIff(u, ms, 0xF6);
    HasTypeIff(u, ms, 0xF7);
    HasTypeIff(u, ms, 0xF8);
  }

  lemma CompletePassesCheck(dict: seq<FieldType>, msgType: int, u: Uniques, ms: seq<Object>)
    requires Complete(dict, msgType, u, ms)
    ensures CheckMessage(msgType, Layout(u, ms))
  {
    hide CheckMessage, Layout, Sendable;
    ChecksIff(u, ms);
  }

  lemma {:induction false} EntriesSizeAppend(a: seq<Entry>, b: seq<Entry>)
    ensures EntriesSize(a + b) == EntriesSize(a) + EntriesSize(b)
    decreases |a|
  {
    if a == [] {
      assert a + b == b;
    } else {
      assert (a + b)[0] == a[0] && (a + b)[1..] == a[1..] + b;
      EntriesSizeAppend(a[1..], b);
    }
  }

  lemma {:induction false} WordEntriesSize(es: seq<Entry>)
    requires forall i :: 0 <= i < |es| ==> es[i].obj.Word?
    ensures EntriesSize(es) == 8 * |es|
    decreases |es|
  {
    if es != [] {
      WordEntriesSize(es[1..]);
    }
  }

  lemma {:induction false} NumberedSize(ms: seq<Object>, i: nat)
    ensures EntriesSize(Numbered(ms, i)) == |EncodeAll(ms)|
    decreases |ms|
  {
    hide ObjectOctets;
    if ms != [] {
      OctetsSize(ms[0]);
      NumberedSize(ms[1..], i + 1);
    }
  }

  lemma {:induction false} PickedSize(u: Uniques, types: seq<nat>)
    requires forall i :: 0 <= i < |types| ==> types[i] in u && u[types[i]].Word?
    ensures |EncodeAll(Picked(u, types))| == 8 * |types|
    decreases |types|
  {
    hide ObjectOctets;
    if types != [] {
      assert types[0] in u && u[types[0]].Word?;
      OctetsSize(u[types[0]]);
      PickedSize(u, types[1..]);
    }
  }

  lemma LayoutSize(dict: seq<FieldType>, msgType: int, u: Uniques, ms: seq<Object>)
    requires Complete(dict, msgType, u, ms)
    requires forall i :: 0 <= i < |WireTypes(msgType)| ==> WireTypes(msgType)[i] in u
    ensures MessageSize(Layout(u, ms)) == 4 + |EncodeAll(Picked(u, WireTypes(msgType)))| + |EncodeAll(ms)|
  {
    WireTypesAreKeys(msgType, u);
    SlotRanks(u, INFORMATION_CODE);
    WordEntriesSize(SlotsFrom(u, INFORMATION_CODE));
    NumberedSize(ms, 1);
    EntriesSizeAppend(SlotsFrom(u, INFORMATION_CODE), Numbered(ms, 1));
    PickedSize(u, WireTypes(msgType));
  }

  // ----- writing and reading -----

  lemma {:induction false} OverwrittenAppend(u: Uniques, a: seq<Object>, b: seq<Object>)
    ensures Overwritten(u, a + b) == Overwritten(Overwritten(u, a), b)
    decreases |a|
  {
    if a == [] {
      assert a + b == b;
    } else {
      assert (a + b)[0] == a[0] && (a + b)[1..] == a[1..] + b;
      OverwrittenAppend(if a[0].Unique() then u[a[0].Type() := a[0]] else u, a[1..], b);
    }
  }

  lemma SameKind(objs: seq<Object>)
    ensures forall i :: 0 <= i < |objs| ==> Canonical(objs[i]).Unique() == objs[i].Unique()
  {
  }

  lemma {:induction false} MspecsOverwriteNothing(u: Uniques, ms: seq<Object>)
    requires forall i :: 0 <= i < |ms| ==> ms[i].Mspec?
    ensures Overwritten(u, ms) == u && Mspecs(CanonicalAll(ms)) == CanonicalAll(ms) && Mspecs(ms) == ms
    decreases |ms|
  {
    SameKind(ms);
    hide Canonical;
    if ms != [] {
      MspecsOverwriteNothing(u, ms[1..]);
    }
  }

  lemma {:induction false} PickedOverwrite(v: Uniques, u: Uniques, types: seq<nat>)
    requires ValidUniques(u) && (forall i :: 0 <= i < |types| ==> types[i] in u)
    requires forall t :: t in v ==> t in u && v[t] == u[t]
    ensures var r := Overwritten(v, Picked(u, types));
            && (forall t :: t in r ==> t in u && r[t] == u[t])
            && (forall t :: t in v ==> t in r)
            && (forall i :: 0 <= i < |types| ==> types[i] in r)
    decreases |types|
  {
    if types != [] {
      var t := types[0];
      assert t in u && u[t].Word? && u[t].otype == t;
      PickedOverwrite(v[t := u[t]], u, types[1..]);
    }
  }

  lemma {:induction false} CanonicalAppend(a: seq<Object>, b: seq<Object>)
    ensures CanonicalAll(a + b) == CanonicalAll(a) + CanonicalAll(b)
    ensures Mspecs(a + b) == Mspecs(a) + Mspecs(b)
    decreases |a|
  {
    hide Canonical;
    if a == [] {
      assert a + b == b;
    } else {
      assert (a + b)[0] == a[0] && (a + b)[1..] == a[1..] + b;
      CanonicalAppend(a[1..], b);
      Assoc([Canonical(a[0])], CanonicalAll(a[1..]), CanonicalAll(b));
      Assoc(if a[0].Unique() then [] else [a[0]], Mspecs(a[1..]), Mspecs(b));
    }
  }

  lemma {:induction false} PickedAreWords(u: Uniques, types: seq<nat>)
    requires ValidUniques(u) && forall i :: 0 <= i < |types| ==> types[i] in u
    ensures |Picked(u, types)| == |types|
    ensures forall i :: 0 <= i < |types| ==> Picked(u, types)[i] == u[types[i]]
    ensures Mspecs(CanonicalAll(Picked(u, types))) == [] && Mspecs(Picked(u, types)) == []
    decreases |types|
  {
    if types != [] {
      assert types[0] in u && u[types[0]].Word?;
      PickedAreWords(u, types[1..]);
    }
  }

  lemma PickedIsAll(u: Uniques, types: seq<nat>)
    requires ValidUniques(u) && (forall i :: 0 <= i < |types| ==> types[i] in u)
    requires forall t :: t in u ==> t in types
    ensures Overwritten(map[], Picked(u, types)) == u
  {
    PickedOverwrite(map[], u, types);
    var r := Overwritten(map[], Picked(u, types));
    forall t | t in u
      ensures t in r
    {
      var i :| 0 <= i < |types| && types[i] == t;
    }
    forall t | t in r.Keys
      ensures t in u.Keys && r[t] == u[t]
    {
    }
    assert r.Keys == u.Keys;
    assert r == u;
  }

  lemma PickedOnce(u: Uniques, types: seq<nat>, ms: seq<Object>)
    requires ValidUniques(u) && (forall i :: 0 <= i < |types| ==> types[i] in u) && AllMspec(ms)
    requires forall i, j :: 0 <= i < j < |types| ==> types[i] != types[j]
    ensures NoneTwice(map[], Picked(u, types) + ms)
  {
    PickedAreWords(u, types);
  }

  /** The unique objects in wire order and the metering objects, set one by one, rebuild the store. */
  lemma WireOrderRebuilds(u: Uniques, types: seq<nat>, ms: seq<Object>)
    requires ValidUniques(u) && (forall i :: 0 <= i < |types| ==> types[i] in u) && AllMspec(ms)
    requires forall t :: t in u ==> t in types
    ensures Overwritten(map[], Picked(u, types) + ms) == u
    ensures Mspecs(CanonicalAll(Picked(u, types) + ms)) == CanonicalAll(ms) && Mspecs(Picked(u, types) + ms) == ms
  {
    var picked := Picked(u, types);
    PickedAreWords(u, types);
    CanonicalAppend(picked, ms);
    CanonicalAppend(CanonicalAll(picked), CanonicalAll(ms));
    OverwrittenAppend(map[], picked, ms);
    PickedIsAll(u, types);
    MspecsOverwriteNothing(u, ms);
    assert [] + CanonicalAll(ms) == CanonicalAll(ms) && [] + ms == ms;
  }

  lemma EncodeParts(dict: seq<FieldType>, msgType: int, u: Uniques, ms: seq<Object>, types: seq<nat>)
    requires types == WireTypes(msgType) && CheckMessage(msgType, Layout(u, ms)) && (msgType == REFRESH ==> ms == [])
    requires ValidUniques(u) && AllMspec(ms) && AllSendable(dict, ms) && forall t :: t in u ==> Sendable(dict, u[t])
    requires forall i :: 0 <= i < |types| ==> types[i] in u
    ensures AllSendable(dict, Picked(u, types) + ms)
    ensures EncodeMessage(msgType, Layout(u, ms))
         == Success(U32(msgType * 0x100_0000) + EncodeAll(Picked(u, types) + ms))
  {
    hide CheckMessage, Layout, EncodeUniques, EncodeMspecs, ObjectOctets, WireTypes, U32, Exported, Object.Check;
    PickedSendable(dict, u, types);
    EncodeUniquesIff(u, ms, types);
    FlatMapAppend(ObjectOctets, Picked(u, types), ms);
    MaxSequenceIsCount(u, ms);
    EncodeMspecsIff(u, ms, 1);
    assert ms[0..] == ms;
  }

  lemma EncodeComplete(dict: seq<FieldType>, msgType: int, u: Uniques, ms: seq<Object>) returns (objs: seq<Object>)
    requires Complete(dict, msgType, u, ms)
    ensures AllSendable(dict, objs) && NoneTwice(map[], objs) && Mspecs(objs) == ms
    ensures Overwritten(map[], objs) == u && Mspecs(CanonicalAll(objs)) == CanonicalAll(ms)
    ensures EncodeMessage(msgType, Layout(u, ms)) == Success(U32(msgType * 0x100_0000) + EncodeAll(objs))
    ensures MessageSize(Layout(u, ms)) == 4 + |EncodeAll(objs)|
  {
    hide CheckMessage, Sendable, Layout, CanonicalAll, Mspecs, Overwritten, MessageSize, WireTypes, WireKeys;
    hide ObjectOctets, NoneTwice, EncodeMessage, SlotsFrom, Picked, U32;
    WireTypesAreKeys(msgType, u);
    CompletePassesCheck(dict, msgType, u, ms);
    var types := WireTypes(msgType);
    objs := Picked(u, types) + ms;
    EncodeParts(dict, msgType, u, ms, types);
    FlatMapAppend(ObjectOctets, Picked(u, types), ms);
    LayoutSize(dict, msgType, u, ms);
    PickedAreWords(u, types);
    WireOrderRebuilds(u, types, ms);
    PickedOnce(u, types, ms);
  }

  lemma EmptyLayout()
    ensures Layout(map[], []) == []
  {
    SlotCount(map[]);
  }

  lemma LayoutNotEmpty(u: Uniques, ms: seq<Object>)
    requires MSG_SEQUENCE in u
    ensures Layout(u, ms) != []
  {
    var i := SlotIsThere(u, ms, INFORMATION_CODE, MSG_SEQUENCE);
  }

  lemma {:induction false} CanonicalNumberedSize(ms: seq<Object>, i: nat)
    ensures EntriesSize(Numbered(CanonicalAll(ms), i)) == EntriesSize(Numbered(ms, i))
    decreases |ms|
  {
    if ms != [] {
      CanonicalNumberedSize(ms[1..], i + 1);
    }
  }

  lemma CanonicalSize(u: Uniques, ms: seq<Object>)
    ensures MessageSize(Layout(u, CanonicalAll(ms))) == MessageSize(Layout(u, ms))
  {
    CanonicalNumberedSize(ms, 1);
    EntriesSizeAppend(SlotsFrom(u, INFORMATION_CODE), Numbered(ms, 1));
    EntriesSizeAppend(SlotsFrom(u, INFORMATION_CODE), Numbered(CanonicalAll(ms), 1));
  }

  lemma DecodeTyped(dict: seq<FieldType>, msgType: int, body: seq<Byte>, es: seq<Entry>)
    requires msgType in REGISTERED && DecodeObjects(dict, body, []) == Success(es) && es != []
    ensures DecodeMessage(dict, U32(msgType * 0x100_0000) + body) == Success((msgType, es))
  {
    hide DecodeObjects, U32, ReadU32;
    U32RoundTrip(msgType * 0x100_0000, body);
  }

  /**
   * Writing a complete message and reading it: the same type, the same unique objects, the metering
   * objects numbered 1..n in their old order, and as many octets as get_serialized_size says.
   */
  lemma MessageRoundTrip(dict: seq<FieldType>, msgType: int, u: Uniques, ms: seq<Object>)
    requires Complete(dict, msgType, u, ms)
    ensures EncodeMessage(msgType, Layout(u, ms)).Success?
    ensures var octets := EncodeMessage(msgType, Layout(u, ms)).value;
            && DecodeMessage(dict, octets) == Success((msgType, Layout(u, CanonicalAll(ms))))
            && |octets| == MessageSize(Layout(u, ms)) == MessageSize(Layout(u, CanonicalAll(ms)))
  {
    hide EncodeMessage, DecodeMessage, DecodeObjects, MessageSize, Layout, EncodeAll, AllSendable, NoneTwice;
    hide Mspecs, CanonicalAll, Overwritten, U32;
    var objs := EncodeComplete(dict, msgType, u, ms);
    EmptyLayout();
    DecodeAll(dict, objs, map[], []);
    assert [] + CanonicalAll(ms) == CanonicalAll(ms);
    LayoutNotEmpty(u, CanonicalAll(ms));
    DecodeTyped(dict, msgType, EncodeAll(objs), Layout(u, CanonicalAll(ms)));
    CanonicalSize(u, ms);
  }
}
