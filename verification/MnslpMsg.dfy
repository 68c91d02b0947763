/** MNSLP messages on the wire: a type, then objects in a fixed order, rebuilt by a reader that renumbers. */
module MnslpMsg {
  import opened Bytes
  import opened IpfixField
  import opened MnslpObject
  import opened IeStore

  const CONFIGURE := 1
  const RESPONSE := 2
  const REFRESH := 5
  const REGISTERED := {1, 2, 3, 4, 5}

  /** The unique objects that each kind of message writes, in this order. */
  function WireTypes(msgType: int): seq<nat> {
    if msgType == CONFIGURE then [MSG_SEQUENCE, SESSION_LIFETIME, SELECTION_ENTITIES, HOP_COUNT]
    else if msgType == RESPONSE then [MSG_SEQUENCE, INFORMATION_CODE, SESSION_LIFETIME]
    else [MSG_SEQUENCE, SESSION_LIFETIME]
  }

  predicate HasType(es: seq<Entry>, t: nat) {
    exists i :: 0 <= i < |es| && es[i].key.otype == t
  }

  /** check() of the three kinds of message. */
  predicate CheckMessage(msgType: int, es: seq<Entry>) {
    if msgType == CONFIGURE then
      HasType(es, MSG_SEQUENCE) && HasType(es, SELECTION_ENTITIES) && HasType(es, SESSION_LIFETIME) && HasType(es, HOP_COUNT)
    else if msgType == RESPONSE then
      forall i :: 0 <= i < |es| ==>
        es[i].key.otype in {MSG_SEQUENCE, INFORMATION_CODE, SESSION_LIFETIME, IPFIX_OBJECT}
    else
      |es| == 2 && Get(es, Key(MSG_SEQUENCE, 1)).Some? && Get(es, Key(SESSION_LIFETIME, 1)).Some?
  }

  function EncodeEntry(es: seq<Entry>, k: Key): Outcome<seq<Byte>> {
    var o := Get(es, k);
    if o.None? then Failure(Missing) else EncodeObject(o.value)
  }

  function EncodeUniques(es: seq<Entry>, types: seq<nat>): Outcome<seq<Byte>> {
    if types == [] then Success([])
    else
      var first :- EncodeEntry(es, Key(types[0], 1));
      var rest :- EncodeUniques(es, types[1..]);
      Success(first + rest)
  }

  function EncodeMspecs(es: seq<Entry>, i: nat, max: nat): Outcome<seq<Byte>>
    decreases max + 1 - i
  {
    if i > max then Success([])
    else
      var first :- EncodeEntry(es, Key(IPFIX_OBJECT, i));
      var rest :- EncodeMspecs(es, i + 1, max);
      Success(first + rest)
  }

  function EncodeMessage(msgType: int, es: seq<Entry>): Outcome<seq<Byte>> {
    if !CheckMessage(msgType, es) then Failure(BadObject)
    else
      var uniques :- EncodeUniques(es, WireTypes(msgType));
      var mspecs :- if msgType == REFRESH then Success([]) else EncodeMspecs(es, 1, MaxSequence(es, IPFIX_OBJECT));
      Success(U32(msgType * 0x100_0000) + (uniques + mspecs))
  }

  /** get_serialized_size */
  function EntriesSize(es: seq<Entry>): nat {
    if es == [] then 0 else ObjectSize(es[0].obj) + EntriesSize(es[1..])
  }

  function MessageSize(es: seq<Entry>): nat {
    4 + EntriesSize(es)
  }

  /** The object loop of deserialize, with skip = false. */
  function DecodeObjects(dict: seq<FieldType>, s: seq<Byte>, es: seq<Entry>): Outcome<seq<Entry>>
    decreases |s|
  {
    if s == [] then Success(es)
    else
      var (o, rest) :- DecodeObject(dict, s);
      if o.Unique() && Get(es, Key(o.Type(), 1)).Some? then Failure(Duplicate)
      else DecodeObjects(dict, rest, SetObject(es, o))
  }

  function DecodeMessage(dict: seq<FieldType>, s: seq<Byte>): Outcome<(int, seq<Entry>)> {
    if |s| < 4 then Failure(TooShort)
    else
      var msgType := ReadU32(s) / 0x100_0000;
      if msgType !in REGISTERED then Failure(WrongType)
      else
        var es :- DecodeObjects(dict, s[4..], []);
        if es == [] then Failure(EmptyMessage) else Success((msgType, es))
  }

  // ----- mnslp_msg, with its store and a cursor over the octets -----

  class MnslpMessage {
    var msgType: int
    const objects: Store

    constructor (msgType: int)
      ensures this.msgType == msgType && fresh(objects) && objects.entries == []
    {
      this.msgType := msgType;
      objects := new Store();
    }

    method SetObject(o: Object)
      requires Sorted(objects.entries)
      modifies objects
      ensures objects.entries == IeStore.SetObject(old(objects.entries), o) && Sorted(objects.entries)
    {
      if o.Unique() {
        objects.Set(Key(o.Type(), 1), o);
      } else {
        var max := objects.GetMaxSequence(o.Type());
        objects.Set(Key(o.Type(), (max + 1) % WORD32), o);
      }
    }

    method GetSerializedSize() returns (size: nat)
      ensures size == MessageSize(objects.entries)
    {
      size := 4;
      for i := 0 to |objects.entries|
        invariant size + EntriesSize(objects.entries[i..]) == MessageSize(objects.entries)
      {
        assert objects.entries[i..][1..] == objects.entries[i + 1..];
        size := size + ObjectSize(objects.entries[i].obj);
      }
    }

    method GetMspecObjects() returns (list: seq<Object>)
      ensures list == MspecObjects(objects.entries)
    {
      hide MspecObjects;
      list := [];
      MspecStep(objects.entries, 0);
      assert objects.entries[0..] == objects.entries && list + MspecObjects(objects.entries) == MspecObjects(objects.entries);
      for i := 0 to |objects.entries|
        invariant list + MspecObjects(objects.entries[i..]) == MspecObjects(objects.entries)
      {
        MspecStep(objects.entries, i);
        if objects.entries[i].key.otype !in {HOP_COUNT, SELECTION_ENTITIES, MSG_SEQUENCE, SESSION_LIFETIME} {
          Assoc(list, [objects.entries[i].obj], MspecObjects(objects.entries[i + 1..]));
          list := list + [objects.entries[i].obj];
        }
      }
      MspecStep(objects.entries, |objects.entries|);
      assert list + [] == list;
    }

    method SerializeObject(k: Key) returns (r: Outcome<seq<Byte>>)
      ensures r == EncodeEntry(objects.entries, k)
    {
      var o := objects.Find(k);
      r := if o.None? then Failure(Missing) else EncodeObject(o.value);
    }

    /** The objects that come first, in the order of the protocol. */
    method SerializeUniques(types: seq<nat>) returns (r: Outcome<seq<Byte>>)
      ensures r == EncodeUniques(objects.entries, types)
    {
      hide EncodeUniques, EncodeEntry;
      var out: seq<Byte> := [];
      BehindNothing(EncodeUniques(objects.entries, types));
      assert types[0..] == types;
      for i := 0 to |types|
        invariant EncodeUniques(objects.entries, types) == Behind(out, EncodeUniques(objects.entries, types[i..]))
      {
        UniquesStep(objects.entries, types, i);
        var one := SerializeObject(Key(types[i], 1));
        if one.Failure? {
          return one;
        }
        BehindBehind(out, one.value, EncodeUniques(objects.entries, types[i + 1..]));
        out := out + one.value;
      }
      UniquesStep(objects.entries, types, |types|);
      BehindNothing(Success(out));
      r := Success(out);
    }

    /** The metering objects 1, 2, ..., max. */
    method SerializeMspecs() returns (r: Outcome<seq<Byte>>)
      ensures r == EncodeMspecs(objects.entries, 1, MaxSequence(objects.entries, IPFIX_OBJECT))
    {
      var max := objects.GetMaxSequence(IPFIX_OBJECT);
      hide EncodeEntry;
      var out: seq<Byte> := [];
      BehindNothing(EncodeMspecs(objects.entries, 1, max));
      for i := 1 to max + 1
        invariant EncodeMspecs(objects.entries, 1, max) == Behind(out, EncodeMspecs(objects.entries, i, max))
      {
        var one := SerializeObject(Key(IPFIX_OBJECT, i));
        if one.Failure? {
          return one;
        }
        BehindBehind(out, one.value, EncodeMspecs(objects.entries, i + 1, max));
        out := out + one.value;
      }
      assert out + [] == out;
      r := Success(out);
    }

    method Serialize() returns (r: Outcome<seq<Byte>>)
      ensures r == EncodeMessage(msgType, objects.entries)
    {
      hide EncodeUniques, EncodeMspecs, CheckMessage;
      if !CheckMessage(msgType, objects.entries) {
        return Failure(BadObject);
      }
      var uniques := SerializeUniques(WireTypes(msgType));
      if uniques.Failure? {
        return uniques;
      }
      var mspecs := Success([]);
      if msgType != REFRESH {
        mspecs := SerializeMspecs();
      }
      if mspecs.Failure? {
        return mspecs;
      }
      r := Success(U32(msgType * 0x100_0000) + (uniques.value + mspecs.value));
    }

    /** The loop of deserialize: objects are read until no octet is left. */
    method DeserializeObjects(dict: seq<FieldType>, s: seq<Byte>, start: nat) returns (r: Outcome<()>)
      requires start <= |s| && Sorted(objects.entries)
      modifies objects
      ensures var spec := DecodeObjects(dict, s[start..], old(objects.entries));
              && (spec.Failure? ==> r == Failure(spec.error))
              && (spec.Success? ==> r.Success? && objects.entries == spec.value)
    {
      hide DecodeObject;
      var pos := start;
      while pos < |s|
        invariant start <= pos <= |s| && Sorted(objects.entries)
        invariant DecodeObjects(dict, s[pos..], objects.entries) == DecodeObjects(dict, s[start..], old(objects.entries))
        decreases |s| - pos
      {
        var one := DecodeObject(dict, s[pos..]);
        if one.Failure? {
          return Failure(one.error);
        }
        var (o, rest) := one.value;
        if o.Unique() {
          var twin := objects.Find(Key(o.Type(), 1));
          if twin.Some? {
            return Failure(Duplicate);
          }
        }
        RestIsSuffix(dict, s, pos);
        SetObject(o);
        pos := |s| - |rest|;
      }
      r := Success(());
    }

    method Deserialize(dict: seq<FieldType>, s: seq<Byte>) returns (r: Outcome<()>)
      requires objects.entries == []
      modifies this`msgType, objects
      ensures var spec := DecodeMessage(dict, s);
              && (spec.Failure? ==> r == Failure(spec.error))
              && (spec.Success? ==> r.Success? && (msgType, objects.entries) == spec.value)
    {
      hide DecodeObjects;
      if |s| < 4 {
        return Failure(TooShort);
      }
      var t := ReadU32(s) / 0x100_0000;
      if t !in REGISTERED {
        return Failure(WrongType);
      }
      msgType := t;
      r := DeserializeObjects(dict, s, 4);
      if r.Success? && objects.entries == [] {
        r := Failure(EmptyMessage);
      }
    }
  }

  /** An encoding behind octets that are written already. */
  function Behind(out: seq<Byte>, r: Outcome<seq<Byte>>): Outcome<seq<Byte>> {
    if r.Failure? then r else Success(out + r.value)
  }

  lemma BehindNothing(r: Outcome<seq<Byte>>)
    ensures Behind([], r) == r
    ensures r.Success? ==> Behind(r.value, Success([])) == r
  {
    if r.Success? {
      assert [] + r.value == r.value == r.value + [];
    }
  }

  lemma MspecStep(es: seq<Entry>, i: nat)
    requires i <= |es|
    ensures MspecObjects(es[i..]) ==
            if i == |es| then []
            else if es[i].key.otype in {HOP_COUNT, SELECTION_ENTITIES, MSG_SEQUENCE, SESSION_LIFETIME} then MspecObjects(es[i + 1..])
            else [es[i].obj] + MspecObjects(es[i + 1..])
  {
    if i < |es| {
      assert es[i..][0] == es[i] && es[i..][1..] == es[i + 1..];
      assert [] + MspecObjects(es[i + 1..]) == MspecObjects(es[i + 1..]);
    }
  }

  lemma UniquesStep(es: seq<Entry>, types: seq<nat>, i: nat)
    requires i <= |types|
    ensures EncodeUniques(es, types[i..]) ==
            if i == |types| then Success([])
            else
              var one := EncodeEntry(es, Key(types[i], 1));
              if one.Failure? then one else Behind(one.value, EncodeUniques(es, types[i + 1..]))
  {
    hide EncodeEntry;
    if i < |types| {
      assert types[i..][0] == types[i] && types[i..][1..] == types[i + 1..];
    }
  }

  lemma BehindBehind(out: seq<Byte>, one: seq<Byte>, r: Outcome<seq<Byte>>)
    ensures Behind(out, Behind(one, r)) == Behind(out + one, r)
  {
    if r.Success? {
      Assoc(out, one, r.value);
    }
  }

  /** Objects are taken from the front. */
  lemma RestIsSuffix(dict: seq<FieldType>, s: seq<Byte>, pos: nat)
    requires pos <= |s| && DecodeObject(dict, s[pos..]).Success?
    ensures var rest := DecodeObject(dict, s[pos..]).value.1;
            |rest| + pos < |s| && s[|s| - |rest|..] == rest
  {
  }
}
