/** MNSLP objects and their octets: a 32-bit header word, then the body. */
module MnslpObject {
  import opened Bytes
  import opened IpfixField
  import opened IpfixLayout
  import opened IpfixReader

  const INFORMATION_CODE := 0xF4
  const SELECTION_ENTITIES := 0xF5
  const HOP_COUNT := 0xF6
  const MSG_SEQUENCE := 0xF7
  const SESSION_LIFETIME := 0xF8
  const IPFIX_OBJECT := 0xF9
  const WORD32 := 0x1_0000_0000

  datatype TlvError =
    | TooShort          // IEMsgTooShort, or NetMsgError from the body
    | WrongType         // no class is registered for the type
    | Duplicate         // a second object of a unique type
    | EmptyMessage
    | BadObject         // check() fails, or the body has values or padding it must not have
    | BadIpfix(cause: IpfixError)
    | Missing           // an object that the message must contain is not there

  datatype Outcome<+T> = Success(value: T) | Failure(error: TlvError) {
    predicate IsFailure() { Failure? }
    function PropagateFailure<U>(): Outcome<U> requires Failure? { Failure(error) }
    function Extract(): T requires Success? { value }
  }

  /**
   * The objects of a message. `raw` is what `get_message` returns: the octets of the last
   * `output` or import, empty if there was none.
   */
  datatype Object =
    | Word(otype: nat, treatment: int, value: int)
    | Mspec(treatment: int, message: Message, now: int, raw: seq<Byte>)
  {
    function Type(): nat { if Word? then otype else IPFIX_OBJECT }

    predicate Unique() { Word? }

    /** check(), for the values the fields can have. */
    predicate Check() {
      if Mspec? then raw != []
      else otype == INFORMATION_CODE ==> value < 0x1000_0000 && value % 65536 == 0
    }

    predicate Valid() {
      && 0 <= treatment < 4
      && (Word? ==> INFORMATION_CODE <= otype <= SESSION_LIFETIME && 0 <= value < WORD32)
    }
  }

  /** Octets of padding up to a multiple of four. */
  function PadOf(n: nat): (p: nat)
    ensures p < 4 && (n + p) % 4 == 0
  {
    (4 - n % 4) % 4
  }

  function Zeros(n: nat): seq<Byte> {
    seq(n, i => 0)
  }

  function BodyOf(o: Object): seq<Byte> {
    if o.Word? then U32(o.value) else o.raw + Zeros(PadOf(|o.raw|))
  }

  /** get_serialized_size */
  function ObjectSize(o: Object): nat {
    4 + if o.Word? then 4 else |o.raw| + PadOf(|o.raw|)
  }

  /** The header word, for a body length that has gone through a uint16. */
  function HeaderWord(o: Object): int {
    o.treatment * 0x4000_0000 + o.Type() * 65536 + ((ObjectSize(o) - 4) % 65536) / 4
  }

  function ObjectOctets(o: Object): seq<Byte> {
    U32(HeaderWord(o)) + BodyOf(o)
  }

  function EncodeObject(o: Object): Outcome<seq<Byte>> {
    if o.Check() then Success(ObjectOctets(o)) else Failure(BadObject)
  }

  function HeaderType(h: int): nat { (h / 65536) % 4096 }
  function HeaderLength(h: int): int { (h % 4096) * 4 }
  function HeaderTreatment(h: int): int { h / 0x4000_0000 }

  lemma PackedWord(treatment: int, otype: int, words: int)
    requires 0 <= treatment < 4 && 0 <= otype < 4096 && 0 <= words < 16384
    ensures var h := treatment * 0x4000_0000 + otype * 65536 + words;
            0 <= h < WORD32 && h / 65536 == treatment * 0x4000 + otype && h % 4096 == words % 4096
  {
    var h := treatment * 0x4000_0000 + otype * 65536 + words;
    assert h == 65536 * (treatment * 0x4000 + otype) + words;
  }

  lemma PackedHigh(treatment: int, otype: int, h: int)
    requires 0 <= treatment < 4 && 0 <= otype < 4096 && 0 <= h < WORD32 && h / 65536 == treatment * 0x4000 + otype
    ensures HeaderType(h) == otype && HeaderTreatment(h) == treatment
  {
    assert h / 0x4000_0000 == h / 65536 / 0x4000;
  }

  lemma WordCount(size: nat)
    requires size % 4 == 0
    ensures var words := (size % 65536) / 4;
            words < 16384 && (words % 4096 * 4 == size <==> size < 16384) && words % 4096 * 4 <= size
  {
  }

  /** The header comes back exactly for bodies of fewer than 4096 words. */
  lemma HeaderRoundTrip(o: Object)
    requires o.Valid()
    ensures 0 <= HeaderWord(o) < WORD32
    ensures HeaderType(HeaderWord(o)) == o.Type() && HeaderTreatment(HeaderWord(o)) == o.treatment
    ensures HeaderLength(HeaderWord(o)) == ObjectSize(o) - 4 <==> ObjectSize(o) - 4 < 16384
    ensures HeaderLength(HeaderWord(o)) <= ObjectSize(o) - 4
  {
    hide HeaderType, HeaderTreatment, ObjectSize;
    SizeIsWords(o);
    WordCount(ObjectSize(o) - 4);
    PackedWord(o.treatment, o.Type(), ((ObjectSize(o) - 4) % 65536) / 4);
    PackedHigh(o.treatment, o.Type(), HeaderWord(o));
  }

  lemma SizeIsWords(o: Object)
    ensures ObjectSize(o) >= 4 && (ObjectSize(o) - 4) % 4 == 0
  {
  }

  function DecodeIpfix(dict: seq<FieldType>, treatment: int, body: seq<Byte>): Outcome<Object> {
    var r := ImportInto(dict, body, BUFLEN);
    if r.Err? then Failure(BadIpfix(r.error))
    else
      var i := r.value;
      if i.nread > |body| || exists k :: i.nread <= k < |body| && body[k] != 0 then Failure(BadObject)
      else Success(Mspec(treatment, Message(i.sourceid, i.templates, i.dataList), i.exporttime, body[..i.nread]))
  }

  /** The object behind a header word. */
  function DecodeBehind(dict: seq<FieldType>, h: int, s: seq<Byte>): (r: Outcome<(Object, seq<Byte>)>)
    ensures r.Success? ==> |r.value.1| <= |s|
  {
    var otype, len := HeaderType(h), HeaderLength(h);
    if !(INFORMATION_CODE <= otype <= IPFIX_OBJECT) then Failure(WrongType)
    else if |s| < len then Failure(TooShort)
    else if otype == IPFIX_OBJECT then
      var o :- DecodeIpfix(dict, HeaderTreatment(h), s[..len]);
      Success((o, s[len..]))
    else if |s| < 4 then Failure(TooShort)
    else
      var o := WordFrom(otype, HeaderTreatment(h), ReadU32(s));
      if o.Check() then Success((o, s[4..])) else Failure(BadObject)
  }

  /** An information code keeps four bits of its first octet. */
  function WordFrom(otype: nat, treatment: int, value: int): Object {
    Word(otype, treatment, if otype == INFORMATION_CODE then value % 0x1000_0000 else value)
  }

  /** One object from the front of s, and the octets after it. */
  function DecodeObject(dict: seq<FieldType>, s: seq<Byte>): (r: Outcome<(Object, seq<Byte>)>)
    ensures r.Success? ==> |r.value.1| + 4 <= |s|
  {
    if |s| < 4 then Failure(TooShort) else DecodeBehind(dict, ReadU32(s), s[4..])
  }
}
