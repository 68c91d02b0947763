/** Information elements, their values, and the dictionary of known elements. */
module IpfixField {
  import opened Bytes

  datatype IpfixError =
    | BadArgument    // mnslp_ipfix_bad_argument is thrown
    | OutOfBounds    // the original reads past the octets it was given, or past a vector
    | Endless        // the original loops for ever: a record consumed no octet
    | NoRoom         // allocate_additional_memory throws
    | Overrun        // the original writes past the end of its buffer
    | Released       // the original writes into a buffer that it has deleted
    | OtherVersion   // a NetFlow v9 header, which is not part of this model

  datatype Result<+T> = Ok(value: T) | Err(error: IpfixError) {
    predicate IsFailure() { Err? }
    function PropagateFailure<U>(): Result<U> requires Err? { Err(error) }
    function Extract(): T requires Ok? { value }
  }

  datatype Coding = CInt | CUint | CBytes | CString | CFloat | CNtp | CIpAddr | COther

  datatype FieldType = FieldType(eno: int, ftype: int, length: int, coding: Coding)

  /** A stored value: a number of 1, 2, 4 or 8 octets, or an octet string. */
  datatype Value = Number(len: nat, n: nat) | Octets(bytes: seq<Byte>) {
    function Length(): nat { if Number? then len else |bytes| }
    predicate Valid() { Number? ==> len in {1, 2, 4, 8} && n < Pow256(len) }
  }

  predicate IsInteger(c: Coding) { c in {CInt, CUint, CNtp} }

  /** The lengths that the numeric branch of a coding knows; empty for octet-string codings. */
  function NumberLengths(c: Coding): set<int> {
    if IsInteger(c) then {1, 2, 4, 8} else if c == CFloat then {4, 8} else {}
  }

  /** `encode` with relay_f = 1, its value in network mode: numbers are copied in host order. */
  function Encode(ft: FieldType, v: Value): (s: seq<Byte>)
    requires NumberLengths(ft.coding) == {} ==> v.Octets?   // otherwise memcpy reads NULL
    ensures |s| == v.Length()
  {
    if NumberLengths(ft.coding) == {} then v.bytes
    else if v.Length() in NumberLengths(ft.coding) then
      HostBytes(if v.Number? then v.n else 0, v.Length())
    else seq(v.Length(), i => 255)
  }

  /** `decode` with relay_f = 1 of exactly the octets of one value. */
  function Decode(ft: FieldType, s: seq<Byte>): (r: Result<Value>)
    ensures r.Ok? ==> r.value.Valid()
  {
    match ft.coding
    case CIpAddr => if ft.length == |s| then Ok(Octets(s)) else Err(BadArgument)
    case CBytes => if ft.length == |s| || ft.length == 65535 then Ok(Octets(s)) else Err(BadArgument)
    case CString => Err(BadArgument)
    case COther => Err(BadArgument)
    case _ =>
      if |s| in NumberLengths(ft.coding) then
        if ft.length == |s| then Ok(Number(|s|, HostValue(s))) else Err(BadArgument)
      else Ok(Octets([]))
  }

  /** Exactly the values an element can carry across the wire; see DecodeInvertsEncode. */
  predicate Carries(ft: FieldType, v: Value) {
    match ft.coding
    case CIpAddr => v.Octets? && ft.length == |v.bytes|
    case CBytes => v.Octets? && (ft.length == |v.bytes| || ft.length == 65535)
    case CString => false
    case COther => false
    case _ => v == Octets([]) || (v.Number? && v.len == ft.length && v.len in NumberLengths(ft.coding))
  }

  lemma DecodeInvertsEncode(ft: FieldType, v: Value)
    requires v.Valid() && (NumberLengths(ft.coding) == {} ==> v.Octets?)
    ensures Decode(ft, Encode(ft, v)) == Ok(v) <==> Carries(ft, v)
  {
    if v.Number? {
      HostRoundTrip(v.n, v.len);
    }
  }

  /** The dictionary lookup: the first element with this key. */
  function Lookup(dict: seq<FieldType>, eno: int, ftype: int): (r: Result<FieldType>)
    ensures r.Ok? ==> r.value in dict && r.value.eno == eno && r.value.ftype == ftype
    ensures r.Err? ==> forall f :: f in dict ==> !(f.eno == eno && f.ftype == ftype)
  {
    if dict == [] then Err(BadArgument)
    else if dict[0].eno == eno && dict[0].ftype == ftype then Ok(dict[0])
    else Lookup(dict[1..], eno, ftype)
  }

  ghost predicate DistinctKeys(dict: seq<FieldType>) {
    forall i, j :: 0 <= i < j < |dict| ==> dict[i].eno != dict[j].eno || dict[i].ftype != dict[j].ftype
  }

  /** Elements with distinct keys are all found again, whatever the order they were added in. */
  lemma {:induction false} LookupFindsEveryElement(dict: seq<FieldType>, i: nat)
    requires DistinctKeys(dict) && i < |dict|
    ensures Lookup(dict, dict[i].eno, dict[i].ftype) == Ok(dict[i])
  {
    if i > 0 {
      assert DistinctKeys(dict[1..]);
      LookupFindsEveryElement(dict[1..], i - 1);
    }
  }

  /** msnlp_ipfix_field_container. */
  class FieldContainer {
    var fieldTypeList: seq<FieldType>

    constructor ()
      ensures fieldTypeList == []
    {
      fieldTypeList := [];
    }

    /** Refuses a second element with the same key; otherwise appends. */
    method AddFieldType(ft: FieldType) returns (added: bool)
      requires DistinctKeys(fieldTypeList)
      modifies this
      ensures DistinctKeys(fieldTypeList)
      ensures added <==> Lookup(old(fieldTypeList), ft.eno, ft.ftype).Err?
      ensures fieldTypeList == if added then old(fieldTypeList) + [ft] else old(fieldTypeList)
    {
      for i := 0 to |fieldTypeList|
        invariant fieldTypeList == old(fieldTypeList)
        invariant forall k :: 0 <= k < i ==> fieldTypeList[k].eno != ft.eno || fieldTypeList[k].ftype != ft.ftype
      {
        if fieldTypeList[i].eno == ft.eno && fieldTypeList[i].ftype == ft.ftype {
          LookupFindsEveryElement(fieldTypeList, i);
          return false;
        }
      }
      fieldTypeList := fieldTypeList + [ft];
      added := true;
    }

    method GetField(eno: int, ftype: int) returns (r: Result<FieldType>)
      ensures r == Lookup(fieldTypeList, eno, ftype)
    {
      for i := 0 to |fieldTypeList|
        invariant Lookup(fieldTypeList, eno, ftype) == Lookup(fieldTypeList[i..], eno, ftype)
      {
        if fieldTypeList[i].eno == eno && fieldTypeList[i].ftype == ftype {
          return Ok(fieldTypeList[i]);
        }
        assert fieldTypeList[i..][1..] == fieldTypeList[i + 1..];
      }
      r := Err(BadArgument);
    }
  }

  /**
   * A data record. `std::map` compares keys by eno * 1000 + ftype alone, so two keys with the
   * same rank are one key: the rank is the key of the model.
   */
  function Rank(eno: int, ftype: int): int {
    eno * 1000 + ftype
  }

  /** The sum separates keys exactly when no two element numbers are a multiple of 1000 apart. */
  lemma RankSeparates(e: int, f: int, e': int, f': int)
    ensures Rank(e, f) == Rank(e', f') <==> f - f' == 1000 * (e' - e)
    ensures 0 <= f < 1000 && 0 <= f' < 1000 && Rank(e, f) == Rank(e', f') ==> e == e' && f == f'
  {
  }

  /** Outside [0, 1000) it does not: element 1000 of the IETF set shadows element 0 of enterprise 1. */
  lemma RankCollides()
    ensures Rank(0, 1000) == Rank(1, 0)
  {
  }

  datatype Record = Record(tid: int, fields: map<int, Value>) {
    /** insert_field: `std::map::insert` keeps the value that is already there. */
    function Insert(eno: int, ftype: int, v: Value): Record {
      if Rank(eno, ftype) in fields then this
      else this.(fields := fields[Rank(eno, ftype) := v])
    }

    function Get(eno: int, ftype: int): Result<Value> {
      if Rank(eno, ftype) in fields then Ok(fields[Rank(eno, ftype)]) else Err(BadArgument)
    }
  }

  function InsertAll(r: Record, kvs: seq<(int, int, Value)>): Record
    decreases |kvs|
  {
    if kvs == [] then r else InsertAll(r.Insert(kvs[0].0, kvs[0].1, kvs[0].2), kvs[1..])
  }

  /** The exact-key reading: the first value inserted under this very key. */
  function FirstUnder(kvs: seq<(int, int, Value)>, eno: int, ftype: int): Result<Value> {
    if kvs == [] then Err(BadArgument)
    else if kvs[0].0 == eno && kvs[0].1 == ftype then Ok(kvs[0].2)
    else FirstUnder(kvs[1..], eno, ftype)
  }

  lemma {:induction false} InsertAllKeepsFirst(r: Record, kvs: seq<(int, int, Value)>, rank: int)
    requires rank in r.fields
    ensures rank in InsertAll(r, kvs).fields && InsertAll(r, kvs).fields[rank] == r.fields[rank]
    decreases |kvs|
  {
    if kvs != [] {
      InsertAllKeepsFirst(r.Insert(kvs[0].0, kvs[0].1, kvs[0].2), kvs[1..], rank);
    }
  }

  /** Any keys with element numbers in [0, 1000): a record is a faithful first-wins exact-key map. */
  lemma {:induction false} RecordIsExactMap(r: Record, kvs: seq<(int, int, Value)>, eno: int, ftype: int)
    requires forall kv :: kv in kvs ==> 0 <= kv.1 < 1000
    requires 0 <= ftype < 1000 && Rank(eno, ftype) !in r.fields
    ensures InsertAll(r, kvs).Get(eno, ftype) == FirstUnder(kvs, eno, ftype)
    decreases |kvs|
  {
    if kvs != [] {
      var (e, f, v) := kvs[0];
      assert kvs[0] in kvs;
      RankSeparates(e, f, eno, ftype);
      if e == eno && f == ftype {
        InsertAllKeepsFirst(r.Insert(e, f, v), kvs[1..], Rank(eno, ftype));
      } else {
        RecordIsExactMap(r.Insert(e, f, v), kvs[1..], eno, ftype);
      }
    }
  }
}
