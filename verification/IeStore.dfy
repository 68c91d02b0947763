/** The store of a message's objects: a map ordered by the sum of type and sequence number. */
module IeStore {
  import opened Bytes
  import opened MnslpObject
  import opened Options

  /** ie_object_key: two uint32. */
  datatype Key = Key(otype: nat, seqNbr: nat)

  datatype Entry = Entry(key: Key, obj: Object)

  /** What operator< compares: a uint32 sum, which wraps. */
  function KeySum(k: Key): nat {
    (k.otype + k.seqNbr) % WORD32
  }

  predicate Less(a: Key, b: Key) {
    KeySum(a) < KeySum(b)
  }

  /** The keys that a message ever uses. */
  predicate Used(k: Key) {
    || (INFORMATION_CODE <= k.otype <= SESSION_LIFETIME && k.seqNbr == 1)
    || (k.otype == IPFIX_OBJECT && 1 <= k.seqNbr < WORD32 - IPFIX_OBJECT)
  }

  lemma SameRemainder(x: int, q: int)
    ensures (x + WORD32 * q) % WORD32 == x % WORD32
  {
    var a, b := (x + WORD32 * q) / WORD32, x / WORD32;
    assert (x + WORD32 * q) % WORD32 - x % WORD32 == WORD32 * (q - a + b);
  }

  lemma EqualSums(x: nat, y: nat)
    ensures x % WORD32 == y % WORD32 <==> (x - y) % WORD32 == 0
  {
    var r, q := x % WORD32 - y % WORD32, x / WORD32 - y / WORD32;
    assert x - y == r + WORD32 * q;
    SameRemainder(r, q);
    assert r < 0 ==> r % WORD32 == r + WORD32;
  }

  lemma UsedSum(k: Key)
    requires Used(k)
    ensures KeySum(k) == k.otype + k.seqNbr
  {
  }

  /** The map takes two keys for one exactly when their sums agree modulo 2^32; used keys never do. */
  lemma KeysSeparated(a: Key, b: Key)
    ensures !Less(a, b) && !Less(b, a) <==> (a.otype + a.seqNbr - b.otype - b.seqNbr) % WORD32 == 0
    ensures Used(a) && Used(b) && !Less(a, b) && !Less(b, a) ==> a == b
  {
    hide KeySum;
    SumsCompare(a, b);
    if Used(a) && Used(b) {
      UsedSum(a);
      UsedSum(b);
    }
  }

  lemma SumsCompare(a: Key, b: Key)
    ensures KeySum(a) == KeySum(b) <==> (a.otype + a.seqNbr - b.otype - b.seqNbr) % WORD32 == 0
  {
    EqualSums(a.otype + a.seqNbr, b.otype + b.seqNbr);
    assert a.otype + a.seqNbr - b.otype - b.seqNbr == (a.otype + a.seqNbr) - (b.otype + b.seqNbr);
  }

  /** Other keys can: looking for a second object of type 0xF5 finds the hop count. */
  lemma KeysCollide()
    ensures KeySum(Key(SELECTION_ENTITIES, 2)) == KeySum(Key(HOP_COUNT, 1))
  {
  }

  // ----- the ordered map: entries in the iteration order of std::map -----

  ghost predicate Sorted(es: seq<Entry>) {
    forall i, j :: 0 <= i < j < |es| ==> Less(es[i].key, es[j].key)
  }

  /** An equivalent key is kept, and only its value replaced. */
  function Put(es: seq<Entry>, k: Key, o: Object): (r: seq<Entry>)
    ensures |es| <= |r|
  {
    if es == [] || Less(k, es[0].key) then [Entry(k, o)] + es
    else if Less(es[0].key, k) then [es[0]] + Put(es[1..], k, o)
    else [Entry(es[0].key, o)] + es[1..]
  }

  function Get(es: seq<Entry>, k: Key): Option<Object> {
    if es == [] then None
    else if KeySum(es[0].key) == KeySum(k) then Some(es[0].obj)
    else Get(es[1..], k)
  }

  function MaxSequence(es: seq<Entry>, otype: nat): nat {
    if es == [] then 0
    else
      var rest := MaxSequence(es[1..], otype);
      if es[0].key.otype == otype && es[0].key.seqNbr > rest then es[0].key.seqNbr else rest
  }

  /** mnslp_msg::set_object: unique objects have sequence number 1, others the next one of their type. */
  function SetObject(es: seq<Entry>, o: Object): seq<Entry> {
    if o.Unique() then Put(es, Key(o.Type(), 1), o)
    else Put(es, Key(o.Type(), (MaxSequence(es, o.Type()) + 1) % WORD32), o)
  }

  function SetAll(es: seq<Entry>, objs: seq<Object>): seq<Entry>
    decreases |objs|
  {
    if objs == [] then es else SetAll(SetObject(es, objs[0]), objs[1..])
  }

  /** get_mspec_objects: everything of another type than the four header objects. */
  function MspecObjects(es: seq<Entry>): seq<Object> {
    if es == [] then []
    else
      (if es[0].key.otype in {HOP_COUNT, SELECTION_ENTITIES, MSG_SEQUENCE, SESSION_LIFETIME} then [] else [es[0].obj])
      + MspecObjects(es[1..])
  }

  // ----- the reference: an exact map of unique objects, and the others in order -----

  type Uniques = map<int, Object>

  ghost predicate ValidUniques(u: Uniques) {
    forall t :: t in u ==> INFORMATION_CODE <= t <= SESSION_LIFETIME && u[t].Word? && u[t].otype == t
  }

  ghost predicate AllMspec(ms: seq<Object>) {
    |ms| < WORD32 - IPFIX_OBJECT && forall i :: 0 <= i < |ms| ==> ms[i].Mspec?
  }

  function Slot(u: Uniques, t: nat): seq<Entry> {
    if t in u then [Entry(Key(t, 1), u[t])] else []
  }

  function SlotsFrom(u: Uniques, t: nat): seq<Entry>
    requires t <= IPFIX_OBJECT
    decreases IPFIX_OBJECT - t
  {
    if t == IPFIX_OBJECT then [] else Slot(u, t) + SlotsFrom(u, t + 1)
  }

  function Numbered(ms: seq<Object>, i: nat): seq<Entry> {
    if ms == [] then [] else [Entry(Key(IPFIX_OBJECT, i), ms[0])] + Numbered(ms[1..], i + 1)
  }

  /** What the store of a message holds: unique objects by type, then the metering objects 1..n. */
  function LayoutFrom(u: Uniques, ms: seq<Object>, t: nat): seq<Entry>
    requires t <= IPFIX_OBJECT
  {
    SlotsFrom(u, t) + Numbered(ms, 1)
  }

  function Layout(u: Uniques, ms: seq<Object>): seq<Entry> {
    LayoutFrom(u, ms, INFORMATION_CODE)
  }

  function Overwritten(u: Uniques, objs: seq<Object>): Uniques
    decreases |objs|
  {
    if objs == [] then u
    else Overwritten(if objs[0].Unique() then u[objs[0].Type() := objs[0]] else u, objs[1..])
  }

  function Mspecs(objs: seq<Object>): seq<Object> {
    if objs == [] then [] else (if objs[0].Unique() then [] else [objs[0]]) + Mspecs(objs[1..])
  }

  lemma LayoutStep(u: Uniques, ms: seq<Object>, t: nat)
    requires t < IPFIX_OBJECT
    ensures LayoutFrom(u, ms, t) == Slot(u, t) + LayoutFrom(u, ms, t + 1)
  {
  }

  lemma {:induction false} FirstRank(u: Uniques, ms: seq<Object>, t: nat)
    requires INFORMATION_CODE <= t <= IPFIX_OBJECT && AllMspec(ms)
    ensures var es := LayoutFrom(u, ms, t); es == [] || KeySum(es[0].key) >= t + 1
    decreases IPFIX_OBJECT - t
  {
    if t < IPFIX_OBJECT {
      LayoutStep(u, ms, t);
      FirstRank(u, ms, t + 1);
    }
  }

  lemma {:induction false} SlotsAbove(u: Uniques, k: nat, o: Object, t: nat)
    requires k < t <= IPFIX_OBJECT
    ensures SlotsFrom(u[k := o], t) == SlotsFrom(u, t)
    decreases IPFIX_OBJECT - t
  {
    if t < IPFIX_OBJECT {
      SlotsAbove(u, k, o, t + 1);
    }
  }

  lemma LayoutAbove(u: Uniques, ms: seq<Object>, o: Object, t: nat)
    requires o.Type() < t <= IPFIX_OBJECT
    ensures LayoutFrom(u[o.Type() := o], ms, t) == LayoutFrom(u, ms, t)
  {
    SlotsAbove(u, o.Type(), o, t);
  }

  lemma PutBehind(e: Entry, rest: seq<Entry>, k: Key, o: Object)
    ensures Less(e.key, k) ==> Put([e] + rest, k, o) == [e] + Put(rest, k, o)
    ensures KeySum(e.key) == KeySum(k) ==> Put([e] + rest, k, o) == [Entry(e.key, o)] + rest
    ensures rest == [] || Less(k, rest[0].key) ==> Put(rest, k, o) == [Entry(k, o)] + rest
  {
    assert ([e] + rest)[0] == e && ([e] + rest)[1..] == rest;
  }

  lemma {:induction false} PutUnique(u: Uniques, ms: seq<Object>, o: Object, t: nat)
    requires ValidUniques(u) && AllMspec(ms) && o.Word? && INFORMATION_CODE <= t <= o.otype <= SESSION_LIFETIME
    ensures Put(LayoutFrom(u, ms, t), Key(o.otype, 1), o) == LayoutFrom(u[o.otype := o], ms, t)
    decreases IPFIX_OBJECT - t
  {
    hide LayoutFrom, SlotsFrom, Put;
    var k, rest := Key(o.otype, 1), LayoutFrom(u, ms, t + 1);
    LayoutStep(u, ms, t);
    LayoutStep(u[o.otype := o], ms, t);
    PutBehind(Entry(Key(t, 1), if t in u then u[t] else o), rest, k, o);
    assert [] + rest == rest && [] + Put(rest, k, o) == Put(rest, k, o);
    if t == o.otype {
      LayoutAbove(u, ms, o, t + 1);
      FirstRank(u, ms, t + 1);
    } else {
      PutUnique(u, ms, o, t + 1);
    }
  }

  lemma {:induction false} NumberedSnoc(ms: seq<Object>, o: Object, i: nat)
    ensures Numbered(ms + [o], i) == Numbered(ms, i) + [Entry(Key(IPFIX_OBJECT, i + |ms|), o)]
    decreases |ms|
  {
    if ms != [] {
      assert (ms + [o])[0] == ms[0] && (ms + [o])[1..] == ms[1..] + [o];
      NumberedSnoc(ms[1..], o, i + 1);
    }
  }

  lemma {:induction false} PutLast(es: seq<Entry>, k: Key, o: Object)
    requires forall i :: 0 <= i < |es| ==> Less(es[i].key, k)
    ensures Put(es, k, o) == es + [Entry(k, o)]
    decreases |es|
  {
    if es != [] {
      PutLast(es[1..], k, o);
    }
  }

  lemma {:induction false} NumberedRanks(ms: seq<Object>, i: nat)
    ensures |Numbered(ms, i)| == |ms|
    ensures forall j :: 0 <= j < |ms| ==> Numbered(ms, i)[j] == Entry(Key(IPFIX_OBJECT, i + j), ms[j])
    decreases |ms|
  {
    if ms != [] {
      NumberedRanks(ms[1..], i + 1);
    }
  }

  lemma {:induction false} SlotRanks(u: Uniques, t: nat)
    requires INFORMATION_CODE <= t <= IPFIX_OBJECT
    ensures forall j :: 0 <= j < |SlotsFrom(u, t)| ==>
              var e := SlotsFrom(u, t)[j];
              e.key.seqNbr == 1 && t <= e.key.otype <= SESSION_LIFETIME && e.key.otype in u && e.obj == u[e.key.otype]
    decreases IPFIX_OBJECT - t
  {
    if t < IPFIX_OBJECT {
      SlotRanks(u, t + 1);
    }
  }

  lemma PutMspec(u: Uniques, ms: seq<Object>, o: Object)
    requires AllMspec(ms + [o])
    ensures Put(Layout(u, ms), Key(IPFIX_OBJECT, |ms| + 1), o) == Layout(u, ms + [o])
  {
    hide Put, Numbered, SlotsFrom;
    var k := Key(IPFIX_OBJECT, |ms| + 1);
    var slots, nums := SlotsFrom(u, INFORMATION_CODE), Numbered(ms, 1);
    SlotRanks(u, INFORMATION_CODE);
    NumberedRanks(ms, 1);
    NumberedSnoc(ms, o, 1);
    PutLast(slots + nums, k, o);
    Assoc(slots, nums, [Entry(k, o)]);
  }

  lemma {:induction false} MaxSequenceAppend(a: seq<Entry>, b: seq<Entry>, t: nat)
    ensures MaxSequence(a + b, t) ==
            if MaxSequence(a, t) > MaxSequence(b, t) then MaxSequence(a, t) else MaxSequence(b, t)
    decreases |a|
  {
    if a == [] {
      assert a + b == b;
    } else {
      assert (a + b)[0] == a[0] && (a + b)[1..] == a[1..] + b;
      MaxSequenceAppend(a[1..], b, t);
    }
  }

  lemma {:induction false} NoneOfType(es: seq<Entry>, t: nat)
    requires forall i :: 0 <= i < |es| ==> es[i].key.otype != t
    ensures MaxSequence(es, t) == 0
    decreases |es|
  {
    if es != [] {
      NoneOfType(es[1..], t);
    }
  }

  lemma {:induction false} MaxOfNumbered(ms: seq<Object>, i: nat)
    ensures MaxSequence(Numbered(ms, i), IPFIX_OBJECT) == if ms == [] then 0 else i + |ms| - 1
    decreases |ms|
  {
    if ms != [] {
      MaxOfNumbered(ms[1..], i + 1);
    }
  }

  /** The metering objects are counted by their largest sequence number: there are no gaps. */
  lemma MaxSequenceIsCount(u: Uniques, ms: seq<Object>)
    ensures MaxSequence(Layout(u, ms), IPFIX_OBJECT) == |ms|
  {
    SlotRanks(u, INFORMATION_CODE);
    NoneOfType(SlotsFrom(u, INFORMATION_CODE), IPFIX_OBJECT);
    MaxOfNumbered(ms, 1);
    MaxSequenceAppend(SlotsFrom(u, INFORMATION_CODE), Numbered(ms, 1), IPFIX_OBJECT);
  }

  lemma SetOne(u: Uniques, ms: seq<Object>, o: Object)
    requires ValidUniques(u) && o.Valid() && AllMspec(if o.Unique() then ms else ms + [o])
    ensures SetObject(Layout(u, ms), o) ==
            if o.Unique() then Layout(u[o.Type() := o], ms) else Layout(u, ms + [o])
  {
    hide LayoutFrom, Put, MaxSequence, ValidUniques;
    if o.Unique() {
      PutUnique(u, ms, o, INFORMATION_CODE);
    } else {
      MaxSequenceIsCount(u, ms);
      PutMspec(u, ms, o);
    }
  }

  lemma OneMore(u: Uniques, ms: seq<Object>, o: Object)
    requires ValidUniques(u) && AllMspec(ms) && |ms| + 1 < WORD32 - IPFIX_OBJECT && o.Valid()
    ensures o.Unique() ==> ValidUniques(u[o.Type() := o])
    ensures !o.Unique() ==> AllMspec(ms + [o])
  {
  }

  lemma RunStep(es: seq<Entry>, u: Uniques, objs: seq<Object>)
    ensures objs == [] ==> SetAll(es, objs) == es && Overwritten(u, objs) == u && Mspecs(objs) == []
    ensures objs != [] ==>
              var o, later := objs[0], objs[1..];
              && SetAll(es, objs) == SetAll(SetObject(es, o), later)
              && Overwritten(u, objs) == Overwritten(if o.Unique() then u[o.Type() := o] else u, later)
              && Mspecs(objs) == if o.Unique() then Mspecs(later) else [o] + Mspecs(later)
  {
    hide SetObject;
    assert objs != [] ==> [] + Mspecs(objs[1..]) == Mspecs(objs[1..]);
  }

  /**
   * Over any run of set_object, the sum-ordered map holds what an exact-key map would: the last
   * object of each unique type, and the metering objects, numbered 1..n in the order they came.
   */
  lemma {:induction false} StoreRefinesExactMap(u: Uniques, ms: seq<Object>, objs: seq<Object>)
    requires ValidUniques(u) && AllMspec(ms) && |ms| + |objs| < WORD32 - IPFIX_OBJECT
    requires forall i :: 0 <= i < |objs| ==> objs[i].Valid()
    ensures SetAll(Layout(u, ms), objs) == Layout(Overwritten(u, objs), ms + Mspecs(objs))
    decreases |objs|
  {
    hide Layout, SetObject, ValidUniques, AllMspec, SetAll, Overwritten, Mspecs;
    RunStep(Layout(u, ms), u, objs);
    if objs == [] {
      assert ms + [] == ms;
    } else {
      var o := objs[0];
      OneMore(u, ms, o);
      SetOne(u, ms, o);
      if o.Unique() {
        StoreRefinesExactMap(u[o.Type() := o], ms, objs[1..]);
      } else {
        StoreRefinesExactMap(u, ms + [o], objs[1..]);
        Assoc(ms, [o], Mspecs(objs[1..]));
      }
    }
  }

  // ----- lookups -----

  lemma {:induction false} GetNone(es: seq<Entry>, k: Key)
    requires forall i :: 0 <= i < |es| ==> KeySum(es[i].key) != KeySum(k)
    ensures Get(es, k) == None
    decreases |es|
  {
    if es != [] {
      GetNone(es[1..], k);
    }
  }

  lemma {:induction false} GetAppend(a: seq<Entry>, b: seq<Entry>, k: Key)
    ensures Get(a + b, k) == if Get(a, k).Some? then Get(a, k) else Get(b, k)
    decreases |a|
  {
    if a == [] {
      assert a + b == b;
    } else {
      assert (a + b)[0] == a[0] && (a + b)[1..] == a[1..] + b;
      GetAppend(a[1..], b, k);
    }
  }

  lemma SlotGet(u: Uniques, t: nat, k: nat)
    requires INFORMATION_CODE <= t <= k <= SESSION_LIFETIME
    ensures Get(Slot(u, t), Key(k, 1)) == if t == k && t in u then Some(u[k]) else None
  {
  }

  lemma SlotsStep(u: Uniques, t: nat)
    requires t < IPFIX_OBJECT
    ensures SlotsFrom(u, t) == Slot(u, t) + SlotsFrom(u, t + 1)
  {
  }

  lemma {:induction false} SlotLookup(u: Uniques, t: nat, k: nat)
    requires INFORMATION_CODE <= t <= k <= SESSION_LIFETIME
    ensures Get(SlotsFrom(u, t), Key(k, 1)) == if k in u then Some(u[k]) else None
    decreases IPFIX_OBJECT - t
  {
    hide Get, Slot, SlotsFrom;
    SlotsStep(u, t);
    GetAppend(Slot(u, t), SlotsFrom(u, t + 1), Key(k, 1));
    SlotGet(u, t, k);
    if t < k {
      SlotLookup(u, t + 1, k);
    } else {
      SlotRanks(u, t + 1);
      GetNone(SlotsFrom(u, t + 1), Key(k, 1));
    }
  }

  lemma {:induction false} NumberedLookup(ms: seq<Object>, i: nat, k: nat)
    requires 1 <= i && i + |ms| <= WORD32 - IPFIX_OBJECT && k < WORD32 - IPFIX_OBJECT
    ensures Get(Numbered(ms, i), Key(IPFIX_OBJECT, k)) == if i <= k < i + |ms| then Some(ms[k - i]) else None
    decreases |ms|
  {
    if ms != [] {
      NumberedLookup(ms[1..], i + 1, k);
    }
  }

  /** Every lookup under a used key answers as the exact-key map does. */
  lemma LookupIsExact(u: Uniques, ms: seq<Object>, k: Key)
    requires AllMspec(ms) && Used(k)
    ensures Get(Layout(u, ms), k) ==
            if k.otype != IPFIX_OBJECT then (if k.otype in u then Some(u[k.otype]) else None)
            else if k.seqNbr <= |ms| then Some(ms[k.seqNbr - 1]) else None
  {
    hide SlotsFrom, Numbered, Get;
    var slots, nums := SlotsFrom(u, INFORMATION_CODE), Numbered(ms, 1);
    GetAppend(slots, nums, k);
    if k.otype != IPFIX_OBJECT {
      SlotLookup(u, INFORMATION_CODE, k.otype);
      NumberedRanks(ms, 1);
      GetNone(nums, k);
    } else {
      SlotRanks(u, INFORMATION_CODE);
      GetNone(slots, k);
      NumberedLookup(ms, 1, k.seqNbr);
    }
  }

  // ----- the metering objects, in order -----

  lemma {:induction false} MspecObjectsAppend(a: seq<Entry>, b: seq<Entry>)
    ensures MspecObjects(a + b) == MspecObjects(a) + MspecObjects(b)
    decreases |a|
  {
    if a == [] {
      assert a + b == b;
    } else {
      assert (a + b)[0] == a[0] && (a + b)[1..] == a[1..] + b;
      MspecObjectsAppend(a[1..], b);
    }
  }

  lemma {:induction false} MspecObjectsOfNumbered(ms: seq<Object>, i: nat)
    ensures MspecObjects(Numbered(ms, i)) == ms
    decreases |ms|
  {
    if ms != [] {
      MspecObjectsOfNumbered(ms[1..], i + 1);
    }
  }

  lemma {:induction false} NoMspecInSlots(es: seq<Entry>)
    requires forall i :: 0 <= i < |es| ==> SELECTION_ENTITIES <= es[i].key.otype <= SESSION_LIFETIME
    ensures MspecObjects(es) == []
    decreases |es|
  {
    if es != [] {
      NoMspecInSlots(es[1..]);
    }
  }

  /**
   * get_mspec_objects returns the metering objects in the order they were set. An information code
   * comes before them: the original takes it for one of them, and copies a null pointer.
   */
  lemma InsertionOrder(u: Uniques, ms: seq<Object>)
    ensures MspecObjects(Layout(u, ms)) == (if 0xF4 in u then [u[0xF4]] else []) + ms
  {
    var later := SlotsFrom(u, 0xF5);
    assert SlotsFrom(u, INFORMATION_CODE) == Slot(u, 0xF4) + later;
    SlotRanks(u, 0xF5);
    NoMspecInSlots(later);
    MspecObjectsOfNumbered(ms, 1);
    MspecObjectsAppend(Slot(u, 0xF4), later);
    MspecObjectsAppend(SlotsFrom(u, INFORMATION_CODE), Numbered(ms, 1));
    CodeIsListed(u);
  }

  lemma CodeIsListed(u: Uniques)
    ensures MspecObjects(Slot(u, 0xF4)) == if 0xF4 in u then [u[0xF4]] else []
  {
    if 0xF4 in u {
      var es := Slot(u, 0xF4);
      assert es[1..] == [] && [u[0xF4]] + MspecObjects([]) == [u[0xF4]];
    }
  }

  // ----- the store itself -----

  lemma {:induction false} PutAt(es: seq<Entry>, i: nat, k: Key, o: Object)
    requires i <= |es| && forall j :: 0 <= j < i ==> Less(es[j].key, k)
    ensures Put(es, k, o) == es[..i] + Put(es[i..], k, o)
    decreases i
  {
    if i == 0 {
      assert es[0..] == es && [] + Put(es, k, o) == Put(es, k, o);
    } else {
      PutAt(es[1..], i - 1, k, o);
      assert es[1..][i - 1..] == es[i..] && [es[0]] + es[1..][..i - 1] == es[..i];
      Assoc([es[0]], es[1..][..i - 1], Put(es[i..], k, o));
    }
  }

  lemma StaysSorted(es: seq<Entry>, i: nat, k: Key, o: Object)
    requires Sorted(es) && i <= |es| && forall j :: 0 <= j < i ==> Less(es[j].key, k)
    ensures i == |es| || Less(k, es[i].key) ==> Sorted(es[..i] + ([Entry(k, o)] + es[i..]))
    ensures i < |es| ==> Sorted(es[..i] + ([Entry(es[i].key, o)] + es[i + 1..]))
  {
    hide KeySum;
  }

  class Store {
    var entries: seq<Entry>

    constructor ()
      ensures entries == []
    {
      entries := [];
    }

    /** std::map::operator[] finds the place by the order of the keys. */
    method Set(k: Key, o: Object)
      requires Sorted(entries)
      modifies this
      ensures entries == Put(old(entries), k, o) && Sorted(entries)
    {
      hide Put, Sorted, KeySum;
      var i := 0;
      while i < |entries| && Less(entries[i].key, k)
        invariant 0 <= i <= |entries| && entries == old(entries)
        invariant forall j :: 0 <= j < i ==> Less(entries[j].key, k)
      {
        i := i + 1;
      }
      PutAt(entries, i, k, o);
      StaysSorted(entries, i, k, o);
      if i < |entries| && !Less(k, entries[i].key) {
        assert [entries[i]] + entries[i + 1..] == entries[i..];
        PutBehind(entries[i], entries[i + 1..], k, o);
        entries := entries[..i] + ([Entry(entries[i].key, o)] + entries[i + 1..]);
      } else {
        PutBehind(Entry(k, o), entries[i..], k, o);
        entries := entries[..i] + ([Entry(k, o)] + entries[i..]);
      }
    }

    method Find(k: Key) returns (r: Option<Object>)
      ensures r == Get(entries, k)
    {
      for i := 0 to |entries|
        invariant Get(entries, k) == Get(entries[i..], k)
      {
        assert entries[i..][1..] == entries[i + 1..];
        if KeySum(entries[i].key) == KeySum(k) {
          return Some(entries[i].obj);
        }
      }
      r := None;
    }

    method GetMaxSequence(otype: nat) returns (max: nat)
      ensures max == MaxSequence(entries, otype)
    {
      max := 0;
      for i := 0 to |entries|
        invariant MaxSequence(entries, otype)
               == if max > MaxSequence(entries[i..], otype) then max else MaxSequence(entries[i..], otype)
      {
        assert entries[i..][1..] == entries[i + 1..];
        if entries[i].key.otype == otype && max <= entries[i].key.seqNbr {
          max := entries[i].key.seqNbr;
        }
      }
    }
  }
}
