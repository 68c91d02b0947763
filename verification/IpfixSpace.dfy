/** The buffer of a message never grows: when an output fits, when it throws, when it runs over the end. */
module IpfixSpace {
  import opened Bytes
  import opened IpfixField
  import opened IpfixLayout

  /**
   * The check before every write, and the write: `announced` octets are asked for, `actual` ones
   * are written. allocate_additional_memory is called with what is missing, tests that against the
   * buffer again, and throws if the second test fails too; otherwise the write goes ahead.
   */
  function Place(offset: nat, announced: nat, actual: nat, capacity: nat): Result<nat> {
    if offset + announced > capacity && offset + (offset + announced - capacity) > capacity then Err(NoRoom)
    else if offset + actual > capacity then Err(Overrun)
    else Ok(offset + actual)
  }

  /** Exactly when a write fits, throws, or runs over the end. */
  lemma PlaceIff(offset: nat, announced: nat, actual: nat, capacity: nat)
    requires offset <= capacity && actual <= announced
    ensures var p := Place(offset, announced, actual, capacity);
            && (p.Ok? <==> offset + actual <= capacity && 2 * offset + announced <= 2 * capacity)
            && (p == Err(NoRoom) <==> 2 * offset + announced > 2 * capacity)
            && (p == Err(Overrun) <==> offset + actual > capacity && 2 * offset + announced <= 2 * capacity)
            && (p.Ok? ==> p.value == offset + actual)
  {
  }

  /** Where what is written is what was asked for: no write past the end, exactly under these two guards. */
  lemma NoOverrunIff(offset: nat, need: nat, capacity: nat)
    requires offset <= capacity
    ensures Place(offset, need, need, capacity) != Err(Overrun) <==>
            offset + need <= capacity || 2 * offset + need > 2 * capacity
  {
  }

  /** Ten octets before the end of the buffer, the check lets a header of sixteen through. */
  lemma HeaderOverruns()
    ensures Place(BUFLEN - 10, HDR_BYTES, HDR_BYTES, BUFLEN) == Err(Overrun)
  {
  }

  // ----- a whole output -----

  /** The loop over the records of one template: the length it announces accumulates. */
  function PlaceRecords(t: Template, recs: seq<Record>, announced: nat, offset: nat, capacity: nat): Result<nat>
    requires DataSets(t, recs).Ok?
    decreases |recs|
  {
    if recs == [] then Ok(offset)
    else if recs[0].tid != t.tid then PlaceRecords(t, recs[1..], announced, offset, capacity)
    else
      var size := |RecordOctets(t, recs[0]).value|;
      var next :- Place(offset, announced + size, 4 + size, capacity);
      PlaceRecords(t, recs[1..], announced + size, next, capacity)
  }

  /** output_set */
  function PlaceSet(unsent: bool, t: Template, recs: seq<Record>, offset: nat, capacity: nat): Result<nat>
    requires DataSets(t, recs).Ok?
  {
    var start :- if unsent then Place(offset, TemplateSize(t), TemplateSize(t), capacity) else Ok(offset);
    PlaceRecords(t, recs, 4, start, capacity)
  }

  function PlaceSets(sent: set<int>, ts: seq<Template>, recs: seq<Record>, offset: nat, capacity: nat): Result<nat>
    requires AllDataSets(ts, recs).Ok?
  {
    if ts == [] then Ok(offset)
    else
      var next :- PlaceSet(ts[0].tid !in sent, ts[0], recs, offset, capacity);
      PlaceSets(sent, ts[1..], recs, next, capacity)
  }

  /** What an output comes to in a buffer of this capacity. */
  function PlaceOutput(m: Message, sent: set<int>, capacity: nat): Result<nat>
    requires AllDataSets(WriteOrder(m.templates), m.dataList).Ok?
  {
    var end :- PlaceSets(sent, WriteOrder(m.templates), m.dataList, 0, capacity);
    Place(end, HDR_BYTES, HDR_BYTES, capacity)
  }

  // ----- its size -----

  lemma {:induction false} PlacedRecords(t: Template, recs: seq<Record>, announced: nat, offset: nat, capacity: nat)
    requires DataSets(t, recs).Ok? && offset <= capacity && PlaceRecords(t, recs, announced, offset, capacity).Ok?
    ensures PlaceRecords(t, recs, announced, offset, capacity).value == offset + |DataSets(t, recs).value| <= capacity
    decreases |recs|
  {
    if recs != [] {
      if recs[0].tid != t.tid {
        PlacedRecords(t, recs[1..], announced, offset, capacity);
      } else {
        var size := |RecordOctets(t, recs[0]).value|;
        PlacedRecords(t, recs[1..], announced + size, offset + 4 + size, capacity);
      }
    }
  }

  lemma PlacedSet(unsent: bool, t: Template, recs: seq<Record>, offset: nat, capacity: nat)
    requires DataSets(t, recs).Ok? && offset <= capacity && PlaceSet(unsent, t, recs, offset, capacity).Ok?
    ensures PlaceSet(unsent, t, recs, offset, capacity).value
         == offset + (if unsent then TemplateSize(t) else 0) + |DataSets(t, recs).value| <= capacity
  {
    hide PlaceRecords, DataSets, TemplateSize;
    PlacedRecords(t, recs, 4, offset + if unsent then TemplateSize(t) else 0, capacity);
  }

  lemma {:induction false} PlacedSets(sent: set<int>, ts: seq<Template>, recs: seq<Record>, offset: nat, capacity: nat)
    requires AllDataSets(ts, recs).Ok? && offset <= capacity && PlaceSets(sent, ts, recs, offset, capacity).Ok?
    ensures PlaceSets(sent, ts, recs, offset, capacity).value
         == offset + |TemplateSets(Unsent(sent, ts))| + |AllDataSets(ts, recs).value| <= capacity
    decreases |ts|
  {
    hide PlaceSet, DataSets, TemplateSize, TemplateSet;
    if ts != [] {
      TemplateSizeExact(ts[0]);
      PlacedSet(ts[0].tid !in sent, ts[0], recs, offset, capacity);
      PlacedSets(sent, ts[1..], recs, PlaceSet(ts[0].tid !in sent, ts[0], recs, offset, capacity).value, capacity);
    }
  }

  lemma {:induction false} ReversedSize(ts: seq<Template>)
    ensures |TemplateSets(Reverse(ts))| == |TemplateSets(ts)|
  {
    if ts != [] {
      ReversedSize(ts[1..]);
      FlatMapAppend(TemplateSet, Reverse(ts[1..]), [ts[0]]);
      FlatMapOne(TemplateSet, ts[0]);
    }
  }

  /** An output that fits is as long as its octets say, and no longer than the buffer. */
  lemma PlacedOutput(m: Message, sent: set<int>, count: nat, now: int, capacity: nat)
    requires OutputAfter(m, sent, count, now).Ok? && PlaceOutput(m, sent, capacity).Ok?
    ensures PlaceOutput(m, sent, capacity).value == |OutputAfter(m, sent, count, now).value| <= capacity
  {
    hide PlaceSets, WriteOrder, AllDataSets, TemplateSets, Regroup, Header;
    var ts := WriteOrder(m.templates);
    PlacedSets(sent, ts, m.dataList, 0, capacity);
    ReversedSize(Unsent(sent, ts));
  }

  // ----- room that suffices -----

  /** What `output_set` may need of the buffer. */
  function RoomForOne(t: Template, recs: seq<Record>): nat {
    TemplateSize(t) + if DataSets(t, recs).Ok? then 2 * |DataSets(t, recs).value| else 0
  }

  /**
   * Octets that suffice for these templates and their records: the length that is checked against
   * the buffer accumulates over the records of a template, so each record counts twice.
   */
  function RoomFor(ts: seq<Template>, recs: seq<Record>): nat {
    if ts == [] then 0 else RoomForOne(ts[0], recs) + RoomFor(ts[1..], recs)
  }

  lemma {:induction false} RecordsHaveRoom(t: Template, recs: seq<Record>, announced: nat, offset: nat, capacity: nat)
    requires DataSets(t, recs).Ok?
    requires DataSets(t, recs).value != [] ==> offset + announced + 2 * |DataSets(t, recs).value| <= capacity + 4
    ensures PlaceRecords(t, recs, announced, offset, capacity) == Ok(offset + |DataSets(t, recs).value|)
    decreases |recs|
  {
    if recs != [] {
      if recs[0].tid != t.tid {
        RecordsHaveRoom(t, recs[1..], announced, offset, capacity);
      } else {
        var size := |RecordOctets(t, recs[0]).value|;
        RecordsHaveRoom(t, recs[1..], announced + size, offset + 4 + size, capacity);
      }
    }
  }

  lemma {:induction false} SetsHaveRoom(sent: set<int>, ts: seq<Template>, recs: seq<Record>, offset: nat, capacity: nat)
    requires AllDataSets(ts, recs).Ok? && offset + RoomFor(ts, recs) <= capacity
    ensures var p := PlaceSets(sent, ts, recs, offset, capacity); p.Ok? && p.value <= offset + RoomFor(ts, recs)
    decreases |ts|
  {
    hide PlaceRecords, DataSets;
    if ts != [] {
      var start := offset + if ts[0].tid !in sent then TemplateSize(ts[0]) else 0;
      RecordsHaveRoom(ts[0], recs, 4, start, capacity);
      SetsHaveRoom(sent, ts[1..], recs, start + |DataSets(ts[0], recs).value|, capacity);
    }
  }

  /** An output succeeds in a buffer with the room that its templates and records ask for. */
  lemma RoomSuffices(m: Message, sent: set<int>, capacity: nat)
    requires AllDataSets(WriteOrder(m.templates), m.dataList).Ok?
    requires HDR_BYTES + RoomFor(WriteOrder(m.templates), m.dataList) <= capacity
    ensures PlaceOutput(m, sent, capacity).Ok?
  {
    hide PlaceSets, WriteOrder, AllDataSets, RoomFor;
    SetsHaveRoom(sent, WriteOrder(m.templates), m.dataList, 0, capacity);
  }
}
