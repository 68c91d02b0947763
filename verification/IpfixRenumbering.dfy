/** Import numbers templates from 256 in wire order: when does that give every template its own id? */
module IpfixRenumbering {
  import opened IpfixLayout
  import opened IpfixReader
  import opened IpfixTemplateTrip

  ghost predicate Consecutive(ts: seq<Template>) {
    forall j :: 0 <= j < |ts| ==> ts[j].tid == FIRST_LAST_TID + 1 + j
  }

  ghost predicate Ascending(ts: seq<Template>) {
    forall i, j :: 0 <= i < j < |ts| ==> ts[i].tid < ts[j].tid
  }

  ghost predicate DistinctIds(ts: seq<Template>) {
    forall i, j :: 0 <= i < j < |ts| ==> ts[i].tid != ts[j].tid
  }

  /** Every template is kept under its own id, as `new_template` does it. */
  ghost predicate OwnIds(templates: map<int, Template>) {
    forall id :: id in templates ==> 256 <= id < 65536 && templates[id].tid == id
  }

  /** ts lists templates of this map. */
  ghost predicate ListedIn(ts: seq<Template>, templates: map<int, Template>) {
    forall i :: 0 <= i < |ts| ==> ts[i].tid in templates && templates[ts[i].tid] == ts[i]
  }

  function Ids(ts: seq<Template>): set<int> {
    set j | 0 <= j < |ts| :: ts[j].tid
  }

  /** ts lists every template of this map, and none twice. */
  ghost predicate Lists(ts: seq<Template>, templates: map<int, Template>) {
    ListedIn(ts, templates) && DistinctIds(ts) && Ids(ts) == templates.Keys
  }

  function WireOrder(templates: map<int, Template>): seq<Template> {
    Reverse(WriteOrder(templates))
  }

  // ----- what the write order lists -----

  ghost predicate AscendingIds(ids: seq<int>) {
    forall i, j :: 0 <= i < j < |ids| ==> ids[i] < ids[j]
  }

  lemma OfKindStep(templates: map<int, Template>, ids: seq<int>, kind: TemplateKind)
    requires forall i :: 0 <= i < |ids| ==> ids[i] in templates
    ensures OfKind(templates, ids, kind) ==
            if ids == [] then []
            else if templates[ids[0]].kind == kind then [templates[ids[0]]] + OfKind(templates, ids[1..], kind)
            else OfKind(templates, ids[1..], kind)
  {
    assert ids != [] ==> [] + OfKind(templates, ids[1..], kind) == OfKind(templates, ids[1..], kind);
  }

  lemma NothingListed(templates: map<int, Template>)
    ensures ListedIn([], templates) && Ascending([])
  {
  }

  lemma GroupGrows(t: Template, rest: seq<Template>, templates: map<int, Template>)
    requires ListedIn(rest, templates) && Ascending(rest) && t.tid in templates && templates[t.tid] == t
    requires forall i :: 0 <= i < |rest| ==> rest[i].tid > t.tid
    ensures ListedIn([t] + rest, templates) && Ascending([t] + rest)
  {
  }

  lemma {:induction false} OfKindLists(templates: map<int, Template>, ids: seq<int>, kind: TemplateKind)
    requires OwnIds(templates) && AscendingIds(ids)
    requires forall i :: 0 <= i < |ids| ==> ids[i] in templates
    ensures var ts := OfKind(templates, ids, kind);
            && ListedIn(ts, templates) && Ascending(ts)
            && (forall i :: 0 <= i < |ts| ==> ts[i].kind == kind && ts[i].tid >= ids[0])
    decreases |ids|
  {
    hide OfKind, ListedIn, Ascending;
    OfKindStep(templates, ids, kind);
    if ids == [] {
      NothingListed(templates);
    } else {
      OfKindLists(templates, ids[1..], kind);
      OfKindStep(templates, ids[1..], kind);
      var first, rest := templates[ids[0]], OfKind(templates, ids[1..], kind);
      assert ids[0] in templates && first.tid == ids[0];
      forall i | 0 <= i < |rest|
        ensures rest[i].tid > first.tid
      {
        assert ids[1..][0] == ids[1] && ids[0] < ids[1];
      }
      if first.kind == kind {
        GroupGrows(first, rest, templates);
      }
    }
  }

  lemma {:induction false} OfKindCovers(templates: map<int, Template>, ids: seq<int>, i: nat) returns (k: nat)
    requires forall i :: 0 <= i < |ids| ==> ids[i] in templates
    requires i < |ids|
    ensures var ts := OfKind(templates, ids, templates[ids[i]].kind);
            k < |ts| && ts[k] == templates[ids[i]]
    decreases |ids|
  {
    if i == 0 {
      k := 0;
    } else {
      k := OfKindCovers(templates, ids[1..], i - 1);
      k := k + if templates[ids[0]].kind == templates[ids[i]].kind then 1 else 0;
    }
  }

  lemma IdsStep(templates: map<int, Template>, first: nat)
    requires first < 65536
    ensures IdsFrom(templates, first) == (if first in templates then [first] else []) + IdsFrom(templates, first + 1)
  {
  }

  lemma {:induction false} IdsCover(templates: map<int, Template>, first: nat, id: int) returns (i: nat)
    requires first <= id < 65536 && id in templates
    ensures i < |IdsFrom(templates, first)| && IdsFrom(templates, first)[i] == id
    decreases 65536 - first
  {
    hide IdsFrom;
    IdsStep(templates, first);
    if id == first {
      i := 0;
    } else {
      i := IdsCover(templates, first + 1, id);
      i := i + if first in templates then 1 else 0;
    }
  }

  /** The two groups of the write order: options ascending, then the others ascending. */
  ghost predicate KindGroup(ts: seq<Template>, templates: map<int, Template>, kind: TemplateKind) {
    ListedIn(ts, templates) && Ascending(ts) && forall i :: 0 <= i < |ts| ==> ts[i].kind == kind
  }

  lemma WriteGroups(templates: map<int, Template>) returns (os: seq<Template>, ds: seq<Template>)
    requires OwnIds(templates)
    ensures WriteOrder(templates) == os + ds
    ensures KindGroup(os, templates, OptionTemplate) && KindGroup(ds, templates, DataTemplate)
  {
    var ids := IdsFrom(templates, 0);
    OfKindLists(templates, ids, OptionTemplate);
    OfKindLists(templates, ids, DataTemplate);
    os, ds := OfKind(templates, ids, OptionTemplate), OfKind(templates, ids, DataTemplate);
  }

  lemma WriteOrderCovers(templates: map<int, Template>, id: int) returns (k: nat)
    requires OwnIds(templates) && id in templates
    ensures k < |WriteOrder(templates)| && WriteOrder(templates)[k] == templates[id]
  {
    var i := IdsCover(templates, 0, id);
    var ids := IdsFrom(templates, 0);
    k := OfKindCovers(templates, ids, i);
    if templates[id].kind == DataTemplate {
      k := k + |OfKind(templates, ids, OptionTemplate)|;
    }
  }

  lemma GroupsAreDistinct(templates: map<int, Template>, os: seq<Template>, ds: seq<Template>)
    requires KindGroup(os, templates, OptionTemplate) && KindGroup(ds, templates, DataTemplate)
    ensures DistinctIds(os + ds)
  {
    forall i, j | 0 <= i < |os| && 0 <= j < |ds|
      ensures os[i].tid != ds[j].tid
    {
      assert templates[os[i].tid] == os[i] && templates[ds[j].tid] == ds[j];
    }
  }

  /** `output` visits no template twice, and leaves none out. */
  lemma WriteOrderLists(templates: map<int, Template>)
    requires OwnIds(templates)
    ensures Lists(WriteOrder(templates), templates)
  {
    var os, ds := WriteGroups(templates);
    var ts := WriteOrder(templates);
    GroupsAreDistinct(templates, os, ds);
    forall id | id in templates.Keys
      ensures id in Ids(ts)
    {
      var k := WriteOrderCovers(templates, id);
      assert ts[k].tid == id;
    }
  }

  lemma ReverseLists(ts: seq<Template>, templates: map<int, Template>)
    requires Lists(ts, templates)
    ensures Lists(Reverse(ts), templates)
  {
    var ws := Reverse(ts);
    ReverseAt(ts);
    forall id | id in Ids(ts)
      ensures id in Ids(ws)
    {
      var j :| 0 <= j < |ts| && ts[j].tid == id;
      assert ws[|ts| - 1 - j].tid == id;
    }
  }

  lemma WireOrderLists(templates: map<int, Template>)
    requires OwnIds(templates)
    ensures Lists(WireOrder(templates), templates) && |WireOrder(templates)| == |WriteOrder(templates)|
  {
    WriteOrderLists(templates);
    ReverseAt(WriteOrder(templates));
    ReverseLists(WriteOrder(templates), templates);
  }

  // ----- consecutive ids come back -----

  ghost predicate HoldsFirst(st: State, ts: seq<Template>, i: nat)
    requires i <= |ts|
  {
    && st.lastTid == FIRST_LAST_TID + i
    && (forall id :: id in st.templates ==> 256 <= id < 256 + i && st.templates[id] == ts[id - 256])
    && (forall j :: 0 <= j < i ==> ts[j].tid in st.templates)
  }

  lemma {:induction false} AddConsecutive(st: State, ts: seq<Template>, i: nat)
    requires Consecutive(ts) && i <= |ts| <= 65280 && HoldsFirst(st, ts, i)
    ensures HoldsFirst(AddTemplates(st, ts[i..]), ts, |ts|)
    ensures AddTemplates(st, ts[i..]).dataList == st.dataList
    decreases |ts| - i
  {
    if i < |ts| {
      assert ts[i].(tid := NextTid(st)) == ts[i];
      assert ts[i..][1..] == ts[i + 1..];
      AddConsecutive(AddTemplate(st, ts[i]), ts, i + 1);
    }
  }

  // ----- other ids do not -----

  lemma {:induction false} NewIdsOnly(st: State, ts: seq<Template>, id: int)
    requires FIRST_LAST_TID <= st.lastTid && st.lastTid + |ts| < 65536
    requires id !in st.templates && (id <= st.lastTid || id > st.lastTid + |ts|)
    ensures id !in AddTemplates(st, ts).templates
    decreases |ts|
  {
    if ts != [] {
      NewIdsOnly(AddTemplate(st, ts[0]), ts[1..], id);
    }
  }

  /** A template whose wire id was already handed out deletes the holder of that id for good. */
  lemma {:induction false} DroppedForGood(st: State, ts: seq<Template>, j: nat)
    requires FIRST_LAST_TID <= st.lastTid && st.lastTid + |ts| < 65536
    requires j < |ts| && ts[j].tid <= st.lastTid + j
    ensures ts[j].tid !in AddTemplates(st, ts).templates
    decreases |ts|
  {
    if j == 0 {
      NewIdsOnly(AddTemplate(st, ts[0]), ts[1..], ts[0].tid);
    } else {
      assert ts[1..][j - 1] == ts[j];
      DroppedForGood(AddTemplate(st, ts[0]), ts[1..], j - 1);
    }
  }

  lemma {:induction false} SqueezedIds(ts: seq<Template>)
    requires DistinctIds(ts)
    requires forall j :: 0 <= j < |ts| ==> 256 + j <= ts[j].tid <= 255 + |ts|
    ensures Consecutive(ts)
    decreases |ts|
  {
    if ts != [] {
      var front := ts[..|ts| - 1];
      forall j | 0 <= j < |front|
        ensures 256 + j <= front[j].tid <= 255 + |front|
      {
        assert front[j] == ts[j] && ts[j].tid != ts[|ts| - 1].tid;
      }
      SqueezedIds(front);
      forall j | 0 <= j < |ts|
        ensures ts[j].tid == 256 + j
      {
        if j < |front| {
          assert front[j].tid == 256 + j;
        }
      }
    }
  }

  lemma OnlyConsecutiveIdsSurvive(templates: map<int, Template>, ts: seq<Template>)
    requires OwnIds(templates) && Lists(ts, templates) && |ts| <= 65280
    requires AddTemplates(EMPTY, ts).templates == templates
    ensures Consecutive(ts)
  {
    forall j | 0 <= j < |ts|
      ensures 256 + j <= ts[j].tid <= 255 + |ts|
    {
      if ts[j].tid < 256 + j {
        DroppedForGood(EMPTY, ts, j);
      }
      if ts[j].tid > 255 + |ts| {
        NewIdsOnly(EMPTY, ts, ts[j].tid);
      }
    }
    SqueezedIds(ts);
  }

  lemma ConsecutiveIdsSurvive(templates: map<int, Template>, ts: seq<Template>)
    requires OwnIds(templates) && Lists(ts, templates) && |ts| <= 65280 && Consecutive(ts)
    ensures AddTemplates(EMPTY, ts).templates == templates
    ensures AddTemplates(EMPTY, ts).dataList == []
  {
    assert ts[0..] == ts;
    AddConsecutive(EMPTY, ts, 0);
    HeldAreAll(templates, ts, AddTemplates(EMPTY, ts));
  }

  lemma HeldAreAll(templates: map<int, Template>, ts: seq<Template>, st: State)
    requires OwnIds(templates) && Lists(ts, templates) && Consecutive(ts) && HoldsFirst(st, ts, |ts|)
    ensures st.templates == templates
  {
    forall id | id in templates
      ensures id in st.templates
    {
      assert id in Ids(ts);
    }
    forall id | id in st.templates
      ensures id in templates && st.templates[id] == templates[id]
    {
      assert ts[id - 256].tid == id;
    }
  }

  ghost predicate SmallShape(templates: map<int, Template>) {
    || templates.Keys == {}
    || templates.Keys == {256}
    || (templates.Keys == {256, 257}
        && templates[256].kind == DataTemplate && templates[257].kind == OptionTemplate)
  }

  /** Two ascending groups, written first group first, make consecutive wire ids only when tiny. */
  lemma ConsecutiveGroups(os: seq<Template>, ds: seq<Template>)
    requires Ascending(os) && Ascending(ds)
    ensures Consecutive(Reverse(os + ds)) <==>
            |os| <= 1 && |ds| <= 1 && (|ds| == 1 ==> ds[0].tid == 256) && (|os| == 1 ==> os[0].tid == 256 + |ds|)
  {
    var ts := Reverse(os + ds);
    ReverseAt(os + ds);
    assert |os| >= 2 ==> ts[|ts| - 1] == os[0] && ts[|ts| - 2] == os[1];
    assert |ds| >= 2 ==> ts[0] == ds[|ds| - 1] && ts[1] == ds[|ds| - 2];
    assert |os| == 1 ==> ts[|ds|] == os[0];
    assert |ds| == 1 ==> ts[0] == ds[0];
  }

  /**
   * The shape of such messages: nothing; one template, 256; or the data template 256 and the
   * option template 257. Options are written first, so data templates come first on the wire,
   * and each group descends.
   */
  lemma ConsecutiveShape(templates: map<int, Template>)
    requires OwnIds(templates)
    ensures Consecutive(WireOrder(templates)) <==> SmallShape(templates)
  {
    var os, ds := WriteGroups(templates);
    WireOrderLists(templates);
    var ts := WireOrder(templates);
    if Consecutive(ts) {
      ConsecutiveIsSmall(templates, os, ds, ts);
    }
    if SmallShape(templates) {
      SmallIsConsecutive(templates, os, ds, ts);
    }
  }

  lemma ConsecutiveIsSmall(templates: map<int, Template>, os: seq<Template>, ds: seq<Template>, ts: seq<Template>)
    requires KindGroup(os, templates, OptionTemplate) && KindGroup(ds, templates, DataTemplate)
    requires OwnIds(templates) && ts == Reverse(os + ds) && Lists(ts, templates) && Consecutive(ts)
    ensures SmallShape(templates)
  {
    ReverseAt(os + ds);
    ConsecutiveGroups(os, ds);
    if |ts| == 2 {
      assert ts[0] == ds[0] && ts[1] == os[0];
      assert templates.Keys == {256, 257};
    } else if |ts| == 1 {
      assert ts[0].tid == 256;
      assert templates.Keys == {256};
    } else {
      assert templates.Keys == {};
    }
  }

  lemma SmallGroup(g: seq<Template>, templates: map<int, Template>, kind: TemplateKind)
    requires KindGroup(g, templates, kind) && SmallShape(templates)
    ensures |g| <= 1
    ensures |g| == 1 ==> g[0].tid == if kind == OptionTemplate && 257 in templates then 257 else 256
  {
    assert |g| >= 2 ==> g[0].tid < g[1].tid;
    forall i | 0 <= i < |g|
      ensures g[i].tid == if kind == OptionTemplate && 257 in templates then 257 else 256
    {
      assert templates[g[i].tid].kind == kind && g[i].tid in templates.Keys;
    }
  }

  lemma SmallIsConsecutive(templates: map<int, Template>, os: seq<Template>, ds: seq<Template>, ts: seq<Template>)
    requires KindGroup(os, templates, OptionTemplate) && KindGroup(ds, templates, DataTemplate)
    requires OwnIds(templates) && ts == Reverse(os + ds) && Lists(ts, templates) && SmallShape(templates)
    ensures Consecutive(ts)
  {
    ReverseAt(os + ds);
    assert |os| == |ds| == 1 ==> ts[0] == ds[0] && ts[1] == os[0];
    SmallGroup(os, templates, OptionTemplate);
    SmallGroup(ds, templates, DataTemplate);
    if |os| == 1 && 257 in templates {
      assert 256 in Ids(ts);
    }
    ConsecutiveGroups(os, ds);
  }
}
