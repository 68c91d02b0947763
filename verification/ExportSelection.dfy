/** Which action meters an export field, and which commands an object turns into. */
module ExportSelection {
  import opened Options

  /** A string of the configuration; only its place in the alphabetic order matters. */
  type Text = nat

  datatype Field = Field(eno: int, ftype: int)

  /** netmate_ipfix_metering_config: what to run, and where the results go. */
  datatype MeteringConfig = MeteringConfig(procedure: Text, target: Text)

  /** policy_action_mapping: how one application performs an action; the configuration may be missing. */
  datatype Mapping = Mapping(application: Text, supports: Field -> bool, config: Option<MeteringConfig>)

  /** An entry of a map that is searched by priority: the name is its key. */
  datatype Entry<+T> = Entry(priority: int, name: Text, item: T)

  /** policy_action, and what a policy_action_container holds. */
  type Mappings = seq<Entry<Mapping>>
  type Actions = seq<Entry<Mappings>>

  // ----- the search by priority, on both levels -----

  /** The order of std::pair<int, std::string>. */
  predicate Before<T>(a: Entry<T>, b: Entry<T>) {
    a.priority < b.priority || (a.priority == b.priority && a.name < b.name)
  }

  /** The entries are a map: no two have the same name. */
  ghost predicate DistinctNames<T>(entries: seq<Entry<T>>) {
    forall i, j :: 0 <= i < j < |entries| ==> entries[i].name != entries[j].name
  }

  function Insert<T>(a: Entry<T>, sorted: seq<Entry<T>>): seq<Entry<T>> {
    if sorted == [] || Before(a, sorted[0]) then [a] + sorted else [sorted[0]] + Insert(a, sorted[1..])
  }

  function SortByPriority<T>(entries: seq<Entry<T>>): seq<Entry<T>> {
    if entries == [] then [] else Insert(entries[0], SortByPriority(entries[1..]))
  }

  /** The scan over the sorted list, with early exit. */
  function FirstWith<T>(sorted: seq<Entry<T>>, p: T -> bool): Option<Entry<T>> {
    if sorted == [] then None
    else if p(sorted[0].item) then Some(sorted[0])
    else FirstWith(sorted[1..], p)
  }

  function Search<T>(entries: seq<Entry<T>>, p: T -> bool): Option<Entry<T>> {
    FirstWith(SortByPriority(entries), p)
  }

  ghost predicate Sorted<T>(entries: seq<Entry<T>>) {
    forall i, j :: 0 <= i < j < |entries| ==> !Before(entries[j], entries[i])
  }

  lemma {:induction false} InsertKeeps<T>(a: Entry<T>, sorted: seq<Entry<T>>)
    requires Sorted(sorted)
    ensures Sorted(Insert(a, sorted)) && multiset(Insert(a, sorted)) == multiset{a} + multiset(sorted)
  {
    if sorted == [] {
    } else if Before(a, sorted[0]) {
      assert forall j :: 0 < j < |sorted| ==> !Before(sorted[j], sorted[0]);
    } else {
      hide Before;
      InsertKeeps(a, sorted[1..]);
      assert sorted == [sorted[0]] + sorted[1..];
      var rest := Insert(a, sorted[1..]);
      forall j | 0 <= j < |rest|
        ensures !Before(rest[j], sorted[0])
      {
        assert rest[j] in multiset(rest);
        assert rest[j] == a || rest[j] in sorted[1..];
      }
    }
  }

  lemma {:induction false} SortIsSorted<T>(entries: seq<Entry<T>>)
    ensures Sorted(SortByPriority(entries)) && multiset(SortByPriority(entries)) == multiset(entries)
  {
    if entries != [] {
      SortIsSorted(entries[1..]);
      InsertKeeps(entries[0], SortByPriority(entries[1..]));
      assert entries == [entries[0]] + entries[1..];
    }
  }

  /** a has a smaller priority than b, or the same one and a name that does not come later. */
  ghost predicate AtMost<T>(a: Entry<T>, b: Entry<T>) {
    a.priority < b.priority || (a.priority == b.priority && a.name <= b.name)
  }

  /** r is the least of these entries, by priority and then by name, with property p; None if there is none. */
  ghost predicate IsLeast<T>(entries: seq<Entry<T>>, p: T -> bool, r: Option<Entry<T>>) {
    && (r.None? <==> forall i :: 0 <= i < |entries| ==> !p(entries[i].item))
    && (r.Some? ==> r.value in entries && p(r.value.item))
    && (r.Some? ==> forall i :: 0 <= i < |entries| && p(entries[i].item) ==> AtMost(r.value, entries[i]))
  }

  lemma {:induction false} FirstIsLeast<T>(sorted: seq<Entry<T>>, p: T -> bool)
    requires Sorted(sorted)
    ensures IsLeast(sorted, p, FirstWith(sorted, p))
  {
    if sorted != [] {
      FirstIsLeast(sorted[1..], p);
      assert forall i :: 0 < i < |sorted| ==> sorted[i] == sorted[1..][i - 1];
    }
  }

  /** The order of the entries does not matter. */
  lemma LeastOfPermutation<T>(sorted: seq<Entry<T>>, entries: seq<Entry<T>>, p: T -> bool, r: Option<Entry<T>>)
    requires IsLeast(sorted, p, r) && multiset(sorted) == multiset(entries)
    ensures IsLeast(entries, p, r)
  {
    hide AtMost;
    forall i | 0 <= i < |entries|
      ensures entries[i] in sorted
    {
      assert entries[i] in multiset(entries);
      assert entries[i] in multiset(sorted);
    }
    forall i | 0 <= i < |sorted|
      ensures sorted[i] in entries
    {
      assert sorted[i] in multiset(sorted);
      assert sorted[i] in multiset(entries);
    }
  }

  /** The search finds the least entry that will do, and where names are distinct nothing else ties with it. */
  lemma SearchIsLeast<T>(entries: seq<Entry<T>>, p: T -> bool)
    ensures IsLeast(entries, p, Search(entries, p))
    ensures var r := Search(entries, p);
            r.Some? && DistinctNames(entries) ==>
              forall i :: 0 <= i < |entries| && p(entries[i].item) && entries[i] != r.value ==> !AtMost(entries[i], r.value)
  {
    hide SortByPriority, FirstWith, Before;
    var sorted := SortByPriority(entries);
    SortIsSorted(entries);
    FirstIsLeast(sorted, p);
    LeastOfPermutation(sorted, entries, p, Search(entries, p));
  }

  // ----- an action, and a container of actions -----

  /** The least mapping for this application. */
  function Own(app: Text, mappings: Mappings): Option<Entry<Mapping>> {
    Search(mappings, (m: Mapping) => m.application == app)
  }

  /** The least mapping for this application that supports the field. */
  function Able(app: Text, f: Field, mappings: Mappings): Option<Entry<Mapping>> {
    Search(mappings, (m: Mapping) => m.application == app && m.supports(f))
  }

  /** policy_action::check_field_availability: the first mapping of the application decides alone. */
  predicate Available(app: Text, f: Field, mappings: Mappings) {
    var m := Own(app, mappings);
    m.Some? && m.value.item.supports(f)
  }

  /** policy_action::get_package: the first mapping of the application that supports the field. */
  function PackageOf(app: Text, f: Field, mappings: Mappings): Option<MeteringConfig> {
    var m := Able(app, f, mappings);
    if m.None? then None else m.value.item.config
  }

  function Offers(app: Text, f: Field): Mappings -> bool {
    mappings => PackageOf(app, f, mappings).Some?
  }

  function Allows(app: Text, f: Field): Mappings -> bool {
    mappings => Available(app, f, mappings)
  }

  /** check_field_availability of the container */
  predicate CheckAvailability(actions: Actions, app: Text, f: Field) {
    Search(actions, Allows(app, f)).Some?
  }

  /** get_package of the container */
  function Package(actions: Actions, app: Text, f: Field): Option<MeteringConfig> {
    var a := Search(actions, Offers(app, f));
    if a.None? then None else PackageOf(app, f, a.value.item)
  }

  /** A field goes to the least action, by priority and then by name, that has a package for it. */
  lemma PackageIsLeast(actions: Actions, app: Text, f: Field)
    ensures Package(actions, app, f).None? <==>
            forall i :: 0 <= i < |actions| ==> PackageOf(app, f, actions[i].item).None?
    ensures Package(actions, app, f).Some? ==>
              exists k :: 0 <= k < |actions| && Package(actions, app, f) == PackageOf(app, f, actions[k].item)
                && (forall i :: 0 <= i < |actions| && PackageOf(app, f, actions[i].item).Some? ==>
                      AtMost(actions[k], actions[i]))
                && (DistinctNames(actions) ==>
                      forall i :: 0 <= i < |actions| && PackageOf(app, f, actions[i].item).Some? && i != k ==>
                        !AtMost(actions[i], actions[k]))
  {
    var p := Offers(app, f);
    hide PackageOf, Search;
    SearchIsLeast(actions, p);
    var a := Search(actions, p);
    assert forall i :: 0 <= i < |actions| ==> p(actions[i].item) == PackageOf(app, f, actions[i].item).Some?;
    if a.Some? {
      var k :| 0 <= k < |actions| && actions[k] == a.value;
      assert Package(actions, app, f) == PackageOf(app, f, actions[k].item);
      if DistinctNames(actions) {
        forall i | 0 <= i < |actions| && PackageOf(app, f, actions[i].item).Some? && i != k
          ensures !AtMost(actions[i], actions[k])
        {
          assert actions[i].name != actions[k].name;
        }
      }
    }
  }

  /** What an action has for a field: the least of its mappings for the application that support it decides. */
  lemma PackageOfIsLeast(app: Text, f: Field, mappings: Mappings)
    ensures PackageOf(app, f, mappings).Some? ==>
              exists k :: 0 <= k < |mappings| && mappings[k].item.application == app && mappings[k].item.supports(f)
                && PackageOf(app, f, mappings) == mappings[k].item.config
                && forall i :: 0 <= i < |mappings| && mappings[i].item.application == app && mappings[i].item.supports(f) ==>
                     AtMost(mappings[k], mappings[i])
    ensures PackageOf(app, f, mappings).None? ==>
              || (forall i :: 0 <= i < |mappings| ==> !(mappings[i].item.application == app && mappings[i].item.supports(f)))
              || exists k :: 0 <= k < |mappings| && mappings[k].item.application == app && mappings[k].item.supports(f)
                   && mappings[k].item.config.None?
                   && forall i :: 0 <= i < |mappings| && mappings[i].item.application == app && mappings[i].item.supports(f) ==>
                        AtMost(mappings[k], mappings[i])
  {
    var p := (m: Mapping) => m.application == app && m.supports(f);
    hide Search, AtMost;
    SearchIsLeast(mappings, p);
    var m := Search(mappings, p);
    assert m == Able(app, f, mappings);
    if m.Some? {
      var k :| 0 <= k < |mappings| && mappings[k] == m.value;
      assert p(mappings[k].item);
      forall i | 0 <= i < |mappings| && mappings[i].item.application == app && mappings[i].item.supports(f)
        ensures AtMost(mappings[k], mappings[i])
      {
        assert p(mappings[i].item);
      }
    } else {
      forall i | 0 <= i < |mappings|
        ensures !(mappings[i].item.application == app && mappings[i].item.supports(f))
      {
        assert !p(mappings[i].item);
      }
    }
  }

  /** What the check asks: the least of the mappings for the application, alone. */
  lemma AvailableIsLeast(app: Text, f: Field, mappings: Mappings)
    ensures Available(app, f, mappings) ==>
              exists k :: 0 <= k < |mappings| && mappings[k].item.application == app && mappings[k].item.supports(f)
                && forall i :: 0 <= i < |mappings| && mappings[i].item.application == app ==> AtMost(mappings[k], mappings[i])
    ensures !Available(app, f, mappings) ==>
              || (forall i :: 0 <= i < |mappings| ==> mappings[i].item.application != app)
              || exists k :: 0 <= k < |mappings| && mappings[k].item.application == app && !mappings[k].item.supports(f)
                   && forall i :: 0 <= i < |mappings| && mappings[i].item.application == app ==> AtMost(mappings[k], mappings[i])
  {
    var p := (m: Mapping) => m.application == app;
    hide Search, AtMost;
    SearchIsLeast(mappings, p);
    var m := Search(mappings, p);
    assert m == Own(app, mappings);
    if m.Some? {
      var k :| 0 <= k < |mappings| && mappings[k] == m.value;
      assert p(mappings[k].item);
      forall i | 0 <= i < |mappings| && mappings[i].item.application == app
        ensures AtMost(mappings[k], mappings[i])
      {
        assert p(mappings[i].item);
      }
    } else {
      forall i | 0 <= i < |mappings|
        ensures mappings[i].item.application != app
      {
        assert !p(mappings[i].item);
      }
    }
  }

  // ----- the two searches of an action -----

  lemma {:induction false} FirstOwnIsFirstAble(app: Text, f: Field, sorted: Mappings)
    ensures var own := FirstWith(sorted, (m: Mapping) => m.application == app);
            var able := FirstWith(sorted, (m: Mapping) => m.application == app && m.supports(f));
            && (own.Some? && own.value.item.supports(f) ==> able == own)
            && (own.None? ==> able.None?)
            && (able.Some? ==> able.value.item.application == app && able.value.item.supports(f))
  {
    if sorted != [] {
      FirstOwnIsFirstAble(app, f, sorted[1..]);
    }
  }

  lemma OwnAndAble(app: Text, f: Field, mappings: Mappings)
    ensures var own, able := Own(app, mappings), Able(app, f, mappings);
            && (own.Some? && own.value.item.supports(f) ==> able == own)
            && (own.None? ==> able.None?)
  {
    FirstOwnIsFirstAble(app, f, SortByPriority(mappings));
  }

  /** What the check finds available is metered as the mapping that was checked says, if it is configured. */
  lemma AvailableMeans(app: Text, f: Field, mappings: Mappings)
    requires Available(app, f, mappings)
    ensures PackageOf(app, f, mappings) == Own(app, mappings).value.item.config
  {
    hide Own, Able;
    OwnAndAble(app, f, mappings);
  }

  /** The least mapping of the application, if there is one, is configured, or supports nothing. */
  ghost predicate Sound(app: Text, mappings: Mappings) {
    var own := Own(app, mappings);
    own.None? || own.value.item.config.Some? || forall f: Field :: !own.value.item.supports(f)
  }

  /** That is exactly when an action meters every field that the check finds available. */
  lemma SoundIff(app: Text, mappings: Mappings)
    ensures Sound(app, mappings) <==>
            forall f :: Available(app, f, mappings) ==> PackageOf(app, f, mappings).Some?
  {
    hide Own, PackageOf;
    var own := Own(app, mappings);
    forall f | Available(app, f, mappings)
      ensures PackageOf(app, f, mappings) == own.value.item.config
    {
      AvailableMeans(app, f, mappings);
    }
    if own.Some? && !Sound(app, mappings) {
      var f: Field :| own.value.item.supports(f);
      assert Available(app, f, mappings);
    }
  }

  /** Exactly when the two searches agree on a field; the check can also refuse what has a package. */
  lemma AvailableIsOffered(app: Text, f: Field, mappings: Mappings)
    ensures var own, able := Own(app, mappings), Able(app, f, mappings);
            (Available(app, f, mappings) <==> PackageOf(app, f, mappings).Some?) <==>
              (own.None?
               || if own.value.item.supports(f) then own.value.item.config.Some?
                  else able.None? || able.value.item.config.None?)
  {
    hide Own, Able;
    OwnAndAble(app, f, mappings);
  }

  /** Such an action: its mapping of higher priority does not support the field, the other one does. */
  lemma RefusedThoughMetered(app: Text, f: Field, m: MeteringConfig, n: MeteringConfig)
    ensures var mappings := [Entry(1, 0, Mapping(app, (g: Field) => g != f, Some(m))),
                             Entry(2, 1, Mapping(app, (g: Field) => true, Some(n)))];
            !Available(app, f, mappings) && PackageOf(app, f, mappings) == Some(n)
  {
    var first := Entry(1, 0, Mapping(app, (g: Field) => g != f, Some(m)));
    var second := Entry(2, 1, Mapping(app, (g: Field) => true, Some(n)));
    TwoSorted(first, second);
    TwoSearched(first, second, (k: Mapping) => k.application == app);
    TwoSearched(first, second, (k: Mapping) => k.application == app && k.supports(f));
  }

  lemma TwoSorted<T>(a: Entry<T>, b: Entry<T>)
    requires Before(a, b)
    ensures SortByPriority([a, b]) == [a, b]
  {
    var s := [a, b];
    assert s[1..] == [b] && [b][1..] == [];
    assert SortByPriority([b]) == [b];
  }

  lemma TwoSearched<T>(a: Entry<T>, b: Entry<T>, p: T -> bool)
    ensures FirstWith([a, b], p) == if p(a.item) then Some(a) else if p(b.item) then Some(b) else None
  {
    var s, rest := [a, b], [b];
    assert s[0] == a && s[1..] == rest && rest[0] == b && rest[1..] == [];
    assert FirstWith(rest, p) == if p(b.item) then Some(b) else None;
  }

  /** An action as the configuration file gives it: one mapping for each application, under its name. */
  ghost predicate Configured(mappings: Mappings) {
    && DistinctNames(mappings)
    && forall i :: 0 <= i < |mappings| ==> mappings[i].name == mappings[i].item.application && mappings[i].item.config.Some?
  }

  lemma ConfiguredAgrees(app: Text, f: Field, mappings: Mappings)
    requires Configured(mappings)
    ensures Sound(app, mappings)
    ensures Available(app, f, mappings) <==> PackageOf(app, f, mappings).Some?
  {
    var own := (m: Mapping) => m.application == app;
    var able := (m: Mapping) => m.application == app && m.supports(f);
    hide Search;
    SearchIsLeast(mappings, own);
    SearchIsLeast(mappings, able);
    var a, b := Search(mappings, own), Search(mappings, able);
    assert a == Own(app, mappings) && b == Able(app, f, mappings);
    if a.Some? {
      var i :| 0 <= i < |mappings| && mappings[i] == a.value;
      assert b.None? ==> !able(mappings[i].item);
    }
    if b.Some? {
      var k :| 0 <= k < |mappings| && mappings[k] == b.value;
      assert own(mappings[k].item);
      assert a.Some?;
      var i :| 0 <= i < |mappings| && mappings[i] == a.value;
      assert mappings[i].name == mappings[k].name && i == k;
    }
  }

  // ----- the check of a container -----

  lemma CheckIs(actions: Actions, app: Text, f: Field)
    ensures CheckAvailability(actions, app, f) <==> exists i :: 0 <= i < |actions| && Available(app, f, actions[i].item)
    ensures Package(actions, app, f).Some? <==> exists i :: 0 <= i < |actions| && PackageOf(app, f, actions[i].item).Some?
  {
    hide Search, Available, PackageOf;
    var p, q := Allows(app, f), Offers(app, f);
    assert forall i :: 0 <= i < |actions| ==> p(actions[i].item) == Available(app, f, actions[i].item);
    assert forall i :: 0 <= i < |actions| ==> q(actions[i].item) == PackageOf(app, f, actions[i].item).Some?;
    SearchIsLeast(actions, p);
    SearchIsLeast(actions, q);
  }

  /**
   * Where the least mapping of every action is sound, what the check accepts is metered; where each
   * action has one mapping for each application, it accepts exactly that.
   */
  lemma CheckedIsMetered(actions: Actions, app: Text, f: Field)
    ensures (forall i :: 0 <= i < |actions| ==> Sound(app, actions[i].item)) ==>
              CheckAvailability(actions, app, f) ==> Package(actions, app, f).Some?
    ensures (forall i :: 0 <= i < |actions| ==> Configured(actions[i].item)) ==>
              (CheckAvailability(actions, app, f) <==> Package(actions, app, f).Some?)
  {
    hide CheckAvailability, Package, Available, PackageOf, Sound, Configured;
    CheckIs(actions, app, f);
    forall i | 0 <= i < |actions| && Sound(app, actions[i].item) && Available(app, f, actions[i].item)
      ensures PackageOf(app, f, actions[i].item).Some?
    {
      SoundIff(app, actions[i].item);
    }
    forall i | 0 <= i < |actions| && Configured(actions[i].item)
      ensures Available(app, f, actions[i].item) <==> PackageOf(app, f, actions[i].item).Some?
    {
      ConfiguredAgrees(app, f, actions[i].item);
    }
  }

  /**
   * In any container, a field is accepted and yet not metered exactly if some action checks a mapping
   * that supports it and is not configured, and no action has a configured one to offer.
   */
  lemma CheckedNotMeteredIff(actions: Actions, app: Text, f: Field)
    ensures CheckAvailability(actions, app, f) && Package(actions, app, f).None? <==>
            && (exists i :: 0 <= i < |actions| && Available(app, f, actions[i].item)
                  && Own(app, actions[i].item).value.item.config.None?)
            && (forall i :: 0 <= i < |actions| ==>
                  var able := Able(app, f, actions[i].item); able.None? || able.value.item.config.None?)
  {
    hide CheckAvailability, Package, Own, Able;
    CheckIs(actions, app, f);
    forall i | 0 <= i < |actions| && Available(app, f, actions[i].item)
      ensures PackageOf(app, f, actions[i].item) == Own(app, actions[i].item).value.item.config
    {
      AvailableMeans(app, f, actions[i].item);
    }
  }

  /** policy_action_mapping::get_priority of a mapping without a configuration */
  const INT_MAX := 0x7FFF_FFFF

  /** Such a container: its only mapping has no configuration, so the check passes and nothing is metered. */
  lemma UnconfiguredIsNotMetered(app: Text, f: Field)
    ensures var actions := [Entry(0, 0, [Entry(INT_MAX, app, Mapping(app, (g: Field) => true, None))])];
            CheckAvailability(actions, app, f) && Package(actions, app, f) == None
  {
    var mappings := [Entry(INT_MAX, app, Mapping(app, (g: Field) => true, None))];
    var actions := [Entry(0, 0, mappings)];
    var own := (m: Mapping) => m.application == app;
    var able := (m: Mapping) => m.application == app && m.supports(f);
    SearchIsLeast(mappings, own);
    SearchIsLeast(mappings, able);
    hide Search;
    assert own(mappings[0].item) && able(mappings[0].item);
    assert Own(app, mappings) == Some(mappings[0]) && Able(app, f, mappings) == Some(mappings[0]);
    assert actions[0].item == mappings;
    CheckedNotMeteredIff(actions, app, f);
  }

  // ----- commands: one per target, with the procedures of its fields -----

  /** The exports map of build_command_export_fields, in the order of its keys. */
  datatype Export = Export(target: Text, procedures: set<Text>)

  function AddExport(exports: seq<Export>, m: MeteringConfig): seq<Export> {
    if exports == [] || m.target < exports[0].target then [Export(m.target, {m.procedure})] + exports
    else if m.target == exports[0].target then
      [exports[0].(procedures := exports[0].procedures + {m.procedure})] + exports[1..]
    else [exports[0]] + AddExport(exports[1..], m)
  }

  /** What a node is configured for: its application, the fields it may export, and its actions. */
  datatype Setup = Setup(app: Text, exportable: Field -> bool, actions: Actions)

  /** The package that a field adds to the commands: none if it is not exportable, or not metered. */
  function PackageFor(s: Setup, f: Field): Option<MeteringConfig> {
    if s.exportable(f) then Package(s.actions, s.app, f) else None
  }

  /** The exports map after the loop over these fields. */
  function Exports(s: Setup, fields: seq<Field>): seq<Export> {
    if fields == [] then []
    else
      var before := Exports(s, fields[..|fields| - 1]);
      var m := PackageFor(s, fields[|fields| - 1]);
      if m.None? then before else AddExport(before, m.value)
  }

  ghost predicate Ascending(exports: seq<Export>) {
    forall i, j :: 0 <= i < j < |exports| ==> exports[i].target < exports[j].target
  }

  /** The command for this target runs this procedure. */
  ghost predicate Runs(exports: seq<Export>, m: MeteringConfig) {
    exists i :: 0 <= i < |exports| && exports[i].target == m.target && m.procedure in exports[i].procedures
  }

  ghost predicate Above(exports: seq<Export>, low: int) {
    forall i :: 0 <= i < |exports| ==> exports[i].target > low
  }

  lemma {:induction false} AddKeepsOrder(exports: seq<Export>, m: MeteringConfig, low: int)
    requires Ascending(exports) && Above(exports, low) && m.target > low
    ensures Ascending(AddExport(exports, m)) && Above(AddExport(exports, m), low)
  {
    if exports != [] && exports[0].target < m.target {
      AddKeepsOrder(exports[1..], m, exports[0].target);
    }
  }

  lemma {:induction false} AddRuns(exports: seq<Export>, m: MeteringConfig, x: MeteringConfig)
    ensures Runs(AddExport(exports, m), x) <==> Runs(exports, x) || x == m
  {
    var after := AddExport(exports, m);
    if exports == [] || m.target < exports[0].target {
      RunsCons(Export(m.target, {m.procedure}), exports, x);
    } else if m.target == exports[0].target {
      assert exports == [exports[0]] + exports[1..];
      RunsCons(exports[0], exports[1..], x);
      RunsCons(exports[0].(procedures := exports[0].procedures + {m.procedure}), exports[1..], x);
    } else {
      assert exports == [exports[0]] + exports[1..];
      AddRuns(exports[1..], m, x);
      RunsCons(exports[0], exports[1..], x);
      RunsCons(exports[0], AddExport(exports[1..], m), x);
    }
  }

  lemma RunsCons(e: Export, rest: seq<Export>, x: MeteringConfig)
    ensures Runs([e] + rest, x) <==> (e.target == x.target && x.procedure in e.procedures) || Runs(rest, x)
  {
    var all := [e] + rest;
    if Runs(rest, x) {
      var i :| 0 <= i < |rest| && rest[i].target == x.target && x.procedure in rest[i].procedures;
      assert all[i + 1] == rest[i];
    }
    if Runs(all, x) {
      var i :| 0 <= i < |all| && all[i].target == x.target && x.procedure in all[i].procedures;
      assert i > 0 ==> rest[i - 1] == all[i];
    }
    assert all[0] == e;
  }

  /** Some exportable field is metered this way. */
  ghost predicate Wanted(s: Setup, fields: seq<Field>, x: MeteringConfig) {
    exists i :: 0 <= i < |fields| && PackageFor(s, fields[i]) == Some(x)
  }

  lemma WantedByLast(s: Setup, fields: seq<Field>, x: MeteringConfig)
    requires fields != []
    ensures Wanted(s, fields, x) <==>
            Wanted(s, fields[..|fields| - 1], x) || PackageFor(s, fields[|fields| - 1]) == Some(x)
  {
    hide PackageFor;
    var front := fields[..|fields| - 1];
    assert forall i :: 0 <= i < |front| ==> front[i] == fields[i];
    if Wanted(s, fields, x) {
      var i :| 0 <= i < |fields| && PackageFor(s, fields[i]) == Some(x);
      assert i < |front| ==> front[i] == fields[i];
    }
  }

  /**
   * The commands of an object: no two have the same target, and a command runs a procedure for a
   * target exactly if that is how the least action meters some exportable field.
   */
  lemma {:induction false} ExportsAreExact(s: Setup, fields: seq<Field>, x: MeteringConfig)
    ensures Ascending(Exports(s, fields)) && Above(Exports(s, fields), -1)
    ensures Runs(Exports(s, fields), x) <==> Wanted(s, fields, x)
    decreases |fields|
  {
    hide PackageFor, Runs;
    if fields == [] {
      NothingRuns(s, x);
    } else {
      ExportsAreExact(s, fields[..|fields| - 1], x);
      WantedByLast(s, fields, x);
      var before, m := Exports(s, fields[..|fields| - 1]), PackageFor(s, fields[|fields| - 1]);
      hide Wanted;
      if m.Some? {
        AddKeepsOrder(before, m.value, -1);
        AddRuns(before, m.value, x);
      }
    }
  }

  lemma NothingRuns(s: Setup, x: MeteringConfig)
    ensures !Runs([], x) && !Wanted(s, [], x)
  {
  }

  /** check(), the part about export fields: every one is exportable, and some action is available for it. */
  ghost predicate Accepts(s: Setup, fields: seq<Field>) {
    forall i :: 0 <= i < |fields| ==> s.exportable(fields[i]) && CheckAvailability(s.actions, s.app, fields[i])
  }

  /** Command k, and no other, is for this target. */
  ghost predicate OnlyTarget(exports: seq<Export>, k: int, target: Text) {
    0 <= k < |exports| && forall j :: 0 <= j < |exports| ==> (exports[j].target == target <==> j == k)
  }

  /** Every field of an accepted object is metered, by exactly one command for the target of its package. */
  lemma AcceptedIsMetered(s: Setup, fields: seq<Field>, i: nat)
    requires Accepts(s, fields) && i < |fields|
    requires forall k :: 0 <= k < |s.actions| ==> Sound(s.app, s.actions[k].item)
    ensures var m := Package(s.actions, s.app, fields[i]);
            m.Some? && exists k :: OnlyTarget(Exports(s, fields), k, m.value.target) && m.value.procedure in Exports(s, fields)[k].procedures
  {
    hide Package, CheckAvailability, Exports, Sound;
    CheckedIsMetered(s.actions, s.app, fields[i]);
    assert s.exportable(fields[i]) && CheckAvailability(s.actions, s.app, fields[i]);
    var m, es := Package(s.actions, s.app, fields[i]), Exports(s, fields);
    ExportsAreExact(s, fields, m.value);
    assert PackageFor(s, fields[i]) == Some(m.value);
    var k :| 0 <= k < |es| && es[k].target == m.value.target && m.value.procedure in es[k].procedures;
    assert OnlyTarget(es, k, m.value.target);
  }

  /** handle_export_fields */
  method HandleExportFields(s: Setup, fields: seq<Field>) returns (ok: bool)
    ensures ok <==> Accepts(s, fields)
  {
    hide CheckAvailability;
    for i := 0 to |fields|
      invariant forall k :: 0 <= k < i ==> s.exportable(fields[k]) && CheckAvailability(s.actions, s.app, fields[k])
    {
      if !s.exportable(fields[i]) {
        return false;
      }
      if !CheckAvailability(s.actions, s.app, fields[i]) {
        return false;
      }
    }
    ok := true;
  }

  /** build_command_export_fields */
  method BuildExports(s: Setup, fields: seq<Field>) returns (exports: seq<Export>)
    ensures exports == Exports(s, fields)
  {
    hide Package;
    exports := [];
    for i := 0 to |fields|
      invariant exports == Exports(s, fields[..i])
    {
      assert fields[..i + 1][..i] == fields[..i] && fields[..i + 1][i] == fields[i];
      if s.exportable(fields[i]) {
        var m := Package(s.actions, s.app, fields[i]);
        if m.Some? {
          exports := AddExport(exports, m.value);
        }
      }
    }
    assert fields[..|fields|] == fields;
  }
}
