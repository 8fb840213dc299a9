/**
 The work board (board.go): items grouped into one swimlane per type and one lane per status, and
 exactly when that grouping shows every item once.
 */
module BoardLanes {
  import opened Options
  import opened Order
  import opened Slices

  /** A work item; `rest` stands for the fields the grouping never looks at. */
  datatype WorkItem = WorkItem(typ: string, status: string, key: string, rest: string)

  datatype CompiledType = CompiledType(name: string, shadowed: bool, boardEnabled: bool, allowedStatuses: seq<string>)

  datatype Lane = Lane(status: string, items: seq<WorkItem>)
  datatype Swimlane = Swimlane(typ: string, lanes: seq<Lane>, count: nat)

  const STATUS_ORDER: seq<string> := ["ready", "in_progress", "review", "revision", "blocked", "done"]

  // ----- grouping by a key -----

  function StatusOf(it: WorkItem): string { it.status }
  function TypeOf(it: WorkItem): string { it.typ }

  /** The items with one key, in input order. */
  function With(items: seq<WorkItem>, f: WorkItem -> string, k: string): (r: seq<WorkItem>)
    ensures forall x :: x in r <==> x in items && f(x) == k
  {
    FilterMeans(items, x => f(x) == k);
    Filter(items, x => f(x) == k)
  }

  ghost function Keys(items: seq<WorkItem>, f: WorkItem -> string): (r: set<string>)
    ensures forall k :: k in r <==> exists x :: x in items && f(x) == k
  {
    set x | x in items :: f(x)
  }

  type ByKey = map<string, seq<WorkItem>>

  ghost predicate Grouped(m: ByKey, items: seq<WorkItem>, f: WorkItem -> string) {
    && m.Keys == Keys(items, f)
    && forall k | k in m :: m[k] == With(items, f, k)
  }

  function Get(m: ByKey, k: string): seq<WorkItem> {
    if k in m then m[k] else []
  }

  /** byStatus[it.Status] = append(byStatus[it.Status], it), for every item. */
  method GroupBy(items: seq<WorkItem>, f: WorkItem -> string) returns (m: ByKey)
    ensures Grouped(m, items, f)
  {
    m := map[];
    for i := 0 to |items|
      invariant Grouped(m, items[..i], f)
    {
      GroupNext(m, items, f, i);
      m := m[f(items[i]) := Get(m, f(items[i])) + [items[i]]];
    }
    assert items[..|items|] == items;
  }

  lemma GroupNext(m: ByKey, items: seq<WorkItem>, f: WorkItem -> string, i: nat)
    requires i < |items| && Grouped(m, items[..i], f)
    ensures Grouped(m[f(items[i]) := Get(m, f(items[i])) + [items[i]]], items[..i + 1], f)
  {
    hide With, Keys;
    var k, m' := f(items[i]), m[f(items[i]) := Get(m, f(items[i])) + [items[i]]];
    KeysNext(items, f, i);
    forall j | j in m'
      ensures m'[j] == With(items[..i + 1], f, j)
    {
      WithNext(items, f, i, j);
      if j == k && k !in m {
        NoneWith(items[..i], f, k);
      }
    }
  }

  lemma KeysNext(items: seq<WorkItem>, f: WorkItem -> string, i: nat)
    requires i < |items|
    ensures Keys(items[..i + 1], f) == Keys(items[..i], f) + {f(items[i])}
  {
    assert forall x :: x in items[..i + 1] <==> x in items[..i] || x == items[i];
  }

  lemma WithNext(items: seq<WorkItem>, f: WorkItem -> string, i: nat, k: string)
    requires i < |items|
    ensures With(items[..i + 1], f, k) == With(items[..i], f, k) + if f(items[i]) == k then [items[i]] else []
  {
    FilterNext(items, i, x => f(x) == k);
  }

  lemma NoneWith(items: seq<WorkItem>, f: WorkItem -> string, k: string)
    requires k !in Keys(items, f)
    ensures With(items, f, k) == []
  {
    HeadIn(With(items, f, k));
  }

  lemma GroupedGet(m: ByKey, items: seq<WorkItem>, f: WorkItem -> string, k: string)
    requires Grouped(m, items, f)
    ensures Get(m, k) == With(items, f, k)
  {
    if k !in m {
      NoneWith(items, f, k);
    }
  }

  // ----- lanes -----

  /** The statuses a type's lanes show: the declared ones, then those only the items have, sorted. */
  ghost function LaneStatuses(items: seq<WorkItem>, declared: seq<string>): seq<string> {
    var base := if declared == [] then STATUS_ORDER else declared;
    base + SortedSet(Keys(items, StatusOf) - Elements(base))
  }

  ghost function Lanes(items: seq<WorkItem>, declared: seq<string>): seq<Lane> {
    Each(LaneStatuses(items, declared), s => Lane(s, With(items, StatusOf, s)))
  }

  /** The keys of a grouping outside `base`: a Go map read in any order, then sorted. */
  method ExtraKeys(m: ByKey, base: seq<string>) returns (extra: seq<string>)
    ensures extra == SortedSet(m.Keys - Elements(base))
  {
    hide Sort, Less;
    extra := [];
    var todo := m.Keys;
    while todo != {}
      invariant todo <= m.Keys && Distinct(extra)
      invariant forall k :: k in extra <==> k in m && k !in todo && k !in base
    {
      var k :| k in todo;
      if k !in base {
        extra := extra + [k];
      }
      todo := todo - {k};
    }
    SortStringsStrict(extra);
    extra := Sort(extra, Less);
    SortedNamesUnique(extra, SortedSet(m.Keys - Elements(base)));
  }

  /** buildBoardColumns. */
  method BuildBoardColumns(items: seq<WorkItem>, schemaStatuses: seq<string>) returns (cols: seq<Lane>)
    ensures cols == Lanes(items, schemaStatuses)
  {
    hide With, SortedSet;
    var byStatus := GroupBy(items, StatusOf);
    var base := schemaStatuses;
    if |base| == 0 {
      base := STATUS_ORDER;
    }
    cols := [];
    for i := 0 to |base|
      invariant |cols| == i && forall j :: 0 <= j < i ==> cols[j] == Lane(base[j], With(items, StatusOf, base[j]))
    {
      GroupedGet(byStatus, items, StatusOf, base[i]);
      cols := cols + [Lane(base[i], Get(byStatus, base[i]))];
    }
    var extra := ExtraKeys(byStatus, base);
    var all := base + extra;
    for i := 0 to |extra|
      invariant |cols| == |base| + i
      invariant forall j :: 0 <= j < |cols| ==> cols[j] == Lane(all[j], With(items, StatusOf, all[j]))
    {
      GroupedGet(byStatus, items, StatusOf, extra[i]);
      assert all[|base| + i] == extra[i];
      cols := cols + [Lane(extra[i], Get(byStatus, extra[i]))];
    }
    assert all == LaneStatuses(items, schemaStatuses);
  }

  // ----- swimlanes -----

  function LaneNames(statuses: seq<string>): (r: seq<string>)
    ensures Distinct(r) && forall s :: s in r <==> s in statuses && s != ""
  {
    if statuses == [] then []
    else
      var n := |statuses| - 1;
      assert statuses == statuses[..n] + [statuses[n]];
      var r := LaneNames(statuses[..n]);
      if statuses[n] == "" || statuses[n] in r then r else r + [statuses[n]]
  }

  function LanesForType(t: CompiledType): seq<string> {
    if LaneNames(t.allowedStatuses) == [] then STATUS_ORDER else LaneNames(t.allowedStatuses)
  }

  /** boardLanesForType. */
  method BoardLanesForType(t: CompiledType) returns (out: seq<string>)
    ensures out == LanesForType(t)
  {
    out := [];
    for i := 0 to |t.allowedStatuses|
      invariant out == LaneNames(t.allowedStatuses[..i])
    {
      assert t.allowedStatuses[..i + 1][..i] == t.allowedStatuses[..i];
      var s := t.allowedStatuses[i];
      if s == "" || s in out {
        continue;
      }
      out := out + [s];
    }
    assert t.allowedStatuses[..|t.allowedStatuses|] == t.allowedStatuses;
    if |out| == 0 {
      return STATUS_ORDER;
    }
  }

  /** The lanes of a type stand in the order its statuses are first declared. */
  lemma {:induction false} LaneNamesInOrder(statuses: seq<string>)
    ensures FirstSeen(LaneNames(statuses), statuses)
  {
    if statuses != [] {
      var n := |statuses| - 1;
      var r := LaneNames(statuses[..n]);
      assert statuses == statuses[..n] + [statuses[n]];
      LaneNamesInOrder(statuses[..n]);
      FirstSeenNext(r, statuses[..n], statuses[n]);
    }
  }

  predicate OnBoard(t: CompiledType) {
    !t.shadowed && t.boardEnabled
  }

  /** Every status the types on the board declare, type after type. */
  function Declared(types: seq<CompiledType>): seq<string> {
    if types == [] then []
    else
      var n := |types| - 1;
      if OnBoard(types[n]) then Declared(types[..n]) + types[n].allowedStatuses else Declared(types[..n])
  }

  /** The lane order of the served board; without compiled types (None: the fetch failed) there is none. */
  function BoardStatuses(compiled: Option<seq<CompiledType>>): seq<string> {
    if compiled.None? then [] else LaneNames(Declared(compiled.value))
  }

  /** boardStatusesFromCompiled, over the visible types. */
  method BoardStatusesFromCompiled(compiled: Option<seq<CompiledType>>) returns (out: seq<string>)
    ensures out == BoardStatuses(compiled)
  {
    hide LaneNames, Declared;
    out := [];
    if compiled.None? {
      return;
    }
    var types := compiled.value;
    LaneNamesNone();
    for i := 0 to |types|
      invariant out == LaneNames(Declared(types[..i]))
    {
      var t := types[i];
      DeclaredNext(types, i);
      if t.shadowed || !t.boardEnabled {
        continue;
      }
      ghost var before := Declared(types[..i]);
      assert before + t.allowedStatuses[..0] == before;
      for j := 0 to |t.allowedStatuses|
        invariant out == LaneNames(before + t.allowedStatuses[..j])
      {
        var s := t.allowedStatuses[j];
        LaneNamesNext(before + t.allowedStatuses[..j], s);
        assert before + t.allowedStatuses[..j] + [s] == before + t.allowedStatuses[..j + 1];
        if s == "" || s in out {
          continue;
        }
        out := out + [s];
      }
      assert t.allowedStatuses[..|t.allowedStatuses|] == t.allowedStatuses;
    }
    assert types[..|types|] == types;
  }

  lemma DeclaredNext(types: seq<CompiledType>, i: nat)
    requires i < |types|
    ensures Declared(types[..i + 1]) ==
            if OnBoard(types[i]) then Declared(types[..i]) + types[i].allowedStatuses else Declared(types[..i])
  {
    assert types[..i + 1][..i] == types[..i];
  }

  lemma LaneNamesNone()
    ensures LaneNames([]) == [] && Declared([]) == []
  {
  }

  lemma LaneNamesNext(statuses: seq<string>, s: string)
    ensures LaneNames(statuses + [s]) ==
            if s == "" || s in LaneNames(statuses) then LaneNames(statuses) else LaneNames(statuses) + [s]
  {
    assert (statuses + [s])[..|statuses|] == statuses;
  }

  /** The order of sortCompiledTypesByName; `lower` is strings.ToLower. */
  function ByLowerName(lower: string -> string): (CompiledType, CompiledType) -> bool {
    (a: CompiledType, b: CompiledType) => Less(lower(a.name), lower(b.name))
  }

  function BoardTypes(compiled: Option<seq<CompiledType>>, lower: string -> string): seq<CompiledType> {
    if compiled.None? then [] else Sort(Filter(compiled.value, OnBoard), ByLowerName(lower))
  }

  /** boardTypesFromCompiled. */
  method BoardTypesFromCompiled(compiled: Option<seq<CompiledType>>, lower: string -> string) returns (out: seq<CompiledType>)
    ensures out == BoardTypes(compiled, lower)
  {
    hide Sort, Less;
    if compiled.None? {
      return [];
    }
    var types := compiled.value;
    out := [];
    for i := 0 to |types|
      invariant out == Filter(types[..i], OnBoard)
    {
      assert types[..i + 1][..i] == types[..i];
      if !types[i].shadowed && types[i].boardEnabled {
        out := out + [types[i]];
      }
    }
    assert types[..|types|] == types;
    out := Sort(out, ByLowerName(lower));
  }

  /** The types of the board: every visible one that is enabled for it, in the order of their lower-cased names. */
  lemma BoardTypesSorted(compiled: seq<CompiledType>, lower: string -> string)
    ensures var out := BoardTypes(Some(compiled), lower);
            && (forall t :: t in out <==> t in compiled && !t.shadowed && t.boardEnabled)
            && (forall i, j :: 0 <= i < j < |out| ==> !Less(lower(out[j].name), lower(out[i].name)))
  {
    hide Less, Sort;
    var types, less := Filter(compiled, OnBoard), ByLowerName(lower);
    FilterMeans(compiled, OnBoard);
    LessStrictTotal();
    assert WeakOn(types, less);
    SortSorted(types, less);
    SortElements(types, less);
    forall i, j | 0 <= i < j < |Sort(types, less)|
      ensures !Less(lower(Sort(types, less)[j].name), lower(Sort(types, less)[i].name))
    {
      assert !less(Sort(types, less)[j], Sort(types, less)[i]);
    }
  }

  predicate Row(items: seq<WorkItem>, t: CompiledType) {
    exists x | x in items :: x.typ == t.name
  }

  function RowsOf(items: seq<WorkItem>, types: seq<CompiledType>): seq<CompiledType> {
    Filter(types, t => Row(items, t))
  }

  function NamesOf(types: seq<CompiledType>): (r: seq<string>)
    ensures |r| == |types| && forall i :: 0 <= i < |r| ==> r[i] == types[i].name
  {
    seq(|types|, i requires 0 <= i < |types| => types[i].name)
  }

  ghost function TypedRow(items: seq<WorkItem>, t: CompiledType): Swimlane {
    var its := With(items, TypeOf, t.name);
    Swimlane(t.name, Lanes(its, LanesForType(t)), |its|)
  }

  ghost function ExtraRow(items: seq<WorkItem>, typ: string): Swimlane {
    var its := With(items, TypeOf, typ);
    Swimlane(typ, Lanes(its, []), |its|)
  }

  /** The rows of the board: the compiled types that have items, then the item-only types, sorted. */
  ghost function Swimlanes(items: seq<WorkItem>, types: seq<CompiledType>): seq<Swimlane> {
    Each(RowsOf(items, types), t => TypedRow(items, t)) +
    Each(SortedSet(Keys(items, TypeOf) - Elements(NamesOf(types))), k => ExtraRow(items, k))
  }

  /** The first loop of buildBoardSwimlanes: the compiled types. */
  method TypedRows(items: seq<WorkItem>, byType: ByKey, types: seq<CompiledType>) returns (out: seq<Swimlane>)
    requires Grouped(byType, items, TypeOf)
    ensures out == Each(RowsOf(items, types), t => TypedRow(items, t))
  {
    hide With, Lanes, LanesForType;
    out := [];
    for i := 0 to |types|
      invariant out == Each(RowsOf(items, types[..i]), t => TypedRow(items, t))
    {
      var t := types[i];
      assert types[..i + 1][..i] == types[..i];
      var its := Get(byType, t.name);
      GroupedGet(byType, items, TypeOf, t.name);
      RowHasItems(items, t);
      if |its| == 0 {
        continue;
      }
      var names := BoardLanesForType(t);
      var lanes := BuildBoardColumns(its, names);
      out := out + [Swimlane(t.name, lanes, |its|)];
    }
    assert types[..|types|] == types;
  }

  lemma RowHasItems(items: seq<WorkItem>, t: CompiledType)
    ensures Row(items, t) <==> With(items, TypeOf, t.name) != []
  {
    HeadIn(With(items, TypeOf, t.name));
    if x :| x in items && x.typ == t.name {
      assert x in With(items, TypeOf, t.name);
    }
  }

  /** buildBoardSwimlanes. */
  method BuildBoardSwimlanes(items: seq<WorkItem>, compiled: Option<seq<CompiledType>>, lower: string -> string)
    returns (out: seq<Swimlane>)
    ensures out == Swimlanes(items, BoardTypes(compiled, lower))
  {
    hide With, Lanes, TypedRow, SortedSet, BoardTypes, RowsOf;
    var byType := GroupBy(items, TypeOf);
    var types := BoardTypesFromCompiled(compiled, lower);
    out := TypedRows(items, byType, types);
    ghost var typed := out;
    var extra := ExtraKeys(byType, NamesOf(types));
    for i := 0 to |extra|
      invariant out == typed + Each(extra[..i], k => ExtraRow(items, k))
    {
      GroupedGet(byType, items, TypeOf, extra[i]);
      var lanes := BuildBoardColumns(Get(byType, extra[i]), []);
      out := out + [Swimlane(extra[i], lanes, |Get(byType, extra[i])|)];
    }
    assert extra[..|extra|] == extra;
  }

  // ----- the order of the lanes and rows -----

  /** The lanes from left to right: the declared statuses as declared, or the six default ones; then every
      other status an item has, in alphabetical order. No item is without a lane. */
  lemma LaneOrder(items: seq<WorkItem>, declared: seq<string>)
    ensures var lanes := Lanes(items, declared);
            var base := if declared == [] then ["ready", "in_progress", "review", "revision", "blocked", "done"] else declared;
            && |lanes| >= |base|
            && (forall i :: 0 <= i < |base| ==> lanes[i].status == base[i])
            && (forall i :: |base| <= i < |lanes| ==> lanes[i].status !in base && exists x :: x in items && x.status == lanes[i].status)
            && (forall i, j :: |base| <= i < j < |lanes| ==> Less(lanes[i].status, lanes[j].status))
            && (forall x | x in items :: exists i :: 0 <= i < |lanes| && lanes[i].status == x.status && x in lanes[i].items)
  {
    hide SortedSet, With, Less;
    var lanes := Lanes(items, declared);
    var base := if declared == [] then STATUS_ORDER else declared;
    var extra := SortedSet(Keys(items, StatusOf) - Elements(base));
    var all := LaneStatuses(items, declared);
    assert all == base + extra;
    forall i | |base| <= i < |lanes|
      ensures lanes[i].status !in base && exists x :: x in items && x.status == lanes[i].status
    {
      assert all[i] == extra[i - |base|] && extra[i - |base|] in extra;
      var x :| x in items && StatusOf(x) == all[i];
      assert x.status == lanes[i].status;
    }
    forall i, j | |base| <= i < j < |lanes|
      ensures Less(lanes[i].status, lanes[j].status)
    {
      assert Less(extra[i - |base|], extra[j - |base|]);
    }
    forall x | x in items
      ensures exists i :: 0 <= i < |lanes| && lanes[i].status == x.status && x in lanes[i].items
    {
      assert StatusOf(x) in Keys(items, StatusOf);
      assert x.status in all by {
        assert x.status in base || x.status in extra;
      }
      var i :| 0 <= i < |all| && all[i] == x.status;
      assert lanes[i].status == x.status;
    }
  }

  ghost predicate NamedInOrder(types: seq<CompiledType>, name: string, name': string) {
    exists p, q :: 0 <= p < q < |types| && types[p].name == name && types[q].name == name'
  }

  /** The rows from top to bottom: first the compiled types that have items, in their order, then the types
      only items have, in alphabetical order. */
  lemma RowOrder(items: seq<WorkItem>, types: seq<CompiledType>) returns (typed: nat)
    ensures var rows := Swimlanes(items, types);
            && typed <= |rows|
            && (forall i, j :: 0 <= i < j < typed ==> NamedInOrder(types, rows[i].typ, rows[j].typ))
            && (forall i :: 0 <= i < typed ==> exists x :: x in items && x.typ == rows[i].typ)
            && (forall i :: typed <= i < |rows| ==> forall t | t in types :: t.name != rows[i].typ)
            && (forall i, j :: typed <= i < j < |rows| ==> Less(rows[i].typ, rows[j].typ))
  {
    hide SortedSet, Lanes, With, Less, Filter;
    var rows := Swimlanes(items, types);
    var a, ks := RowsOf(items, types), SortedSet(Keys(items, TypeOf) - Elements(NamesOf(types)));
    typed := |a|;
    assert forall i :: 0 <= i < typed ==> rows[i].typ == a[i].name;
    assert forall i :: typed <= i < |rows| ==> rows[i].typ == ks[i - typed];
    FilterMeans(types, t => Row(items, t));
    forall i, j | 0 <= i < j < typed
      ensures NamedInOrder(types, rows[i].typ, rows[j].typ)
    {
      var p, q := FilterOrder(types, t => Row(items, t), i, j);
      assert types[p].name == rows[i].typ && types[q].name == rows[j].typ;
    }
    forall i | 0 <= i < typed
      ensures exists x :: x in items && x.typ == rows[i].typ
    {
      assert a[i] in a && Row(items, a[i]);
    }
    forall i, t | typed <= i < |rows| && t in types
      ensures t.name != rows[i].typ
    {
      assert ks[i - typed] in ks;
      var j :| 0 <= j < |types| && types[j] == t;
      assert NamesOf(types)[j] == t.name;
    }
    forall i, j | typed <= i < j < |rows|
      ensures Less(rows[i].typ, rows[j].typ)
    {
      assert Less(ks[i - typed], ks[j - typed]);
    }
  }

  // ----- conservation -----

  /** The items of a key's block, block after block. */
  ghost function Blocks(ks: seq<string>, block: string -> seq<WorkItem>): seq<WorkItem> {
    if ks == [] then [] else Blocks(ks[..|ks| - 1], block) + block(ks[|ks| - 1])
  }

  /** An item shows once per occurrence of its key among the blocks. */
  lemma {:induction false} BlocksCount(items: seq<WorkItem>, f: WorkItem -> string, ks: seq<string>,
                                       block: string -> seq<WorkItem>, x: WorkItem)
    requires forall k :: multiset(block(k)) == multiset(With(items, f, k))
    ensures multiset(Blocks(ks, block))[x] == multiset(ks)[f(x)] * multiset(items)[x]
  {
    hide With;
    if ks != [] {
      BlocksCount(items, f, ks[..|ks| - 1], block, x);
      assert Blocks(ks, block) == Blocks(ks[..|ks| - 1], block) + block(ks[|ks| - 1]);
      hide Blocks;
      LastBlock(items, f, ks, block(ks[|ks| - 1]), x);
    }
  }

  lemma LastBlock(items: seq<WorkItem>, f: WorkItem -> string, ks: seq<string>, last: seq<WorkItem>, x: WorkItem)
    requires ks != [] && multiset(last) == multiset(With(items, f, ks[|ks| - 1]))
    ensures multiset(ks)[f(x)] * multiset(items)[x] ==
            multiset(ks[..|ks| - 1])[f(x)] * multiset(items)[x] + multiset(last)[x]
  {
    hide With;
    var n := |ks| - 1;
    WithCount(items, f, ks[n], x);
    assert ks == ks[..n] + [ks[n]];
    assert multiset(ks)[f(x)] == multiset(ks[..n])[f(x)] + if f(x) == ks[n] then 1 else 0;
    OneMore(multiset(ks[..n])[f(x)], multiset(items)[x]);
  }

  lemma OneMore(a: nat, c: nat)
    ensures (a + 1) * c == a * c + c
  {
  }

  lemma {:induction false} WithCount(items: seq<WorkItem>, f: WorkItem -> string, k: string, x: WorkItem)
    ensures multiset(With(items, f, k))[x] == if f(x) == k then multiset(items)[x] else 0
  {
    if items != [] {
      var n := |items| - 1;
      assert items == items[..n] + [items[n]];
      WithCount(items[..n], f, k, x);
    }
  }

  /** Grouping by a list of keys conserves the items exactly when each item's key occurs once. */
  lemma BlocksConserve(items: seq<WorkItem>, f: WorkItem -> string, ks: seq<string>, block: string -> seq<WorkItem>)
    requires forall k :: multiset(block(k)) == multiset(With(items, f, k))
    ensures multiset(Blocks(ks, block)) == multiset(items) <==> forall x | x in items :: multiset(ks)[f(x)] == 1
  {
    hide With, Blocks;
    if multiset(Blocks(ks, block)) == multiset(items) {
      forall x | x in items
        ensures multiset(ks)[f(x)] == 1
      {
        BlocksCount(items, f, ks, block, x);
        OneTimes(multiset(ks)[f(x)], multiset(items)[x]);
      }
    }
    if forall x | x in items :: multiset(ks)[f(x)] == 1 {
      forall x
        ensures multiset(Blocks(ks, block))[x] == multiset(items)[x]
      {
        BlocksCount(items, f, ks, block, x);
        if x !in items {
          assert multiset(items)[x] == 0;
        }
      }
    }
  }

  lemma OneTimes(a: nat, c: nat)
    ensures c > 0 ==> (a * c == c <==> a == 1)
  {
    if a > 1 {
      assert a * c == c + (a - 1) * c;
    }
  }

  /** All items of a type's lanes, lane after lane. */
  ghost function LaneItems(lanes: seq<Lane>): seq<WorkItem> {
    if lanes == [] then [] else LaneItems(lanes[..|lanes| - 1]) + lanes[|lanes| - 1].items
  }

  lemma {:induction false} LaneItemsAreBlocks(ks: seq<string>, items: seq<WorkItem>)
    ensures LaneItems(Each(ks, s => Lane(s, With(items, StatusOf, s)))) == Blocks(ks, s => With(items, StatusOf, s))
  {
    if ks != [] {
      hide With;
      var n := |ks| - 1;
      var lanes := Each(ks, s => Lane(s, With(items, StatusOf, s)));
      assert lanes[..n] == Each(ks[..n], s => Lane(s, With(items, StatusOf, s)));
      LaneItemsAreBlocks(ks[..n], items);
    }
  }

  /** The lanes of one type show each of its items once exactly when no declared status that an item
      has is declared twice. */
  lemma LanesConserve(items: seq<WorkItem>, declared: seq<string>)
    ensures multiset(LaneItems(Lanes(items, declared))) == multiset(items) <==>
            forall x | x in items :: multiset(declared)[x.status] <= 1
  {
    hide With, SortedSet;
    var ks := LaneStatuses(items, declared);
    LaneItemsAreBlocks(ks, items);
    BlocksConserve(items, StatusOf, ks, s => With(items, StatusOf, s));
    forall x | x in items
      ensures multiset(ks)[x.status] == 1 <==> multiset(declared)[x.status] <= 1
    {
      StatusCount(items, declared, x);
    }
  }

  lemma StatusCount(items: seq<WorkItem>, declared: seq<string>, x: WorkItem)
    requires x in items
    ensures multiset(LaneStatuses(items, declared))[x.status] ==
            if declared != [] && x.status in declared then multiset(declared)[x.status] else 1
  {
    hide SortedSet;
    var base := if declared == [] then STATUS_ORDER else declared;
    var extra := SortedSet(Keys(items, StatusOf) - Elements(base));
    assert x.status in Keys(items, StatusOf) by {
      assert StatusOf(x) == x.status;
    }
    SortedDistinct(extra);
    DistinctCount(extra, x.status);
    assert Distinct(STATUS_ORDER);
    DistinctCount(STATUS_ORDER, x.status);
    assert multiset(base)[x.status] == 0 <==> x.status !in base;
  }

  lemma SortedDistinct(s: seq<string>)
    requires StrictlySorted(s, Less)
    ensures Distinct(s)
  {
    forall i, j | 0 <= i < j < |s|
      ensures s[i] != s[j]
    {
      LessIrreflexive(s[i]);
    }
  }

  /** The board that is served, with the lanes of boardStatusesFromCompiled, shows every item exactly once,
      whatever is compiled and whatever status it has: no lane repeats, and each holds the items of its
      status in input order. */
  lemma ServedBoardConserves(items: seq<WorkItem>, compiled: Option<seq<CompiledType>>)
    ensures var lanes := Lanes(items, BoardStatuses(compiled));
            && multiset(LaneItems(lanes)) == multiset(items)
            && (forall l | l in lanes :: l.items == With(items, StatusOf, l.status))
            && Distinct(LaneStatuses(items, BoardStatuses(compiled)))
  {
    hide With, SortedSet;
    var declared := BoardStatuses(compiled);
    DistinctAtMostOnce(declared);
    LanesConserve(items, declared);
    LaneStatusesDistinct(items, declared);
  }

  lemma LaneStatusesDistinct(items: seq<WorkItem>, declared: seq<string>)
    requires Distinct(declared)
    ensures Distinct(LaneStatuses(items, declared))
  {
    hide SortedSet;
    var base := if declared == [] then STATUS_ORDER else declared;
    var extra := SortedSet(Keys(items, StatusOf) - Elements(base));
    SortedDistinct(extra);
    DistinctConcat(base, extra);
  }

  /** All items of the board, row after row. */
  ghost function BoardItems(rows: seq<Swimlane>): seq<WorkItem> {
    if rows == [] then [] else BoardItems(rows[..|rows| - 1]) + LaneItems(rows[|rows| - 1].lanes)
  }

  /** Every row of the board carries exactly the items of its type, in input order within each lane,
      and counts them. */
  ghost predicate RowOk(items: seq<WorkItem>, row: Swimlane) {
    && row.count == |With(items, TypeOf, row.typ)|
    && multiset(LaneItems(row.lanes)) == multiset(With(items, TypeOf, row.typ))
    && forall l | l in row.lanes :: l.items == With(With(items, TypeOf, row.typ), StatusOf, l.status)
  }

  lemma DistinctAtMostOnce(s: seq<string>)
    requires Distinct(s)
    ensures forall k :: multiset(s)[k] <= 1
  {
    forall k
      ensures multiset(s)[k] <= 1
    {
      DistinctCount(s, k);
    }
  }

  lemma TypedRowOk(items: seq<WorkItem>, t: CompiledType)
    ensures RowOk(items, TypedRow(items, t))
  {
    assert Distinct(LanesForType(t)) && LanesForType(t) != [];
    hide With, LanesForType, LaneStatuses;
    var its := With(items, TypeOf, t.name);
    DistinctAtMostOnce(LanesForType(t));
    LanesConserve(its, LanesForType(t));
  }

  lemma ExtraRowOk(items: seq<WorkItem>, typ: string)
    ensures RowOk(items, ExtraRow(items, typ))
  {
    hide With, LaneStatuses;
    LanesConserve(With(items, TypeOf, typ), []);
  }

  lemma RowsOk(items: seq<WorkItem>, types: seq<CompiledType>)
    ensures forall r | r in Swimlanes(items, types) :: RowOk(items, r)
  {
    hide RowOk, TypedRow, ExtraRow, RowsOf, SortedSet;
    var rows := Swimlanes(items, types);
    var a, ks := RowsOf(items, types), SortedSet(Keys(items, TypeOf) - Elements(NamesOf(types)));
    forall i | 0 <= i < |rows|
      ensures RowOk(items, rows[i])
    {
      if i < |a| {
        TypedRowOk(items, a[i]);
      } else {
        ExtraRowOk(items, ks[i - |a|]);
      }
    }
  }

  /** The type names of the board's rows. */
  ghost function RowTypes(rows: seq<Swimlane>): (r: seq<string>)
    ensures |r| == |rows| && forall i :: 0 <= i < |r| ==> r[i] == rows[i].typ
  {
    seq(|rows|, i requires 0 <= i < |rows| => rows[i].typ)
  }

  lemma {:induction false} BoardItemsAreBlocks(items: seq<WorkItem>, rows: seq<Swimlane>)
    requires forall r | r in rows :: RowOk(items, r)
    ensures multiset(BoardItems(rows)) == multiset(Blocks(RowTypes(rows), k => With(items, TypeOf, k)))
  {
    if rows != [] {
      hide With;
      var n := |rows| - 1;
      assert rows[n] in rows && forall r | r in rows[..n] :: r in rows;
      BoardItemsAreBlocks(items, rows[..n]);
      assert RowTypes(rows)[..n] == RowTypes(rows[..n]);
    }
  }

  /** How often an item's type has a row: as often as it is compiled, or once if it is not. */
  lemma RowTypeCount(items: seq<WorkItem>, types: seq<CompiledType>, x: WorkItem)
    requires x in items
    ensures multiset(RowTypes(Swimlanes(items, types)))[x.typ] ==
            if x.typ in NamesOf(types) then multiset(NamesOf(types))[x.typ] else 1
  {
    hide SortedSet, Lanes, TypedRow, ExtraRow;
    var a, ks := RowsOf(items, types), SortedSet(Keys(items, TypeOf) - Elements(NamesOf(types)));
    RowTypesAre(items, types);
    assert x.typ in Keys(items, TypeOf) by {
      assert TypeOf(x) == x.typ;
    }
    SortedDistinct(ks);
    DistinctCount(ks, x.typ);
    TypedCount(items, types, x);
    assert multiset(NamesOf(types))[x.typ] == 0 <==> x.typ !in NamesOf(types);
  }

  lemma RowTypesAre(items: seq<WorkItem>, types: seq<CompiledType>)
    ensures RowTypes(Swimlanes(items, types)) ==
            NamesOf(RowsOf(items, types)) + SortedSet(Keys(items, TypeOf) - Elements(NamesOf(types)))
  {
    hide SortedSet, Lanes, RowsOf, With;
  }

  lemma {:induction false} TypedCount(items: seq<WorkItem>, types: seq<CompiledType>, x: WorkItem)
    requires x in items
    ensures multiset(NamesOf(RowsOf(items, types)))[x.typ] == multiset(NamesOf(types))[x.typ]
  {
    if types != [] {
      var n := |types| - 1;
      var r := RowsOf(items, types[..n]);
      TypedCount(items, types[..n], x);
      NamesCount(types[..n], types[n], x.typ);
      NamesCount(r, types[n], x.typ);
      assert RowsOf(items, types) == r + if Row(items, types[n]) then [types[n]] else [];
      hide RowsOf, NamesOf;
      assert types == types[..n] + [types[n]];
      if types[n].name == x.typ {
        assert Row(items, types[n]);
      }
    }
  }

  lemma NamesCount(types: seq<CompiledType>, t: CompiledType, k: string)
    ensures multiset(NamesOf(types + [t]))[k] == multiset(NamesOf(types))[k] + if t.name == k then 1 else 0
  {
    assert NamesOf(types + [t]) == NamesOf(types) + [t.name];
  }

  /** The board shows every item exactly once, in the lane of its own type and status, exactly when no
      type that has items is compiled onto the board twice. */
  lemma BoardConserves(items: seq<WorkItem>, types: seq<CompiledType>)
    ensures multiset(BoardItems(Swimlanes(items, types))) == multiset(items) <==>
            forall x | x in items :: multiset(NamesOf(types))[x.typ] <= 1
  {
    hide With, Swimlanes, SortedSet, RowOk;
    var rows := Swimlanes(items, types);
    RowsOk(items, types);
    BoardItemsAreBlocks(items, rows);
    BlocksConserve(items, TypeOf, RowTypes(rows), k => With(items, TypeOf, k));
    forall x | x in items
      ensures multiset(RowTypes(rows))[x.typ] == 1 <==> multiset(NamesOf(types))[x.typ] <= 1
    {
      RowTypeCount(items, types, x);
      assert multiset(NamesOf(types))[x.typ] == 0 <==> x.typ !in NamesOf(types);
    }
  }
}
