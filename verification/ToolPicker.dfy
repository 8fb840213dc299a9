/**
 The Tools picker (agent.go): the four-phase claim loop that renders every tool of an agent once.
 */
module ToolPicker {
  import opened Order
  import opened Slices
  import opened Tools

  /** A registry server with the names of its tools. */
  datatype Server = Server(name: string, kind: string, tools: seq<string>)

  /** A connected relay node; its tools are called <instance>_<tool>. */
  datatype RelayNode = RelayNode(instance: string, tools: seq<string>)

  datatype Row = Row(name: string, checked: bool, policyValue: string, noPolicy: bool)

  datatype GroupView = GroupView(group: ToolGroup, policy: string, rows: seq<Row>)
  datatype SourceView = SourceView(title: string, rows: seq<Row>)
  datatype PickerView = PickerView(builtin: seq<GroupView>, servers: seq<SourceView>, relays: seq<SourceView>, other: seq<Row>)

  /** What the page shows: the agent's tool state and group catalog, the registry and the relays. */
  datatype PickerData = PickerData(state: ToolState, groups: seq<ToolGroup>, servers: seq<Server>, relays: seq<RelayNode>)

  predicate IsBuiltin(srv: Server) {
    srv.kind == "builtin"
  }

  predicate IsExternal(srv: Server) {
    !IsBuiltin(srv)
  }

  function RelayToolName(instance: string, tool: string): string {
    instance + "_" + tool
  }

  function RelayNames(node: RelayNode): (r: seq<string>)
    ensures |r| == |node.tools| && forall i :: 0 <= i < |r| ==> r[i] == RelayToolName(node.instance, node.tools[i])
  {
    seq(|node.tools|, i requires 0 <= i < |node.tools| => RelayToolName(node.instance, node.tools[i]))
  }

  // ----- one row -----

  /** toolPolicyValue: the select value of a stored policy entry, "" for none. */
  function PolicyValue(m: Policies, k: string): string {
    if k !in m then ""
    else if m[k].disabled then "deny"
    else if m[k].confirm then "ask"
    else "allow"
  }

  /** toolRow: a row of a capability group. */
  function ToolRow(s: ToolState, name: string): (r: Row)
    ensures r.name == name
  {
    var checked := if IsBanManaged(name) then name !in s.banned else name in s.tools;
    Row(name, checked, PolicyValue(s.policies, name), IsBanManaged(name))
  }

  /** The row of a source block or of the "Other" block. */
  function SourceRow(s: ToolState, name: string): (r: Row)
    ensures r.name == name
  {
    Row(name, name in s.tools, PolicyValue(s.policies, name), false)
  }

  // ----- claiming -----

  /** The names of a list that are eligible and not yet claimed, each at its first occurrence. */
  function Fresh(names: seq<string>, ok: string -> bool, claimed: set<string>): (r: seq<string>)
    ensures forall x :: x in r <==> x in names && ok(x) && x !in claimed
    ensures Distinct(r)
  {
    if names == [] then []
    else
      var n := |names| - 1;
      assert names == names[..n] + [names[n]];
      var r := Fresh(names[..n], ok, claimed);
      if ok(names[n]) && names[n] !in claimed && names[n] !in r then r + [names[n]] else r
  }

  lemma RowsNext(names: seq<string>, n: string, row: string -> Row)
    ensures Each(names + [n], row) == Each(names, row) + [row(n)]
    ensures Elements(names + [n]) == Elements(names) + {n}
  {
  }

  lemma FreshNext(names: seq<string>, i: nat, ok: string -> bool, claimed: set<string>)
    requires i < |names|
    ensures var r := Fresh(names[..i], ok, claimed);
            Fresh(names[..i + 1], ok, claimed) ==
            if ok(names[i]) && names[i] !in claimed && names[i] !in r then r + [names[i]] else r
  {
    assert names[..i + 1][..i] == names[..i];
  }

  function Names(rows: seq<Row>): (r: seq<string>)
    ensures |r| == |rows| && forall i :: 0 <= i < |r| ==> r[i] == rows[i].name
    ensures forall x :: x in r <==> exists q :: q in rows && q.name == x
  {
    seq(|rows|, i requires 0 <= i < |rows| => rows[i].name)
  }

  /** Every tool of the servers a filter selects, in server order. */
  function Catalog(servers: seq<Server>, pick: Server -> bool): (r: seq<string>)
    ensures forall x :: x in r <==> exists srv :: srv in servers && pick(srv) && x in srv.tools
  {
    if servers == [] then []
    else
      var n := |servers| - 1;
      assert servers == servers[..n] + [servers[n]];
      var r := Catalog(servers[..n], pick);
      if pick(servers[n]) then r + servers[n].tools else r
  }

  predicate IsAny(srv: Server) {
    true
  }

  /** The allowed tools no server or relay offers, in stored order; delegation tools are not listed. */
  function Unlisted(d: PickerData): seq<string> {
    var offered := Catalog(d.servers, IsAny) + RelayCatalog(d.relays);
    Filter(d.state.tools, t => t !in offered && !IsDelegationTool(t))
  }

  /** unlistedTools. */
  method UnlistedTools(d: PickerData) returns (out: seq<string>)
    ensures out == Unlisted(d)
  {
    hide Filter, Catalog, RelayCatalog;
    ghost var offered := Catalog(d.servers, IsAny) + RelayCatalog(d.relays);
    var listed: set<string> := {};
    for i := 0 to |d.servers|
      invariant forall x :: x in listed <==> exists j :: 0 <= j < i && x in d.servers[j].tools
    {
      listed := listed + Elements(d.servers[i].tools);
    }
    for i := 0 to |d.relays|
      invariant forall x :: x in listed <==>
                            (exists j :: 0 <= j < |d.servers| && x in d.servers[j].tools) ||
                            (exists j :: 0 <= j < i && x in RelayNames(d.relays[j]))
    {
      listed := listed + Elements(RelayNames(d.relays[i]));
    }
    OfferedMeans(d, listed);
    var tools := d.state.tools;
    out := [];
    FilterEmpty(tools[..0], t => t !in offered && !IsDelegationTool(t));
    for i := 0 to |tools|
      invariant out == Filter(tools[..i], t => t !in offered && !IsDelegationTool(t))
    {
      FilterNext(tools, i, t => t !in offered && !IsDelegationTool(t));
      if tools[i] !in listed && !IsDelegationTool(tools[i]) {
        out := out + [tools[i]];
      }
    }
    assert tools[..|tools|] == tools;
  }

  lemma OfferedMeans(d: PickerData, listed: set<string>)
    requires forall x :: x in listed <==>
                         (exists j :: 0 <= j < |d.servers| && x in d.servers[j].tools) ||
                         (exists j :: 0 <= j < |d.relays| && x in RelayNames(d.relays[j]))
    ensures forall x :: x in listed <==> x in Catalog(d.servers, IsAny) + RelayCatalog(d.relays)
  {
    hide Catalog, RelayCatalog;
    forall x
      ensures x in listed <==> x in Catalog(d.servers, IsAny) || x in RelayCatalog(d.relays)
    {
      if srv :| srv in d.servers && x in srv.tools {
        var j :| 0 <= j < |d.servers| && d.servers[j] == srv;
      }
      if n :| n in d.relays && x in RelayNames(n) {
        var j :| 0 <= j < |d.relays| && d.relays[j] == n;
      }
    }
  }

  function RelayCatalog(relays: seq<RelayNode>): (r: seq<string>)
    ensures forall x :: x in r <==> exists n :: n in relays && x in RelayNames(n)
  {
    if relays == [] then []
    else
      var n := |relays| - 1;
      assert relays == relays[..n] + [relays[n]];
      RelayCatalog(relays[..n]) + RelayNames(relays[n])
  }

  /** The names that render in a server's or relay's own block and never in a capability group. */
  function External(servers: seq<Server>, relays: seq<RelayNode>): (r: set<string>)
    ensures forall x :: x in r <==> (x != "" && x in Catalog(servers, IsExternal)) || x in RelayCatalog(relays)
  {
    Elements(Fresh(Catalog(servers, IsExternal), x => x != "", {})) + Elements(RelayCatalog(relays))
  }

  // ----- the view -----

  /** The policy a group header shows: the server-computed one, else the stored "@group:" entry. */
  function GroupPolicy(s: ToolState, g: ToolGroup): string {
    if g.policy != "" then g.policy else PolicyValue(s.policies, GroupPolicyKey(g.id))
  }

  function GroupPolicyFormValue(v: string): string {
    if v == "" then "inherit" else v
  }

  /** The rows of one capability group: the builtin catalog's members in server order, then the
      members no source offers. */
  function GroupNames(d: PickerData, g: ToolGroup, claimed: set<string>): (r: seq<string>)
    ensures forall x :: x in r <==> x !in claimed && x in g.tools &&
                                    (x in Catalog(d.servers, IsBuiltin) ||
                                     (!IsDelegationTool(x) && x !in External(d.servers, d.relays)))
    ensures Distinct(r)
  {
    var a := Fresh(Catalog(d.servers, IsBuiltin), x => x in g.tools, claimed);
    var b := Fresh(g.tools, x => !IsDelegationTool(x) && x !in External(d.servers, d.relays), claimed + Elements(a));
    DistinctConcat(a, b);
    a + b
  }

  function BuiltinNames(views: seq<GroupView>): (r: seq<string>)
    ensures forall x :: x in r <==> exists v :: v in views && x in Names(v.rows)
  {
    if views == [] then []
    else
      var n := |views| - 1;
      assert views == views[..n] + [views[n]];
      BuiltinNames(views[..n]) + Names(views[n].rows)
  }

  function SourceNames(views: seq<SourceView>): (r: seq<string>)
    ensures forall x :: x in r <==> exists v :: v in views && x in Names(v.rows)
  {
    if views == [] then []
    else
      var n := |views| - 1;
      assert views == views[..n] + [views[n]];
      SourceNames(views[..n]) + Names(views[n].rows)
  }

  /** Phase 1: the capability groups, in catalog order; an empty one is dropped. */
  function BuiltinViews(d: PickerData, groups: seq<ToolGroup>): seq<GroupView> {
    if groups == [] then []
    else
      var g := groups[|groups| - 1];
      var r := BuiltinViews(d, groups[..|groups| - 1]);
      var names := GroupNames(d, g, Elements(BuiltinNames(r)));
      if names == [] then r
      else r + [GroupView(g, GroupPolicyFormValue(GroupPolicy(d.state, g)), Each(names, n => ToolRow(d.state, n)))]
  }

  /** The capability groups of the page. */
  function Builtin(d: PickerData): seq<GroupView> {
    BuiltinViews(d, d.groups)
  }

  function SourceBlock(s: ToolState, title: string, names: seq<string>): seq<SourceView> {
    if names == [] then [] else [SourceView(title, Each(names, n => SourceRow(s, n)))]
  }

  /** Phase 2: the external servers, each with the tools nothing before it claimed. */
  function ServerViews(s: ToolState, servers: seq<Server>, claimed: set<string>): seq<SourceView> {
    if servers == [] then []
    else
      var srv := servers[|servers| - 1];
      var r := ServerViews(s, servers[..|servers| - 1], claimed);
      if IsBuiltin(srv) then r
      else r + SourceBlock(s, srv.name, Fresh(srv.tools, x => x != "", claimed + Elements(SourceNames(r))))
  }

  /** Phase 3: the relay nodes. */
  function RelayViews(s: ToolState, relays: seq<RelayNode>, claimed: set<string>): seq<SourceView> {
    if relays == [] then []
    else
      var node := relays[|relays| - 1];
      var r := RelayViews(s, relays[..|relays| - 1], claimed);
      r + SourceBlock(s, node.instance, Fresh(RelayNames(node), x => true, claimed + Elements(SourceNames(r))))
  }

  /** Phase 4: what no block covers. */
  function OtherNames(d: PickerData, claimed: set<string>): seq<string> {
    Fresh(d.state.tools + d.state.banned + Catalog(d.servers, IsBuiltin), x => x != "" && !IsDelegationTool(x), claimed)
  }

  function View(d: PickerData): PickerView {
    if d.groups == [] then PickerView([], [], [], [])
    else
      var builtin := Builtin(d);
      var c1 := Elements(BuiltinNames(builtin));
      var servers := ServerViews(d.state, d.servers, c1);
      var c2 := c1 + Elements(SourceNames(servers));
      var relays := RelayViews(d.state, d.relays, c2);
      var c3 := c2 + Elements(SourceNames(relays));
      PickerView(builtin, servers, relays, Each(OtherNames(d, c3), n => SourceRow(d.state, n)))
  }

  // ----- the code -----

  /** unclaimedServerRows and, with relay names, unclaimedRelayRows: the rows of a source block,
      skipping names an earlier block rendered and claiming the rest. */
  method UnclaimedRows(names: seq<string>, skipEmpty: bool, s: ToolState, claimed: set<string>)
    returns (rows: seq<Row>, claimed': set<string>)
    ensures var got := Fresh(names, x => !skipEmpty || x != "", claimed);
            rows == Each(got, n => SourceRow(s, n)) && claimed' == claimed + Elements(got)
  {
    rows, claimed' := [], claimed;
    for i := 0 to |names|
      invariant var got := Fresh(names[..i], x => !skipEmpty || x != "", claimed);
                rows == Each(got, n => SourceRow(s, n)) && claimed' == claimed + Elements(got)
    {
      assert names[..i + 1][..i] == names[..i];
      if (skipEmpty && names[i] == "") || names[i] in claimed' {
        continue;
      }
      claimed' := claimed' + {names[i]};
      rows := rows + [SourceRow(s, names[i])];
    }
    assert names[..|names|] == names;
  }

  /** The rows of one capability group: builtin catalog members first, then the native members. */
  method GroupRows(d: PickerData, g: ToolGroup, external: set<string>, claimed: set<string>)
    returns (rows: seq<Row>, claimed': set<string>)
    requires external == External(d.servers, d.relays)
    ensures var names := GroupNames(d, g, claimed);
            rows == Each(names, n => ToolRow(d.state, n)) && claimed' == claimed + Elements(names)
  {
    hide Fresh, External, ToolRow, Catalog;
    var catalog := BuiltinMembers(d.servers);
    var a, c1 := ClaimMembers(d.state, catalog, x => x in g.tools, claimed);
    var b, c2 := ClaimMembers(d.state, g.tools, x => !IsDelegationTool(x) && x !in external, c1);
    rows, claimed' := a + b, c2;
  }

  /** One claim loop of a capability group over the candidates `names`. */
  method ClaimMembers(s: ToolState, names: seq<string>, ok: string -> bool, claimed: set<string>)
    returns (rows: seq<Row>, claimed': set<string>)
    ensures var got := Fresh(names, ok, claimed);
            rows == Each(got, n => ToolRow(s, n)) && claimed' == claimed + Elements(got)
  {
    rows, claimed' := [], claimed;
    for i := 0 to |names|
      invariant var got := Fresh(names[..i], ok, claimed);
                rows == Each(got, n => ToolRow(s, n)) && claimed' == claimed + Elements(got)
    {
      assert names[..i + 1][..i] == names[..i];
      if !ok(names[i]) || names[i] in claimed' {
        continue;
      }
      claimed' := claimed' + {names[i]};
      rows := rows + [ToolRow(s, names[i])];
    }
    assert names[..|names|] == names;
  }

  method BuiltinMembers(servers: seq<Server>) returns (names: seq<string>)
    ensures names == Catalog(servers, IsBuiltin)
  {
    names := [];
    for i := 0 to |servers|
      invariant names == Catalog(servers[..i], IsBuiltin)
    {
      assert servers[..i + 1][..i] == servers[..i];
      if IsBuiltin(servers[i]) {
        names := names + servers[i].tools;
      }
    }
    assert servers[..|servers|] == servers;
  }

  /** The first phase: `claimed` is, at every round, exactly the set of names rendered so far. */
  method CapabilityGroups(d: PickerData, external: set<string>) returns (views: seq<GroupView>, claimed: set<string>)
    requires external == External(d.servers, d.relays)
    ensures views == BuiltinViews(d, d.groups) && claimed == Elements(BuiltinNames(views))
  {
    hide GroupNames, External, PolicyValue, ToolRow, BuiltinNames;
    views, claimed := [], {};
    for i := 0 to |d.groups|
      invariant views == BuiltinViews(d, d.groups[..i]) && claimed == Elements(BuiltinNames(views))
    {
      var g := d.groups[i];
      assert d.groups[..i + 1][..i] == d.groups[..i];
      var rows, claimed' := GroupRows(d, g, external, claimed);
      if |rows| == 0 {
        assert GroupNames(d, g, claimed) == [];
        continue;
      }
      BuiltinExtended(d, d.groups[..i + 1], views, GroupNames(d, g, claimed));
      claimed := claimed';
      views := views + [GroupView(g, GroupPolicyFormValue(GroupPolicy(d.state, g)), rows)];
    }
    assert d.groups[..|d.groups|] == d.groups;
  }

  method ServerBlocks(s: ToolState, servers: seq<Server>, start: set<string>)
    returns (views: seq<SourceView>, claimed: set<string>)
    ensures views == ServerViews(s, servers, start) && claimed == start + Elements(SourceNames(views))
  {
    hide Fresh, SourceRow, SourceNames;
    views, claimed := [], start;
    for i := 0 to |servers|
      invariant views == ServerViews(s, servers[..i], start) && claimed == start + Elements(SourceNames(views))
    {
      var srv := servers[i];
      assert servers[..i + 1][..i] == servers[..i];
      if IsBuiltin(srv) {
        continue;
      }
      var rows, claimed' := UnclaimedRows(srv.tools, true, s, claimed);
      SameEligible(srv.tools, claimed);
      SourceExtended(views, s, srv.name, Fresh(srv.tools, x => x != "", claimed));
      if |rows| == 0 {
        continue;
      }
      claimed := claimed';
      views := views + [SourceView(srv.name, rows)];
    }
    assert servers[..|servers|] == servers;
  }

  /** How a predicate is written does not change what it selects. */
  lemma {:induction false} FreshSame(names: seq<string>, p: string -> bool, q: string -> bool, claimed: set<string>)
    requires forall x :: p(x) == q(x)
    ensures Fresh(names, p, claimed) == Fresh(names, q, claimed)
  {
    if names != [] {
      FreshSame(names[..|names| - 1], p, q, claimed);
    }
  }

  lemma SameEligible(names: seq<string>, claimed: set<string>)
    ensures Fresh(names, x => !true || x != "", claimed) == Fresh(names, x => x != "", claimed)
    ensures Fresh(names, x => !false || x != "", claimed) == Fresh(names, x => true, claimed)
  {
    FreshSame(names, x => !true || x != "", x => x != "", claimed);
    FreshSame(names, x => !false || x != "", x => true, claimed);
  }

  lemma RelayViewsNext(s: ToolState, relays: seq<RelayNode>, start: set<string>, i: nat)
    requires i < |relays|
    ensures var r := RelayViews(s, relays[..i], start);
            RelayViews(s, relays[..i + 1], start) ==
            r + SourceBlock(s, relays[i].instance, Fresh(RelayNames(relays[i]), x => true, start + Elements(SourceNames(r))))
  {
    assert relays[..i + 1][..i] == relays[..i];
  }

  method RelayBlocks(s: ToolState, relays: seq<RelayNode>, start: set<string>)
    returns (views: seq<SourceView>, claimed: set<string>)
    ensures views == RelayViews(s, relays, start) && claimed == start + Elements(SourceNames(views))
  {
    assert RelayViews(s, [], start) == [] && Elements(SourceNames([])) == {};
    hide Fresh, SourceRow, RelayNames, SourceNames, RelayViews, Elements;
    views, claimed := [], start;
    for i := 0 to |relays|
      invariant views == RelayViews(s, relays[..i], start) && claimed == start + Elements(SourceNames(views))
    {
      var node := relays[i];
      RelayViewsNext(s, relays, start, i);
      var rows, claimed' := UnclaimedRows(RelayNames(node), false, s, claimed);
      SameEligible(RelayNames(node), claimed);
      SourceExtended(views, s, node.instance, Fresh(RelayNames(node), x => true, claimed));
      if |rows| == 0 {
        continue;
      }
      claimed := claimed';
      views := views + [SourceView(node.instance, rows)];
    }
    assert relays[..|relays|] == relays;
  }

  /** uncoveredRows. */
  method UncoveredRows(d: PickerData, claimed: set<string>) returns (rows: seq<Row>)
    ensures rows == Each(OtherNames(d, claimed), n => SourceRow(d.state, n))
  {
    assert Fresh([], x => x != "" && !IsDelegationTool(x), claimed) == [];
    hide SourceRow, Catalog, Fresh, Each, Elements;
    var catalog := BuiltinMembers(d.servers);
    var names := d.state.tools + d.state.banned + catalog;
    var seen: set<string> := {};
    rows := [];
    for i := 0 to |names|
      invariant var got := Fresh(names[..i], x => x != "" && !IsDelegationTool(x), claimed);
                rows == Each(got, n => SourceRow(d.state, n)) && seen == Elements(got)
    {
      FreshNext(names, i, x => x != "" && !IsDelegationTool(x), claimed);
      var name := names[i];
      if name == "" || name in claimed || name in seen || IsDelegationTool(name) {
        continue;
      }
      RowsNext(Fresh(names[..i], x => x != "" && !IsDelegationTool(x), claimed), name, n => SourceRow(d.state, n));
      seen := seen + {name};
      rows := rows + [SourceRow(d.state, name)];
    }
    assert names[..|names|] == names;
  }

  method ExternalOwned(servers: seq<Server>, relays: seq<RelayNode>) returns (owned: set<string>)
    ensures owned == External(servers, relays)
  {
    owned := {};
    for i := 0 to |servers|
      invariant forall x :: x in owned <==> x != "" && x in Catalog(servers[..i], IsExternal)
    {
      assert servers[..i + 1][..i] == servers[..i];
      if IsBuiltin(servers[i]) {
        continue;
      }
      owned := owned + set x | x in servers[i].tools && x != "";
    }
    assert servers[..|servers|] == servers;
    for i := 0 to |relays|
      invariant forall x :: x in owned <==> (x != "" && x in Catalog(servers, IsExternal)) || x in RelayCatalog(relays[..i])
    {
      assert relays[..i + 1][..i] == relays[..i];
      owned := owned + Elements(RelayNames(relays[i]));
    }
    assert relays[..|relays|] == relays;
  }

  /** buildToolPickerView. */
  method BuildToolPickerView(d: PickerData) returns (view: PickerView)
    ensures view == View(d)
  {
    hide BuiltinViews, ServerViews, RelayViews, OtherNames, External;
    if |d.groups| == 0 {
      return PickerView([], [], [], []);
    }
    var external := ExternalOwned(d.servers, d.relays);
    var builtin, c1 := CapabilityGroups(d, external);
    var servers, c2 := ServerBlocks(d.state, d.servers, c1);
    var relays, c3 := RelayBlocks(d.state, d.relays, c2);
    var other := UncoveredRows(d, c3);
    view := PickerView(builtin, servers, relays, other);
  }

  // ----- what the view shows -----

  /** Every rendered name, in page order. */
  function AllNames(v: PickerView): seq<string> {
    BuiltinNames(v.builtin) + SourceNames(v.servers) + SourceNames(v.relays) + Names(v.other)
  }

  lemma {:induction false} BuiltinDistinct(d: PickerData, groups: seq<ToolGroup>)
    ensures Distinct(BuiltinNames(BuiltinViews(d, groups)))
    ensures forall x :: x in BuiltinNames(BuiltinViews(d, groups)) <==>
                        exists g :: g in groups && x in GroupNames(d, g, {})
  {
    if groups != [] {
      var r := BuiltinViews(d, groups[..|groups| - 1]);
      BuiltinDistinct(d, groups[..|groups| - 1]);
      BuiltinExtended(d, groups, r, GroupNames(d, groups[|groups| - 1], Elements(BuiltinNames(r))));
      hide BuiltinViews, BuiltinNames, Distinct, GroupNames;
      OneGroupMore(d, groups, BuiltinNames(r));
    }
  }

  lemma OneGroupMore(d: PickerData, groups: seq<ToolGroup>, earlier: seq<string>)
    requires groups != [] && Distinct(earlier)
    requires forall x :: x in earlier <==> exists g :: g in groups[..|groups| - 1] && x in GroupNames(d, g, {})
    ensures var all := earlier + GroupNames(d, groups[|groups| - 1], Elements(earlier));
            Distinct(all) && forall x :: x in all <==> exists g :: g in groups && x in GroupNames(d, g, {})
  {
    var last := groups[|groups| - 1];
    var names := GroupNames(d, last, Elements(earlier));
    assert groups == groups[..|groups| - 1] + [last];
    DistinctConcat(earlier, names);
    hide GroupNames, Distinct;
    forall x
      ensures x in earlier + names <==> exists g :: g in groups && x in GroupNames(d, g, {})
    {
      ClaimedOut(d, last, Elements(earlier), x);
    }
  }

  /** What is claimed already only takes names away. */
  lemma ClaimedOut(d: PickerData, g: ToolGroup, claimed: set<string>, x: string)
    ensures x in GroupNames(d, g, claimed) <==> x !in claimed && x in GroupNames(d, g, {})
  {
    hide External, Distinct;
  }

  lemma BuiltinExtended(d: PickerData, groups: seq<ToolGroup>, r: seq<GroupView>, names: seq<string>)
    requires groups != [] && r == BuiltinViews(d, groups[..|groups| - 1])
    requires names == GroupNames(d, groups[|groups| - 1], Elements(BuiltinNames(r)))
    ensures BuiltinNames(BuiltinViews(d, groups)) == BuiltinNames(r) + names
  {
    hide GroupPolicy, External, GroupNames, PolicyValue;
    var after := BuiltinViews(d, groups);
    if names == [] {
      assert BuiltinNames(r) + names == BuiltinNames(r);
    } else {
      assert after[..|after| - 1] == r;
      assert Names(after[|after| - 1].rows) == names;
    }
  }

  lemma {:induction false} SourceExtended(r: seq<SourceView>, s: ToolState, title: string, names: seq<string>)
    ensures SourceNames(r + SourceBlock(s, title, names)) == SourceNames(r) + names
  {
    var after := r + SourceBlock(s, title, names);
    if names == [] {
      assert after == r && SourceNames(r) + names == SourceNames(r);
    } else {
      assert after[..|after| - 1] == r;
      assert Names(after[|after| - 1].rows) == names;
    }
  }

  lemma {:induction false} ServerDistinct(s: ToolState, servers: seq<Server>, claimed: set<string>)
    ensures Distinct(SourceNames(ServerViews(s, servers, claimed)))
    ensures forall x :: x in SourceNames(ServerViews(s, servers, claimed)) <==>
                        x !in claimed && x != "" && x in Catalog(servers, IsExternal)
  {
    if servers != [] {
      var n := |servers| - 1;
      var srv := servers[n];
      var r := ServerViews(s, servers[..n], claimed);
      ServerDistinct(s, servers[..n], claimed);
      if !IsBuiltin(srv) {
        var names := Fresh(srv.tools, x => x != "", claimed + Elements(SourceNames(r)));
        SourceExtended(r, s, srv.name, names);
        DistinctConcat(SourceNames(r), names);
      }
    }
  }

  lemma {:induction false} RelayDistinct(s: ToolState, relays: seq<RelayNode>, claimed: set<string>)
    ensures Distinct(SourceNames(RelayViews(s, relays, claimed)))
    ensures forall x :: x in SourceNames(RelayViews(s, relays, claimed)) <==> x !in claimed && x in RelayCatalog(relays)
  {
    if relays != [] {
      var n := |relays| - 1;
      var r := RelayViews(s, relays[..n], claimed);
      RelayDistinct(s, relays[..n], claimed);
      var names := Fresh(RelayNames(relays[n]), x => true, claimed + Elements(SourceNames(r)));
      SourceExtended(r, s, relays[n].instance, names);
      DistinctConcat(SourceNames(r), names);
    }
  }

  /** No tool renders twice, across all four kinds of block. */
  lemma RendersAtMostOnce(d: PickerData)
    ensures Distinct(AllNames(View(d)))
  {
    hide BuiltinViews, ServerViews, RelayViews, Catalog, RelayCatalog;
    if d.groups != [] {
      var v := View(d);
      var c1 := Elements(BuiltinNames(v.builtin));
      var c2 := c1 + Elements(SourceNames(v.servers));
      BuiltinDistinct(d, d.groups);
      ServerDistinct(d.state, d.servers, c1);
      RelayDistinct(d.state, d.relays, c2);
      var other := OtherNames(d, c2 + Elements(SourceNames(v.relays)));
      assert Names(v.other) == other;
      DistinctConcat(BuiltinNames(v.builtin), SourceNames(v.servers));
      DistinctConcat(BuiltinNames(v.builtin) + SourceNames(v.servers), SourceNames(v.relays));
      DistinctConcat(BuiltinNames(v.builtin) + SourceNames(v.servers) + SourceNames(v.relays), other);
    }
  }

  /** No ordinary tool the agent allows or bans, and none of the builtin catalog, is missing from the
      blocks. (Where no capability group renders, the page does not draw them.) */
  lemma RendersEveryTool(d: PickerData, t: string)
    requires d.groups != [] && t != "" && !IsDelegationTool(t)
    requires t in d.state.tools || t in d.state.banned || t in Catalog(d.servers, IsBuiltin)
    ensures t in AllNames(View(d))
  {
    hide BuiltinViews, ServerViews, RelayViews, Catalog;
    var v := View(d);
    var c3 := Elements(BuiltinNames(v.builtin)) + Elements(SourceNames(v.servers)) + Elements(SourceNames(v.relays));
    assert t in c3 || t in OtherNames(d, c3);
    assert Names(v.other) == OtherNames(d, c3);
  }

  // ----- where a tool renders -----

  /** The block of a list of sources is a subsequence of them; `at` says where each block comes from. */
  ghost predicate Positions(at: seq<nat>, blocks: nat, sources: nat) {
    && |at| == blocks
    && (forall k :: 0 <= k < |at| ==> at[k] < sources)
    && (forall j, k :: 0 <= j < k < |at| ==> at[j] < at[k])
  }

  /** The block of the i-th server: titled with its name, not empty, with exactly the names nobody before it
      claimed and no earlier external server offers. */
  ghost predicate ShowsServer(v: SourceView, servers: seq<Server>, claimed: set<string>, i: nat)
    requires i < |servers|
  {
    && servers[i].kind != "builtin" && v.title == servers[i].name && v.rows != []
    && forall x :: x in Names(v.rows) <==>
         && x in servers[i].tools && x != "" && x !in claimed
         && forall j :: 0 <= j < i && servers[j].kind != "builtin" ==> x !in servers[j].tools
  }

  /** The server blocks stand in registry order; a tool several external servers offer renders in the first
      one's block. */
  lemma {:induction false} FirstServerShows(s: ToolState, servers: seq<Server>, claimed: set<string>) returns (at: seq<nat>)
    ensures var views := ServerViews(s, servers, claimed);
            Positions(at, |views|, |servers|) && forall k :: 0 <= k < |at| ==> ShowsServer(views[k], servers, claimed, at[k])
  {
    hide ShowsServer, Fresh, SourceNames, SourceBlock;
    if servers == [] {
      at := [];
    } else {
      hide ServerViews;
      var n := |servers| - 1;
      at := FirstServerShows(s, servers[..n], claimed);
      ServerViewsNext(s, servers, claimed);
      var r, views := ServerViews(s, servers[..n], claimed), ServerViews(s, servers, claimed);
      forall k | 0 <= k < |r|
        ensures ShowsServer(views[k], servers, claimed, at[k])
      {
        ServerShownLater(r[k], servers, claimed, n, at[k]);
      }
      if |views| > |r| {
        at := at + [n];
      }
    }
  }

  lemma ServerViewsNext(s: ToolState, servers: seq<Server>, claimed: set<string>)
    requires servers != []
    ensures var r, views := ServerViews(s, servers[..|servers| - 1], claimed), ServerViews(s, servers, claimed);
            && |r| <= |views| <= |r| + 1 && views[..|r|] == r
            && (|views| > |r| ==> ShowsServer(views[|r|], servers, claimed, |servers| - 1))
  {
    var n := |servers| - 1;
    var r := ServerViews(s, servers[..n], claimed);
    var names := Fresh(servers[n].tools, x => x != "", claimed + Elements(SourceNames(r)));
    ServerDistinct(s, servers[..n], claimed);
    hide Fresh, SourceNames, ShowsServer, Catalog;
    if !IsBuiltin(servers[n]) && names != [] {
      ServerShown(s, servers, claimed, names);
    }
  }

  lemma ServerShownLater(v: SourceView, servers: seq<Server>, claimed: set<string>, n: nat, i: nat)
    requires i < n <= |servers| && ShowsServer(v, servers[..n], claimed, i)
    ensures ShowsServer(v, servers, claimed, i)
  {
    hide Names;
  }

  lemma ServerShown(s: ToolState, servers: seq<Server>, claimed: set<string>, names: seq<string>)
    requires servers != [] && !IsBuiltin(servers[|servers| - 1]) && names != []
    requires var r := ServerViews(s, servers[..|servers| - 1], claimed);
             && names == Fresh(servers[|servers| - 1].tools, x => x != "", claimed + Elements(SourceNames(r)))
             && forall x :: x in SourceNames(r) <==>
                            x !in claimed && x != "" && x in Catalog(servers[..|servers| - 1], IsExternal)
    ensures ShowsServer(SourceBlock(s, servers[|servers| - 1].name, names)[0], servers, claimed, |servers| - 1)
  {
    ExternalBefore(servers, |servers| - 1);
    var v := SourceBlock(s, servers[|servers| - 1].name, names)[0];
    assert Names(v.rows) == names;
    hide Fresh, SourceNames, SourceBlock, Catalog, ServerViews, Names;
  }

  lemma ExternalBefore(servers: seq<Server>, n: nat)
    requires n <= |servers|
    ensures forall x :: x in Catalog(servers[..n], IsExternal) <==>
                        exists j :: 0 <= j < n && servers[j].kind != "builtin" && x in servers[j].tools
  {
    hide Catalog;
    forall x
      ensures x in Catalog(servers[..n], IsExternal) <==>
              exists j :: 0 <= j < n && servers[j].kind != "builtin" && x in servers[j].tools
    {
      if srv :| srv in servers[..n] && IsExternal(srv) && x in srv.tools {
        var j :| 0 <= j < n && servers[j] == srv;
      }
      if j :| 0 <= j < n && servers[j].kind != "builtin" && x in servers[j].tools {
        assert servers[j] in servers[..n] && IsExternal(servers[j]);
      }
    }
  }

  ghost predicate ShowsRelay(v: SourceView, relays: seq<RelayNode>, claimed: set<string>, i: nat)
    requires i < |relays|
  {
    && v.title == relays[i].instance && v.rows != []
    && forall x :: x in Names(v.rows) <==>
         x in RelayNames(relays[i]) && x !in claimed && forall j :: 0 <= j < i ==> x !in RelayNames(relays[j])
  }

  /** The relay blocks, likewise: in node order, a name in the block of the first node that offers it. */
  lemma {:induction false} FirstRelayShows(s: ToolState, relays: seq<RelayNode>, claimed: set<string>) returns (at: seq<nat>)
    ensures var views := RelayViews(s, relays, claimed);
            Positions(at, |views|, |relays|) && forall k :: 0 <= k < |at| ==> ShowsRelay(views[k], relays, claimed, at[k])
  {
    hide ShowsRelay, Fresh, SourceNames, SourceBlock, RelayNames;
    if relays == [] {
      at := [];
    } else {
      hide RelayViews;
      var n := |relays| - 1;
      at := FirstRelayShows(s, relays[..n], claimed);
      RelayShownNext(s, relays, claimed);
      var r, views := RelayViews(s, relays[..n], claimed), RelayViews(s, relays, claimed);
      forall k | 0 <= k < |r|
        ensures ShowsRelay(views[k], relays, claimed, at[k])
      {
        RelayShownLater(r[k], relays, claimed, n, at[k]);
      }
      if |views| > |r| {
        at := at + [n];
      }
    }
  }

  lemma RelayShownNext(s: ToolState, relays: seq<RelayNode>, claimed: set<string>)
    requires relays != []
    ensures var r, views := RelayViews(s, relays[..|relays| - 1], claimed), RelayViews(s, relays, claimed);
            && |r| <= |views| <= |r| + 1 && views[..|r|] == r
            && (|views| > |r| ==> ShowsRelay(views[|r|], relays, claimed, |relays| - 1))
  {
    var n := |relays| - 1;
    var r := RelayViews(s, relays[..n], claimed);
    var names := Fresh(RelayNames(relays[n]), x => true, claimed + Elements(SourceNames(r)));
    RelayDistinct(s, relays[..n], claimed);
    hide Fresh, SourceNames, ShowsRelay, RelayCatalog, RelayNames;
    if names != [] {
      RelayShown(s, relays, claimed, names);
    }
  }

  lemma RelayShownLater(v: SourceView, relays: seq<RelayNode>, claimed: set<string>, n: nat, i: nat)
    requires i < n <= |relays| && ShowsRelay(v, relays[..n], claimed, i)
    ensures ShowsRelay(v, relays, claimed, i)
  {
    hide Names, RelayNames;
  }

  lemma RelayShown(s: ToolState, relays: seq<RelayNode>, claimed: set<string>, names: seq<string>)
    requires relays != [] && names != []
    requires var r := RelayViews(s, relays[..|relays| - 1], claimed);
             && names == Fresh(RelayNames(relays[|relays| - 1]), x => true, claimed + Elements(SourceNames(r)))
             && forall x :: x in SourceNames(r) <==> x !in claimed && x in RelayCatalog(relays[..|relays| - 1])
    ensures ShowsRelay(SourceBlock(s, relays[|relays| - 1].instance, names)[0], relays, claimed, |relays| - 1)
  {
    RelaysBefore(relays, |relays| - 1);
    var v := SourceBlock(s, relays[|relays| - 1].instance, names)[0];
    assert Names(v.rows) == names;
    hide Fresh, SourceNames, SourceBlock, RelayCatalog, RelayViews, Names, RelayNames;
  }

  lemma RelaysBefore(relays: seq<RelayNode>, n: nat)
    requires n <= |relays|
    ensures forall x :: x in RelayCatalog(relays[..n]) <==> exists j :: 0 <= j < n && x in RelayNames(relays[j])
  {
    hide RelayCatalog, RelayNames;
    forall x
      ensures x in RelayCatalog(relays[..n]) <==> exists j :: 0 <= j < n && x in RelayNames(relays[j])
    {
      if node :| node in relays[..n] && x in RelayNames(node) {
        var j :| 0 <= j < n && relays[j] == node;
      }
      if j :| 0 <= j < n && x in RelayNames(relays[j]) {
        assert relays[j] in relays[..n];
      }
    }
  }

  ghost predicate ShowsGroup(v: GroupView, d: PickerData, groups: seq<ToolGroup>, i: nat)
    requires i < |groups|
  {
    && v.group == groups[i] && v.rows != []
    && forall x :: x in Names(v.rows) <==>
         x in GroupNames(d, groups[i], {}) && forall j :: 0 <= j < i ==> x !in GroupNames(d, groups[j], {})
  }

  /** The capability groups, likewise: in catalog order, a tool in the first group that would show it alone. */
  lemma {:induction false} FirstGroupShows(d: PickerData, groups: seq<ToolGroup>) returns (at: seq<nat>)
    ensures var views := BuiltinViews(d, groups);
            Positions(at, |views|, |groups|) && forall k :: 0 <= k < |at| ==> ShowsGroup(views[k], d, groups, at[k])
  {
    hide ShowsGroup, GroupNames, GroupPolicy, ToolRow;
    if groups == [] {
      at := [];
    } else {
      hide BuiltinViews;
      var n := |groups| - 1;
      at := FirstGroupShows(d, groups[..n]);
      GroupShownNext(d, groups);
      var r, views := BuiltinViews(d, groups[..n]), BuiltinViews(d, groups);
      forall k | 0 <= k < |r|
        ensures ShowsGroup(views[k], d, groups, at[k])
      {
        GroupShownLater(r[k], d, groups, n, at[k]);
      }
      if |views| > |r| {
        at := at + [n];
      }
    }
  }

  lemma GroupShownNext(d: PickerData, groups: seq<ToolGroup>)
    requires groups != []
    ensures var r, views := BuiltinViews(d, groups[..|groups| - 1]), BuiltinViews(d, groups);
            && |r| <= |views| <= |r| + 1 && views[..|r|] == r
            && (|views| > |r| ==> ShowsGroup(views[|r|], d, groups, |groups| - 1))
  {
    hide GroupNames, ShowsGroup, GroupPolicy, ToolRow, BuiltinNames;
    var names := GroupNames(d, groups[|groups| - 1], Elements(BuiltinNames(BuiltinViews(d, groups[..|groups| - 1]))));
    if names != [] {
      GroupShown(d, groups, names);
    }
  }

  lemma GroupShownLater(v: GroupView, d: PickerData, groups: seq<ToolGroup>, n: nat, i: nat)
    requires i < n <= |groups| && ShowsGroup(v, d, groups[..n], i)
    ensures ShowsGroup(v, d, groups, i)
  {
    hide Names, GroupNames;
  }

  lemma GroupShown(d: PickerData, groups: seq<ToolGroup>, names: seq<string>)
    requires groups != [] && names != []
    requires names == GroupNames(d, groups[|groups| - 1], Elements(BuiltinNames(BuiltinViews(d, groups[..|groups| - 1]))))
    ensures var views := BuiltinViews(d, groups); views != [] && ShowsGroup(views[|views| - 1], d, groups, |groups| - 1)
  {
    hide GroupNames, GroupPolicy, ToolRow;
    var n := |groups| - 1;
    var claimed := BuiltinNames(BuiltinViews(d, groups[..n]));
    BuiltinDistinct(d, groups[..n]);
    var v := BuiltinViews(d, groups)[|BuiltinViews(d, groups)| - 1];
    assert v.group == groups[n] && Names(v.rows) == names;
    hide BuiltinViews, BuiltinNames, Names;
    forall x
      ensures x in names <==> x in GroupNames(d, groups[n], {}) && forall j :: 0 <= j < n ==> x !in GroupNames(d, groups[j], {})
    {
      ClaimedOut(d, groups[n], Elements(claimed), x);
      GroupsBefore(d, groups, n, x);
    }
  }

  lemma GroupsBefore(d: PickerData, groups: seq<ToolGroup>, n: nat, x: string)
    requires n <= |groups|
    ensures (exists g :: g in groups[..n] && x in GroupNames(d, g, {})) <==>
            exists j :: 0 <= j < n && x in GroupNames(d, groups[j], {})
  {
    hide GroupNames;
    if g :| g in groups[..n] && x in GroupNames(d, g, {}) {
      var j :| 0 <= j < n && groups[j] == g;
    }
    if j :| 0 <= j < n && x in GroupNames(d, groups[j], {}) {
      assert groups[j] in groups[..n];
    }
  }

  /** A group's header shows the policy the server computed; only without one the stored entry of the group,
      and "inherit" when there is neither. */
  lemma {:induction false} HeaderShows(d: PickerData, groups: seq<ToolGroup>)
    ensures forall v | v in BuiltinViews(d, groups) ::
              var k := "@group:" + v.group.id;
              v.policy == if v.group.policy != "" then v.group.policy
                          else if k !in d.state.policies then "inherit"
                          else if d.state.policies[k].disabled then "deny"
                          else if d.state.policies[k].confirm then "ask"
                          else "allow"
  {
    hide GroupNames, ToolRow;
    if groups != [] {
      HeaderShows(d, groups[..|groups| - 1]);
    }
  }

  /** Rows keep the order in which their source first lists them. */
  lemma {:induction false} FreshInOrder(names: seq<string>, ok: string -> bool, claimed: set<string>)
    ensures FirstSeen(Fresh(names, ok, claimed), names)
  {
    if names != [] {
      var n := |names| - 1;
      assert names == names[..n] + [names[n]];
      FreshInOrder(names[..n], ok, claimed);
      FirstSeenNext(Fresh(names[..n], ok, claimed), names[..n], names[n]);
    }
  }

  /** In a capability group the members from the builtin catalog come first, in catalog order, then the
      native ones, in the group's own order. */
  lemma GroupRowOrder(d: PickerData, g: ToolGroup, claimed: set<string>) returns (split: nat)
    ensures var names := GroupNames(d, g, claimed);
            && split <= |names|
            && (forall i :: 0 <= i < |names| ==> (i < split <==> names[i] in Catalog(d.servers, IsBuiltin)))
            && FirstSeen(names[..split], Catalog(d.servers, IsBuiltin)) && FirstSeen(names[split..], g.tools)
  {
    hide External, Catalog, GroupNames, FirstSeen, IsDelegationTool;
    var catalog := Catalog(d.servers, IsBuiltin);
    var ok := (x: string) => !IsDelegationTool(x) && x !in External(d.servers, d.relays);
    var a := Fresh(catalog, x => x in g.tools, claimed);
    var b := Fresh(g.tools, ok, claimed + Elements(a));
    FreshInOrder(catalog, x => x in g.tools, claimed);
    FreshInOrder(g.tools, ok, claimed + Elements(a));
    split := |a|;
    var names := GroupNames(d, g, claimed);
    NamesSplit(d, g, claimed);
    assert names[..split] == a && names[split..] == b;
    forall i | 0 <= i < |names|
      ensures i < split <==> names[i] in catalog
    {
      if i < split {
        assert names[i] == a[i] && a[i] in a;
      } else {
        assert names[i] == b[i - split] && b[i - split] in b;
        assert names[i] in g.tools && names[i] !in a && names[i] !in claimed;
      }
    }
  }

  lemma NamesSplit(d: PickerData, g: ToolGroup, claimed: set<string>)
    ensures var a := Fresh(Catalog(d.servers, IsBuiltin), x => x in g.tools, claimed);
            GroupNames(d, g, claimed) ==
            a + Fresh(g.tools, x => !IsDelegationTool(x) && x !in External(d.servers, d.relays), claimed + Elements(a))
  {
    hide External, Catalog, Fresh;
  }

  /** The last block lists allowed tools before banned ones and those before the rest of the builtin catalog. */
  lemma OtherInOrder(d: PickerData, claimed: set<string>)
    ensures FirstSeen(OtherNames(d, claimed), d.state.tools + d.state.banned + Catalog(d.servers, IsBuiltin))
  {
    FreshInOrder(d.state.tools + d.state.banned + Catalog(d.servers, IsBuiltin), x => x != "" && !IsDelegationTool(x), claimed);
  }
}
