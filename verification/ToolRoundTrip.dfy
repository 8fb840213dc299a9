/**
 Rendering the Tools page and saving it untouched (agent.templ, agent.go).

 - which form the browser submits, on the page in blocks and on the plain one;
 - what the save does to the lists, the policies and the default;
 - what the agent is granted afterwards.
 */
module ToolRoundTrip {
  import opened Options
  import opened Slices
  import opened Text
  import opened Tools
  import opened ToolPicker

  // ----- the submitted form -----

  type Pair = (Field, string)

  /** A row as the template draws it: with a policy select or without. */
  datatype PageRow = PageRow(row: Row, withPolicy: bool)

  function Bool(b: bool): string {
    if b then "true" else "false"
  }

  /** The value of the Inherit option of a per-tool select and of a group's. */
  const TOOL_INHERIT := ""
  const GROUP_INHERIT := "inherit"

  /** What a browser submits for a select: the option marked selected, else the first one. */
  function SelectValue(v: string, first: string): string {
    if v == "allow" || v == "ask" || v == "deny" then v else first
  }

  /** A row submits its checked box, and its policy select only while the box is checked: the select
      of an unchecked row is disabled. */
  function RowPairs(r: PageRow): seq<Pair> {
    if !r.row.checked then []
    else if r.withPolicy then [(ToolField, r.row.name), (PolicyOf(r.row.name), SelectValue(r.row.policyValue, TOOL_INHERIT))]
    else [(ToolField, r.row.name)]
  }

  /** A capability group submits its baseline, its switch when on, and its policy unless it is "other". */
  function GroupPairs(v: GroupView): seq<Pair> {
    [(GroupWasEnabled(v.group.id), Bool(v.group.enabled))] +
    (if v.group.enabled then [(GroupEnabled(v.group.id), "on")] else []) +
    (if v.group.id != OTHER_GROUP then [(GroupPolicyOf(v.group.id), SelectValue(v.policy, GROUP_INHERIT))] else [])
  }

  function Concat<X(!new)>(xs: seq<X>, f: X -> seq<Pair>): (r: seq<Pair>)
    ensures forall p :: p in r <==> exists x :: x in xs && p in f(x)
  {
    if xs == [] then []
    else
      assert xs == [xs[0]] + xs[1..];
      f(xs[0]) + Concat(xs[1..], f)
  }

  function Flag(rows: seq<Row>, withPolicy: Row -> bool): (r: seq<PageRow>)
    ensures forall q :: q in r <==> q.row in rows && q.withPolicy == withPolicy(q.row)
  {
    if rows == [] then []
    else
      assert rows == [rows[0]] + rows[1..];
      [PageRow(rows[0], withPolicy(rows[0]))] + Flag(rows[1..], withPolicy)
  }

  function BuiltinRows(views: seq<GroupView>): (r: seq<Row>)
    ensures forall q :: q in r <==> exists v :: v in views && q in v.rows
  {
    if views == [] then []
    else
      assert views == [views[0]] + views[1..];
      views[0].rows + BuiltinRows(views[1..])
  }

  function SourceRows(views: seq<SourceView>): (r: seq<Row>)
    ensures forall q :: q in r <==> exists v :: v in views && q in v.rows
  {
    if views == [] then []
    else
      assert views == [views[0]] + views[1..];
      views[0].rows + SourceRows(views[1..])
  }

  /** The rows of the four blocks, in page order; relay rows carry no policy select and neither does a
      ban-managed row. */
  function BlockRows(v: PickerView): seq<PageRow> {
    Flag(BuiltinRows(v.builtin), (r: Row) => !r.noPolicy) +
    Flag(SourceRows(v.servers), r => true) +
    Flag(SourceRows(v.relays), r => false) +
    Flag(v.other, r => true)
  }

  /** The rows of the plain page: every server's tools, every relay's, then the allowed tools nobody
      offers. Nothing is claimed, so a tool may have several rows. */
  function PlainRows(d: PickerData): seq<PageRow> {
    Flag(Each(Catalog(d.servers, IsAny), n => SourceRow(d.state, n)), r => true) +
    Flag(Each(RelayCatalog(d.relays), n => SourceRow(d.state, n)), r => false) +
    Flag(Each(Unlisted(d), n => SourceRow(d.state, n)), r => true)
  }

  /** The page draws the four blocks if some capability group renders, else the plain rows. */
  function PageRows(d: PickerData): seq<PageRow> {
    if Builtin(d) != [] then BlockRows(View(d)) else PlainRows(d)
  }

  /** What the page holds: the default policy's select, the group headers and the rows. */
  datatype Page = Page(defaultPolicy: string, groups: seq<GroupView>, rows: seq<PageRow>)

  function PageOf(d: PickerData): Page {
    Page(d.state.defaultPolicy, Builtin(d), PageRows(d))
  }

  function PagePairs(p: Page): seq<Pair> {
    [(DefaultPolicyField, SelectValue(p.defaultPolicy, "allow"))] +
    Concat(p.groups, GroupPairs) +
    Concat(p.rows, RowPairs)
  }

  /** Parsing the submitted pairs into url.Values. */
  function Decode(pairs: seq<Pair>): Form {
    if pairs == [] then map[]
    else
      var n := |pairs| - 1;
      var form := Decode(pairs[..n]);
      form[pairs[n].0 := Values(form, pairs[n].0) + [pairs[n].1]]
  }

  function FormOf(p: Page): Form {
    Decode(PagePairs(p))
  }

  /** The form of the untouched page. */
  function Untouched(d: PickerData): Form {
    FormOf(PageOf(d))
  }

  lemma {:induction false} DecodeMeans(pairs: seq<Pair>, f: Field)
    ensures f in Decode(pairs) <==> exists p :: p in pairs && p.0 == f
    ensures forall x :: x in Values(Decode(pairs), f) <==> (f, x) in pairs
    ensures f in Decode(pairs) ==> Decode(pairs)[f] != []
  {
    if pairs != [] {
      var n := |pairs| - 1;
      assert pairs == pairs[..n] + [pairs[n]];
      DecodeMeans(pairs[..n], f);
      assert forall p :: p in pairs <==> p in pairs[..n] || p == pairs[n];
      if pairs[n].0 == f {
        assert pairs[n] in pairs;
      }
    }
  }

  lemma GetSubmitted(pairs: seq<Pair>, f: Field, v: string)
    requires (f, v) in pairs && forall x :: (f, x) in pairs ==> x == v
    ensures f in Decode(pairs) && Get(Decode(pairs), f) == v
  {
    DecodeMeans(pairs, f);
    assert (f, v) in pairs && (f, v).0 == f;
    var vs := Decode(pairs)[f];
    assert vs[0] in Values(Decode(pairs), f);
  }

  // ----- what the page submits -----

  ghost predicate DistinctGroups(groups: seq<ToolGroup>) {
    forall i, j :: 0 <= i < j < |groups| ==> groups[i].id != groups[j].id
  }

  lemma {:induction false} BuiltinViewGroups(d: PickerData, groups: seq<ToolGroup>)
    ensures forall v | v in BuiltinViews(d, groups) ::
              v.group in groups && v.policy == GroupPolicyFormValue(GroupPolicy(d.state, v.group)) &&
              forall q :: q in v.rows ==> q == ToolRow(d.state, q.name)
  {
    hide GroupPolicy, GroupNames, ToolRow;
    if groups != [] {
      var n := |groups| - 1;
      assert groups == groups[..n] + [groups[n]];
      BuiltinViewGroups(d, groups[..n]);
    }
  }

  /** The submitted fields, one kind at a time. */
  lemma SubmittedPairs(p: Page, x: Pair)
    ensures x in PagePairs(p) <==>
            x == (DefaultPolicyField, SelectValue(p.defaultPolicy, "allow")) ||
            (exists v :: v in p.groups && x in GroupPairs(v)) ||
            (exists q :: q in p.rows && x in RowPairs(q))
  {
    hide GroupPairs, RowPairs;
  }

  lemma SubmittedTool(p: Page, t: string)
    ensures t in Values(FormOf(p), ToolField) <==>
            exists q :: q in p.rows && q.row.checked && q.row.name == t
  {
    hide PagePairs, Decode, GroupPairs, RowPairs, SelectValue;
    DecodeMeans(PagePairs(p), ToolField);
    SubmittedPairs(p, (ToolField, t));
    ToolPairs(t);
  }

  lemma ToolPairs(t: string)
    ensures (forall v: GroupView :: (ToolField, t) !in GroupPairs(v)) &&
            forall q: PageRow :: (ToolField, t) in RowPairs(q) <==> q.row.checked && q.row.name == t
  {
    hide SelectValue;
  }

  predicate IsGroupField(f: Field) {
    f.GroupPolicyOf? || f.GroupWasEnabled? || f.GroupEnabled?
  }

  lemma GroupFieldFromHeader(p: Page, f: Field, x: string)
    requires IsGroupField(f)
    ensures (f, x) in PagePairs(p) <==> exists v :: v in p.groups && (f, x) in GroupPairs(v)
  {
    hide PagePairs, GroupPairs;
    SubmittedPairs(p, (f, x));
    forall q: PageRow
      ensures (f, x) !in RowPairs(q)
    {
    }
  }

  lemma GroupPairsName(v: GroupView, f: Field, x: string)
    requires (f, x) in GroupPairs(v)
    ensures IsGroupField(f) && f.id == v.group.id
    ensures f.GroupWasEnabled? ==> x == Bool(v.group.enabled)
    ensures f.GroupEnabled? ==> v.group.enabled
    ensures f.GroupPolicyOf? ==> v.group.id != OTHER_GROUP && x == SelectValue(v.policy, "inherit")
  {
  }

  lemma GroupPairsHas(v: GroupView)
    ensures (GroupWasEnabled(v.group.id), Bool(v.group.enabled)) in GroupPairs(v)
    ensures v.group.enabled ==> (GroupEnabled(v.group.id), "on") in GroupPairs(v)
    ensures v.group.id != OTHER_GROUP ==> (GroupPolicyOf(v.group.id), SelectValue(v.policy, "inherit")) in GroupPairs(v)
  {
    var a := [(GroupWasEnabled(v.group.id), Bool(v.group.enabled))];
    var b: seq<Pair> := if v.group.enabled then [(GroupEnabled(v.group.id), "on")] else [];
    assert a[0] in a + b;
  }

  /** A group has one header. */
  ghost predicate OneViewEach(p: Page) {
    forall v, w :: v in p.groups && w in p.groups && v.group.id == w.group.id ==> v.group == w.group && v.policy == w.policy
  }

  /** The header of one group is the only source of its fields. */
  lemma OneHeader(p: Page, v: GroupView, f: Field, x: string)
    requires OneViewEach(p) && v in p.groups
    requires IsGroupField(f) && f.id == v.group.id && (f, x) in PagePairs(p)
    ensures f.GroupWasEnabled? ==> x == Bool(v.group.enabled)
    ensures f.GroupEnabled? ==> v.group.enabled
    ensures f.GroupPolicyOf? ==> v.group.id != OTHER_GROUP && x == SelectValue(v.policy, "inherit")
  {
    hide PagePairs, GroupPairs;
    GroupFieldFromHeader(p, f, x);
    var w :| w in p.groups && (f, x) in GroupPairs(w);
    GroupPairsName(w, f, x);
  }

  /** A group control is submitted for each rendered group, once, with the group's own values. */
  lemma SubmittedGroup(p: Page, v: GroupView)
    requires OneViewEach(p) && v in p.groups
    ensures GroupWasEnabled(v.group.id) in FormOf(p)
    ensures Get(FormOf(p), GroupWasEnabled(v.group.id)) == Bool(v.group.enabled)
    ensures GroupEnabled(v.group.id) in FormOf(p) <==> v.group.enabled
    ensures GroupPolicyOf(v.group.id) in FormOf(p) <==> v.group.id != OTHER_GROUP
    ensures v.group.id != OTHER_GROUP ==>
              Get(FormOf(p), GroupPolicyOf(v.group.id)) == SelectValue(v.policy, "inherit")
  {
    hide PagePairs, GroupPairs, Decode, Get, SelectValue;
    var id := v.group.id;
    GroupPairsHas(v);
    forall f: Field, x | IsGroupField(f) && f.id == id && (f, x) in PagePairs(p)
      ensures f.GroupWasEnabled? ==> x == Bool(v.group.enabled)
      ensures f.GroupEnabled? ==> v.group.enabled
      ensures f.GroupPolicyOf? ==> id != OTHER_GROUP && x == SelectValue(v.policy, "inherit")
    {
      OneHeader(p, v, f, x);
    }
    GroupFieldFromHeader(p, GroupWasEnabled(id), Bool(v.group.enabled));
    GetSubmitted(PagePairs(p), GroupWasEnabled(id), Bool(v.group.enabled));
    GroupFieldFromHeader(p, GroupEnabled(id), "on");
    DecodeMeans(PagePairs(p), GroupEnabled(id));
    assert v.group.enabled ==> (GroupEnabled(id), "on").0 == GroupEnabled(id);
    DecodeMeans(PagePairs(p), GroupPolicyOf(id));
    if id != OTHER_GROUP {
      GroupFieldFromHeader(p, GroupPolicyOf(id), SelectValue(v.policy, "inherit"));
      GetSubmitted(PagePairs(p), GroupPolicyOf(id), SelectValue(v.policy, "inherit"));
    }
  }

  /** No control is submitted for a group that is not rendered. */
  lemma SubmittedOnlyRendered(p: Page, f: Field)
    requires IsGroupField(f) && f in FormOf(p)
    ensures exists v :: v in p.groups && v.group.id == f.id
  {
    hide PagePairs, GroupPairs, Decode;
    DecodeMeans(PagePairs(p), f);
    var x :| x in PagePairs(p) && x.0 == f;
    assert x == (f, x.1);
    GroupFieldFromHeader(p, f, x.1);
    var v :| v in p.groups && (f, x.1) in GroupPairs(v);
    GroupPairsName(v, f, x.1);
  }

  /** A per-tool select is submitted exactly for the checked rows that draw one, with the stored value. */
  lemma SubmittedPolicy(p: Page, m: Policies, k: string)
    requires RowsShow(p, m)
    ensures PolicyOf(k) in FormOf(p) <==> exists q :: q in p.rows && q.row.checked && q.withPolicy && q.row.name == k
    ensures PolicyOf(k) in FormOf(p) ==> Get(FormOf(p), PolicyOf(k)) == PolicyValue(m, k)
  {
    hide PagePairs, Decode, Get, PolicyValue, SelectValue, RowsShow;
    var f := PolicyOf(k);
    DecodeMeans(PagePairs(p), f);
    if q :| q in p.rows && q.row.checked && q.withPolicy && q.row.name == k {
      var x := (f, SelectValue(q.row.policyValue, TOOL_INHERIT));
      PolicyFromRow(p, m, k, x.1);
      assert x in PagePairs(p) && x.0 == f;
    }
    if f in FormOf(p) {
      var x :| x in PagePairs(p) && x.0 == f;
      assert x == (f, x.1);
      PolicyFromRow(p, m, k, x.1);
      forall y | (f, y) in PagePairs(p)
        ensures y == PolicyValue(m, k)
      {
        PolicyFromRow(p, m, k, y);
      }
      GetSubmitted(PagePairs(p), f, PolicyValue(m, k));
    }
  }

  /** Every row shows the stored policy of its tool. */
  ghost predicate RowsShow(p: Page, m: Policies) {
    forall q :: q in p.rows ==> q.row.policyValue == PolicyValue(m, q.row.name)
  }

  /** A policy pair comes from the checked row of its tool, and carries the stored policy. */
  lemma PolicyFromRow(p: Page, m: Policies, k: string, x: string)
    requires RowsShow(p, m)
    ensures (PolicyOf(k), x) in PagePairs(p) <==>
            exists q :: q in p.rows && q.row.checked && q.withPolicy && q.row.name == k &&
                        x == SelectValue(q.row.policyValue, TOOL_INHERIT)
    ensures (PolicyOf(k), x) in PagePairs(p) ==> x == PolicyValue(m, k)
  {
    hide PagePairs, PolicyValue, SelectValue, RowPairs, GroupPairs;
    SubmittedPairs(p, (PolicyOf(k), x));
    PolicyPairs(k, x);
    if q :| q in p.rows && (PolicyOf(k), x) in RowPairs(q) {
      PolicyValues(m, k);
    }
  }

  /** The page of d meets both. */
  lemma PageIsSound(d: PickerData)
    ensures RowsShow(PageOf(d), d.state.policies)
    ensures DistinctGroups(d.groups) ==> OneViewEach(PageOf(d))
  {
    hide PageRows, BuiltinViews, PolicyValue, GroupPolicy;
    forall q | q in PageRows(d)
      ensures q.row.policyValue == PolicyValue(d.state.policies, q.row.name)
    {
      PageRowShows(d, q);
    }
    BuiltinViewGroups(d, d.groups);
    if DistinctGroups(d.groups) {
      forall v, w | v in Builtin(d) && w in Builtin(d) && v.group.id == w.group.id
        ensures v.group == w.group
      {
      }
    }
  }

  lemma PolicyPairs(k: string, x: string)
    ensures (forall v: GroupView :: (PolicyOf(k), x) !in GroupPairs(v)) &&
            forall q: PageRow :: (PolicyOf(k), x) in RowPairs(q) <==>
              q.row.checked && q.withPolicy && q.row.name == k && x == SelectValue(q.row.policyValue, "")
  {
    hide SelectValue;
  }

  lemma PolicyValues(m: Policies, k: string)
    ensures SelectValue(PolicyValue(m, k), "") == PolicyValue(m, k)
    ensures SelectValue(GroupPolicyFormValue(PolicyValue(m, k)), "inherit") == GroupPolicyFormValue(PolicyValue(m, k))
  {
  }

  lemma {:induction false} ServerRowShows(s: ToolState, servers: seq<Server>, claimed: set<string>)
    ensures forall v, q :: v in ServerViews(s, servers, claimed) && q in v.rows ==> q == SourceRow(s, q.name)
  {
    if servers != [] {
      ServerRowShows(s, servers[..|servers| - 1], claimed);
    }
  }

  lemma {:induction false} RelayRowShows(s: ToolState, relays: seq<RelayNode>, claimed: set<string>)
    ensures forall v, q :: v in RelayViews(s, relays, claimed) && q in v.rows ==> q == SourceRow(s, q.name)
  {
    if relays != [] {
      RelayRowShows(s, relays[..|relays| - 1], claimed);
    }
  }

  /** The rows of the blocks, block by block. */
  lemma BlockRowsMean(v: PickerView, q: PageRow)
    ensures q in BlockRows(v) <==>
            (q.row in BuiltinRows(v.builtin) && q.withPolicy == !q.row.noPolicy) ||
            (q.row in SourceRows(v.servers) && q.withPolicy) ||
            (q.row in SourceRows(v.relays) && !q.withPolicy) ||
            (q.row in v.other && q.withPolicy)
  {
  }

  lemma BuiltinRowShows(d: PickerData, q: Row)
    requires d.groups != [] && q in BuiltinRows(Builtin(d))
    ensures q == ToolRow(d.state, q.name) && q.name in BuiltinNames(Builtin(d))
  {
    hide BuiltinViews, ServerViews, RelayViews, ToolRow, GroupPolicy;
    BuiltinViewGroups(d, d.groups);
  }

  lemma SourceRowShows(d: PickerData, q: Row)
    requires d.groups != []
    requires q in SourceRows(View(d).servers) || q in SourceRows(View(d).relays) || q in View(d).other
    ensures q == SourceRow(d.state, q.name) && q.name !in BuiltinNames(Builtin(d))
  {
    hide BuiltinViews, ServerViews, RelayViews, SourceRow, BuiltinNames, BuiltinRows, Catalog, RelayCatalog;
    var v := View(d);
    var c1 := Elements(BuiltinNames(v.builtin));
    var c2 := c1 + Elements(SourceNames(v.servers));
    ServerRowShows(d.state, d.servers, c1);
    RelayRowShows(d.state, d.relays, c2);
    ServerDistinct(d.state, d.servers, c1);
    RelayDistinct(d.state, d.relays, c2);
    if q in SourceRows(v.servers) {
      assert q.name in SourceNames(v.servers);
    } else if q in SourceRows(v.relays) {
      assert q.name in SourceNames(v.relays);
    } else {
      assert q.name in Names(v.other);
    }
  }

  /** What a rendered row says: the stored policy, and whether the tool is allowed; only a row of a
      capability group shows the always-injected builtin by its ban. */
  lemma PageRowShows(d: PickerData, q: PageRow)
    requires q in PageRows(d)
    ensures q.row.policyValue == PolicyValue(d.state.policies, q.row.name)
    ensures q.row == if q.row.name in BuiltinNames(Builtin(d))
                     then ToolRow(d.state, q.row.name) else SourceRow(d.state, q.row.name)
  {
    assert BuiltinNames([]) == [];
    hide BlockRows, PlainRows, View, PolicyValue, BuiltinNames, SourceNames, BuiltinRows, SourceRows;
    if Builtin(d) != [] {
      BlockRowsMean(View(d), q);
      ViewBuiltin(d);
      if q.row in BuiltinRows(Builtin(d)) {
        BuiltinRowShows(d, q.row);
      } else {
        SourceRowShows(d, q.row);
      }
    } else {
      PlainRowShows(d, q);
    }
  }

  lemma ViewBuiltin(d: PickerData)
    ensures View(d).builtin == Builtin(d) && (d.groups == [] ==> Builtin(d) == [])
  {
  }

  lemma RowsMean(names: seq<string>, s: ToolState, q: Row)
    ensures q in Each(names, n => SourceRow(s, n)) <==> q.name in names && q == SourceRow(s, q.name)
  {
    hide SourceRow;
    if q.name in names && q == SourceRow(s, q.name) {
      var i :| 0 <= i < |names| && names[i] == q.name;
      assert Each(names, n => SourceRow(s, n))[i] == q;
    }
  }

  /** The rows of the plain page, source by source. */
  lemma PlainRowShows(d: PickerData, q: PageRow)
    ensures q in PlainRows(d) <==>
            q.row == SourceRow(d.state, q.row.name) &&
            ((q.row.name in Catalog(d.servers, IsAny) && q.withPolicy) ||
             (q.row.name in RelayCatalog(d.relays) && !q.withPolicy) ||
             (q.row.name in Unlisted(d) && q.withPolicy))
  {
    hide Each, Catalog, RelayCatalog, Unlisted, SourceRow, Flag;
    RowsMean(Catalog(d.servers, IsAny), d.state, q.row);
    RowsMean(RelayCatalog(d.relays), d.state, q.row);
    RowsMean(Unlisted(d), d.state, q.row);
  }

  /** The plain page shows an ordinary tool exactly when it is allowed or some source offers it: unlike the
      blocks, it shows no tool for being banned. */
  lemma PlainPageShows(d: PickerData, t: string)
    requires Builtin(d) == [] && !IsDelegationTool(t)
    ensures (exists q :: q in PageRows(d) && q.row.name == t) <==>
            t in d.state.tools || t in Catalog(d.servers, IsAny) || t in RelayCatalog(d.relays)
  {
    hide View, Builtin, PlainRows, Catalog, RelayCatalog, SourceRow, Filter;
    FilterMeans(d.state.tools, x => x !in Catalog(d.servers, IsAny) + RelayCatalog(d.relays) && !IsDelegationTool(x));
    var policy, plain := PageRow(SourceRow(d.state, t), true), PageRow(SourceRow(d.state, t), false);
    PlainRowShows(d, policy);
    PlainRowShows(d, plain);
    if q :| q in PageRows(d) && q.row.name == t {
      PlainRowShows(d, q);
    }
  }

  /** Every allowed ordinary tool has a row on the page, whichever it is. */
  lemma ToolHasRow(d: PickerData, t: string) returns (q: PageRow)
    requires t in d.state.tools && t != "" && !IsDelegationTool(t)
    ensures q in PageRows(d) && q.row.name == t
  {
    hide View, Builtin, BlockRows, PlainRows;
    if Builtin(d) != [] {
      ViewBuiltin(d);
      RendersEveryTool(d, t);
      q := NameHasRow(View(d), t);
    } else {
      PlainPageShows(d, t);
      q :| q in PageRows(d) && q.row.name == t;
    }
  }

  /** Every rendered name has its row. */
  lemma NameHasRow(v: PickerView, t: string) returns (q: PageRow)
    requires t in AllNames(v)
    ensures q in BlockRows(v) && q.row.name == t
    ensures t in BuiltinNames(v.builtin) ==> q.withPolicy == !q.row.noPolicy
  {
    hide BlockRows;
    if t in BuiltinNames(v.builtin) {
      var w :| w in v.builtin && t in Names(w.rows);
      var r :| r in w.rows && r.name == t;
      q := PageRow(r, !r.noPolicy);
    } else if t in SourceNames(v.servers) {
      var w :| w in v.servers && t in Names(w.rows);
      var r :| r in w.rows && r.name == t;
      q := PageRow(r, true);
    } else if t in SourceNames(v.relays) {
      var w :| w in v.relays && t in Names(w.rows);
      var r :| r in w.rows && r.name == t;
      q := PageRow(r, false);
    } else {
      var r :| r in v.other && r.name == t;
      q := PageRow(r, true);
    }
    BlockRowsMean(v, q);
  }

  // ----- saving the untouched page -----

  ghost predicate UntouchedSave(d: PickerData, s': ToolState) {
    && DistinctGroups(d.groups)
    && Saves(d.groups, Untouched(d), d.state, s')
  }

  /** An untouched page toggles no group, so nothing fans out. */
  lemma NothingToggled(d: PickerData, g: ToolGroup)
    requires DistinctGroups(d.groups) && g in d.groups
    ensures Toggle(Untouched(d), g) == None
  {
    hide FormOf, BuiltinViews, PageRows;
    if GroupWasEnabled(g.id) in Untouched(d) {
      SubmittedOnlyRendered(PageOf(d), GroupWasEnabled(g.id));
      var v :| v in Builtin(d) && v.group.id == g.id;
      BuiltinViewGroups(d, d.groups);
      PageIsSound(d);
      SubmittedGroup(PageOf(d), v);
    }
  }

  lemma {:induction false} NoToggleDecides(groups: seq<ToolGroup>, form: Form, l: Lists, t: string)
    requires forall g :: g in groups ==> Toggle(form, g) == None
    ensures LastToggle(groups, form, t) == None
    ensures FanOut(groups, form, l) == l
  {
    if groups != [] {
      var n := |groups| - 1;
      assert groups[n] in groups;
      NoToggleDecides(groups[..n], form, l, t);
    }
  }

  lemma UntouchedIdle(d: PickerData, s': ToolState, t: string)
    requires UntouchedSave(d, s')
    ensures LastToggle(d.groups, Untouched(d), t) == None
    ensures s'.tools == Removed(Values(Untouched(d), ToolField), [SET_SESSION_TITLE])
    ensures s'.banned == Checked(Untouched(d), d.state.banned).banned
  {
    assert Checked(Untouched(d), d.state.banned).tools == Values(Untouched(d), ToolField);
    hide FormOf, Toggle, Checked, SavedPolicy, TrimSpace, Lookup, Removed;
    forall g | g in d.groups {
      NothingToggled(d, g);
    }
    NoToggleDecides(d.groups, Untouched(d), Checked(Untouched(d), d.state.banned), t);
  }

  /** An ordinary tool's box on the untouched page is checked exactly when it is allowed. */
  lemma UntouchedBox(d: PickerData, t: string)
    requires t != "" && !IsDelegationTool(t) && t != SET_SESSION_TITLE
    ensures t in Values(Untouched(d), ToolField) <==> t in d.state.tools
  {
    hide FormOf, View, Builtin, PageRows, PolicyValue;
    SubmittedTool(PageOf(d), t);
    forall q | q in PageRows(d) && q.row.name == t
      ensures q.row.checked == (t in d.state.tools)
    {
      PageRowShows(d, q);
    }
    if t in d.state.tools {
      var q := ToolHasRow(d, t);
    }
  }

  /** The always-injected builtin's box: the inverse of its ban inside a capability group, its
      whitelist entry anywhere else. */
  lemma UntouchedSessionBox(d: PickerData)
    ensures SET_SESSION_TITLE in Values(Untouched(d), ToolField) <==>
            if SET_SESSION_TITLE in BuiltinNames(Builtin(d))
            then SET_SESSION_TITLE !in d.state.banned else SET_SESSION_TITLE in d.state.tools
  {
    hide FormOf, View, Builtin, PageRows, PolicyValue, AllNames;
    var t := SET_SESSION_TITLE;
    SubmittedTool(PageOf(d), t);
    forall q | q in PageRows(d) && q.row.name == t
      ensures q.row.checked == if t in BuiltinNames(Builtin(d)) then t !in d.state.banned else t in d.state.tools
    {
      PageRowShows(d, q);
    }
    if t in BuiltinNames(Builtin(d)) {
      var q := BuiltinHasRow(d, t);
    } else if t in d.state.tools {
      var q := ToolHasRow(d, t);
    }
  }

  /** A name of a capability group has its row, with a policy select unless it is ban-managed. */
  lemma BuiltinHasRow(d: PickerData, t: string) returns (q: PageRow)
    requires t in BuiltinNames(Builtin(d))
    ensures q in PageRows(d) && q.row == ToolRow(d.state, t) && q.withPolicy == !q.row.noPolicy
  {
    assert BuiltinNames([]) == [];
    hide View, Builtin, BlockRows, BuiltinNames, ToolRow;
    ViewBuiltin(d);
    q := NameHasRow(View(d), t);
    PageRowShows(d, q);
  }

  /** Only boxes of stored names, or of a ban-managed row, are ever submitted checked. */
  lemma SubmittedIsStored(d: PickerData, t: string)
    requires t != SET_SESSION_TITLE && t in Values(Untouched(d), ToolField)
    ensures t in d.state.tools
  {
    hide FormOf, View, Builtin, PageRows, PolicyValue;
    SubmittedTool(PageOf(d), t);
    var q :| q in PageRows(d) && q.row.checked && q.row.name == t;
    PageRowShows(d, q);
  }

  ghost predicate Disjoint(s: ToolState) {
    forall t :: t in s.tools ==> t !in s.banned
  }

  /** Every ordinary tool keeps its place in the whitelist. */
  lemma UntouchedKeepsTools(d: PickerData, s': ToolState, t: string)
    requires UntouchedSave(d, s') && t != "" && !IsDelegationTool(t) && t != SET_SESSION_TITLE
    ensures t in s'.tools <==> t in d.state.tools
  {
    hide FormOf, Saves, Checked;
    UntouchedIdle(d, s', t);
    UntouchedBox(d, t);
  }

  ghost predicate SessionRendered(d: PickerData) {
    exists v :: v in Builtin(d) && v.group.id == SESSION_GROUP
  }

  /** The condition under which an untouched save cannot newly ban the always-injected builtin: the session
      group does not render, or its own row is in a capability group, or it is banned already, or a row
      elsewhere shows it as allowed. */
  ghost predicate SessionConsistent(d: PickerData) {
    SessionRendered(d) ==>
      SET_SESSION_TITLE in BuiltinNames(Builtin(d)) ||
      SET_SESSION_TITLE in d.state.banned || SET_SESSION_TITLE in d.state.tools
  }

  /** The banned list survives an untouched save, element for element, exactly when the session group is not
      shown, or shown with the row that carries its ban, or that tool is stored as banned or allowed anyway. */
  lemma UntouchedKeepsBans(d: PickerData, s': ToolState)
    requires UntouchedSave(d, s') && Disjoint(d.state)
    ensures s'.banned == d.state.banned <==> SessionConsistent(d)
  {
    hide FormOf, Saves, View, Removed, Appended;
    var form, t := Untouched(d), SET_SESSION_TITLE;
    UntouchedIdle(d, s', t);
    UntouchedSessionBox(d);
    SessionSubmitted(d);
    forall x | x in Values(form, ToolField)
      ensures x !in d.state.banned
    {
      if x != t {
        SubmittedIsStored(d, x);
      }
    }
    assert Removed(d.state.banned, Values(form, ToolField)) == d.state.banned;
  }

  lemma SessionSubmitted(d: PickerData)
    requires DistinctGroups(d.groups)
    ensures GroupWasEnabled(SESSION_GROUP) in Untouched(d) <==> SessionRendered(d)
  {
    hide FormOf, View, Builtin;
    if GroupWasEnabled(SESSION_GROUP) in Untouched(d) {
      SubmittedOnlyRendered(PageOf(d), GroupWasEnabled(SESSION_GROUP));
    }
    if SessionRendered(d) {
      var v :| v in Builtin(d) && v.group.id == SESSION_GROUP;
      PageIsSound(d);
      SubmittedGroup(PageOf(d), v);
    }
  }

  /** The catalog the server sends meets the condition: a session group that lists the builtin, which
      no external server or relay offers. */
  lemma SessionListed(d: PickerData, g: ToolGroup)
    requires g in d.groups && g.id == SESSION_GROUP && SET_SESSION_TITLE in g.tools
    requires SET_SESSION_TITLE !in External(d.servers, d.relays)
    ensures SessionConsistent(d)
  {
    hide BuiltinViews, External, ServerViews, RelayViews;
    BuiltinDistinct(d, d.groups);
    assert SET_SESSION_TITLE in GroupNames(d, g, {});
  }

  // ----- policies -----

  /** The server-computed group policy, where present, says what is stored. */
  ghost predicate PoliciesAgree(d: PickerData) {
    forall g :: g in d.groups && g.id != OTHER_GROUP ==>
      g.policy == "" || g.policy == PolicyValue(d.state.policies, GroupPolicyKey(g.id))
  }

  function ValueOf(e: Option<ToolPolicy>): string {
    match e
    case None => ""
    case Some(p) => if p.disabled then "deny" else if p.confirm then "ask" else "allow"
  }

  lemma ValueOfLookup(m: Policies, k: string)
    ensures ValueOf(Lookup(m, k)) == PolicyValue(m, k)
  {
  }

  lemma ResubmitKeepsValue(v: string, e: Option<ToolPolicy>)
    ensures v == ValueOf(e) || (v == "inherit" && ValueOf(e) == "") ==> ValueOf(Submitted(v, e)) == ValueOf(e)
  {
  }

  /** No select of the untouched page changes what any tool's or group's select would show. */
  lemma UntouchedKeepsPolicyValues(d: PickerData, s': ToolState, k: string)
    requires UntouchedSave(d, s') && PoliciesAgree(d)
    ensures PolicyValue(s'.policies, k) == PolicyValue(d.state.policies, k)
  {
    hide FormOf, View, Builtin, PolicyValue, Submitted, ValueOf, SelectValue, GroupPolicyFormValue, SavedLists;
    var form, m := Untouched(d), d.state.policies;
    var e := AfterToolSelects(form, m, k);
    assert ValueOf(e) == PolicyValue(m, k) by {
      PageIsSound(d);
      SubmittedPolicy(PageOf(d), d.state.policies, k);
      ValueOfLookup(m, k);
      if PolicyOf(k) in form {
        ResubmitKeepsValue(Get(form, PolicyOf(k)), Lookup(m, k));
      }
    }
    if GroupSelectWrites(d.groups, form, k) {
      var g :| g in d.groups && k == GroupPolicyKey(g.id) && GroupPolicyOf(g.id) in form;
      assert k[7..] == g.id;
      UntouchedGroupSelect(d, g);
      ResubmitKeepsValue(Get(form, GroupPolicyOf(g.id)), e);
    }
    ValueOfLookup(s'.policies, k);
  }

  lemma UntouchedGroupSelect(d: PickerData, g: ToolGroup)
    requires DistinctGroups(d.groups) && PoliciesAgree(d) && g in d.groups && GroupPolicyOf(g.id) in Untouched(d)
    ensures var v, stored := Get(Untouched(d), GroupPolicyOf(g.id)), PolicyValue(d.state.policies, GroupPolicyKey(g.id));
            v == stored || (v == "inherit" && stored == "")
  {
    hide FormOf, BuiltinViews, PolicyValue, PageRows;
    SubmittedOnlyRendered(PageOf(d), GroupPolicyOf(g.id));
    var w :| w in Builtin(d) && w.group.id == g.id;
    BuiltinViewGroups(d, d.groups);
    PageIsSound(d);
    SubmittedGroup(PageOf(d), w);
    PolicyValues(d.state.policies, GroupPolicyKey(g.id));
  }

  /** A stored entry the save would write the same way. */
  predicate Canonical(p: ToolPolicy) {
    p.message == "" && !(p.confirm && p.disabled)
  }

  /** Some select of the untouched page writes this key: a tool's own, or that of a group. */
  ghost predicate Rewritten(d: PickerData, k: string) {
    PolicyOf(k) in Untouched(d) || GroupSelectWrites(d.groups, Untouched(d), k)
  }

  /** The value survives but the record need not: a submitted select rewrites its entry, a tool's or a
      group's, so the approval message, and `confirm` beside `disabled`, come back only if there were none. */
  lemma UntouchedRewritesEntry(d: PickerData, s': ToolState, k: string)
    requires UntouchedSave(d, s') && k in d.state.policies
    requires GroupSelectWrites(d.groups, Untouched(d), k) ==> PoliciesAgree(d)
    ensures Lookup(s'.policies, k) == Lookup(d.state.policies, k) <==> (Rewritten(d, k) ==> Canonical(d.state.policies[k]))
  {
    hide FormOf, View, Builtin, SavedLists, TrimSpace, PageRows, PoliciesAgree, Submitted, Get;
    var form, m := Untouched(d), d.state.policies;
    var e := AfterToolSelects(form, m, k);
    assert Lookup(s'.policies, k) == SavedPolicy(d.groups, form, m, k);
    PageIsSound(d);
    SubmittedPolicy(PageOf(d), d.state.policies, k);
    RewriteIsCanonical(m[k]);
    if GroupSelectWrites(d.groups, form, k) {
      var g :| g in d.groups && k == GroupPolicyKey(g.id) && GroupPolicyOf(g.id) in form;
      assert k[7..] == g.id;
      UntouchedGroupSelect(d, g);
      RewriteAgain(PolicyValue(m, k), Lookup(m, k));
    }
  }

  /** Writing an entry's own value keeps it exactly if it is canonical. */
  lemma RewriteIsCanonical(p: ToolPolicy)
    ensures var v := if p.disabled then "deny" else if p.confirm then "ask" else "allow";
            Submitted(v, Some(p)) == Some(p) <==> Canonical(p)
  {
  }

  lemma RewriteAgain(v: string, e: Option<ToolPolicy>)
    ensures Submitted(v, Submitted(v, e)) == Submitted(v, e)
  {
  }

  // ----- what is granted -----

  predicate Matches(p: string, t: string, glob: Glob) {
    p == t || (IsGlob(p) && glob(p, t))
  }

  /** A ban on t that is not stored as allowed too: the untouched page does not lift it. */
  predicate StillBanned(s: ToolState, t: string, glob: Glob) {
    exists p :: p in s.banned && p !in s.tools && Matches(p, t, glob)
  }

  /** The page shows the four options "allow", "ask", "deny" and none; any other stored default is replaced
      by the first. That matters exactly for a "deny" in another spelling. */
  predicate DefaultKeepsDeny(v: string) {
    v == "deny" || !EqualFoldDeny(TrimSpace(v))
  }

  predicate StillBlocked(groups: seq<ToolGroup>, s: ToolState, t: string) {
    BlockedByPolicy(groups, s, t) && (FallsToDefault(groups, s, t) ==> DefaultKeepsDeny(s.defaultPolicy))
  }

  /** What opening the Tools page and saving it untouched does to an ordinary tool, whatever is stored and
      whatever globs: it loses no grant, and gains one exactly if it is on the whitelist and every ban on it
      is also stored as allowed and any deny on it is a misspelled default. */
  lemma UntouchedGrants(d: PickerData, s': ToolState, t: string, glob: Glob)
    requires UntouchedSave(d, s') && PoliciesAgree(d)
    requires t != "" && !IsDelegationTool(t) && t != SET_SESSION_TITLE
    ensures Granted(d.groups, s', t, glob) <==>
            WhitelistMatches(d.state.tools, t, glob) && !StillBanned(d.state, t, glob) && !StillBlocked(d.groups, d.state, t)
    ensures forall p | p in d.state.tools && (p == "*" || p == t || (('*' in p || '?' in p || '[' in p) && glob(p, t))) ::
              Granted(d.groups, s', t, glob) <==>
              (forall b | b in d.state.banned && b !in d.state.tools ::
                 b != t && (('*' in b || '?' in b || '[' in b) ==> !glob(b, t))) &&
              !StillBlocked(d.groups, d.state, t)
    ensures Granted(d.groups, d.state, t, glob) ==> Granted(d.groups, s', t, glob)
  {
    hide FormOf, UntouchedSave, View, PolicyValue, TrimSpace, IsGlob, BlockedByPolicy, FallsToDefault, DefaultKeepsDeny;
    UntouchedWhitelist(d, s', t, glob);
    UntouchedBanned(d, s', t, glob);
    UntouchedBlocked(d, s', t);
    StillBannedMeans(d.state, t, glob);
    forall p | p in d.state.tools && (p == "*" || p == t || (('*' in p || '?' in p || '[' in p) && glob(p, t)))
      ensures WhitelistMatches(d.state.tools, t, glob)
    {
      GlobMeans(p);
    }
  }

  lemma GlobMeans(p: string)
    ensures IsGlob(p) <==> '*' in p || '?' in p || '[' in p
  {
  }

  lemma StillBannedMeans(s: ToolState, t: string, glob: Glob)
    ensures StillBanned(s, t, glob) <==>
            !(forall b | b in s.banned && b !in s.tools :: b != t && (('*' in b || '?' in b || '[' in b) ==> !glob(b, t)))
  {
  }

  /** So with disjoint lists and a default policy the page can spell, it changes nothing an agent may call. */
  lemma UntouchedKeepsGrants(d: PickerData, s': ToolState, t: string, glob: Glob)
    requires UntouchedSave(d, s') && PoliciesAgree(d)
    requires t != "" && !IsDelegationTool(t) && t != SET_SESSION_TITLE
    requires Disjoint(d.state) && DefaultKeepsDeny(d.state.defaultPolicy)
    ensures Granted(d.groups, s', t, glob) == Granted(d.groups, d.state, t, glob)
  {
    hide FormOf, UntouchedSave, View, PolicyValue, TrimSpace, IsGlob, BlockedByPolicy, FallsToDefault, DefaultKeepsDeny;
    UntouchedGrants(d, s', t, glob);
    assert StillBanned(d.state, t, glob) <==> BannedMatches(d.state.banned, t, glob) by {
      hide PoliciesAgree;
    }
  }

  lemma UntouchedBanned(d: PickerData, s': ToolState, t: string, glob: Glob)
    requires UntouchedSave(d, s')
    requires t != "" && !IsDelegationTool(t) && t != SET_SESSION_TITLE
    ensures BannedMatches(s'.banned, t, glob) <==> StillBanned(d.state, t, glob)
  {
    hide FormOf, Saves, View, IsGlob, IsDelegationTool, Checked;
    forall p: string | Matches(p, t, glob)
      ensures p in s'.banned <==> p in d.state.banned && p !in d.state.tools
    {
      GlobIsOrdinary(p);
      UntouchedIdle(d, s', p);
      UntouchedBox(d, p);
      SaveMembership(d.groups, Untouched(d), d.state, s', p);
    }
  }

  lemma UntouchedWhitelist(d: PickerData, s': ToolState, t: string, glob: Glob)
    requires UntouchedSave(d, s')
    requires t != "" && !IsDelegationTool(t) && t != SET_SESSION_TITLE
    ensures WhitelistMatches(s'.tools, t, glob) == WhitelistMatches(d.state.tools, t, glob)
  {
    hide FormOf, Saves, View, IsGlob, IsDelegationTool, UntouchedSave;
    forall p: string | p == "*" || p == t || (IsGlob(p) && glob(p, t))
      ensures p in s'.tools <==> p in d.state.tools
    {
      GlobIsOrdinary(p);
      UntouchedKeepsTools(d, s', p);
    }
  }

  lemma GlobIsOrdinary(p: string)
    ensures p == "*" || IsGlob(p) ==> p != "" && !IsDelegationTool(p) && p != SET_SESSION_TITLE
  {
  }

  lemma UntouchedBlocked(d: PickerData, s': ToolState, t: string)
    requires UntouchedSave(d, s') && PoliciesAgree(d)
    ensures BlockedByPolicy(d.groups, s', t) <==> StillBlocked(d.groups, d.state, t)
  {
    hide FormOf, View, Builtin, TrimSpace, SavedLists, SavedPolicy;
    forall k
      ensures k in s'.policies <==> k in d.state.policies
      ensures k in s'.policies ==> s'.policies[k].disabled == d.state.policies[k].disabled
    {
      UntouchedKeepsPolicyValues(d, s', k);
    }
    UntouchedDefault(d, s');
  }

  /** The default policy survives if the page can show it, except that an unset one becomes "allow"; what it
      blocks changes exactly for a "deny" in another spelling. */
  lemma UntouchedDefault(d: PickerData, s': ToolState)
    requires UntouchedSave(d, s')
    ensures s'.defaultPolicy == SelectValue(d.state.defaultPolicy, "allow")
    ensures EqualFoldDeny(TrimSpace(s'.defaultPolicy)) <==>
            EqualFoldDeny(TrimSpace(d.state.defaultPolicy)) && DefaultKeepsDeny(d.state.defaultPolicy)
  {
    hide View, Builtin, SavedLists, SavedPolicy, FormOf, Get, TrimSpace;
    var v := SelectValue(d.state.defaultPolicy, "allow");
    SubmittedDefault(PageOf(d));
    TrimTrimmed(v);
  }

  lemma SubmittedDefault(p: Page)
    ensures Get(FormOf(p), DefaultPolicyField) == SelectValue(p.defaultPolicy, "allow")
  {
    hide PagePairs, Decode, Get, SelectValue;
    var v := SelectValue(p.defaultPolicy, "allow");
    forall x
      ensures (DefaultPolicyField, x) in PagePairs(p) <==> x == v
    {
      SubmittedPairs(p, (DefaultPolicyField, x));
    }
    GetSubmitted(PagePairs(p), DefaultPolicyField, v);
  }

  // ----- two limits of the page -----

  /** A user sets a select of the page to another option. */
  function Choose(pairs: seq<Pair>, f: Field, v: string): (r: seq<Pair>)
    ensures |r| == |pairs| && forall i :: 0 <= i < |r| ==> r[i] == if pairs[i].0 == f then (f, v) else pairs[i]
  {
    seq(|pairs|, i requires 0 <= i < |pairs| => if pairs[i].0 == f then (f, v) else pairs[i])
  }

  /** The form of the page with the policy select of t set to its Inherit option. */
  function InheritChosen(d: PickerData, t: string): Form {
    Decode(Choose(PagePairs(PageOf(d)), PolicyOf(t), TOOL_INHERIT))
  }

  lemma ChooseMeans(pairs: seq<Pair>, f: Field, v: string, g: Field)
    ensures g in Decode(Choose(pairs, f, v)) <==> g in Decode(pairs)
    ensures f in Decode(pairs) ==> Get(Decode(Choose(pairs, f, v)), f) == v
  {
    hide Decode, Get;
    var r := Choose(pairs, f, v);
    DecodeMeans(pairs, g);
    DecodeMeans(r, g);
    DecodeMeans(pairs, f);
    forall i | 0 <= i < |pairs|
      ensures r[i].0 == pairs[i].0 && (r[i].0 == f ==> r[i].1 == v)
    {
    }
    if p :| p in r && p.0 == g {
      var i :| 0 <= i < |r| && r[i] == p;
      assert pairs[i] in pairs && pairs[i].0 == g;
    }
    if p :| p in pairs && p.0 == g {
      var i :| 0 <= i < |pairs| && pairs[i] == p;
      assert r[i] in r && r[i].0 == g;
    }
    if f in Decode(pairs) {
      var p :| p in pairs && p.0 == f;
      var i :| 0 <= i < |pairs| && pairs[i] == p;
      assert r[i] == (f, v) && r[i] in r;
      GetSubmitted(r, f, v);
    }
  }

  /** Tool names are validated identifiers: none begins like a group's key. */
  predicate IsToolName(t: string) {
    !("@group:" <= t)
  }

  /** The Inherit option of a tool's select does nothing: choosing it for any checked row of any page and
      saving leaves the stored override in place, so it is gone afterwards only if there was none. */
  lemma InheritOptionKeepsOverride(d: PickerData, t: string, s': ToolState)
    requires PolicyOf(t) in Untouched(d) && IsToolName(t)
    requires Saves(d.groups, InheritChosen(d, t), d.state, s')
    ensures Lookup(s'.policies, t) == Lookup(d.state.policies, t)
    ensures t !in s'.policies <==> t !in d.state.policies
  {
    hide SavedLists, Get, TrimSpace, Choose, Decode, PagePairs;
    var form := InheritChosen(d, t);
    ChooseMeans(PagePairs(PageOf(d)), PolicyOf(t), TOOL_INHERIT, PolicyOf(t));
    assert !GroupSelectWrites(d.groups, form, t) by {
      assert forall id :: "@group:" <= GroupPolicyKey(id);
    }
    SelectReads(d.groups, form, d.state, s', t);
  }

  /** What the save reads from a tool's select: "" keeps the entry, only "inherit" deletes it. */
  lemma SelectReads(groups: seq<ToolGroup>, form: Form, s: ToolState, s': ToolState, t: string)
    requires Saves(groups, form, s, s')
    requires PolicyOf(t) in form && !GroupSelectWrites(groups, form, t)
    ensures Get(form, PolicyOf(t)) == "" ==> Lookup(s'.policies, t) == Lookup(s.policies, t)
    ensures Get(form, PolicyOf(t)) == "inherit" ==> Lookup(s'.policies, t) == None
  {
    hide SavedLists, GroupSelectWrites, Get, TrimSpace;
    assert Lookup(s'.policies, t) == SavedPolicy(groups, form, s.policies, t);
  }

  /** Disjoint lists are needed: an ordinary tool stored on both lists loses its ban to an untouched save. */
  lemma UntouchedLiftsConflictingBan(d: PickerData, s': ToolState, t: string)
    requires UntouchedSave(d, s') && t != "" && !IsDelegationTool(t) && t != SET_SESSION_TITLE
    requires t in d.state.tools && t in d.state.banned
    ensures t in s'.tools && t !in s'.banned
  {
    hide FormOf, Checked;
    UntouchedIdle(d, s', t);
    UntouchedBox(d, t);
    SaveMembership(d.groups, Untouched(d), d.state, s', t);
  }

  // ----- pages on which it goes wrong -----

  /** A page of one capability group, without servers or relays. */
  function OneGroup(s: ToolState, g: ToolGroup): PickerData {
    PickerData(s, [g], [], [])
  }

  lemma OneGroupShows(d: PickerData, g: ToolGroup, t: string)
    requires d.groups == [g] && d.servers == [] && d.relays == []
    requires t in g.tools && !IsDelegationTool(t)
    ensures t in BuiltinNames(Builtin(d))
    ensures forall x :: x in BuiltinNames(Builtin(d)) ==> x in g.tools
  {
    hide View, BuiltinViews, BuiltinNames, GroupNames;
    BuiltinDistinct(d, d.groups);
    OneGroupNames(d, g, t);
    forall x | x in BuiltinNames(Builtin(d))
      ensures x in g.tools
    {
      OneGroupNames(d, g, x);
    }
  }

  lemma OneGroupNames(d: PickerData, g: ToolGroup, x: string)
    requires d.servers == [] && d.relays == []
    ensures x in GroupNames(d, g, {}) <==> x in g.tools && !IsDelegationTool(x)
  {
    hide External, GroupNames;
    NoSources(d);
  }

  lemma OneGroupView(d: PickerData, g: ToolGroup, t: string)
    requires d.groups == [g] && t in BuiltinNames(Builtin(d))
    ensures exists v :: v in Builtin(d) && v.group == g
  {
    hide View, BuiltinViews, ToolRow, GroupPolicy;
    BuiltinViewGroups(d, d.groups);
    var v :| v in Builtin(d) && t in Names(v.rows);
  }

  lemma NoSources(d: PickerData)
    requires d.servers == [] && d.relays == []
    ensures External(d.servers, d.relays) == {} && Catalog(d.servers, IsBuiltin) == []
  {
  }

  /** A checked row of an ordinary tool in a capability group submits its select. */
  lemma CheckedRowSubmits(d: PickerData, t: string)
    requires t in BuiltinNames(Builtin(d)) && t in d.state.tools && t != SET_SESSION_TITLE
    ensures PolicyOf(t) in Untouched(d)
  {
    hide View, Builtin, PageRows, FormOf, PolicyValue;
    var q := BuiltinHasRow(d, t);
    PageIsSound(d);
    SubmittedPolicy(PageOf(d), d.state.policies, t);
  }

  /** The session group without the set_session_title row: saving the untouched page bans that tool. */
  lemma MissingRowBans() returns (d: PickerData, s': ToolState)
    ensures UntouchedSave(d, s') && d.state.tools == [] && d.state.banned == []
    ensures SET_SESSION_TITLE in s'.banned
  {
    hide View, Builtin, Untouched, Saves;
    var g := ToolGroup(SESSION_GROUP, "", true, ["x"]);
    d := OneGroup(ToolState([], [], map[], ""), g);
    OneGroupShows(d, g, "x");
    OneGroupView(d, g, "x");
    s' := SaveExists(d.groups, Untouched(d), d.state);
    SessionSubmitted(d);
    UntouchedSessionBox(d);
    UntouchedIdle(d, s', SET_SESSION_TITLE);
    SaveBanManaged(d.groups, Untouched(d), d.state, s');
  }

  /** A page of the checked tool "shell" with a stored policy. */
  function ShellPage(p: ToolPolicy): PickerData {
    OneGroup(ToolState(["shell"], [], map["shell" := p], "allow"), ToolGroup("system", "", true, ["shell"]))
  }

  lemma ShellSubmits(p: ToolPolicy)
    ensures DistinctGroups(ShellPage(p).groups) && PolicyOf("shell") in Untouched(ShellPage(p)) && IsToolName("shell")
  {
    hide FormOf, View, Builtin;
    OneGroupShows(ShellPage(p), ShellPage(p).groups[0], "shell");
    CheckedRowSubmits(ShellPage(p), "shell");
    assert "shell"[0] != '@';
  }

  /** A default policy stored as "Deny", which the resolver reads as a deny and the page cannot show: saving
      the untouched page grants what it denied. */
  lemma MisspelledDenyGrants(glob: Glob) returns (d: PickerData, s': ToolState)
    ensures UntouchedSave(d, s') && d.state.defaultPolicy == "Deny" && s'.defaultPolicy == "allow"
    ensures !Granted(d.groups, d.state, "shell", glob) && Granted(d.groups, s', "shell", glob)
  {
    hide FormOf, View, Saves, TrimSpace, BlockedByPolicy, FallsToDefault, DefaultKeepsDeny;
    d := OneGroup(ToolState(["shell"], [], map[], "Deny"), ToolGroup("system", "", true, ["shell"]));
    s' := SaveExists(d.groups, Untouched(d), d.state);
    UntouchedDefault(d, s');
    UntouchedGrants(d, s', "shell", glob);
    OnlyTheDefault(d, "shell");
    assert "shell" in d.state.tools;
  }

  lemma OnlyTheDefault(d: PickerData, t: string)
    requires d.state.policies == map[] && d.state.defaultPolicy == "Deny"
    ensures FallsToDefault(d.groups, d.state, t) && BlockedByPolicy(d.groups, d.state, t)
    ensures !DefaultKeepsDeny(d.state.defaultPolicy)
  {
    hide TrimSpace;
    TrimTrimmed("Deny");
  }

  /** Its approval message is lost to an untouched save. */
  lemma MessageIsLost() returns (d: PickerData, s': ToolState)
    ensures UntouchedSave(d, s') && d.state.policies == map["shell" := ToolPolicy(true, "why?", false)]
    ensures Lookup(s'.policies, "shell") == Some(ToolPolicy(true, "", false))
  {
    hide FormOf, View, Builtin, PageRows, SavedLists, TrimSpace, Get;
    var p := ToolPolicy(true, "why?", false);
    d := ShellPage(p);
    ShellSubmits(p);
    s' := SaveExists(d.groups, Untouched(d), d.state);
    PageIsSound(d);
    SubmittedPolicy(PageOf(d), d.state.policies, "shell");
    assert !GroupSelectWrites(d.groups, Untouched(d), "shell") by {
      assert forall id :: "@group:" <= GroupPolicyKey(id);
    }
    assert Lookup(s'.policies, "shell") == SavedPolicy(d.groups, Untouched(d), d.state.policies, "shell");
  }

  /** Its "deny" outlives the choice of Inherit. */
  lemma DenyOutlivesInherit() returns (d: PickerData, s': ToolState)
    ensures PolicyOf("shell") in Untouched(d) && Saves(d.groups, InheritChosen(d, "shell"), d.state, s')
    ensures d.state.policies == map["shell" := ToolPolicy(false, "", true)]
    ensures Lookup(s'.policies, "shell") == Some(ToolPolicy(false, "", true))
  {
    hide FormOf, InheritChosen, View, Saves;
    var p := ToolPolicy(false, "", true);
    d := ShellPage(p);
    ShellSubmits(p);
    s' := SaveExists(d.groups, InheritChosen(d, "shell"), d.state);
    InheritOptionKeepsOverride(d, "shell", s');
  }
}
