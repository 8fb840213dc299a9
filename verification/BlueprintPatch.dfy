/**
 What a blueprint diff says: read as a patch on the base version it rebuilds the target version on
 every compared field, its rows are unchanged exactly where the versions agree, and swapping the
 versions mirrors it.
 */
module BlueprintPatch {
  import opened Options
  import opened Order
  import opened Slices
  import opened BlueprintDiff

  // ----- the compared fields of a version -----

  datatype PropertyView = PropertyView(title: string, typ: string, description: string, required: bool)
  datatype TypeView = TypeView(caption: string, description: string, properties: map<string, PropertyView>)
  datatype RelationshipView = RelationshipView(caption: string, description: string, sourceType: string, targetType: string)
  datatype AgentView = AgentView(description: string, model: string, systemPrompt: string, visibility: string,
                                 tools: set<string>, bannedTools: set<string>, skills: set<string>)
  datatype View = View(version: string, types: map<string, TypeView>, relationships: map<string, RelationshipView>,
                       agents: map<string, AgentView>)

  function ViewProperty(p: Property): PropertyView {
    PropertyView(p.title, p.typ, p.description, p.required)
  }

  function ViewProperties(ps: seq<Property>): map<string, PropertyView> {
    var m := Index(ps, PropertyName);
    map k | k in m :: ViewProperty(m[k])
  }

  function ViewType(t: ObjectType): TypeView {
    TypeView(t.caption, t.description, ViewProperties(t.properties))
  }

  function ViewRelationship(r: Relationship): RelationshipView {
    RelationshipView(r.caption, r.description, r.sourceType, r.targetType)
  }

  function ViewAgent(a: Agent): AgentView {
    AgentView(a.description, a.model, a.systemPrompt, a.visibility, Elements(a.tools), Elements(a.bannedTools), Elements(a.skills))
  }

  function ViewOf(d: Detail): View {
    View(d.version, TypeViews(Index(d.objectTypes, TypeName)),
         RelationshipViews(Index(d.relationshipTypes, RelationshipName)), AgentViews(Index(d.agents, AgentName)))
  }

  function TypeViews(m: map<string, ObjectType>): (r: map<string, TypeView>)
    ensures r.Keys == m.Keys
  {
    map k | k in m :: ViewType(m[k])
  }

  function RelationshipViews(m: map<string, Relationship>): (r: map<string, RelationshipView>)
    ensures r.Keys == m.Keys
  {
    map k | k in m :: ViewRelationship(m[k])
  }

  function AgentViews(m: map<string, Agent>): (r: map<string, AgentView>)
    ensures r.Keys == m.Keys
  {
    map k | k in m :: ViewAgent(m[k])
  }

  // ----- reading rows as a patch -----

  function PatchText(f: FieldDiff, before: string): string {
    if f.change == NoChange then before else f.after
  }

  /** A changed flag is flipped; of an added property the row says only that the flag is new. */
  function PatchFlag(f: FieldDiff, before: bool): bool {
    match f.change
    case NoChange => before
    case Changed => !before
    case Added => false
    case Removed => false
  }

  function PatchChips(c: ChipDiff, before: set<string>): set<string> {
    (before - Elements(c.removed)) + Elements(c.added)
  }

  const NO_PROPERTY := PropertyView("", "", "", false)
  const NO_TYPE := TypeView("", "", map[])
  const NO_RELATIONSHIP := RelationshipView("", "", "", "")
  const NO_AGENT := AgentView("", "", "", "", {}, {}, {})

  /** Applying the rows of a section to the base table, entry by entry. */
  function PatchRows<D, V>(rows: seq<D>, name: D -> string, patch: (D, Option<V>) -> Option<V>, base: map<string, V>): map<string, V> {
    if rows == [] then map[]
    else
      var r := rows[|rows| - 1];
      var m := PatchRows(rows[..|rows| - 1], name, patch, base);
      var e := patch(r, At(base, name(r)));
      if e.Some? then m[name(r) := e.value] else m
  }

  function PropertyRowName(p: PropertyDiff): string { p.name }
  function TypeRowName(o: ObjectTypeDiff): string { o.name }
  function RelationshipRowName(r: RelationshipDiff): string { r.name }
  function AgentRowName(a: AgentDiff): string { a.name }

  /** The patched entry of one row: nothing for a removed one, the base entry itself for an unchanged
      one, and otherwise the base entry (or an empty one) with the row's fields applied. */
  function PatchProperty(p: PropertyDiff, base: Option<PropertyView>): Option<PropertyView> {
    if p.change == Removed then None
    else if p.change == NoChange then base
    else
      var b := Or(base, NO_PROPERTY);
      Some(PropertyView(PatchText(p.title, b.title), PatchText(p.typ, b.typ),
                        PatchText(p.description, b.description), PatchFlag(p.required, b.required)))
  }

  function PatchType(o: ObjectTypeDiff, base: Option<TypeView>): Option<TypeView> {
    if o.change == Removed then None
    else if o.change == NoChange then base
    else
      var b := Or(base, NO_TYPE);
      Some(TypeView(PatchText(o.caption, b.caption), PatchText(o.description, b.description),
                    PatchRows(o.properties, PropertyRowName, PatchProperty, b.properties)))
  }

  function PatchRelationship(r: RelationshipDiff, base: Option<RelationshipView>): Option<RelationshipView> {
    if r.change == Removed then None
    else if r.change == NoChange then base
    else
      var b := Or(base, NO_RELATIONSHIP);
      Some(RelationshipView(PatchText(r.caption, b.caption), PatchText(r.description, b.description),
                            PatchText(r.sourceType, b.sourceType), PatchText(r.targetType, b.targetType)))
  }

  function PatchAgent(a: AgentDiff, base: Option<AgentView>): Option<AgentView> {
    if a.change == Removed then None
    else if a.change == NoChange then base
    else
      var b := Or(base, NO_AGENT);
      Some(AgentView(PatchText(a.description, b.description), PatchText(a.model, b.model),
                     PatchText(a.systemPrompt, b.systemPrompt), PatchText(a.visibility, b.visibility),
                     PatchChips(a.tools, b.tools), PatchChips(a.bannedTools, b.bannedTools), PatchChips(a.skills, b.skills)))
  }

  function Patch(d: Diff, base: View): View {
    View(d.targetVersion,
         PatchRows(d.objectTypes, TypeRowName, PatchType, base.types),
         PatchRows(d.relationshipTypes, RelationshipRowName, PatchRelationship, base.relationships),
         PatchRows(d.agents, AgentRowName, PatchAgent, base.agents))
  }

  // ----- what the patch can rebuild -----

  /** The target as seen from the base: of a property the base does not have, the diff cannot tell
      whether it is required. */
  function SeenProperties(base: map<string, PropertyView>, target: map<string, PropertyView>): map<string, PropertyView> {
    map k | k in target :: if k in base then target[k] else target[k].(required := false)
  }

  function SeenTypes(base: map<string, TypeView>, target: map<string, TypeView>): map<string, TypeView> {
    map k | k in target :: target[k].(properties := SeenProperties(Or(At(base, k), NO_TYPE).properties, target[k].properties))
  }

  function Seen(base: View, target: View): View {
    target.(types := SeenTypes(base.types, target.types))
  }

  lemma SortedElements(s: seq<string>)
    ensures Elements(Sort(s, Less)) == Elements(s) && (Sort(s, Less) == [] <==> s == [])
  {
    hide Sort, Less;
    SortElements(s, Less);
    if s == [] {
      assert |Sort(s, Less)| == 0;
    }
  }

  lemma ChipsPatched(b: seq<string>, t: seq<string>)
    ensures PatchChips(ChipsOf(b, t), Elements(b)) == Elements(t)
    ensures ChipsOf(b, t) == ChipDiff([], []) <==> Elements(b) == Elements(t)
  {
    hide Sort, Less;
    var added, removed := Filter(t, s => s !in b), Filter(b, s => s !in t);
    SortedElements(added);
    SortedElements(removed);
    FilterMeans(t, s => s !in b);
    FilterMeans(b, s => s !in t);
    assert forall x :: x in added <==> x in t && x !in b;
    assert forall x :: x in removed <==> x in b && x !in t;
    if added != [] {
      assert added[0] in t && added[0] !in b;
    }
    if removed != [] {
      assert removed[0] in b && removed[0] !in t;
    }
  }

  // ----- sections -----

  /** A section with one row per name patches each name by its own row. */
  lemma {:induction false} PatchRowsMeans<D(!new), V>(names: seq<string>, row: string -> D, name: D -> string,
                                                      patch: (D, Option<V>) -> Option<V>, base: map<string, V>)
    requires StrictlySorted(names, Less) && forall n :: name(row(n)) == n
    ensures forall k :: At(PatchRows(Each(names, row), name, patch, base), k) ==
                        if k in names then patch(row(k), At(base, k)) else None
  {
    if names != [] {
      hide Less;
      var i := |names| - 1;
      LastIsNew(names);
      PatchRowsMeans(names[..i], row, name, patch, base);
      assert Each(names, row)[..i] == Each(names[..i], row);
      assert forall x :: x in names <==> x in names[..i] || x == names[i];
    }
  }

  lemma LastIsNew(names: seq<string>)
    requires names != [] && StrictlySorted(names, Less)
    ensures names[|names| - 1] !in names[..|names| - 1]
    ensures StrictlySorted(names[..|names| - 1], Less)
  {
    LessIrreflexive(names[|names| - 1]);
  }

  lemma SameTable<V>(m: map<string, V>, s: map<string, V>)
    requires forall k :: At(m, k) == At(s, k)
    ensures m == s
  {
    assert forall k :: k in m <==> At(m, k).Some?;
    assert forall k :: k in s <==> At(s, k).Some?;
    assert forall k | k in m :: m[k] == At(m, k).value == s[k];
  }

  /** Patching a section: if every row of a name on either side patches to the wanted entry, the
      section does. */
  lemma SectionRebuilt<D(!new), V>(bk: set<string>, tk: set<string>, row: string -> D, name: D -> string,
                                   patch: (D, Option<V>) -> Option<V>, base: map<string, V>, want: map<string, V>)
    requires forall n :: name(row(n)) == n
    requires want.Keys == tk
    requires forall k | k in bk + tk :: patch(row(k), At(base, k)) == At(want, k)
    ensures PatchRows(Each(SortedSet(bk + tk), row), name, patch, base) == want
  {
    hide SortedSet, Less;
    var names := SortedSet(bk + tk);
    PatchRowsMeans(names, row, name, patch, base);
    var m := PatchRows(Each(names, row), name, patch, base);
    forall k
      ensures At(m, k) == At(want, k)
    {
    }
    SameTable(m, want);
  }

  // ----- property rows -----

  lemma PropertyPatched(n: string, ob: Option<Property>, ot: Option<Property>)
    requires ob.Some? || ot.Some?
    ensures var vb := if ob.Some? then Some(ViewProperty(ob.value)) else None;
            PatchProperty(PropertyRow(n, ob, ot), vb) ==
            if ot.None? then None
            else if ob.None? then Some(ViewProperty(ot.value).(required := false))
            else Some(ViewProperty(ot.value))
  {
  }

  /** A property row is unchanged exactly when both sides have the property and agree on it. */
  lemma PropertyUnchanged(n: string, ob: Option<Property>, ot: Option<Property>)
    requires ob.Some? || ot.Some?
    ensures PropertyRow(n, ob, ot).change == NoChange <==>
            ob.Some? && ot.Some? && ViewProperty(ob.value) == ViewProperty(ot.value)
    ensures PropertyDiffers(PropertyRow(n, ob, ot)) <==> PropertyRow(n, ob, ot).change != NoChange
  {
  }

  lemma PropertyPatchedAt(base: seq<Property>, target: seq<Property>, k: string)
    ensures var b, t := Index(base, PropertyName), Index(target, PropertyName);
            k in b || k in t ==>
              PatchProperty(PropertyRow(k, At(b, k), At(t, k)), At(ViewProperties(base), k)) ==
              At(SeenProperties(ViewProperties(base), ViewProperties(target)), k)
    ensures SeenProperties(ViewProperties(base), ViewProperties(target)).Keys == Index(target, PropertyName).Keys
  {
    hide PropertyRow, PatchProperty, Index, ViewProperty;
    var b, t := Index(base, PropertyName), Index(target, PropertyName);
    if k in b || k in t {
      PropertyPatched(k, At(b, k), At(t, k));
    }
  }

  /** The property rows rebuild the target's properties. */
  lemma PropertiesRebuilt(base: seq<Property>, target: seq<Property>)
    ensures PatchRows(Properties(base, target), PropertyRowName, PatchProperty, ViewProperties(base)) ==
            SeenProperties(ViewProperties(base), ViewProperties(target))
  {
    assert forall n, ob, ot :: PropertyRow(n, ob, ot).name == n;
    hide PropertyRow, PatchProperty, Index, SortedSet, ViewProperties, SeenProperties;
    var b, t := Index(base, PropertyName), Index(target, PropertyName);
    var vb, want := ViewProperties(base), SeenProperties(ViewProperties(base), ViewProperties(target));
    var row := n => PropertyRow(n, At(b, n), At(t, n));
    PropertyPatchedAt(base, target, "");
    forall k | k in b.Keys + t.Keys
      ensures PatchProperty(row(k), At(vb, k)) == At(want, k)
    {
      PropertyPatchedAt(base, target, k);
    }
    SectionRebuilt(b.Keys, t.Keys, row, PropertyRowName, PatchProperty, vb, want);
    assert Properties(base, target) == Each(SortedSet(b.Keys + t.Keys), row);
  }

  lemma PropertyUnchangedAt(base: seq<Property>, target: seq<Property>, k: string)
    ensures var b, t := Index(base, PropertyName), Index(target, PropertyName);
            if k in b || k in t
            then PropertyDiffers(PropertyRow(k, At(b, k), At(t, k))) <==> At(ViewProperties(base), k) != At(ViewProperties(target), k)
            else At(ViewProperties(base), k) == At(ViewProperties(target), k)
  {
    hide PropertyRow, PropertyDiffers, Index, ViewProperty;
    var b, t := Index(base, PropertyName), Index(target, PropertyName);
    if k in b || k in t {
      PropertyUnchanged(k, At(b, k), At(t, k));
    }
  }

  /** No property row differs exactly when the two property tables agree. */
  lemma PropertiesUnchanged(base: seq<Property>, target: seq<Property>)
    ensures (exists p :: p in Properties(base, target) && PropertyDiffers(p)) <==> ViewProperties(base) != ViewProperties(target)
  {
    hide PropertyRow, PropertyDiffers, Index, SortedSet, ViewProperties;
    var b, t := Index(base, PropertyName), Index(target, PropertyName);
    var names, rows := Union(b, t), Properties(base, target);
    assert |rows| == |names| && forall i | 0 <= i < |rows| :: rows[i] == PropertyRow(names[i], At(b, names[i]), At(t, names[i]));
    if p :| p in rows && PropertyDiffers(p) {
      var i :| 0 <= i < |rows| && rows[i] == p;
      assert names[i] in names;
      PropertyUnchangedAt(base, target, names[i]);
    } else {
      forall k
        ensures At(ViewProperties(base), k) == At(ViewProperties(target), k)
      {
        PropertyUnchangedAt(base, target, k);
        if k in names {
          var i :| 0 <= i < |names| && names[i] == k;
          assert rows[i] in rows;
        }
      }
      SameTable(ViewProperties(base), ViewProperties(target));
    }
  }

  // ----- object type rows -----

  lemma TypePatched(b: map<string, ObjectType>, t: map<string, ObjectType>, k: string)
    requires k in b || k in t
    ensures PatchType(TypeRowOf(b, t, k), At(TypeViews(b), k)) == At(SeenTypes(TypeViews(b), TypeViews(t)), k)
    ensures TypeRowOf(b, t, k).change == NoChange <==> At(TypeViews(b), k) == At(TypeViews(t), k)
  {
    hide PatchRows, PropertyDiffers, ViewProperties, SeenProperties, Properties;
    var bp, tp := Or(At(b, k), ZERO_TYPE).properties, Or(At(t, k), ZERO_TYPE).properties;
    PropertiesRebuilt(bp, tp);
    PropertiesUnchanged(bp, tp);
    NoProperties();
    if k in b && k in t && ViewProperties(bp) == ViewProperties(tp) {
      SeenSame(ViewProperties(bp));
    }
  }

  lemma NoProperties()
    ensures ViewProperties([]) == map[]
  {
  }

  lemma SeenSame(m: map<string, PropertyView>)
    ensures SeenProperties(m, m) == m
  {
  }

  lemma TypesRebuilt(b: map<string, ObjectType>, t: map<string, ObjectType>)
    ensures PatchRows(Each(Union(b, t), n => TypeRowOf(b, t, n)), TypeRowName, PatchType, TypeViews(b)) ==
            SeenTypes(TypeViews(b), TypeViews(t))
  {
    assert forall n :: TypeRowOf(b, t, n).name == n;
    hide TypeRowOf, PatchType, SortedSet, TypeViews, SeenProperties;
    var vb, want := TypeViews(b), SeenTypes(TypeViews(b), TypeViews(t));
    var row := n => TypeRowOf(b, t, n);
    forall k | k in b.Keys + t.Keys
      ensures PatchType(row(k), At(vb, k)) == At(want, k)
    {
      TypePatched(b, t, k);
    }
    SectionRebuilt(b.Keys, t.Keys, row, TypeRowName, PatchType, vb, want);
  }

  // ----- relationship and agent rows -----

  lemma RelationshipPatched(n: string, ob: Option<Relationship>, ot: Option<Relationship>)
    requires ob.Some? || ot.Some?
    ensures RelationshipRow(n, ob, ot).name == n
    ensures PatchRelationship(RelationshipRow(n, ob, ot), if ob.Some? then Some(ViewRelationship(ob.value)) else None) ==
            if ot.Some? then Some(ViewRelationship(ot.value)) else None
    ensures RelationshipRow(n, ob, ot).change == NoChange <==>
            ob.Some? && ot.Some? && ViewRelationship(ob.value) == ViewRelationship(ot.value)
  {
  }

  lemma RelationshipsRebuilt(b: map<string, Relationship>, t: map<string, Relationship>)
    ensures PatchRows(Each(Union(b, t), n => RelationshipRow(n, At(b, n), At(t, n))),
                      RelationshipRowName, PatchRelationship, RelationshipViews(b)) ==
            RelationshipViews(t)
  {
    assert forall n, ob, ot :: RelationshipRow(n, ob, ot).name == n;
    hide RelationshipRow, PatchRelationship, SortedSet, RelationshipViews;
    var row := n => RelationshipRow(n, At(b, n), At(t, n));
    forall k | k in b.Keys + t.Keys
      ensures PatchRelationship(row(k), At(RelationshipViews(b), k)) == At(RelationshipViews(t), k)
    {
      RelationshipPatchedAt(b, t, k);
    }
    SectionRebuilt(b.Keys, t.Keys, row, RelationshipRowName, PatchRelationship, RelationshipViews(b), RelationshipViews(t));
  }

  lemma RelationshipPatchedAt(b: map<string, Relationship>, t: map<string, Relationship>, k: string)
    requires k in b || k in t
    ensures PatchRelationship(RelationshipRow(k, At(b, k), At(t, k)), At(RelationshipViews(b), k)) == At(RelationshipViews(t), k)
    ensures RelationshipRow(k, At(b, k), At(t, k)).change == NoChange <==> At(RelationshipViews(b), k) == At(RelationshipViews(t), k)
  {
    hide RelationshipRow, ViewRelationship, PatchRelationship;
    RelationshipPatched(k, At(b, k), At(t, k));
  }

  lemma AgentPatched(n: string, ob: Option<Agent>, ot: Option<Agent>)
    requires ob.Some? || ot.Some?
    ensures PatchAgent(AgentRow(n, ob, ot), if ob.Some? then Some(ViewAgent(ob.value)) else None) ==
            if ot.Some? then Some(ViewAgent(ot.value)) else None
    ensures AgentRow(n, ob, ot).change == NoChange <==>
            ob.Some? && ot.Some? && ViewAgent(ob.value) == ViewAgent(ot.value)
  {
    hide ChipsOf, PatchChips, Elements;
    var b, t := Or(ob, ZERO_AGENT), Or(ot, ZERO_AGENT);
    ChipsPatched(b.tools, t.tools);
    ChipsPatched(b.bannedTools, t.bannedTools);
    ChipsPatched(b.skills, t.skills);
    assert Elements([]) == {};
  }

  lemma AgentsRebuilt(b: map<string, Agent>, t: map<string, Agent>)
    ensures PatchRows(Each(Union(b, t), n => AgentRow(n, At(b, n), At(t, n))), AgentRowName, PatchAgent, AgentViews(b)) ==
            AgentViews(t)
  {
    assert forall n, ob, ot :: AgentRow(n, ob, ot).name == n;
    hide AgentRow, PatchAgent, SortedSet, AgentViews;
    var row := n => AgentRow(n, At(b, n), At(t, n));
    forall k | k in b.Keys + t.Keys
      ensures PatchAgent(row(k), At(AgentViews(b), k)) == At(AgentViews(t), k)
    {
      AgentPatchedAt(b, t, k);
    }
    SectionRebuilt(b.Keys, t.Keys, row, AgentRowName, PatchAgent, AgentViews(b), AgentViews(t));
  }

  lemma AgentPatchedAt(b: map<string, Agent>, t: map<string, Agent>, k: string)
    requires k in b || k in t
    ensures PatchAgent(AgentRow(k, At(b, k), At(t, k)), At(AgentViews(b), k)) == At(AgentViews(t), k)
    ensures AgentRow(k, At(b, k), At(t, k)).change == NoChange <==> At(AgentViews(b), k) == At(AgentViews(t), k)
  {
    hide AgentRow, ViewAgent, PatchAgent;
    AgentPatched(k, At(b, k), At(t, k));
  }

  // ----- the whole diff -----

  /** The diff determines the target: applied to the base version it rebuilds the target version on
      every compared field, except the required flag of a property the base does not have. */
  lemma DiffRebuildsTarget(base: Detail, target: Detail)
    ensures Patch(DiffOf(base, target), ViewOf(base)) == Seen(ViewOf(base), ViewOf(target))
    ensures DiffOf(base, target).baseVersion == base.version && DiffOf(base, target).targetVersion == target.version
  {
    hide PatchRows, Union, SeenTypes, Index, TypeViews, RelationshipViews, AgentViews, Each;
    TypesRebuilt(Index(base.objectTypes, TypeName), Index(target.objectTypes, TypeName));
    RelationshipsRebuilt(Index(base.relationshipTypes, RelationshipName), Index(target.relationshipTypes, RelationshipName));
    AgentsRebuilt(Index(base.agents, AgentName), Index(target.agents, AgentName));
  }

  /** Two targets with the same diff agree on everything the diff can see. */
  lemma DiffDeterminesTarget(base: Detail, target: Detail, target': Detail)
    requires DiffOf(base, target) == DiffOf(base, target')
    ensures Seen(ViewOf(base), ViewOf(target)) == Seen(ViewOf(base), ViewOf(target'))
  {
    hide DiffOf, Patch, ViewOf, Seen;
    DiffRebuildsTarget(base, target);
    DiffRebuildsTarget(base, target');
  }

  /** The exception is real: adding a property shows the same rows whether or not it is required. */
  lemma AddedPropertyHidesRequired(p: Property)
    ensures Properties([], [p]) == Properties([], [p.(required := !p.required)])
  {
    hide SortedSet, PropertyRow;
    var q := p.(required := !p.required);
    var b, t, t' := Index([], PropertyName), Index([p], PropertyName), Index([q], PropertyName);
    assert b == map[] && t == map[p.name := p] && t' == map[q.name := q];
    forall k
      ensures PropertyRow(k, At(b, k), At(t, k)) == PropertyRow(k, At(b, k), At(t', k))
    {
      PropertyRowSees(k, At(b, k), At(t, k), At(t', k));
    }
    SameRows(b, t, t');
  }

  lemma SameRows(b: map<string, Property>, t: map<string, Property>, t': map<string, Property>)
    requires t.Keys == t'.Keys
    requires forall k :: PropertyRow(k, At(b, k), At(t, k)) == PropertyRow(k, At(b, k), At(t', k))
    ensures Each(Union(b, t), n => PropertyRow(n, At(b, n), At(t, n))) == Each(Union(b, t'), n => PropertyRow(n, At(b, n), At(t', n)))
  {
    hide PropertyRow, SortedSet;
  }

  lemma PropertyRowSees(n: string, ob: Option<Property>, ot: Option<Property>, ot': Option<Property>)
    requires ot.Some? == ot'.Some?
    requires ot.Some? ==>
               if ob.Some? then ViewProperty(ot.value) == ViewProperty(ot'.value)
               else ViewProperty(ot.value).(required := false) == ViewProperty(ot'.value).(required := false)
    ensures PropertyRow(n, ob, ot) == PropertyRow(n, ob, ot')
  {
  }

  /** Property rows tell two targets apart exactly when they differ on something the base lets the
      rows show: any field of a kept property, any but the required flag of an added one. */
  lemma SamePropertyRows(base: seq<Property>, target: seq<Property>, target': seq<Property>)
    ensures Properties(base, target) == Properties(base, target') <==>
            SeenProperties(ViewProperties(base), ViewProperties(target)) ==
            SeenProperties(ViewProperties(base), ViewProperties(target'))
  {
    hide Properties, ViewProperties, SeenProperties, PatchRows, PatchProperty;
    PropertiesRebuilt(base, target);
    PropertiesRebuilt(base, target');
    if SeenProperties(ViewProperties(base), ViewProperties(target)) == SeenProperties(ViewProperties(base), ViewProperties(target')) {
      SameSeenSameRows(base, target, target');
    }
  }

  lemma SameSeenSameRows(base: seq<Property>, target: seq<Property>, target': seq<Property>)
    requires SeenProperties(ViewProperties(base), ViewProperties(target)) == SeenProperties(ViewProperties(base), ViewProperties(target'))
    ensures Properties(base, target) == Properties(base, target')
  {
    hide PropertyRow, Index, Union, ViewProperties, SeenProperties, Each, PatchProperty;
    var b, t, t' := Index(base, PropertyName), Index(target, PropertyName), Index(target', PropertyName);
    PropertyPatchedAt(base, target, "");
    PropertyPatchedAt(base, target', "");
    forall k
      ensures PropertyRow(k, At(b, k), At(t, k)) == PropertyRow(k, At(b, k), At(t', k))
    {
      SeenAgree(base, target, target', k);
      PropertyRowSees(k, At(b, k), At(t, k), At(t', k));
    }
    SameRows(b, t, t');
  }

  lemma SeenAgree(base: seq<Property>, target: seq<Property>, target': seq<Property>, k: string)
    requires SeenProperties(ViewProperties(base), ViewProperties(target)) == SeenProperties(ViewProperties(base), ViewProperties(target'))
    ensures var b, t, t' := Index(base, PropertyName), Index(target, PropertyName), Index(target', PropertyName);
            && (k in t <==> k in t')
            && (k in t && k in t' ==>
                  if k in b then ViewProperty(t[k]) == ViewProperty(t'[k])
                  else ViewProperty(t[k]).(required := false) == ViewProperty(t'[k]).(required := false))
  {
    hide Index, ViewProperty;
    var s, s' := SeenProperties(ViewProperties(base), ViewProperties(target)), SeenProperties(ViewProperties(base), ViewProperties(target'));
    assert k in s <==> k in s';
    assert k in s ==> s[k] == s'[k];
  }

  // ----- nothing changed -----

  ghost predicate TypesShowNoChange(rows: seq<ObjectTypeDiff>) {
    forall o | o in rows :: o.change == NoChange
  }

  ghost predicate RelationshipsShowNoChange(rows: seq<RelationshipDiff>) {
    forall r | r in rows :: r.change == NoChange
  }

  ghost predicate AgentsShowNoChange(rows: seq<AgentDiff>) {
    forall a | a in rows :: a.change == NoChange
  }

  ghost predicate ShowsNoChange(d: Diff) {
    TypesShowNoChange(d.objectTypes) && RelationshipsShowNoChange(d.relationshipTypes) && AgentsShowNoChange(d.agents)
  }

  /** Every row reads "unchanged" exactly when the two versions agree on every compared field. */
  lemma NoChangeMeansEqual(base: Detail, target: Detail)
    ensures ShowsNoChange(DiffOf(base, target)) <==>
            ViewOf(base).(version := "") == ViewOf(target).(version := "")
  {
    hide Union, Index, TypeViews, RelationshipViews, AgentViews, Each, TypesShowNoChange, RelationshipsShowNoChange, AgentsShowNoChange;
    TypesUnchanged(Index(base.objectTypes, TypeName), Index(target.objectTypes, TypeName));
    RelationshipsUnchanged(Index(base.relationshipTypes, RelationshipName), Index(target.relationshipTypes, RelationshipName));
    AgentsUnchanged(Index(base.agents, AgentName), Index(target.agents, AgentName));
  }

  /** So a version that changes nothing but uncompared fields reads as unchanged. */
  lemma UncomparedChangesUnseen(t: ObjectType, a: Agent, rest: string)
    ensures ShowsNoChange(DiffOf(Detail("1", [t], [], [a]), Detail("2", [t.(rest := rest)], [], [a.(rest := rest)])))
  {
    hide ShowsNoChange, DiffOf, Index, TypeViews, AgentViews;
    var t', a' := t.(rest := rest), a.(rest := rest);
    OneType(t, t');
    OneAgent(a, a');
    NoChangeMeansEqual(Detail("1", [t], [], [a]), Detail("2", [t'], [], [a']));
  }

  lemma OneType(t: ObjectType, t': ObjectType)
    requires t' == t.(rest := t'.rest)
    ensures TypeViews(Index([t], TypeName)) == TypeViews(Index([t'], TypeName))
  {
    hide Index, ViewProperties;
    OneEntry(t, TypeName);
    OneEntry(t', TypeName);
  }

  lemma OneAgent(a: Agent, a': Agent)
    requires a' == a.(rest := a'.rest)
    ensures AgentViews(Index([a], AgentName)) == AgentViews(Index([a'], AgentName))
  {
    hide Index, Elements;
    OneEntry(a, AgentName);
    OneEntry(a', AgentName);
  }

  lemma OneEntry<T(!new)>(x: T, name: T -> string)
    ensures Index([x], name) == map[name(x) := x]
  {
    assert [x][..0] == [];
  }

  /** A section of one row per name is unchanged throughout exactly when its two tables agree. */
  lemma SectionUnchanged<D(!new), V>(bk: set<string>, tk: set<string>, row: string -> D, same: D -> bool,
                                     vb: map<string, V>, vt: map<string, V>)
    requires vb.Keys == bk && vt.Keys == tk
    requires forall k | k in bk + tk :: same(row(k)) <==> At(vb, k) == At(vt, k)
    ensures (forall r | r in Each(SortedSet(bk + tk), row) :: same(r)) <==> vb == vt
  {
    hide SortedSet;
    var names := SortedSet(bk + tk);
    var rows := Each(names, row);
    if forall r | r in rows :: same(r) {
      forall k
        ensures At(vb, k) == At(vt, k)
      {
        if k in names {
          var i :| 0 <= i < |names| && names[i] == k;
          assert rows[i] in rows;
        }
      }
      SameTable(vb, vt);
    } else {
      var r :| r in rows && !same(r);
      var i :| 0 <= i < |rows| && rows[i] == r;
      assert names[i] in names;
    }
  }

  lemma TypesUnchanged(b: map<string, ObjectType>, t: map<string, ObjectType>)
    ensures TypesShowNoChange(Each(Union(b, t), n => TypeRowOf(b, t, n))) <==> TypeViews(b) == TypeViews(t)
  {
    hide TypeRowOf, SortedSet, TypeViews, PatchType, SeenTypes;
    var row, same := n => TypeRowOf(b, t, n), (r: ObjectTypeDiff) => r.change == NoChange;
    forall k | k in b.Keys + t.Keys
      ensures same(row(k)) <==> At(TypeViews(b), k) == At(TypeViews(t), k)
    {
      TypePatched(b, t, k);
    }
    SectionUnchanged(b.Keys, t.Keys, row, same, TypeViews(b), TypeViews(t));
  }

  lemma RelationshipsUnchanged(b: map<string, Relationship>, t: map<string, Relationship>)
    ensures RelationshipsShowNoChange(Each(Union(b, t), n => RelationshipRow(n, At(b, n), At(t, n)))) <==>
            RelationshipViews(b) == RelationshipViews(t)
  {
    hide RelationshipRow, SortedSet, RelationshipViews, PatchRelationship;
    var row, same := n => RelationshipRow(n, At(b, n), At(t, n)), (r: RelationshipDiff) => r.change == NoChange;
    forall k | k in b.Keys + t.Keys
      ensures same(row(k)) <==> At(RelationshipViews(b), k) == At(RelationshipViews(t), k)
    {
      RelationshipPatchedAt(b, t, k);
    }
    SectionUnchanged(b.Keys, t.Keys, row, same, RelationshipViews(b), RelationshipViews(t));
  }

  lemma AgentsUnchanged(b: map<string, Agent>, t: map<string, Agent>)
    ensures AgentsShowNoChange(Each(Union(b, t), n => AgentRow(n, At(b, n), At(t, n)))) <==> AgentViews(b) == AgentViews(t)
  {
    hide AgentRow, SortedSet, AgentViews, PatchAgent;
    var row, same := n => AgentRow(n, At(b, n), At(t, n)), (r: AgentDiff) => r.change == NoChange;
    forall k | k in b.Keys + t.Keys
      ensures same(row(k)) <==> At(AgentViews(b), k) == At(AgentViews(t), k)
    {
      AgentPatchedAt(b, t, k);
    }
    SectionUnchanged(b.Keys, t.Keys, row, same, AgentViews(b), AgentViews(t));
  }

  // ----- swapping the versions -----

  function MirrorChange(c: Change): Change {
    match c
    case Added => Removed
    case Removed => Added
    case _ => c
  }

  function MirrorField(f: FieldDiff): FieldDiff {
    FieldDiff(f.after, f.before, MirrorChange(f.change))
  }

  function MirrorChips(c: ChipDiff): ChipDiff {
    ChipDiff(c.removed, c.added)
  }

  function MirrorProperty(p: PropertyDiff): PropertyDiff {
    PropertyDiff(p.name, MirrorChange(p.change), MirrorField(p.title), MirrorField(p.typ), MirrorField(p.widget),
                 MirrorField(p.description), MirrorField(p.required))
  }

  function MirrorType(o: ObjectTypeDiff): ObjectTypeDiff {
    ObjectTypeDiff(o.name, MirrorChange(o.change), MirrorField(o.caption), MirrorField(o.description), Each(o.properties, MirrorProperty))
  }

  function MirrorRelationship(r: RelationshipDiff): RelationshipDiff {
    RelationshipDiff(r.name, MirrorChange(r.change), MirrorField(r.caption), MirrorField(r.description),
                     MirrorField(r.sourceType), MirrorField(r.targetType))
  }

  function MirrorAgent(a: AgentDiff): AgentDiff {
    AgentDiff(a.name, MirrorChange(a.change), MirrorField(a.description), MirrorField(a.model), MirrorField(a.systemPrompt),
              MirrorField(a.visibility), MirrorChips(a.tools), MirrorChips(a.bannedTools), MirrorChips(a.skills))
  }

  function Mirror(d: Diff): Diff {
    Diff(d.targetVersion, d.baseVersion, Each(d.objectTypes, MirrorType),
         Each(d.relationshipTypes, MirrorRelationship), Each(d.agents, MirrorAgent))
  }

  lemma PropertyMirrors(n: string, ob: Option<Property>, ot: Option<Property>)
    ensures PropertyRow(n, ot, ob) == MirrorProperty(PropertyRow(n, ob, ot))
    ensures PropertyDiffers(PropertyRow(n, ot, ob)) == PropertyDiffers(PropertyRow(n, ob, ot))
  {
  }

  lemma PropertiesMirror(base: seq<Property>, target: seq<Property>)
    ensures Properties(target, base) == Each(Properties(base, target), MirrorProperty)
  {
    hide PropertyRow, Index, SortedSet, MirrorProperty;
    var b, t := Index(base, PropertyName), Index(target, PropertyName);
    assert b.Keys + t.Keys == t.Keys + b.Keys;
    forall n
      ensures PropertyRow(n, At(t, n), At(b, n)) == MirrorProperty(PropertyRow(n, At(b, n), At(t, n)))
    {
      PropertyMirrors(n, At(b, n), At(t, n));
    }
  }

  lemma TypeMirrors(b: map<string, ObjectType>, t: map<string, ObjectType>, n: string)
    ensures TypeRowOf(t, b, n) == MirrorType(TypeRowOf(b, t, n))
  {
    hide Properties, PropertyDiffers, ViewProperties, MirrorProperty;
    var bp, tp := Or(At(b, n), ZERO_TYPE).properties, Or(At(t, n), ZERO_TYPE).properties;
    PropertiesMirror(bp, tp);
    PropertiesUnchanged(bp, tp);
    PropertiesUnchanged(tp, bp);
  }

  lemma RelationshipMirrors(n: string, ob: Option<Relationship>, ot: Option<Relationship>)
    ensures RelationshipRow(n, ot, ob) == MirrorRelationship(RelationshipRow(n, ob, ot))
  {
  }

  lemma AgentMirrors(n: string, ob: Option<Agent>, ot: Option<Agent>)
    ensures AgentRow(n, ot, ob) == MirrorAgent(AgentRow(n, ob, ot))
  {
    hide Sort, Filter;
  }

  /** A section mirrors if its rows do: the names on the two sides are the same either way. */
  lemma SectionMirrors<D(!new)>(bk: set<string>, tk: set<string>, row: string -> D, row': string -> D, mirror: D -> D)
    requires forall n :: row'(n) == mirror(row(n))
    ensures Each(SortedSet(tk + bk), row') == Each(Each(SortedSet(bk + tk), row), mirror)
  {
    hide SortedSet;
    assert bk + tk == tk + bk;
  }

  lemma TypesMirror(base: seq<ObjectType>, target: seq<ObjectType>)
    ensures ObjectTypes(target, base) == Each(ObjectTypes(base, target), MirrorType)
  {
    hide Index, SortedSet, TypeRowOf, MirrorType;
    var b, t := Index(base, TypeName), Index(target, TypeName);
    var row, row' := n => TypeRowOf(b, t, n), n => TypeRowOf(t, b, n);
    forall n: string
      ensures row'(n) == MirrorType(row(n))
    {
      TypeMirrors(b, t, n);
    }
    SectionMirrors(b.Keys, t.Keys, row, row', MirrorType);
    assert ObjectTypes(base, target) == Each(SortedSet(b.Keys + t.Keys), row);
    assert ObjectTypes(target, base) == Each(SortedSet(t.Keys + b.Keys), row');
  }

  lemma RelationshipsMirror(base: seq<Relationship>, target: seq<Relationship>)
    ensures Relationships(target, base) == Each(Relationships(base, target), MirrorRelationship)
  {
    hide Index, SortedSet, RelationshipRow, MirrorRelationship;
    var b, t := Index(base, RelationshipName), Index(target, RelationshipName);
    var row, row' := n => RelationshipRow(n, At(b, n), At(t, n)), n => RelationshipRow(n, At(t, n), At(b, n));
    forall n: string
      ensures row'(n) == MirrorRelationship(row(n))
    {
      RelationshipMirrors(n, At(b, n), At(t, n));
    }
    SectionMirrors(b.Keys, t.Keys, row, row', MirrorRelationship);
    assert Relationships(base, target) == Each(SortedSet(b.Keys + t.Keys), row);
    assert Relationships(target, base) == Each(SortedSet(t.Keys + b.Keys), row');
  }

  lemma AgentsMirror(base: seq<Agent>, target: seq<Agent>)
    ensures Agents(target, base) == Each(Agents(base, target), MirrorAgent)
  {
    hide Index, SortedSet, AgentRow, MirrorAgent;
    var b, t := Index(base, AgentName), Index(target, AgentName);
    var row, row' := n => AgentRow(n, At(b, n), At(t, n)), n => AgentRow(n, At(t, n), At(b, n));
    forall n: string
      ensures row'(n) == MirrorAgent(row(n))
    {
      AgentMirrors(n, At(b, n), At(t, n));
    }
    SectionMirrors(b.Keys, t.Keys, row, row', MirrorAgent);
    assert Agents(base, target) == Each(SortedSet(b.Keys + t.Keys), row);
    assert Agents(target, base) == Each(SortedSet(t.Keys + b.Keys), row');
  }

  /** Comparing the other way round swaps Added with Removed and Before with After, everywhere. */
  lemma DiffMirrors(base: Detail, target: Detail)
    ensures DiffOf(target, base) == Mirror(DiffOf(base, target))
  {
    hide ObjectTypes, Relationships, Agents;
    TypesMirror(base.objectTypes, target.objectTypes);
    RelationshipsMirror(base.relationshipTypes, target.relationshipTypes);
    AgentsMirror(base.agents, target.agents);
  }
}
