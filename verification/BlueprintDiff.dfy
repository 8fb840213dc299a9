/**
 The field-level comparison of two blueprint versions (blueprints.go): rows for object types with
 their properties, relationship types and agents, each the union of both sides by name.
 */
module BlueprintDiff {
  import opened Options
  import opened Order
  import opened Slices

  // ----- the two versions -----

  datatype Property = Property(name: string, title: string, typ: string, widget: string, description: string, required: bool)
  /** `rest` stands for what is never compared: an object type's board flag and statuses, an agent's
      configuration, work configuration, trigger, schedule, dispatch and appearance. */
  datatype ObjectType = ObjectType(name: string, caption: string, description: string, properties: seq<Property>, rest: string)
  datatype Relationship = Relationship(name: string, caption: string, description: string, sourceType: string, targetType: string)
  datatype Agent = Agent(name: string, description: string, model: string, systemPrompt: string, visibility: string,
                         tools: seq<string>, bannedTools: seq<string>, skills: seq<string>, rest: string)
  datatype Detail = Detail(version: string, objectTypes: seq<ObjectType>, relationshipTypes: seq<Relationship>, agents: seq<Agent>)

  // ----- the rows -----

  datatype Change = NoChange | Added | Removed | Changed

  datatype FieldDiff = FieldDiff(before: string, after: string, change: Change)
  datatype ChipDiff = ChipDiff(added: seq<string>, removed: seq<string>)

  datatype PropertyDiff = PropertyDiff(name: string, change: Change, title: FieldDiff, typ: FieldDiff,
                                       widget: FieldDiff, description: FieldDiff, required: FieldDiff)
  datatype ObjectTypeDiff = ObjectTypeDiff(name: string, change: Change, caption: FieldDiff, description: FieldDiff,
                                           properties: seq<PropertyDiff>)
  datatype RelationshipDiff = RelationshipDiff(name: string, change: Change, caption: FieldDiff, description: FieldDiff,
                                               sourceType: FieldDiff, targetType: FieldDiff)
  datatype AgentDiff = AgentDiff(name: string, change: Change, description: FieldDiff, model: FieldDiff, systemPrompt: FieldDiff,
                                 visibility: FieldDiff, tools: ChipDiff, bannedTools: ChipDiff, skills: ChipDiff)
  datatype Diff = Diff(baseVersion: string, targetVersion: string, objectTypes: seq<ObjectTypeDiff>,
                       relationshipTypes: seq<RelationshipDiff>, agents: seq<AgentDiff>)

  // ----- one field -----

  function FieldOf(before: string, after: string): FieldDiff {
    FieldDiff(before, after, if before == after then NoChange else Changed)
  }

  function PresenceField(before: string, after: string, inBase: bool, inTarget: bool): FieldDiff {
    if !inBase && inTarget then FieldDiff("", after, Added)
    else if inBase && !inTarget then FieldDiff(before, "", Removed)
    else FieldOf(before, after)
  }

  function BoolChange(before: bool, after: bool, inBase: bool, inTarget: bool): FieldDiff {
    FieldDiff("", "",
              if !inBase && inTarget then Added
              else if inBase && !inTarget then Removed
              else if before != after then Changed
              else NoChange)
  }

  function EntityChange(inBase: bool, inTarget: bool): Change {
    if !inBase && inTarget then Added else if inBase && !inTarget then Removed else NoChange
  }

  function ChipsOf(before: seq<string>, after: seq<string>): ChipDiff {
    ChipDiff(Sort(Filter(after, s => s !in before), Less), Sort(Filter(before, s => s !in after), Less))
  }

  // ----- tables by name -----

  /** The by-name table of a list; of two entries with one name the later one stands. */
  function Index<T(!new)>(xs: seq<T>, name: T -> string): (r: map<string, T>)
    ensures forall k :: k in r <==> exists x :: x in xs && name(x) == k
    ensures forall k | k in r :: r[k] in xs && name(r[k]) == k
  {
    if xs == [] then map[]
    else
      var n := |xs| - 1;
      assert xs == xs[..n] + [xs[n]];
      Index(xs[..n], name)[name(xs[n]) := xs[n]]
  }

  lemma {:induction false} LastNameStands<T(!new)>(xs: seq<T>, name: T -> string, i: nat)
    requires i < |xs| && forall j :: i < j < |xs| ==> name(xs[j]) != name(xs[i])
    ensures Index(xs, name)[name(xs[i])] == xs[i]
  {
    var n := |xs| - 1;
    assert xs[i] in xs;
    if i < n {
      assert xs[..n][i] in xs[..n];
      LastNameStands(xs[..n], name, i);
    }
  }

  function At<T>(m: map<string, T>, k: string): Option<T> {
    if k in m then Some(m[k]) else None
  }

  /** The names of both sides, sorted. */
  ghost function Union<S, T>(a: map<string, S>, b: map<string, T>): seq<string> {
    SortedSet(a.Keys + b.Keys)
  }

  function PropertyName(p: Property): string { p.name }
  function TypeName(t: ObjectType): string { t.name }
  function RelationshipName(r: Relationship): string { r.name }
  function AgentName(a: Agent): string { a.name }

  // ----- one row -----

  const ZERO_PROPERTY := Property("", "", "", "", "", false)
  const ZERO_TYPE := ObjectType("", "", "", [], "")
  const ZERO_RELATIONSHIP := Relationship("", "", "", "", "")
  const ZERO_AGENT := Agent("", "", "", "", "", [], [], [], "")

  /** A Go map read: the entry, or the zero value. */
  function Or<T>(o: Option<T>, zero: T): T {
    if o.Some? then o.value else zero
  }

  /** Refines an entity present on both sides to Changed when one of its fields differs. */
  function Refine(change: Change, differs: bool): Change {
    if change == NoChange && differs then Changed else change
  }

  predicate PropertyFieldsChanged(p: PropertyDiff) {
    p.typ.change != NoChange || p.title.change != NoChange || p.widget.change != NoChange ||
    p.description.change != NoChange || p.required.change != NoChange
  }

  predicate PropertyDiffers(p: PropertyDiff) {
    p.change != NoChange || PropertyFieldsChanged(p)
  }

  function PropertyRow(name: string, ob: Option<Property>, ot: Option<Property>): PropertyDiff {
    var b, t, x, y := Or(ob, ZERO_PROPERTY), Or(ot, ZERO_PROPERTY), ob.Some?, ot.Some?;
    var p := PropertyDiff(name, EntityChange(x, y),
                          PresenceField(b.title, t.title, x, y), PresenceField(b.typ, t.typ, x, y),
                          FieldDiff("", "", EntityChange(x, y)), PresenceField(b.description, t.description, x, y),
                          BoolChange(b.required, t.required, x, y));
    p.(change := Refine(p.change, PropertyFieldsChanged(p)))
  }

  function TypeRow(name: string, ob: Option<ObjectType>, ot: Option<ObjectType>, properties: seq<PropertyDiff>): ObjectTypeDiff {
    var b, t, x, y := Or(ob, ZERO_TYPE), Or(ot, ZERO_TYPE), ob.Some?, ot.Some?;
    var caption, description := PresenceField(b.caption, t.caption, x, y), PresenceField(b.description, t.description, x, y);
    ObjectTypeDiff(name,
                   Refine(EntityChange(x, y),
                          caption.change != NoChange || description.change != NoChange ||
                          exists p | p in properties :: PropertyDiffers(p)),
                   caption, description, properties)
  }

  predicate RelationshipFieldsChanged(r: RelationshipDiff) {
    r.caption.change != NoChange || r.description.change != NoChange ||
    r.sourceType.change != NoChange || r.targetType.change != NoChange
  }

  function RelationshipRow(name: string, ob: Option<Relationship>, ot: Option<Relationship>): RelationshipDiff {
    var b, t, x, y := Or(ob, ZERO_RELATIONSHIP), Or(ot, ZERO_RELATIONSHIP), ob.Some?, ot.Some?;
    var r := RelationshipDiff(name, EntityChange(x, y),
                              PresenceField(b.caption, t.caption, x, y), PresenceField(b.description, t.description, x, y),
                              PresenceField(b.sourceType, t.sourceType, x, y), PresenceField(b.targetType, t.targetType, x, y));
    r.(change := Refine(r.change, RelationshipFieldsChanged(r)))
  }

  predicate AgentFieldsChanged(a: AgentDiff) {
    a.description.change != NoChange || a.model.change != NoChange || a.systemPrompt.change != NoChange ||
    a.visibility.change != NoChange || a.tools.added != [] || a.tools.removed != [] || a.bannedTools.added != [] ||
    a.bannedTools.removed != [] || a.skills.added != [] || a.skills.removed != []
  }

  function AgentRow(name: string, ob: Option<Agent>, ot: Option<Agent>): AgentDiff {
    var b, t, x, y := Or(ob, ZERO_AGENT), Or(ot, ZERO_AGENT), ob.Some?, ot.Some?;
    var a := AgentDiff(name, EntityChange(x, y),
                       PresenceField(b.description, t.description, x, y), PresenceField(b.model, t.model, x, y),
                       PresenceField(b.systemPrompt, t.systemPrompt, x, y), PresenceField(b.visibility, t.visibility, x, y),
                       ChipsOf(b.tools, t.tools), ChipsOf(b.bannedTools, t.bannedTools), ChipsOf(b.skills, t.skills));
    a.(change := Refine(a.change, AgentFieldsChanged(a)))
  }

  // ----- the sections -----

  ghost function Properties(base: seq<Property>, target: seq<Property>): seq<PropertyDiff> {
    var b, t := Index(base, PropertyName), Index(target, PropertyName);
    Each(Union(b, t), n => PropertyRow(n, At(b, n), At(t, n)))
  }

  ghost function TypeRowOf(b: map<string, ObjectType>, t: map<string, ObjectType>, n: string): ObjectTypeDiff {
    TypeRow(n, At(b, n), At(t, n), Properties(Or(At(b, n), ZERO_TYPE).properties, Or(At(t, n), ZERO_TYPE).properties))
  }

  ghost function ObjectTypes(base: seq<ObjectType>, target: seq<ObjectType>): seq<ObjectTypeDiff> {
    var b, t := Index(base, TypeName), Index(target, TypeName);
    Each(Union(b, t), n => TypeRowOf(b, t, n))
  }

  ghost function Relationships(base: seq<Relationship>, target: seq<Relationship>): seq<RelationshipDiff> {
    var b, t := Index(base, RelationshipName), Index(target, RelationshipName);
    Each(Union(b, t), n => RelationshipRow(n, At(b, n), At(t, n)))
  }

  ghost function Agents(base: seq<Agent>, target: seq<Agent>): seq<AgentDiff> {
    var b, t := Index(base, AgentName), Index(target, AgentName);
    Each(Union(b, t), n => AgentRow(n, At(b, n), At(t, n)))
  }

  const EMPTY_DETAIL := Detail("", [], [], [])

  ghost function DiffOf(base: Detail, target: Detail): Diff {
    Diff(base.version, target.version, ObjectTypes(base.objectTypes, target.objectTypes),
         Relationships(base.relationshipTypes, target.relationshipTypes), Agents(base.agents, target.agents))
  }

  // ----- the code -----

  method BuildIndex<T(!new)>(xs: seq<T>, name: T -> string) returns (m: map<string, T>)
    ensures m == Index(xs, name)
  {
    m := map[];
    for i := 0 to |xs|
      invariant m == Index(xs[..i], name)
    {
      assert xs[..i + 1][..i] == xs[..i];
      m := m[name(xs[i]) := xs[i]];
    }
    assert xs[..|xs|] == xs;
  }

  /** unionNames: the set of names is a Go map, read in any order and then sorted. */
  method UnionNames<T(!new)>(base: seq<T>, target: seq<T>, name: T -> string) returns (out: seq<string>)
    ensures out == Union(Index(base, name), Index(target, name))
  {
    hide Sort, Less, SortedSet;
    var names: set<string> := {};
    for i := 0 to |base|
      invariant forall k :: k in names <==> exists j :: 0 <= j < i && name(base[j]) == k
    {
      names := names + {name(base[i])};
    }
    for i := 0 to |target|
      invariant forall k :: k in names <==>
                            (exists j :: 0 <= j < |base| && name(base[j]) == k) || (exists j :: 0 <= j < i && name(target[j]) == k)
    {
      names := names + {name(target[i])};
    }
    out := [];
    var todo := names;
    while todo != {}
      invariant todo <= names && Distinct(out)
      invariant forall k :: k in out <==> k in names && k !in todo
    {
      var n :| n in todo;
      out := out + [n];
      todo := todo - {n};
    }
    SortStringsStrict(out);
    out := Sort(out, Less);
    NamesOfBoth(base, target, name, names);
    SortedNamesUnique(out, SortedSet(Index(base, name).Keys + Index(target, name).Keys));
  }

  lemma NamesOfBoth<T(!new)>(base: seq<T>, target: seq<T>, name: T -> string, names: set<string>)
    requires forall k :: k in names <==>
                         (exists j :: 0 <= j < |base| && name(base[j]) == k) || (exists j :: 0 <= j < |target| && name(target[j]) == k)
    ensures names == Index(base, name).Keys + Index(target, name).Keys
  {
    forall k
      ensures k in names <==> k in Index(base, name) || k in Index(target, name)
    {
      InIndex(base, name, k);
      InIndex(target, name, k);
    }
  }

  lemma InIndex<T(!new)>(xs: seq<T>, name: T -> string, k: string)
    ensures k in Index(xs, name) <==> exists j :: 0 <= j < |xs| && name(xs[j]) == k
  {
    if j :| 0 <= j < |xs| && name(xs[j]) == k {
      assert xs[j] in xs;
    }
  }

  /** chipDiff. */
  method ChipDiffOf(before: seq<string>, after: seq<string>) returns (d: ChipDiff)
    ensures d == ChipsOf(before, after)
  {
    hide Sort, Less;
    var added: seq<string> := [];
    var removed: seq<string> := [];
    for i := 0 to |after|
      invariant added == Filter(after[..i], s => s !in before)
    {
      assert after[..i + 1][..i] == after[..i];
      if after[i] !in before {
        added := added + [after[i]];
      }
    }
    assert after[..|after|] == after;
    for i := 0 to |before|
      invariant removed == Filter(before[..i], s => s !in after)
    {
      assert before[..i + 1][..i] == before[..i];
      if before[i] !in after {
        removed := removed + [before[i]];
      }
    }
    assert before[..|before|] == before;
    d := ChipDiff(Sort(added, Less), Sort(removed, Less));
  }

  /** diffProperties. */
  method DiffProperties(base: seq<Property>, target: seq<Property>) returns (out: seq<PropertyDiff>)
    ensures out == Properties(base, target)
  {
    hide PropertyRow, Union, Index;
    var b := BuildIndex(base, PropertyName);
    var t := BuildIndex(target, PropertyName);
    var names := UnionNames(base, target, PropertyName);
    out := [];
    for i := 0 to |names|
      invariant |out| == i && forall j :: 0 <= j < i ==> out[j] == PropertyRow(names[j], At(b, names[j]), At(t, names[j]))
    {
      out := out + [PropertyRow(names[i], At(b, names[i]), At(t, names[i]))];
    }
  }

  /** diffObjectTypes. */
  method DiffObjectTypes(base: seq<ObjectType>, target: seq<ObjectType>) returns (out: seq<ObjectTypeDiff>)
    ensures out == ObjectTypes(base, target)
  {
    hide TypeRow, Union, Index, Properties;
    var b := BuildIndex(base, TypeName);
    var t := BuildIndex(target, TypeName);
    var names := UnionNames(base, target, TypeName);
    out := [];
    for i := 0 to |names|
      invariant |out| == i && forall j :: 0 <= j < i ==> out[j] == TypeRowOf(b, t, names[j])
    {
      var n := names[i];
      var properties := DiffProperties(Or(At(b, n), ZERO_TYPE).properties, Or(At(t, n), ZERO_TYPE).properties);
      out := out + [TypeRow(n, At(b, n), At(t, n), properties)];
    }
  }

  /** diffRelationshipTypes. */
  method DiffRelationshipTypes(base: seq<Relationship>, target: seq<Relationship>) returns (out: seq<RelationshipDiff>)
    ensures out == Relationships(base, target)
  {
    hide RelationshipRow, Union, Index;
    var b := BuildIndex(base, RelationshipName);
    var t := BuildIndex(target, RelationshipName);
    var names := UnionNames(base, target, RelationshipName);
    out := [];
    for i := 0 to |names|
      invariant |out| == i && forall j :: 0 <= j < i ==> out[j] == RelationshipRow(names[j], At(b, names[j]), At(t, names[j]))
    {
      out := out + [RelationshipRow(names[i], At(b, names[i]), At(t, names[i]))];
    }
  }

  /** diffAgents. */
  method DiffAgents(base: seq<Agent>, target: seq<Agent>) returns (out: seq<AgentDiff>)
    ensures out == Agents(base, target)
  {
    hide AgentRow, Union, Index;
    var b := BuildIndex(base, AgentName);
    var t := BuildIndex(target, AgentName);
    var names := UnionNames(base, target, AgentName);
    out := [];
    for i := 0 to |names|
      invariant |out| == i && forall j :: 0 <= j < i ==> out[j] == AgentRow(names[j], At(b, names[j]), At(t, names[j]))
    {
      out := out + [AgentRow(names[i], At(b, names[i]), At(t, names[i]))];
    }
  }

  /** diffBlueprintDetails; a missing side is an empty blueprint. */
  method DiffBlueprintDetails(base: Option<Detail>, target: Option<Detail>) returns (d: Diff)
    ensures d == DiffOf(Or(base, EMPTY_DETAIL), Or(target, EMPTY_DETAIL))
  {
    var b, t := Or(base, EMPTY_DETAIL), Or(target, EMPTY_DETAIL);
    var types := DiffObjectTypes(b.objectTypes, t.objectTypes);
    var relationships := DiffRelationshipTypes(b.relationshipTypes, t.relationshipTypes);
    var agents := DiffAgents(b.agents, t.agents);
    d := Diff(b.version, t.version, types, relationships, agents);
  }

  // ----- what the badges say -----

  function Part<T>(o: Option<T>, f: T -> string): Option<string> {
    if o.Some? then Some(f(o.value)) else None
  }

  /** A field's cell: of an entity on one side only, that side's text and badge; of one on both, the two texts
      and whether they differ. */
  predicate CellSays(f: FieldDiff, before: Option<string>, after: Option<string>) {
    match (before, after)
    case (None, None) => true
    case (None, Some(y)) => f == FieldDiff("", y, Added)
    case (Some(x), None) => f == FieldDiff(x, "", Removed)
    case (Some(x), Some(y)) => f == FieldDiff(x, y, if x == y then NoChange else Changed)
  }

  /** A row's badge: the side an entity is missing on, else whether the row shows a difference. */
  predicate BadgeSays(change: Change, inBase: bool, inTarget: bool, differs: bool) {
    if !inBase then change == Added
    else if !inTarget then change == Removed
    else if differs then change == Changed
    else change == NoChange
  }

  lemma PropertyBadges(n: string, ob: Option<Property>, ot: Option<Property>)
    requires ob.Some? || ot.Some?
    ensures var p := PropertyRow(n, ob, ot);
            && CellSays(p.title, Part(ob, (x: Property) => x.title), Part(ot, (x: Property) => x.title))
            && CellSays(p.typ, Part(ob, (x: Property) => x.typ), Part(ot, (x: Property) => x.typ))
            && CellSays(p.description, Part(ob, (x: Property) => x.description), Part(ot, (x: Property) => x.description))
            && BadgeSays(p.widget.change, ob.Some?, ot.Some?, false)
            && BadgeSays(p.required.change, ob.Some?, ot.Some?, ob.Some? && ot.Some? && ob.value.required != ot.value.required)
            && BadgeSays(p.change, ob.Some?, ot.Some?,
                         ob.Some? && ot.Some? && (ob.value.title != ot.value.title || ob.value.typ != ot.value.typ ||
                         ob.value.description != ot.value.description || ob.value.required != ot.value.required))
  {
  }

  lemma TypeBadges(n: string, ob: Option<ObjectType>, ot: Option<ObjectType>, properties: seq<PropertyDiff>)
    requires ob.Some? || ot.Some?
    ensures var o := TypeRow(n, ob, ot, properties);
            && CellSays(o.caption, Part(ob, (x: ObjectType) => x.caption), Part(ot, (x: ObjectType) => x.caption))
            && CellSays(o.description, Part(ob, (x: ObjectType) => x.description), Part(ot, (x: ObjectType) => x.description))
            && BadgeSays(o.change, ob.Some?, ot.Some?,
                         ob.Some? && ot.Some? && (ob.value.caption != ot.value.caption || ob.value.description != ot.value.description ||
                         exists p :: p in properties && PropertyDiffers(p)))
  {
  }

  lemma RelationshipBadges(n: string, ob: Option<Relationship>, ot: Option<Relationship>)
    requires ob.Some? || ot.Some?
    ensures var r := RelationshipRow(n, ob, ot);
            && CellSays(r.caption, Part(ob, (x: Relationship) => x.caption), Part(ot, (x: Relationship) => x.caption))
            && CellSays(r.description, Part(ob, (x: Relationship) => x.description), Part(ot, (x: Relationship) => x.description))
            && CellSays(r.sourceType, Part(ob, (x: Relationship) => x.sourceType), Part(ot, (x: Relationship) => x.sourceType))
            && CellSays(r.targetType, Part(ob, (x: Relationship) => x.targetType), Part(ot, (x: Relationship) => x.targetType))
            && BadgeSays(r.change, ob.Some?, ot.Some?,
                         ob.Some? && ot.Some? && (ob.value.caption != ot.value.caption || ob.value.description != ot.value.description ||
                         ob.value.sourceType != ot.value.sourceType || ob.value.targetType != ot.value.targetType))
  {
  }

  lemma AgentBadges(n: string, ob: Option<Agent>, ot: Option<Agent>)
    requires ob.Some? || ot.Some?
    ensures var a := AgentRow(n, ob, ot);
            && CellSays(a.description, Part(ob, (x: Agent) => x.description), Part(ot, (x: Agent) => x.description))
            && CellSays(a.model, Part(ob, (x: Agent) => x.model), Part(ot, (x: Agent) => x.model))
            && CellSays(a.systemPrompt, Part(ob, (x: Agent) => x.systemPrompt), Part(ot, (x: Agent) => x.systemPrompt))
            && CellSays(a.visibility, Part(ob, (x: Agent) => x.visibility), Part(ot, (x: Agent) => x.visibility))
            && BadgeSays(a.change, ob.Some?, ot.Some?,
                         ob.Some? && ot.Some? && (ob.value.description != ot.value.description || ob.value.model != ot.value.model ||
                         ob.value.systemPrompt != ot.value.systemPrompt || ob.value.visibility != ot.value.visibility ||
                         a.tools != ChipDiff([], []) || a.bannedTools != ChipDiff([], []) || a.skills != ChipDiff([], [])))
  {
    hide ChipsOf;
  }

  /** The rows of every section stand in name order, one for each name of either side. */
  lemma RowsByName(base: Detail, target: Detail)
    ensures var d := DiffOf(base, target);
            && (forall i, j :: 0 <= i < j < |d.objectTypes| ==> Less(d.objectTypes[i].name, d.objectTypes[j].name))
            && (forall i, j :: 0 <= i < j < |d.relationshipTypes| ==> Less(d.relationshipTypes[i].name, d.relationshipTypes[j].name))
            && (forall i, j :: 0 <= i < j < |d.agents| ==> Less(d.agents[i].name, d.agents[j].name))
  {
    hide Less, Properties, TypeRow, RelationshipRow, AgentRow, Union, Index;
    TypesByName(base.objectTypes, target.objectTypes);
    RelationshipsByName(base.relationshipTypes, target.relationshipTypes);
    AgentsByName(base.agents, target.agents);
  }

  lemma SortedRows<D(!new)>(names: seq<string>, row: string -> D, name: D -> string)
    requires StrictlySorted(names, Less) && forall n :: name(row(n)) == n
    ensures var rows := Each(names, row); forall i, j :: 0 <= i < j < |rows| ==> Less(name(rows[i]), name(rows[j]))
  {
    hide Less;
  }

  lemma TypesByName(base: seq<ObjectType>, target: seq<ObjectType>)
    ensures var rows := ObjectTypes(base, target); forall i, j :: 0 <= i < j < |rows| ==> Less(rows[i].name, rows[j].name)
  {
    hide Less, Index, Properties;
    var b, t := Index(base, TypeName), Index(target, TypeName);
    SortedRows(Union(b, t), n => TypeRowOf(b, t, n), (o: ObjectTypeDiff) => o.name);
  }

  lemma RelationshipsByName(base: seq<Relationship>, target: seq<Relationship>)
    ensures var rows := Relationships(base, target); forall i, j :: 0 <= i < j < |rows| ==> Less(rows[i].name, rows[j].name)
  {
    hide Less, Index, PresenceField;
    var b, t := Index(base, RelationshipName), Index(target, RelationshipName);
    SortedRows(Union(b, t), n => RelationshipRow(n, At(b, n), At(t, n)), (r: RelationshipDiff) => r.name);
  }

  lemma AgentsByName(base: seq<Agent>, target: seq<Agent>)
    ensures var rows := Agents(base, target); forall i, j :: 0 <= i < j < |rows| ==> Less(rows[i].name, rows[j].name)
  {
    hide Less, Index, PresenceField, ChipsOf;
    var b, t := Index(base, AgentName), Index(target, AgentName);
    SortedRows(Union(b, t), n => AgentRow(n, At(b, n), At(t, n)), (a: AgentDiff) => a.name);
  }
}
