/**
 The available-blueprints list (blueprints.go): the greatest published version per name, without
 what is already applied, sorted by name.
 */
module BlueprintList {
  import opened Options
  import opened Order
  import opened Versions

  datatype Record = Record(id: string, name: string, version: string, status: string, origin: string, about: string)
  datatype Applied = Applied(name: string, version: string, blueprintId: string)
  datatype Item = Item(id: string, name: string, version: string, about: string, source: string, origin: string, upgrade: bool)

  function BlueprintSource(origin: string): string {
    if origin == "builtin" then "builtin" else "registry"
  }

  predicate Published(r: Record) {
    r.status != "draft"
  }

  // ----- the code's tables -----

  /** The collapse loop: a record replaces the one held for its name only if strictly newer. */
  function Latest(records: seq<Record>): map<string, Record> {
    if records == [] then map[]
    else
      var n := |records| - 1;
      var m, r := Latest(records[..n]), records[n];
      if Published(r) && (r.name !in m || Newer(r.version, m[r.name].version)) then m[r.name := r] else m
  }

  function AppliedVersions(applied: seq<Applied>): map<string, string> {
    if applied == [] then map[]
    else
      var n := |applied| - 1;
      AppliedVersions(applied[..n])[applied[n].name := applied[n].version]
  }

  /** What is listed for the newest record of a name. */
  function Listed(r: Record, versions: map<string, string>, ids: set<string>): Option<Item> {
    if r.name in versions then
      if Newer(r.version, versions[r.name]) then Some(ItemOf(r, true)) else None
    else if r.id in ids then None
    else Some(ItemOf(r, false))
  }

  function ItemOf(r: Record, upgrade: bool): Item {
    Item(r.id, r.name, r.version, r.about, BlueprintSource(r.origin), r.origin, upgrade)
  }

  function Ids(applied: seq<Applied>): (r: set<string>)
    ensures forall x :: x in r <==> exists a :: a in applied && a.blueprintId == x
  {
    set a | a in applied :: a.blueprintId
  }

  predicate ItemLess(a: Item, b: Item) {
    Less(a.name, b.name)
  }

  ghost predicate IsAvailable(records: seq<Record>, applied: seq<Applied>, out: seq<Item>) {
    && StrictlySorted(out, ItemLess)
    && forall x :: x in out <==>
         exists k :: k in Latest(records) && Listed(Latest(records)[k], AppliedVersions(applied), Ids(applied)) == Some(x)
  }

  // ----- the code -----

  method CollapseLatest(records: seq<Record>) returns (latest: map<string, Record>)
    ensures latest == Latest(records)
  {
    hide Newer;
    latest := map[];
    for i := 0 to |records|
      invariant latest == Latest(records[..i])
    {
      assert records[..i + 1][..i] == records[..i];
      var r := records[i];
      if r.status == "draft" {
        continue;
      }
      if r.name !in latest || Newer(r.version, latest[r.name].version) {
        latest := latest[r.name := r];
      }
    }
    assert records[..|records|] == records;
  }

  method IndexApplied(applied: seq<Applied>) returns (versions: map<string, string>, ids: set<string>)
    ensures versions == AppliedVersions(applied) && ids == Ids(applied)
  {
    versions, ids := map[], {};
    for i := 0 to |applied|
      invariant versions == AppliedVersions(applied[..i]) && ids == Ids(applied[..i])
    {
      assert applied[..i + 1][..i] == applied[..i];
      versions := versions[applied[i].name := applied[i].version];
      ids := ids + {applied[i].blueprintId};
    }
    assert applied[..|applied|] == applied;
  }

  /** buildAvailableList. The last loop walks a Go map, in any order, before the final sort. */
  method BuildAvailableList(records: seq<Record>, applied: seq<Applied>) returns (out: seq<Item>)
    ensures IsAvailable(records, applied, out)
  {
    hide Newer, Less, Sort, AppliedVersions, Ids;
    var versions, ids := IndexApplied(applied);
    var latest := CollapseLatest(records);
    LatestKeyed(records);
    var items: seq<Item> := [];
    var todo := latest.Keys;
    while todo != {}
      invariant todo <= latest.Keys
      invariant forall x :: x in items <==> exists k :: k in latest && k !in todo && Listed(latest[k], versions, ids) == Some(x)
      invariant forall i, j :: 0 <= i < j < |items| ==> items[i].name != items[j].name
    {
      var name :| name in todo;
      var r := latest[name];
      assert forall x | x in items :: x.name != name;
      ghost var before := items;
      if name in versions {
        if Newer(r.version, versions[name]) {
          items := items + [ItemOf(r, true)];
        }
      } else if r.id !in ids {
        items := items + [ItemOf(r, false)];
      }
      assert Listed(r, versions, ids).None? ==> items == before;
      assert Listed(r, versions, ids).Some? ==> items == before + [Listed(r, versions, ids).value];
      todo := todo - {name};
    }
    ItemsSorted(items);
    out := Sort(items, ItemLess);
  }

  lemma ItemsSorted(items: seq<Item>)
    requires forall i, j :: 0 <= i < j < |items| ==> items[i].name != items[j].name
    ensures StrictlySorted(Sort(items, ItemLess), ItemLess)
    ensures forall x :: x in Sort(items, ItemLess) <==> x in items
  {
    hide Less, Sort;
    LessStrictTotal();
    forall x, y | x in items && y in items
      ensures x == y || ItemLess(x, y) || ItemLess(y, x)
    {
      LessTotal(x.name, y.name);
    }
    SortStrict(items, ItemLess);
  }

  lemma {:induction false} LatestKeyed(records: seq<Record>)
    ensures forall k | k in Latest(records) :: Latest(records)[k].name == k
  {
    if records != [] {
      LatestKeyed(records[..|records| - 1]);
    }
  }

  // ----- what the list means -----

  /** r is the newest published record of its name: no other one is newer. */
  ghost predicate Greatest(records: seq<Record>, r: Record) {
    && r in records && Published(r)
    && forall s | s in records && Published(s) && s.name == r.name :: s.version == r.version || Newer(r.version, s.version)
  }

  /** The collapsed table holds the greatest published version of every published name. */
  lemma {:induction false} LatestIsGreatest(records: seq<Record>, k: string)
    ensures k in Latest(records) <==> exists r :: r in records && Published(r) && r.name == k
    ensures k in Latest(records) ==> Greatest(records, Latest(records)[k]) && Latest(records)[k].name == k
  {
    hide Newer;
    if records != [] {
      var n := |records| - 1;
      var r := records[n];
      assert records == records[..n] + [r];
      assert forall s :: s in records <==> s in records[..n] || s == r;
      LatestIsGreatest(records[..n], k);
      if Published(r) && r.name == k && k in Latest(records[..n]) {
        var held := Latest(records[..n])[k];
        NewerTotal(r.version, held.version);
        forall s | s in records && Published(s) && s.name == k
          ensures s.version == Latest(records)[k].version || Newer(Latest(records)[k].version, s.version)
        {
          if Newer(r.version, held.version) && s != r && s.version != held.version {
            NewerTransitive(r.version, held.version, s.version);
          }
        }
      }
    }
  }

  /** Each listed item is the greatest published version of its name and is offered for a reason:
      nothing of that name is applied (nor its id), or what is applied is strictly older. */
  lemma ListedForAReason(records: seq<Record>, applied: seq<Applied>, out: seq<Item>, x: Item) returns (r: Record)
    requires IsAvailable(records, applied, out) && x in out
    ensures Greatest(records, r) && x == ItemOf(r, x.upgrade)
    ensures x.upgrade <==> x.name in AppliedVersions(applied)
    ensures x.upgrade ==> Newer(x.version, AppliedVersions(applied)[x.name])
    ensures !x.upgrade ==> forall a | a in applied :: a.name != x.name && a.blueprintId != x.id
  {
    hide Newer, Less;
    var m := Latest(records);
    var k :| k in m && Listed(m[k], AppliedVersions(applied), Ids(applied)) == Some(x);
    LatestIsGreatest(records, k);
    AppliedNames(applied);
    r := m[k];
  }

  lemma {:induction false} AppliedNames(applied: seq<Applied>)
    ensures forall a | a in applied :: a.name in AppliedVersions(applied)
  {
    if applied != [] {
      var n := |applied| - 1;
      assert applied == applied[..n] + [applied[n]];
      AppliedNames(applied[..n]);
    }
  }

  /** Nothing is left out: the greatest published version of a name is missing only when that name is
      applied at a version not older, or, under another name, its id is applied. */
  lemma OmittedForAReason(records: seq<Record>, applied: seq<Applied>, out: seq<Item>, name: string) returns (r: Record)
    requires IsAvailable(records, applied, out)
    requires exists r :: r in records && Published(r) && r.name == name
    ensures Greatest(records, r) && r.name == name
    ensures (exists x :: x in out && x.name == name) <==>
            if name in AppliedVersions(applied) then Newer(r.version, AppliedVersions(applied)[name])
            else forall a | a in applied :: a.blueprintId != r.id
  {
    hide Newer, Less, Latest, AppliedVersions, Ids, Greatest;
    LatestIsGreatest(records, name);
    r := Latest(records)[name];
    ListedIffItem(records, applied, out, name);
  }

  lemma {:induction false} ListedIffItem(records: seq<Record>, applied: seq<Applied>, out: seq<Item>, name: string)
    requires IsAvailable(records, applied, out) && name in Latest(records)
    ensures (exists x :: x in out && x.name == name) <==>
            Listed(Latest(records)[name], AppliedVersions(applied), Ids(applied)).Some?
  {
    hide Newer, Less, Latest, AppliedVersions, Ids, StrictlySorted;
    var m, versions, ids := Latest(records), AppliedVersions(applied), Ids(applied);
    LatestKeyed(records);
    if Listed(m[name], versions, ids).Some? {
      assert Listed(m[name], versions, ids).value in out;
    }
    if x :| x in out && x.name == name {
      var k :| k in m && Listed(m[k], versions, ids) == Some(x);
    }
  }

  /** Of records with one name and version the first one stands: only a strictly newer version replaces it. */
  lemma {:induction false} TieKeepsFirst(records: seq<Record>, k: string) returns (i: nat)
    requires k in Latest(records)
    ensures i < |records| && records[i] == Latest(records)[k]
    ensures forall j :: 0 <= j < i && records[j].status != "draft" && records[j].name == k ==>
              records[j].version != Latest(records)[k].version
  {
    hide Newer;
    var n := |records| - 1;
    var r := records[n];
    var m := Latest(records[..n]);
    if Published(r) && r.name == k && (k !in m || Newer(r.version, m[k].version)) {
      i := n;
      LatestIsGreatest(records[..n], k);
      forall j | 0 <= j < n && records[j].status != "draft" && records[j].name == k
        ensures records[j].version != r.version
      {
        assert records[j] in records[..n];
        NewerTotal(r.version, m[k].version);
        NewerTotal(records[j].version, m[k].version);
      }
    } else {
      i := TieKeepsFirst(records[..n], k);
    }
  }

  /** Of several applied rows of one name the last one counts. */
  lemma {:induction false} LastAppliedCounts(applied: seq<Applied>, i: nat)
    requires i < |applied| && forall j :: i < j < |applied| ==> applied[j].name != applied[i].name
    ensures applied[i].name in AppliedVersions(applied) && AppliedVersions(applied)[applied[i].name] == applied[i].version
  {
    var n := |applied| - 1;
    if i < n {
      LastAppliedCounts(applied[..n], i);
    }
  }

  lemma {:induction false} AppliedVersionIs(applied: seq<Applied>, name: string)
    requires name in AppliedVersions(applied)
    ensures exists a :: a in applied && a.name == name && a.version == AppliedVersions(applied)[name]
  {
    var n := |applied| - 1;
    assert applied == applied[..n] + [applied[n]];
    if applied[n].name == name {
      assert applied[n] in applied;
    } else {
      AppliedVersionIs(applied[..n], name);
      var a :| a in applied[..n] && a.name == name && a.version == AppliedVersions(applied)[name];
      assert a in applied;
    }
  }

  /** r is published with a larger major number than every other published record of its name. */
  ghost predicate LargestMajor(records: seq<Record>, r: Record) {
    && r in records && r.status != "draft" && ParseCore(r.version).Some?
    && forall s | s in records && s.status != "draft" && s.name == r.name && s != r ::
         ParseCore(s.version).Some? ==> ParseCore(s.version).value.0 < ParseCore(r.version).value.0
  }

  /** A new major version wins: no other record of its name is ever listed. It is offered as an install
      when neither its name nor its id is applied, as an upgrade when what is applied under its name has
      smaller major numbers, and not at all when that very version is applied. */
  lemma LargestMajorListed(records: seq<Record>, applied: seq<Applied>, out: seq<Item>, r: Record)
    requires IsAvailable(records, applied, out) && LargestMajor(records, r)
    ensures forall x | x in out && x.name == r.name :: 
              && x.id == r.id && x.version == r.version && x.about == r.about && x.origin == r.origin
              && (x.source == "builtin" <==> r.origin == "builtin") && (x.source == "registry" <==> r.origin != "builtin")
    ensures (forall a | a in applied :: a.name != r.name && a.blueprintId != r.id) ==>
              exists x :: x in out && x.name == r.name && !x.upgrade
    ensures (exists a :: a in applied && a.name == r.name) &&
            (forall a | a in applied && a.name == r.name ::
               ParseCore(a.version).Some? && ParseCore(a.version).value.0 < ParseCore(r.version).value.0) ==>
              exists x :: x in out && x.name == r.name && x.upgrade
    ensures (exists a :: a in applied && a.name == r.name) &&
            (forall a | a in applied && a.name == r.name :: a.version == r.version) ==>
              !exists x :: x in out && x.name == r.name
  {
    hide Newer, Less, Latest, AppliedVersions, Ids, ParseCore, LargestMajor, IsAvailable;
    LargestIsGreatest(records, r);
    forall x | x in out && x.name == r.name
      ensures x == ItemOf(r, x.upgrade) && (x.upgrade <==> r.name in AppliedVersions(applied))
    {
      var s := ListedForAReason(records, applied, out, x);
      assert s == r;
    }
    var s := OmittedForAReason(records, applied, out, r.name);
    assert s == r;
    AppliedNames(applied);
    if r.name in AppliedVersions(applied) {
      AppliedVersionIs(applied, r.name);
      var v := AppliedVersions(applied)[r.name];
      var a :| a in applied && a.name == r.name && a.version == v;
      NewerTotal(r.version, v);
      if ParseCore(v).Some? && ParseCore(v).value.0 < ParseCore(r.version).value.0 {
        LargerMajorNewer(records, r, v);
      }
    }
  }

  lemma LargerMajorNewer(records: seq<Record>, r: Record, v: string)
    requires LargestMajor(records, r) && ParseCore(v).Some? && ParseCore(v).value.0 < ParseCore(r.version).value.0
    ensures Newer(r.version, v)
  {
    hide Newer, ParseCore;
    NumbersDecide(r.version, v);
  }

  lemma LargestIsGreatest(records: seq<Record>, r: Record)
    requires LargestMajor(records, r)
    ensures r in records && Published(r) && ParseCore(r.version).Some?
    ensures forall s | Greatest(records, s) && s.name == r.name :: s == r
  {
    hide Newer, ParseCore, Less;
    forall s | Greatest(records, s) && s.name == r.name
      ensures s == r
    {
      if s != r {
        assert Newer(r.version, s.version) by {
          if ParseCore(s.version).Some? {
            NumbersDecide(r.version, s.version);
          } else {
            ParsedIsNewer(r.version, s.version);
          }
        }
        NewerTotal(r.version, s.version);
        assert false;
      }
    }
  }

  /** The list is in name order, each name once. */
  lemma NamesAscend(records: seq<Record>, applied: seq<Applied>, out: seq<Item>)
    requires IsAvailable(records, applied, out)
    ensures forall i, j :: 0 <= i < j < |out| ==> Less(out[i].name, out[j].name)
  {
    hide Less, Latest, Listed;
    assert forall i, j :: 0 <= i < j < |out| ==> ItemLess(out[i], out[j]);
  }

  ghost predicate UniqueVersions(records: seq<Record>) {
    forall r, s | r in records && s in records && r.name == s.name && r.version == s.version :: r == s
  }

  /** When no version of a name is recorded twice, the list does not depend on the order the records
      arrive in. */
  lemma ListOrderFree(records: seq<Record>, records': seq<Record>, applied: seq<Applied>, out: seq<Item>, out': seq<Item>)
    requires multiset(records) == multiset(records') && UniqueVersions(records)
    requires IsAvailable(records, applied, out) && IsAvailable(records', applied, out')
    ensures out == out'
  {
    hide Newer, Less, AppliedVersions, Listed;
    SameBagSameElements(records, records');
    SameLatest(records, records');
    ItemLessAsymmetric();
    SortedUnique(out, out', ItemLess);
  }

  lemma ItemLessAsymmetric()
    ensures forall x, y :: ItemLess(x, y) ==> !ItemLess(y, x)
  {
    hide Less;
    LessStrictTotal();
  }

  lemma {:induction false} SameLatest(records: seq<Record>, records': seq<Record>)
    requires (forall x :: x in records <==> x in records') && UniqueVersions(records)
    ensures Latest(records) == Latest(records')
  {
    hide Newer;
    var m, m' := Latest(records), Latest(records');
    forall k
      ensures k in m <==> k in m'
      ensures k in m && k in m' ==> m[k] == m'[k]
    {
      LatestIsGreatest(records, k);
      LatestIsGreatest(records', k);
      if k in m && k in m' {
        NewerTotal(m[k].version, m'[k].version);
      }
    }
  }
}
