/**
 The chat rail's sub-chat grouping (chat_groups.go): a parent link per conversation, with missing
 parents and corrupt cycles, folded into an ordered forest of root + descendants.
 */
module ChatGroups {
  import opened Order

  /** One conversation of a page. `created` and `updated` are the instants `parseRailTime` reads from
      the two timestamp strings; `title` stands for the fields grouping never looks at. */
  datatype Conversation = Conversation(id: string, parent: string, created: int, updated: int, title: string)

  type ById = map<string, Conversation>

  // ----- the parent graph -----

  ghost predicate WellKeyed(m: ById) {
    forall k | k in m :: m[k].id == k
  }

  /** c is the page's own entry for its id. */
  ghost predicate Visible(m: ById, c: Conversation) {
    c.id in m && m[c.id] == c
  }

  predicate HasParent(m: ById, c: Conversation) {
    c.parent != "" && c.parent in m
  }

  /** One step up; a conversation without a visible parent stays where it is, so that "has no visible
      parent" is a cycle of length one. */
  function Step(m: ById, c: Conversation): Conversation {
    if HasParent(m, c) then m[c.parent] else c
  }

  ghost function Up(m: ById, c: Conversation, n: nat): Conversation {
    if n == 0 then c else Step(m, Up(m, c, n - 1))
  }

  ghost predicate OnCycle(m: ById, c: Conversation) {
    exists p: nat :: p > 0 && Up(m, c, p) == c
  }

  ghost predicate LeastOnOrbit(m: ById, r: Conversation) {
    forall k: nat :: !Less(Up(m, r, k).id, r.id)
  }

  /** What the grouping means by "c belongs under r at depth d": r is the least id of the cycle that
      c's parent chain ends in, and d is the number of hops to its first occurrence. */
  ghost predicate RootedAt(m: ById, c: Conversation, r: Conversation, d: nat) {
    && Up(m, c, d) == r
    && OnCycle(m, r)
    && LeastOnOrbit(m, r)
    && forall i: nat :: i < d ==> Up(m, c, i) != r
  }

  lemma {:induction false} UpAdds(m: ById, c: Conversation, i: nat, j: nat)
    ensures Up(m, Up(m, c, i), j) == Up(m, c, i + j)
  {
    if j > 0 {
      UpAdds(m, c, i, j - 1);
      assert Up(m, c, i + j) == Step(m, Up(m, c, i + j - 1));
    }
  }

  lemma {:induction false} UpVisible(m: ById, c: Conversation, n: nat)
    requires WellKeyed(m) && Visible(m, c)
    ensures Visible(m, Up(m, c, n))
  {
    if n > 0 {
      UpVisible(m, c, n - 1);
    }
  }

  /** A node on a cycle comes back to itself from any point of its orbit. */
  lemma {:induction false} CycleReturns(m: ById, r: Conversation, p: nat, k: nat) returns (q: nat)
    requires p > 0 && Up(m, r, p) == r
    ensures Up(m, Up(m, r, k), q) == r
    decreases k
  {
    if k <= p {
      q := p - k;
      UpAdds(m, r, k, q);
    } else {
      q := CycleReturns(m, r, p, k - p);
      UpAdds(m, r, p, k - p);
    }
  }

  /** Two least nodes whose orbits reach each other are the same node. */
  lemma LeastUnique(m: ById, r: Conversation, s: Conversation, i: nat, j: nat)
    requires WellKeyed(m) && Visible(m, r) && Visible(m, s)
    requires LeastOnOrbit(m, r) && LeastOnOrbit(m, s)
    requires Up(m, r, i) == s && Up(m, s, j) == r
    ensures r == s
  {
    assert !Less(Up(m, r, i).id, r.id) && !Less(Up(m, s, j).id, s.id);
    LessTotal(r.id, s.id);
  }

  /** The root and the depth of a conversation are determined. */
  lemma RootUnique(m: ById, c: Conversation, r: Conversation, d: nat, r': Conversation, d': nat)
    requires WellKeyed(m) && Visible(m, c)
    requires RootedAt(m, c, r, d) && RootedAt(m, c, r', d')
    ensures r == r' && d == d'
  {
    if d <= d' {
      SameRoot(m, c, r, d, r', d');
    } else {
      SameRoot(m, c, r', d', r, d);
    }
  }

  lemma SameRoot(m: ById, c: Conversation, r: Conversation, d: nat, r': Conversation, d': nat)
    requires WellKeyed(m) && Visible(m, c)
    requires RootedAt(m, c, r, d) && RootedAt(m, c, r', d')
    requires d <= d'
    ensures r == r' && d == d'
  {
    UpVisible(m, c, d);
    UpVisible(m, c, d');
    UpAdds(m, c, d, d' - d);
    var p: nat :| p > 0 && Up(m, r, p) == r;
    var q := CycleReturns(m, r, p, d' - d);
    LeastUnique(m, r, r', d' - d, q);
  }

  /** A conversation and its visible parent are in the same group, the parent one level higher,
      unless the conversation is itself the root of a cycle. */
  lemma ParentSharesRoot(m: ById, c: Conversation, r: Conversation, d: nat)
    requires WellKeyed(m) && Visible(m, c) && HasParent(m, c)
    requires RootedAt(m, c, r, d)
    ensures exists e: nat :: RootedAt(m, m[c.parent], r, e)
    ensures d > 0 ==> RootedAt(m, m[c.parent], r, d - 1)
  {
    var b := m[c.parent];
    assert Up(m, c, 1) == Step(m, Up(m, c, 0)) == b;
    if d > 0 {
      UpAdds(m, c, 1, d - 1);
      forall i: nat | i < d - 1
        ensures Up(m, b, i) != r
      {
        UpAdds(m, c, 1, i);
      }
      assert RootedAt(m, b, r, d - 1);
    } else {
      var p: nat :| p > 0 && Up(m, r, p) == r;
      UpAdds(m, c, 1, p - 1);
      var e := FirstVisit(m, b, r, p - 1);
      assert RootedAt(m, b, r, e);
    }
  }

  lemma {:induction false} FirstVisit(m: ById, c: Conversation, r: Conversation, n: nat) returns (e: nat)
    requires Up(m, c, n) == r
    ensures e <= n && Up(m, c, e) == r
    ensures forall i: nat :: i < e ==> Up(m, c, i) != r
  {
    if i: nat :| i < n && Up(m, c, i) == r {
      e := FirstVisit(m, c, r, i);
    } else {
      e := n;
    }
  }

  ghost predicate SmallestOfParentCycle(m: ById, r: Conversation, p: nat) {
    && p > 0
    && Up(m, r, p) == r
    && forall k: nat :: HasParent(m, Up(m, r, k)) && !Less(Up(m, r, k).id, r.id)
  }

  /** A root has no visible parent, or it is the smallest id of a cycle of real parent links. */
  lemma RootShape(m: ById, c: Conversation, r: Conversation, d: nat)
    requires WellKeyed(m) && Visible(m, c) && RootedAt(m, c, r, d)
    ensures !HasParent(m, r) || exists p: nat :: SmallestOfParentCycle(m, r, p)
    ensures d == 0 <==> r == c
  {
    if d > 0 {
      assert Up(m, c, 0) != r;
    }
    if HasParent(m, r) {
      var p: nat :| p > 0 && Up(m, r, p) == r;
      forall k: nat
        ensures HasParent(m, Up(m, r, k))
      {
        var q := CycleReturns(m, r, p, k);
        if !HasParent(m, Up(m, r, k)) {
          StaysPut(m, Up(m, r, k), q);
        }
      }
      assert SmallestOfParentCycle(m, r, p);
    }
  }

  lemma {:induction false} StaysPut(m: ById, c: Conversation, n: nat)
    requires !HasParent(m, c)
    ensures Up(m, c, n) == c
  {
    if n > 0 {
      StaysPut(m, c, n - 1);
    }
  }

  // ----- conversationRoot -----

  /** The orbit of a node that returns after p steps is its first p nodes. */
  lemma {:induction false} OrbitWithinPeriod(m: ById, r: Conversation, p: nat, k: nat) returns (j: nat)
    requires p > 0 && Up(m, r, p) == r
    ensures j < p && Up(m, r, j) == Up(m, r, k)
    decreases k
  {
    if k < p {
      j := k;
    } else {
      UpAdds(m, r, p, k - p);
      j := OrbitWithinPeriod(m, r, p, k - p);
    }
  }

  /** path climbs from c by parent links, one hop at a time, without repeating a conversation. */
  ghost predicate Climb(m: ById, c: Conversation, path: seq<Conversation>) {
    && path != []
    && path[0] == c
    && (forall i :: 1 <= i < |path| ==> path[i] == Step(m, path[i - 1]))
    && forall i, j :: 0 <= i < j < |path| ==> path[i] != path[j]
  }

  lemma {:induction false} ClimbIsUp(m: ById, c: Conversation, path: seq<Conversation>, i: nat)
    requires Climb(m, c, path) && i < |path|
    ensures path[i] == Up(m, c, i)
  {
    if i > 0 {
      ClimbIsUp(m, c, path, i - 1);
    }
  }

  /** The entry of a cycle found on a path, and the least id from there on, make a root. */
  lemma CycleRoot(m: ById, c: Conversation, path: seq<Conversation>, idx: nat, rootIdx: nat)
    requires Climb(m, c, path)
    requires idx <= rootIdx < |path| && Step(m, path[|path| - 1]) == path[idx]
    requires forall i :: idx <= i < |path| ==> !Less(path[i].id, path[rootIdx].id)
    ensures RootedAt(m, c, path[rootIdx], rootIdx)
  {
    forall i | 0 <= i < |path| {
      ClimbIsUp(m, c, path, i);
    }
    assert Up(m, c, |path|) == path[idx];
    var e, r := path[idx], path[rootIdx];
    var p, t := |path| - idx, rootIdx - idx;
    UpAdds(m, c, idx, p);
    UpAdds(m, c, idx, t);
    assert Up(m, e, p) == e && Up(m, e, t) == r;
    UpAdds(m, e, p, t);
    UpAdds(m, e, t, p);
    assert Up(m, r, p) == r;
    forall k: nat
      ensures !Less(Up(m, r, k).id, r.id)
    {
      UpAdds(m, e, t, k);
      var j := OrbitWithinPeriod(m, e, p, t + k);
      UpAdds(m, c, idx, j);
      assert path[idx + j] == Up(m, r, k);
    }
  }

  lemma TopRoot(m: ById, c: Conversation, path: seq<Conversation>)
    requires Climb(m, c, path)
    requires !HasParent(m, path[|path| - 1])
    ensures RootedAt(m, c, path[|path| - 1], |path| - 1)
  {
    var r := path[|path| - 1];
    forall i | 0 <= i < |path| {
      ClimbIsUp(m, c, path, i);
    }
    assert Up(m, r, 1) == Step(m, Up(m, r, 0)) == r;
    forall k: nat
      ensures !Less(Up(m, r, k).id, r.id)
    {
      StaysPut(m, r, k);
      LessIrreflexive(r.id);
    }
  }

  /** The scan of a detected cycle for its smallest id. */
  method SmallestFrom(path: seq<Conversation>, idx: nat) returns (rootIdx: nat)
    requires idx < |path|
    ensures idx <= rootIdx < |path|
    ensures forall j :: idx <= j < |path| ==> !Less(path[j].id, path[rootIdx].id)
  {
    hide Less;
    rootIdx := idx;
    LessIrreflexive(path[idx].id);
    for i := idx + 1 to |path|
      invariant idx <= rootIdx < i
      invariant forall j :: idx <= j < i ==> !Less(path[j].id, path[rootIdx].id)
    {
      if Less(path[i].id, path[rootIdx].id) {
        forall j | idx <= j < i
          ensures !Less(path[j].id, path[i].id)
        {
          if Less(path[j].id, path[i].id) {
            LessTransitive(path[j].id, path[i].id, path[rootIdx].id);
          }
        }
        LessIrreflexive(path[i].id);
        rootIdx := i;
      }
    }
  }

  /** conversationRoot. It terminates for every parent map; for a conversation of the page itself it
      finds the root and the depth. */
  method ConversationRoot(c: Conversation, byId: ById) returns (root: Conversation, depth: nat)
    requires WellKeyed(byId)
    ensures Visible(byId, c) ==> RootedAt(byId, c, root, depth)
  {
    assert Climb(byId, c, [c]);
    hide Climb, RootedAt, Less;
    var path := [c];
    var seen := map[c.id := 0];
    var cur := c;
    while cur.parent != ""
      invariant path != [] && path[0] == c && cur == path[|path| - 1]
      invariant Climb(byId, c, path)
      invariant forall i :: 0 <= i < |path| ==> path[i].id in seen && seen[path[i].id] == i
      invariant forall k :: k in seen ==> 0 <= seen[k] < |path| && path[seen[k]].id == k
      invariant forall i :: 1 <= i < |path| ==> Visible(byId, path[i])
      decreases byId.Keys - seen.Keys
    {
      if cur.parent !in byId {
        break;
      }
      var parent := byId[cur.parent];
      if parent.id in seen {
        var idx := seen[parent.id];
        depth := SmallestFrom(path, idx);
        root := path[depth];
        if Visible(byId, c) {
          CycleRoot(byId, c, path, idx, depth);
        }
        return;
      }
      assert parent.id in byId.Keys - seen.Keys;
      ClimbNext(byId, c, path, parent);
      seen := seen[parent.id := |path|];
      path := path + [parent];
      cur := parent;
    }
    TopRoot(byId, c, path);
    return cur, |path| - 1;
  }

  lemma ClimbNext(m: ById, c: Conversation, path: seq<Conversation>, parent: Conversation)
    requires Climb(m, c, path) && parent == Step(m, path[|path| - 1])
    requires forall i :: 0 <= i < |path| ==> path[i] != parent
    ensures Climb(m, c, path + [parent])
  {
  }

  // ----- groupConversations: what it promises -----

  datatype Descendant = Descendant(conv: Conversation, depth: nat)
  datatype Group = Group(root: Conversation, descendants: seq<Descendant>, expanded: bool, latest: int)

  /** Spawn order: created instant, then id. */
  predicate DescLess(a: Descendant, b: Descendant) {
    if a.conv.created == b.conv.created then Less(a.conv.id, b.conv.id) else a.conv.created < b.conv.created
  }

  /** Rail order: newest subtree first, then root id. */
  predicate GroupLess(a: Group, b: Group) {
    if a.latest == b.latest then Less(a.root.id, b.root.id) else a.latest > b.latest
  }

  ghost predicate UniqueIds(convs: seq<Conversation>) {
    forall i, j :: 0 <= i < j < |convs| ==> convs[i].id != convs[j].id
  }

  /** The page's entries by id; a repeated id keeps its last entry. */
  function Index(convs: seq<Conversation>): (m: ById)
    ensures WellKeyed(m)
    ensures forall k | k in m :: m[k] in convs
    ensures forall c | c in convs :: c.id in m
  {
    if convs == [] then map[]
    else
      var n := |convs| - 1;
      assert forall c | c in convs :: c in convs[..n] || c == convs[n];
      Index(convs[..n])[convs[n].id := convs[n]]
  }

  lemma IndexVisible(convs: seq<Conversation>)
    requires UniqueIds(convs)
    ensures forall c :: c in convs <==> Visible(Index(convs), c)
  {
    var m := Index(convs);
    forall c | c in convs
      ensures m[c.id] == c
    {
      var i :| 0 <= i < |convs| && convs[i] == c;
      var j :| 0 <= j < |convs| && convs[j] == m[c.id];
      assert i == j;
    }
  }

  ghost predicate Nested(m: ById, convs: seq<Conversation>, r: Conversation, x: Descendant) {
    x.conv in convs && x.depth > 0 && RootedAt(m, x.conv, r, x.depth)
  }

  ghost predicate Under(m: ById, convs: seq<Conversation>, r: Conversation, c: Conversation) {
    c in convs && exists d: nat :: RootedAt(m, c, r, d)
  }

  ghost predicate OpensBranch(root: Conversation, descendants: seq<Descendant>, activeId: string) {
    (activeId != "" && activeId == root.id) || exists x :: x in descendants && x.conv.id == activeId
  }

  /** One rail group is right: its rows are exactly the conversations rooted there, in spawn order
      with their depths, `latest` is the newest of them, and it is open exactly for the active row. */
  ghost predicate GroupOk(m: ById, convs: seq<Conversation>, activeId: string, g: Group) {
    && g.root in convs
    && RootedAt(m, g.root, g.root, 0)
    && (forall x :: x in g.descendants <==> Nested(m, convs, g.root, x))
    && StrictlySorted(g.descendants, DescLess)
    && (forall c | Under(m, convs, g.root, c) :: c.updated <= g.latest)
    && (exists c :: Under(m, convs, g.root, c) && c.updated == g.latest)
    && g.expanded == OpensBranch(g.root, g.descendants, activeId)
  }

  ghost predicate IsGrouping(convs: seq<Conversation>, activeId: string, out: seq<Group>) {
    var m := Index(convs);
    && (forall g | g in out :: GroupOk(m, convs, activeId, g))
    && (forall c | c in convs :: exists g :: g in out && Under(m, convs, g.root, c))
    && StrictlySorted(out, GroupLess)
  }

  // ----- groupConversations: the code -----

  datatype Grouping = Grouping(root: Conversation, descendants: seq<Descendant>, latest: int)

  function AddTo(groups: map<string, Grouping>, c: Conversation, root: Conversation, depth: nat): map<string, Grouping> {
    var g := if root.id in groups then groups[root.id] else Grouping(root, [], root.updated);
    var g1 := if depth > 0 then g.(descendants := g.descendants + [Descendant(c, depth)]) else g;
    groups[root.id := if c.updated > g1.latest then g1.(latest := c.updated) else g1]
  }

  ghost predicate GroupingOk(m: ById, convs: seq<Conversation>, g: Grouping) {
    && Visible(m, g.root)
    && RootedAt(m, g.root, g.root, 0)
    && (forall x :: x in g.descendants <==> Nested(m, convs, g.root, x))
    && Distinct(g.descendants)
    && g.root.updated <= g.latest
    && (forall c | Under(m, convs, g.root, c) :: c.updated <= g.latest)
    && (g.latest == g.root.updated || exists c :: Under(m, convs, g.root, c) && c.updated == g.latest)
  }

  /** The state of the folding loop after the conversations of `convs`. */
  ghost predicate Folded(m: ById, convs: seq<Conversation>, groups: map<string, Grouping>) {
    && (forall k | k in groups :: groups[k].root.id == k && GroupingOk(m, convs, groups[k]))
    && (forall c | c in convs :: exists k :: k in groups && Under(m, convs, groups[k].root, c))
  }

  lemma FoldStep(m: ById, convs: seq<Conversation>, groups: map<string, Grouping>,
                 c: Conversation, r: Conversation, d: nat)
    requires WellKeyed(m) && Visible(m, c) && c !in convs
    requires forall b | b in convs :: Visible(m, b)
    requires Folded(m, convs, groups) && RootedAt(m, c, r, d)
    ensures Folded(m, convs + [c], AddTo(groups, c, r, d))
  {
    hide RootedAt, GroupingOk, Nested;
    var all, after := convs + [c], AddTo(groups, c, r, d);
    RootVisible(m, c, r, d);
    assert Under(m, all, r, c);
    forall k | k in after
      ensures after[k].root.id == k && GroupingOk(m, all, after[k])
    {
      if k == r.id {
        var g := if k in groups then groups[k] else Grouping(r, [], r.updated);
        if k in groups {
          SameRootId(m, convs, g, r);
        } else {
          NewGrouping(m, convs, groups, r);
        }
        FoldInto(m, convs, g, c, r, d);
      } else {
        FoldPast(m, convs, groups[k], c, r, d);
      }
    }
    forall b | b in all
      ensures exists k :: k in after && Under(m, all, after[k].root, b)
    {
      if b == c {
        if r.id in groups {
          SameRootId(m, convs, groups[r.id], r);
        }
        assert r.id in after && Under(m, all, after[r.id].root, c);
      } else {
        var k :| k in groups && Under(m, convs, groups[k].root, b);
        assert k in after && after[k].root == groups[k].root;
        assert Under(m, all, after[k].root, b);
      }
    }
  }

  lemma RootVisible(m: ById, c: Conversation, r: Conversation, d: nat)
    requires WellKeyed(m) && Visible(m, c) && RootedAt(m, c, r, d)
    ensures Visible(m, r) && RootedAt(m, r, r, 0)
  {
    UpVisible(m, c, d);
  }

  lemma SameRootId(m: ById, convs: seq<Conversation>, g: Grouping, r: Conversation)
    requires Visible(m, r) && GroupingOk(m, convs, g) && g.root.id == r.id
    ensures g.root == r
  {
    hide RootedAt, Under, Nested;
  }

  lemma NewGrouping(m: ById, convs: seq<Conversation>, groups: map<string, Grouping>, r: Conversation)
    requires WellKeyed(m) && Visible(m, r) && RootedAt(m, r, r, 0) && forall b | b in convs :: Visible(m, b)
    requires Folded(m, convs, groups) && r.id !in groups
    ensures GroupingOk(m, convs, Grouping(r, [], r.updated))
  {
    hide RootedAt, Folded, Nested, Under;
    NobodyUnder(m, convs, groups, r);
  }

  /** A root that has no group yet has no conversation yet. */
  lemma NobodyUnder(m: ById, convs: seq<Conversation>, groups: map<string, Grouping>, r: Conversation)
    requires WellKeyed(m) && forall b | b in convs :: Visible(m, b)
    requires Folded(m, convs, groups) && r.id !in groups
    ensures forall b :: !Under(m, convs, r, b)
    ensures forall x :: !Nested(m, convs, r, x)
  {
    forall b
      ensures !Under(m, convs, r, b)
    {
      if b in convs {
        forall d: nat
          ensures !RootedAt(m, b, r, d)
        {
          var k :| k in groups && Under(m, convs, groups[k].root, b);
          var e: nat :| RootedAt(m, b, groups[k].root, e);
          if RootedAt(m, b, r, d) {
            RootUnique(m, b, r, d, groups[k].root, e);
            assert false;
          }
        }
      }
    }
    forall x
      ensures !Nested(m, convs, r, x)
    {
      assert !Under(m, convs, r, x.conv);
    }
  }

  lemma FoldInto(m: ById, convs: seq<Conversation>, g: Grouping, c: Conversation, r: Conversation, d: nat)
    requires WellKeyed(m) && Visible(m, c) && c !in convs
    requires GroupingOk(m, convs, g) && g.root == r && RootedAt(m, c, r, d)
    ensures GroupingOk(m, convs + [c], AddTo(map[r.id := g], c, r, d)[r.id])
  {
    var all, g2 := convs + [c], AddTo(map[r.id := g], c, r, d)[r.id];
    forall x
      ensures x in g2.descendants <==> Nested(m, all, r, x)
    {
      assert x in g2.descendants <==> x in g.descendants || (d > 0 && x == Descendant(c, d));
      if x.conv == c && RootedAt(m, c, r, x.depth) {
        RootUnique(m, c, r, d, r, x.depth);
      }
    }
    assert Under(m, all, r, c);
    forall b
      ensures Under(m, all, r, b) <==> Under(m, convs, r, b) || b == c
    {
    }
    assert forall b | Under(m, convs, r, b) :: Under(m, all, r, b);
    assert Distinct(g2.descendants) by {
      assert d > 0 ==> Descendant(c, d) !in g.descendants;
    }
  }

  lemma FoldPast(m: ById, convs: seq<Conversation>, g: Grouping, c: Conversation, r: Conversation, d: nat)
    requires WellKeyed(m) && Visible(m, c)
    requires GroupingOk(m, convs, g) && g.root != r && RootedAt(m, c, r, d)
    ensures GroupingOk(m, convs + [c], g)
  {
    var all := convs + [c];
    forall e: nat
      ensures !RootedAt(m, c, g.root, e)
    {
      if RootedAt(m, c, g.root, e) {
        RootUnique(m, c, r, d, g.root, e);
      }
    }
    forall x
      ensures Nested(m, all, g.root, x) <==> Nested(m, convs, g.root, x)
    {
    }
    forall b
      ensures Under(m, all, g.root, b) <==> Under(m, convs, g.root, b)
    {
    }
  }

  function Finish(g: Grouping, activeId: string): Group {
    var ds := Sort(g.descendants, DescLess);
    Group(g.root, ds, (activeId != "" && activeId == g.root.id) || exists d | d in ds :: d.conv.id == activeId, g.latest)
  }

  lemma DescLessWeak(s: seq<Descendant>)
    ensures WeakOn(s, DescLess)
  {
    LessStrictTotal();
  }

  lemma GroupLessWeak(s: seq<Group>)
    ensures WeakOn(s, GroupLess)
  {
    LessStrictTotal();
  }

  lemma FinishOk(m: ById, convs: seq<Conversation>, g: Grouping, activeId: string)
    requires WellKeyed(m) && forall c :: c in convs <==> Visible(m, c)
    requires GroupingOk(m, convs, g)
    ensures GroupOk(m, convs, activeId, Finish(g, activeId))
  {
    DescLessWeak(g.descendants);
    forall x, y | x in g.descendants && y in g.descendants
      ensures x == y || DescLess(x, y) || DescLess(y, x)
    {
      LessTotal(x.conv.id, y.conv.id);
      if x.conv.id == y.conv.id {
        assert x.conv == y.conv;
        RootUnique(m, x.conv, g.root, x.depth, g.root, y.depth);
      }
    }
    SortStrict(g.descendants, DescLess);
    assert Under(m, convs, g.root, g.root);
  }

  /** The first loop of groupConversations: the id index. */
  method BuildIndex(convs: seq<Conversation>) returns (byId: ById)
    ensures byId == Index(convs)
  {
    byId := map[];
    for i := 0 to |convs|
      invariant byId == Index(convs[..i])
    {
      assert convs[..i + 1][..i] == convs[..i];
      byId := byId[convs[i].id := convs[i]];
    }
    assert convs[..|convs|] == convs;
  }

  /** One round of the second loop: c joins the group of its root. */
  method AddConversation(groups: map<string, Grouping>, order: seq<string>, c: Conversation, root: Conversation, depth: nat)
    returns (groups': map<string, Grouping>, order': seq<string>)
    requires Distinct(order) && forall k :: k in order <==> k in groups
    ensures Distinct(order') && forall k :: k in order' <==> k in groups'
    ensures groups' == AddTo(groups, c, root, depth)
  {
    groups', order' := groups, order;
    if root.id !in groups' {
      groups' := groups'[root.id := Grouping(root, [], root.updated)];
      order' := order' + [root.id];
    }
    var g := groups'[root.id];
    if depth > 0 {
      g := g.(descendants := g.descendants + [Descendant(c, depth)]);
      groups' := groups'[root.id := g];
    }
    if c.updated > g.latest {
      groups' := groups'[root.id := g.(latest := c.updated)];
    }
  }

  lemma {:induction false} FoldNext(convs: seq<Conversation>, i: nat, groups: map<string, Grouping>, root: Conversation, depth: nat)
    requires UniqueIds(convs) && i < |convs|
    requires Folded(Index(convs), convs[..i], groups)
    requires Visible(Index(convs), convs[i]) ==> RootedAt(Index(convs), convs[i], root, depth)
    ensures Folded(Index(convs), convs[..i + 1], AddTo(groups, convs[i], root, depth))
  {
    hide GroupingOk, RootedAt, Less, AddTo, Index, Under, Visible, Folded, UniqueIds;
    IndexVisible(convs);
    assert convs[..i + 1] == convs[..i] + [convs[i]];
    assert convs[i] in convs && forall b | b in convs[..i] :: b in convs;
    NotEarlier(convs, i);
    FoldStep(Index(convs), convs[..i], groups, convs[i], root, depth);
  }

  lemma NotEarlier(convs: seq<Conversation>, i: nat)
    requires UniqueIds(convs) && i < |convs|
    ensures convs[i] !in convs[..i]
  {
  }

  /** The second loop of groupConversations: every conversation joins the group of its root. */
  method FoldPage(convs: seq<Conversation>, byId: ById) returns (groups: map<string, Grouping>, order: seq<string>)
    requires byId == Index(convs)
    ensures Distinct(order) && forall k :: k in order <==> k in groups
    ensures UniqueIds(convs) ==> Folded(byId, convs, groups)
  {
    hide GroupingOk, RootedAt, Less, AddTo, Index, UniqueIds, Under;
    groups, order := map[], [];
    for i := 0 to |convs|
      invariant Distinct(order) && forall k :: k in order <==> k in groups
      invariant UniqueIds(convs) ==> Folded(byId, convs[..i], groups)
    {
      var c := convs[i];
      var root, depth := ConversationRoot(c, byId);
      if UniqueIds(convs) {
        FoldNext(convs, i, groups, root, depth);
      }
      groups, order := AddConversation(groups, order, c, root, depth);
    }
    assert convs[..|convs|] == convs;
  }

  /** The third loop of groupConversations: sort each group's rows and open the active branch. */
  method RenderGroups(groups: map<string, Grouping>, order: seq<string>, activeId: string) returns (page: seq<Group>)
    requires forall k | k in order :: k in groups
    ensures |page| == |order|
    ensures forall j :: 0 <= j < |order| ==> page[j] == Finish(groups[order[j]], activeId)
  {
    hide Sort, GroupingOk, Less;
    page := [];
    for i := 0 to |order|
      invariant |page| == i
      invariant forall j :: 0 <= j < i ==> page[j] == Finish(groups[order[j]], activeId)
    {
      var g := groups[order[i]];
      var descendants := Sort(g.descendants, DescLess);
      var expanded := activeId != "" && activeId == g.root.id;
      if !expanded {
        for j := 0 to |descendants|
          invariant !expanded && forall l :: 0 <= l < j ==> descendants[l].conv.id != activeId
        {
          if descendants[j].conv.id == activeId {
            expanded := true;
            break;
          }
        }
      }
      page := page + [Group(g.root, descendants, expanded, g.latest)];
    }
  }

  /** groupConversations. */
  method GroupConversations(convs: seq<Conversation>, activeId: string) returns (out: seq<Group>)
    ensures UniqueIds(convs) ==> IsGrouping(convs, activeId, out)
  {
    hide GroupOk, GroupingOk, Less, Sort, Finish, RootedAt;
    if |convs| == 0 {
      return [];
    }
    var byId := BuildIndex(convs);
    var groups, order := FoldPage(convs, byId);
    var page := RenderGroups(groups, order, activeId);
    out := Sort(page, GroupLess);
    if UniqueIds(convs) {
      PageGroupsOk(convs, activeId, groups, order, page);
      PageSorted(groups, order, activeId, page);
      PageCovers(convs, groups, order, activeId, page);
    }
  }

  lemma PageGroupsOk(convs: seq<Conversation>, activeId: string, groups: map<string, Grouping>,
                     order: seq<string>, page: seq<Group>)
    requires UniqueIds(convs) && Folded(Index(convs), convs, groups)
    requires |page| == |order| && forall k | k in order :: k in groups
    requires forall j :: 0 <= j < |page| ==> page[j] == Finish(groups[order[j]], activeId)
    ensures forall g | g in Sort(page, GroupLess) :: GroupOk(Index(convs), convs, activeId, g)
  {
    hide GroupOk, GroupingOk, Less, Sort, Finish, RootedAt, Index, Under;
    IndexVisible(convs);
    SortElements(page, GroupLess);
    forall g | g in page
      ensures GroupOk(Index(convs), convs, activeId, g)
    {
      var j :| 0 <= j < |page| && page[j] == g;
      FinishOk(Index(convs), convs, groups[order[j]], activeId);
    }
  }

  lemma {:induction false} PageSorted(groups: map<string, Grouping>, order: seq<string>, activeId: string, page: seq<Group>)
    requires Distinct(order)
    requires |page| == |order| && forall k | k in order :: k in groups && groups[k].root.id == k
    requires forall j :: 0 <= j < |page| ==> page[j] == Finish(groups[order[j]], activeId)
    ensures StrictlySorted(Sort(page, GroupLess), GroupLess)
  {
    forall i, j | 0 <= i < j < |page|
      ensures page[i].root.id != page[j].root.id
    {
      assert order[i] in order && order[j] in order;
    }
    GroupLessWeak(page);
    forall x, y | x in page && y in page
      ensures x == y || GroupLess(x, y) || GroupLess(y, x)
    {
      LessTotal(x.root.id, y.root.id);
    }
    SortStrict(page, GroupLess);
  }

  lemma PageCovers(convs: seq<Conversation>, groups: map<string, Grouping>, order: seq<string>,
                   activeId: string, page: seq<Group>)
    requires Folded(Index(convs), convs, groups)
    requires |page| == |order| && forall k :: k in order <==> k in groups
    requires forall j :: 0 <= j < |page| ==> page[j] == Finish(groups[order[j]], activeId)
    ensures forall c | c in convs :: exists g :: g in Sort(page, GroupLess) && Under(Index(convs), convs, g.root, c)
  {
    hide GroupingOk, Less, Sort, RootedAt, Under;
    SortElements(page, GroupLess);
    forall c | c in convs
      ensures exists g :: g in Sort(page, GroupLess) && Under(Index(convs), convs, g.root, c)
    {
      var k :| k in groups && Under(Index(convs), convs, groups[k].root, c);
      var j :| 0 <= j < |order| && order[j] == k;
      assert page[j] in page;
      assert Under(Index(convs), convs, page[j].root, c);
    }
  }

  // ----- what a grouping means -----

  function Convs(ds: seq<Descendant>): (r: seq<Conversation>)
    ensures |r| == |ds| && forall i :: 0 <= i < |ds| ==> r[i] == ds[i].conv
  {
    if ds == [] then [] else [ds[0].conv] + Convs(ds[1..])
  }

  function RowsOf(g: Group): seq<Conversation> {
    [g.root] + Convs(g.descendants)
  }

  /** All rows of the rail, in the order they render. */
  function Rows(out: seq<Group>): seq<Conversation> {
    if out == [] then [] else RowsOf(out[0]) + Rows(out[1..])
  }

  /** The rows of a group are the conversations rooted there, each once. */
  lemma RowsOfGroup(convs: seq<Conversation>, activeId: string, g: Group)
    requires UniqueIds(convs) && GroupOk(Index(convs), convs, activeId, g)
    ensures Distinct(RowsOf(g))
    ensures forall x :: x in RowsOf(g) <==> Under(Index(convs), convs, g.root, x)
  {
    hide Index, UniqueIds, Less, RootedAt;
    var m, ds := Index(convs), g.descendants;
    forall i | 0 <= i < |ds|
      ensures Nested(m, convs, g.root, ds[i]) && ds[i].conv != g.root
    {
      assert ds[i] in ds;
      DepthMeans(m, ds[i].conv, g.root, ds[i].depth);
    }
    forall i, j | 0 <= i < j < |ds|
      ensures ds[i].conv != ds[j].conv
    {
      assert DescLess(ds[i], ds[j]);
      LessIrreflexive(ds[i].conv.id);
    }
    forall x
      ensures x in RowsOf(g) <==> Under(m, convs, g.root, x)
    {
      if Under(m, convs, g.root, x) {
        var d: nat :| RootedAt(m, x, g.root, d);
        if d > 0 {
          assert Nested(m, convs, g.root, Descendant(x, d));
          var i :| 0 <= i < |ds| && ds[i] == Descendant(x, d);
          assert Convs(ds)[i] == x;
        } else {
          DepthMeans(m, x, g.root, 0);
        }
      }
    }
  }

  lemma DepthMeans(m: ById, c: Conversation, r: Conversation, d: nat)
    requires RootedAt(m, c, r, d)
    ensures d == 0 <==> c == r
  {
    if d > 0 {
      assert Up(m, c, 0) != r;
    }
  }

  ghost predicate DistinctRoots(out: seq<Group>) {
    forall i, j :: 0 <= i < j < |out| ==> out[i].root != out[j].root
  }

  lemma {:induction false} RowsDistinct(convs: seq<Conversation>, activeId: string, out: seq<Group>)
    requires UniqueIds(convs) && forall g | g in out :: GroupOk(Index(convs), convs, activeId, g)
    requires DistinctRoots(out)
    ensures Distinct(Rows(out))
    ensures forall x :: x in Rows(out) <==> exists g :: g in out && Under(Index(convs), convs, g.root, x)
  {
    hide GroupOk, Index, UniqueIds, RootedAt;
    if out != [] {
      var g := out[0];
      assert forall h | h in out[1..] :: h in out;
      RowsOfGroup(convs, activeId, g);
      RowsDistinct(convs, activeId, out[1..]);
      forall x | x in RowsOf(g)
        ensures x !in Rows(out[1..])
      {
        if x in Rows(out[1..]) {
          var h :| h in out[1..] && Under(Index(convs), convs, h.root, x);
          var i :| 0 <= i < |out[1..]| && out[1..][i] == h;
          assert out[0].root != out[i + 1].root;
          UnderUnique(convs, x, g.root, h.root);
          assert false;
        }
      }
      assert forall h :: h in out <==> h == g || h in out[1..];
      DistinctConcat(RowsOf(g), Rows(out[1..]));
    }
  }

  lemma SameRootSameLatest(convs: seq<Conversation>, activeId: string, g: Group, h: Group)
    requires GroupOk(Index(convs), convs, activeId, g) && GroupOk(Index(convs), convs, activeId, h)
    requires g.root == h.root
    ensures g.latest == h.latest
    ensures Under(Index(convs), convs, g.root, g.root)
  {
    hide Index, Less, RootedAt, Under;
    assert Under(Index(convs), convs, g.root, g.root) by {
      RootUnder(convs, activeId, g);
    }
    var m := Index(convs);
    var b :| Under(m, convs, g.root, b) && b.updated == g.latest;
    var c :| Under(m, convs, h.root, c) && c.updated == h.latest;
    assert b.updated <= h.latest && c.updated <= g.latest;
  }

  lemma RootUnder(convs: seq<Conversation>, activeId: string, g: Group)
    requires GroupOk(Index(convs), convs, activeId, g)
    ensures Under(Index(convs), convs, g.root, g.root) && g.root in convs
  {
    hide Index, Less, RootedAt;
  }

  lemma UnderUnique(convs: seq<Conversation>, c: Conversation, r: Conversation, s: Conversation)
    requires UniqueIds(convs)
    requires Under(Index(convs), convs, r, c) && Under(Index(convs), convs, s, c)
    ensures r == s
  {
    hide Index, UniqueIds;
    IndexVisible(convs);
    var d: nat :| RootedAt(Index(convs), c, r, d);
    var e: nat :| RootedAt(Index(convs), c, s, e);
    RootUnique(Index(convs), c, r, d, s, e);
  }

  lemma GroupingRoots(convs: seq<Conversation>, activeId: string, out: seq<Group>)
    requires UniqueIds(convs) && IsGrouping(convs, activeId, out)
    ensures DistinctRoots(out)
  {
    hide Index, UniqueIds, GroupOk;
    forall i, j | 0 <= i < j < |out|
      ensures out[i].root != out[j].root
    {
      var g, h := out[i], out[j];
      assert g in out && h in out && GroupLess(g, h);
      LessIrreflexive(g.root.id);
      if g.root == h.root {
        SameRootSameLatest(convs, activeId, g, h);
        assert false;
      }
    }
  }

  /** No conversation is dropped and none renders twice: the rail's rows are a permutation of the
      page, whatever its parent links look like. */
  lemma RailIsPermutation(convs: seq<Conversation>, activeId: string, out: seq<Group>)
    requires UniqueIds(convs) && IsGrouping(convs, activeId, out)
    ensures multiset(Rows(out)) == multiset(convs)
  {
    hide Index, GroupOk, RootedAt, Less;
    GroupingRoots(convs, activeId, out);
    RowsDistinct(convs, activeId, out);
    forall x
      ensures x in Rows(out) <==> x in convs
    {
    }
    DistinctSameBag(Rows(out), convs);
  }

  /** The one group that holds the active conversation is the one that renders expanded. */
  lemma ActiveBranchOnly(convs: seq<Conversation>, activeId: string, out: seq<Group>, g: Group)
    requires UniqueIds(convs) && IsGrouping(convs, activeId, out) && g in out && activeId != ""
    ensures g.expanded <==> exists c: Conversation :: c.id == activeId && Under(Index(convs), convs, g.root, c)
    ensures forall h | h in out && h.expanded && g.expanded :: h == g
  {
    hide Index, RootedAt, Less, GroupOk, UniqueIds, Under;
    ExpandedUnder(convs, activeId, g);
    GroupingRoots(convs, activeId, out);
    forall h | h in out && h.expanded && g.expanded
      ensures h == g
    {
      ExpandedUnder(convs, activeId, h);
      var b: Conversation :| b.id == activeId && Under(Index(convs), convs, g.root, b);
      var c: Conversation :| c.id == activeId && Under(Index(convs), convs, h.root, c);
      SameId(convs, b, g.root, c, h.root);
      UnderUnique(convs, b, g.root, h.root);
    }
  }

  lemma SameId(convs: seq<Conversation>, b: Conversation, r: Conversation, c: Conversation, s: Conversation)
    requires UniqueIds(convs) && b.id == c.id
    requires Under(Index(convs), convs, r, b) && Under(Index(convs), convs, s, c)
    ensures b == c
  {
    hide Index, RootedAt, UniqueIds;
    IndexVisible(convs);
  }

  lemma ExpandedUnder(convs: seq<Conversation>, activeId: string, g: Group)
    requires UniqueIds(convs) && GroupOk(Index(convs), convs, activeId, g) && activeId != ""
    ensures g.expanded <==> exists c: Conversation :: c.id == activeId && Under(Index(convs), convs, g.root, c)
  {
    hide Index, UniqueIds, Less, GroupOk, Under, OpensBranch, RowsOf;
    RowsOfGroup(convs, activeId, g);
    OpensItsRows(g, activeId);
    assert g.expanded == OpensBranch(g.root, g.descendants, activeId) by {
      ExpandedIsOpen(convs, activeId, g);
    }
  }

  lemma ExpandedIsOpen(convs: seq<Conversation>, activeId: string, g: Group)
    requires GroupOk(Index(convs), convs, activeId, g)
    ensures g.expanded == OpensBranch(g.root, g.descendants, activeId)
  {
    hide Index, RootedAt, Under, Nested, OpensBranch, StrictlySorted;
  }

  lemma OpensItsRows(g: Group, activeId: string)
    requires activeId != ""
    ensures OpensBranch(g.root, g.descendants, activeId) <==> exists c :: c in RowsOf(g) && c.id == activeId
  {
    var ds, rows := g.descendants, RowsOf(g);
    if x :| x in ds && x.conv.id == activeId {
      var i :| 0 <= i < |ds| && ds[i] == x;
      assert rows[i + 1] == x.conv;
    }
    assert rows[0] == g.root;
    if c :| c in rows && c.id == activeId && c != g.root {
      var i :| 0 <= i < |rows| && rows[i] == c;
      assert ds[i - 1] in ds;
    }
  }

  /** The rail's order: the group with the newer `latest` stands first; on a tie the smaller root id does. */
  lemma NewestGroupFirst(convs: seq<Conversation>, activeId: string, out: seq<Group>, i: nat, j: nat)
    requires UniqueIds(convs) && IsGrouping(convs, activeId, out)
    requires i < |out| && j < |out| && i != j
    ensures i < j <==> out[i].latest > out[j].latest ||
                       (out[i].latest == out[j].latest && Less(out[i].root.id, out[j].root.id))
  {
    hide Index, UniqueIds, GroupOk, Less;
    LessStrictTotal();
    if i < j {
      assert GroupLess(out[i], out[j]);
    } else {
      assert GroupLess(out[j], out[i]);
    }
  }

  /** In terms of the conversations: a subtree with a conversation newer than everything in another one
      stands above it, however old its root is. */
  lemma NewerSubtreeFirst(convs: seq<Conversation>, activeId: string, out: seq<Group>, i: nat, j: nat, c: Conversation)
    requires UniqueIds(convs) && IsGrouping(convs, activeId, out)
    requires i < |out| && j < |out| && Under(Index(convs), convs, out[i].root, c)
    requires forall b | Under(Index(convs), convs, out[j].root, b) :: b.updated < c.updated
    ensures i < j
  {
    hide Index, UniqueIds, Less, GroupOk, Under, GroupLess;
    assert out[i] in out && out[j] in out;
    LatestBounds(convs, activeId, out[i]);
    LatestBounds(convs, activeId, out[j]);
    var b :| Under(Index(convs), convs, out[j].root, b) && b.updated == out[j].latest;
    assert out[i].latest >= c.updated > out[j].latest;
    NewestGroupFirst(convs, activeId, out, i, j);
  }

  lemma LatestBounds(convs: seq<Conversation>, activeId: string, g: Group)
    requires GroupOk(Index(convs), convs, activeId, g)
    ensures forall c | Under(Index(convs), convs, g.root, c) :: c.updated <= g.latest
    ensures exists c :: Under(Index(convs), convs, g.root, c) && c.updated == g.latest
  {
    hide Index, Nested, RootedAt, Under, OpensBranch, StrictlySorted;
  }

  lemma RowsSorted(convs: seq<Conversation>, activeId: string, g: Group)
    requires GroupOk(Index(convs), convs, activeId, g)
    ensures StrictlySorted(g.descendants, DescLess)
  {
    hide Index, Nested, RootedAt, Under, OpensBranch, StrictlySorted;
  }

  /** The rows of a group stand in spawn order: the older conversation first, on a tie the smaller id. */
  lemma OldestRowFirst(convs: seq<Conversation>, activeId: string, out: seq<Group>, g: Group, i: nat, j: nat)
    requires UniqueIds(convs) && IsGrouping(convs, activeId, out) && g in out
    requires i < |g.descendants| && j < |g.descendants| && i != j
    ensures var a, b := g.descendants[i].conv, g.descendants[j].conv;
            i < j <==> a.created < b.created || (a.created == b.created && Less(a.id, b.id))
  {
    hide Index, UniqueIds, Less, GroupOk;
    LessStrictTotal();
    RowsSorted(convs, activeId, g);
    if i < j {
      assert DescLess(g.descendants[i], g.descendants[j]);
    } else {
      assert DescLess(g.descendants[j], g.descendants[i]);
    }
  }

  /** The rail depends on the set of conversations only, not on the order the page lists them in. */
  lemma GroupingOrderFree(convs: seq<Conversation>, convs': seq<Conversation>, activeId: string,
                          out: seq<Group>, out': seq<Group>)
    requires UniqueIds(convs) && UniqueIds(convs') && multiset(convs) == multiset(convs')
    requires IsGrouping(convs, activeId, out) && IsGrouping(convs', activeId, out')
    ensures out == out'
  {
    hide GroupOk, RootedAt, Less, UniqueIds;
    SameBagSameElements(convs, convs');
    SameIndex(convs, convs');
    GroupTransfer(convs, convs', activeId, out, out');
    GroupTransfer(convs', convs, activeId, out', out);
    GroupLessAsymmetric();
    SortedUnique(out, out', GroupLess);
  }

  lemma GroupLessAsymmetric()
    ensures forall x, y :: GroupLess(x, y) ==> !GroupLess(y, x)
  {
    hide Less;
    LessStrictTotal();
  }

  lemma SameIndex(convs: seq<Conversation>, convs': seq<Conversation>)
    requires UniqueIds(convs) && UniqueIds(convs') && forall x :: x in convs <==> x in convs'
    ensures Index(convs) == Index(convs')
  {
    hide Index, UniqueIds;
    IndexVisible(convs);
    IndexVisible(convs');
    var m, m' := Index(convs), Index(convs');
    forall k
      ensures k in m ==> k in m' && m[k] == m'[k]
      ensures k in m' ==> k in m
    {
      if k in m {
        assert Visible(m, m[k]) && Visible(m', m[k]);
      }
      if k in m' {
        assert Visible(m', m'[k]) && Visible(m, m'[k]);
      }
    }
  }

  /** Every group of one grouping of the page is a group of the other. */
  lemma GroupTransfer(convs: seq<Conversation>, convs': seq<Conversation>, activeId: string,
                      out: seq<Group>, out': seq<Group>)
    requires UniqueIds(convs) && UniqueIds(convs') && Index(convs) == Index(convs')
    requires forall x :: x in convs <==> x in convs'
    requires IsGrouping(convs, activeId, out) && IsGrouping(convs', activeId, out')
    ensures forall g | g in out :: g in out'
  {
    hide Index, UniqueIds, Less, GroupOk, RootedAt, Under;
    var m := Index(convs);
    forall g | g in out
      ensures g in out'
    {
      RootUnder(convs, activeId, g);
      assert g.root in convs';
      var h :| h in out' && Under(m, convs', h.root, g.root);
      UnderOfSame(convs, convs', h.root, g.root);
      UnderUnique(convs, g.root, g.root, h.root);
      SameGroup(convs, convs', activeId, g, h);
    }
  }

  lemma UnderOfSame(convs: seq<Conversation>, convs': seq<Conversation>, r: Conversation, c: Conversation)
    requires Index(convs) == Index(convs') && forall x :: x in convs <==> x in convs'
    ensures Under(Index(convs), convs, r, c) <==> Under(Index(convs), convs', r, c)
  {
    hide Index, RootedAt;
  }

  lemma {:induction false} SameGroup(convs: seq<Conversation>, convs': seq<Conversation>, activeId: string, g: Group, h: Group)
    requires Index(convs) == Index(convs') && forall x :: x in convs <==> x in convs'
    requires GroupOk(Index(convs), convs, activeId, g) && GroupOk(Index(convs), convs', activeId, h)
    requires g.root == h.root
    ensures g == h
  {
    hide Index, Less, RootedAt;
    var m, r := Index(convs), g.root;
    forall x
      ensures x in g.descendants <==> x in h.descendants
    {
      assert Nested(m, convs, r, x) <==> Nested(m, convs', r, x);
    }
    DescLessAsymmetric();
    SortedUnique(g.descendants, h.descendants, DescLess);
    forall c
      ensures Under(m, convs, r, c) <==> Under(m, convs', r, c)
    {
    }
    var b :| Under(m, convs, r, b) && b.updated == g.latest;
    var c :| Under(m, convs', r, c) && c.updated == h.latest;
    assert b.updated <= h.latest && c.updated <= g.latest;
  }

  lemma DescLessAsymmetric()
    ensures forall x, y :: DescLess(x, y) ==> !DescLess(y, x)
  {
    LessStrictTotal();
  }
}
