/**
 The most-recently-used project list per account (auth.go), kept in a durable cookie and cut to eight
 entries at every activation.
 */
module RecentProjects {
  import opened Options
  import opened Order
  import opened Slices

  const LIMIT := 8

  type Recents = map<string, seq<string>>

  function Take(s: seq<string>, n: nat): seq<string> {
    if |s| <= n then s else s[..n]
  }

  /** One activation on one list. */
  function Pushed(list: seq<string>, id: string): seq<string> {
    Take([id] + Filter(list, x => x != id), LIMIT)
  }

  function ListOf(m: Recents, sub: string): seq<string> {
    if sub in m then m[sub] else []
  }

  /** recordRecentProject over the cookie's value, None when there is none or it does not verify; the
      result is the re-issued cookie, None when the call is a no-op. */
  method RecordRecentProject(cookie: Option<Recents>, hasSecret: bool, sub: string, projectId: string)
    returns (issued: Option<Recents>)
    ensures issued.Some? <==> sub != "" && projectId != "" && hasSecret
    ensures issued.Some? ==>
              var before := if cookie.Some? then cookie.value else map[];
              && ListOf(issued.value, sub) == Pushed(ListOf(before, sub), projectId)
              && forall other :: other != sub ==> ListOf(issued.value, other) == ListOf(before, other)
  {
    hide Filter;
    if sub == "" || projectId == "" || !hasSecret {
      return None;
    }
    var claims := if cookie.Some? then cookie.value else map[];
    var recents := if sub in claims then claims[sub] else [];
    var backing := new string[|recents|](i requires 0 <= i < |recents| => recents[i]);
    assert backing[..] == recents;
    var n := CompactInPlace(backing, x => x != projectId);
    var list := [projectId] + backing[..n];
    if |list| > 8 {
      list := list[..8];
    }
    return Some(claims[sub := list]);
  }

  // ----- what a run of activations leaves -----

  /** An account's history in the order its projects were last activated, latest first. */
  function LatestFirst(history: seq<string>): seq<string> {
    if history == [] then []
    else
      var n := |history| - 1;
      [history[n]] + Filter(LatestFirst(history[..n]), x => x != history[n])
  }

  ghost predicate LastAt(history: seq<string>, id: string, i: int) {
    0 <= i < |history| && history[i] == id && forall j :: i < j < |history| ==> history[j] != id
  }

  /** That order lists each activated project once, sorted by its last activation. */
  lemma {:induction false} LatestFirstMeans(history: seq<string>)
    ensures Distinct(LatestFirst(history))
    ensures forall x :: x in LatestFirst(history) <==> x in history
  {
    if history != [] {
      var n := |history| - 1;
      var last, r := history[n], LatestFirst(history[..n]);
      LatestFirstMeans(history[..n]);
      FilterDistinct(r, x => x != last);
      FilterMeans(r, x => x != last);
      assert history == history[..n] + [last];
      DistinctConcat([last], Filter(r, x => x != last));
    }
  }

  lemma {:induction false} LatestFirstOrder(history: seq<string>, i: nat, j: nat, p: int, q: int)
    requires i < j < |LatestFirst(history)|
    requires LastAt(history, LatestFirst(history)[i], p) && LastAt(history, LatestFirst(history)[j], q)
    ensures p > q
  {
    var n := |history| - 1;
    var last, r := history[n], LatestFirst(history[..n]);
    LatestFirstMeans(history);
    var f := Filter(r, x => x != last);
    assert LatestFirst(history) == [last] + f;
    hide Filter, LatestFirst;
    FilterMeans(r, x => x != last);
    if i == 0 {
      assert history[n] == history[p] == last && f[j - 1] != last;
    } else {
      LatestFirstMeans(history[..n]);
      var a, b := FilterOrder(r, x => x != last, i - 1, j - 1);
      assert f[i - 1] in f && f[j - 1] in f;
      LastAtShorter(history, r[a], p);
      LastAtShorter(history, r[b], q);
      LatestFirstOrder(history[..n], a, b, p, q);
    }
  }

  lemma LastAtShorter(history: seq<string>, x: string, p: int)
    requires history != [] && x != history[|history| - 1] && LastAt(history, x, p)
    ensures LastAt(history[..|history| - 1], x, p)
  {
  }

  /** Cutting before or after an activation makes no difference to what survives the cut. */
  lemma TakeCommutes(list: seq<string>, id: string, n: nat)
    requires Distinct(list)
    ensures Take([id] + Filter(Take(list, n), x => x != id), n) == Take([id] + Filter(list, x => x != id), n)
  {
    if |list| > n {
      assert list == list[..n] + list[n..];
      FilterDropsOne(list[..n], id);
      TakeCut(list[..n], list[n..], id, x => x != id);
    }
  }

  lemma TakeCut(a: seq<string>, b: seq<string>, id: string, keep: string -> bool)
    requires |Filter(a, keep)| + 1 >= |a|
    ensures Take([id] + Filter(a, keep), |a|) == Take([id] + Filter(a + b, keep), |a|)
  {
    hide Filter;
    FilterConcat(a, b, keep);
    var kept := [id] + Filter(a, keep);
    assert Take(kept + Filter(b, keep), |a|) == Take(kept, |a|);
    assert [id] + (Filter(a, keep) + Filter(b, keep)) == ([id] + Filter(a, keep)) + Filter(b, keep);
  }

  lemma {:induction false} FilterDropsOne(s: seq<string>, id: string)
    requires Distinct(s)
    ensures |Filter(s, x => x != id)| + 1 >= |s|
    ensures id !in s ==> Filter(s, x => x != id) == s
  {
    if s != [] {
      var n := |s| - 1;
      FilterDropsOne(s[..n], id);
      assert s == s[..n] + [s[n]];
      if s[n] == id {
        assert id !in s[..n];
      }
    }
  }

  /** An activation of a project by an account. */
  datatype Activation = Activation(sub: string, projectId: string)

  function HistoryOf(es: seq<Activation>, sub: string): seq<string> {
    if es == [] then []
    else
      var e := es[|es| - 1];
      var h := HistoryOf(es[..|es| - 1], sub);
      if e.sub == sub && sub != "" && e.projectId != "" then h + [e.projectId] else h
  }

  /** One activation, as RecordRecentProject leaves the lists. */
  ghost predicate Recorded(before: Recents, e: Activation, after: Recents) {
    if e.sub == "" || e.projectId == "" then after == before
    else
      && ListOf(after, e.sub) == Pushed(ListOf(before, e.sub), e.projectId)
      && forall other :: other != e.sub ==> ListOf(after, other) == ListOf(before, other)
  }

  /** After any sequence of activations, by any accounts, each account's list is the first eight of its
      own projects, latest first: cutting at every step has lost nothing. */
  lemma {:induction false} RunKeepsLatest(states: seq<Recents>, es: seq<Activation>, sub: string)
    requires |states| == |es| + 1 && states[0] == map[]
    requires forall i :: 0 <= i < |es| ==> Recorded(states[i], es[i], states[i + 1])
    ensures ListOf(states[|es|], sub) == Take(LatestFirst(HistoryOf(es, sub)), LIMIT)
  {
    if es != [] {
      var n := |es| - 1;
      RunKeepsLatest(states[..n + 1], es[..n], sub);
      var e, h := es[n], HistoryOf(es[..n], sub);
      if e.sub == sub && sub != "" && e.projectId != "" {
        LatestFirstMeans(h);
        TakeCommutes(LatestFirst(h), e.projectId, LIMIT);
        assert (h + [e.projectId])[..|h|] == h;
      }
    }
  }
}
