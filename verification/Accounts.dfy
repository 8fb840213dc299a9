/**
 Several signed-in accounts per browser (account.go, oidc.go): the in-memory registry of inactive
 accounts, and the rotation between it and the active session cookie.
 */
module Accounts {
  import opened Options
  import opened Slices

  /** A registry entry. `rest` stands for the fields that only travel along: name, picture, avatar, org. */
  datatype AccountSession = AccountSession(sub: string, email: string, accessToken: string, refreshToken: string,
                                           idToken: string, project: string, expiresAt: int, rest: string)

  /** The claims of the session cookie. */
  datatype SessionClaims = SessionClaims(sub: string, email: string, accessToken: string, refreshToken: string,
                                         idToken: string, project: string, expiresAt: int, rest: string)

  function SessionToAccount(c: SessionClaims): AccountSession {
    AccountSession(c.sub, c.email, c.accessToken, c.refreshToken, c.idToken, c.project, c.expiresAt, c.rest)
  }

  function AccountToSession(a: AccountSession): SessionClaims {
    SessionClaims(a.sub, a.email, a.accessToken, a.refreshToken, a.idToken, a.project, a.expiresAt, a.rest)
  }

  /** setSessionCookie: the claims the cookie ends up with. `oversized` says whether their signed value is
      over the size limit; the id token, only a hint for logout, is then shed. */
  function Written(c: SessionClaims, oversized: bool): SessionClaims {
    if c.idToken != "" && oversized then c.(idToken := "") else c
  }

  // ----- the registry -----

  ghost predicate DistinctSubs(list: seq<AccountSession>) {
    forall i, j :: 0 <= i < j < |list| ==> list[i].sub != list[j].sub
  }

  /** The table a list stands for. */
  ghost function Table(list: seq<AccountSession>): (m: map<string, AccountSession>)
    ensures forall k :: k in m <==> exists a :: a in list && a.sub == k
    ensures forall k | k in m :: m[k].sub == k && m[k] in list
  {
    if list == [] then map[]
    else
      assert list == list[..|list| - 1] + [list[|list| - 1]];
      Table(list[..|list| - 1])[list[|list| - 1].sub := list[|list| - 1]]
  }

  lemma TableAt(list: seq<AccountSession>, i: nat)
    requires DistinctSubs(list) && i < |list|
    ensures list[i].sub in Table(list) && Table(list)[list[i].sub] == list[i]
  {
    var k, m := list[i].sub, Table(list);
    assert list[i] in list && k in m;
    assert m[k] in list && m[k].sub == k;
    var j :| 0 <= j < |list| && list[j] == m[k];
  }

  type Accounts = map<string, seq<AccountSession>>

  ghost predicate WellFormed(accounts: Accounts) {
    forall k | k in accounts :: accounts[k] != [] && DistinctSubs(accounts[k]) && forall a | a in accounts[k] :: a.sub != ""
  }

  /** The inactive accounts of one install, by sub. */
  ghost function Of(accounts: Accounts, installId: string): map<string, AccountSession> {
    if installId in accounts then Table(accounts[installId]) else map[]
  }

  /** accountRegistry: a map from install to a list that stands for a map from sub to account. */
  class AccountRegistry {
    var accounts: Accounts

    ghost predicate Valid()
      reads this
    {
      WellFormed(accounts)
    }

    constructor ()
      ensures Valid() && accounts == map[]
    {
      accounts := map[];
    }

    method List(installId: string) returns (out: seq<AccountSession>)
      requires Valid()
      ensures DistinctSubs(out) && Table(out) == Of(accounts, installId)
    {
      out := if installId in accounts then accounts[installId] else [];
    }

    method Get(installId: string, sub: string) returns (r: Option<AccountSession>)
      requires Valid()
      ensures r == if sub in Of(accounts, installId) then Some(Of(accounts, installId)[sub]) else None
    {
      var list := if installId in accounts then accounts[installId] else [];
      for i := 0 to |list|
        invariant forall j :: 0 <= j < i ==> list[j].sub != sub
      {
        if list[i].sub == sub {
          TableAt(list, i);
          return Some(list[i]);
        }
      }
      return None;
    }

    method Put(installId: string, a: AccountSession)
      requires Valid()
      modifies this
      ensures Valid()
      ensures forall i :: i != installId ==> Of(accounts, i) == Of(old(accounts), i)
      ensures Of(accounts, installId) ==
              if a.sub == "" then Of(old(accounts), installId) else Of(old(accounts), installId)[a.sub := a]
    {
      hide Table;
      if a.sub == "" {
        return;
      }
      var list := if installId in accounts then accounts[installId] else [];
      for i := 0 to |list|
        invariant accounts == old(accounts)
        invariant forall j :: 0 <= j < i ==> list[j].sub != a.sub
      {
        if list[i].sub == a.sub {
          Replaced(list, i, a);
          accounts := accounts[installId := list[i := a]];
          return;
        }
      }
      PutLast(list, a);
      accounts := accounts[installId := list + [a]];
    }

    /** remove: the list is compacted in place and the key dropped when nothing is left. */
    method Remove(installId: string, sub: string)
      requires Valid()
      modifies this
      ensures Valid()
      ensures forall i :: i != installId ==> Of(accounts, i) == Of(old(accounts), i)
      ensures Of(accounts, installId) == Of(old(accounts), installId) - {sub}
    {
      hide Table, Filter;
      var list := if installId in accounts then accounts[installId] else [];
      var backing := new AccountSession[|list|](i requires 0 <= i < |list| => list[i]);
      assert backing[..] == list;
      var n := CompactInPlace(backing, (a: AccountSession) => a.sub != sub);
      var out := backing[..n];
      WithoutSub(list, sub);
      if n == 0 {
        assert out == [];
        accounts := accounts - {installId};
        EmptyTable();
      } else {
        accounts := accounts[installId := out];
      }
    }
  }

  lemma EmptyTable()
    ensures Table([]) == map[]
  {
  }

  lemma Replaced(list: seq<AccountSession>, i: nat, a: AccountSession)
    requires DistinctSubs(list) && i < |list| && list[i].sub == a.sub
    ensures DistinctSubs(list[i := a]) && Table(list[i := a]) == Table(list)[a.sub := a]
    ensures forall x | x in list[i := a] :: x in list || x == a
  {
    hide Table;
    var r := list[i := a];
    var m, m' := Table(list)[a.sub := a], Table(r);
    forall k
      ensures k in m <==> k in m'
    {
      if k in m && k != a.sub {
        var x :| x in list && x.sub == k;
        var j :| 0 <= j < |list| && list[j] == x;
        assert r[j] == x && x in r;
      }
      assert r[i] == a && a in r;
    }
    forall k | k in m'
      ensures m'[k] == m[k]
    {
      var j :| 0 <= j < |r| && r[j] == m'[k];
      TableAt(list, j);
    }
  }

  lemma PutLast(list: seq<AccountSession>, a: AccountSession)
    requires DistinctSubs(list) && forall j :: 0 <= j < |list| ==> list[j].sub != a.sub
    ensures DistinctSubs(list + [a]) && Table(list + [a]) == Table(list)[a.sub := a]
  {
    assert (list + [a])[..|list|] == list;
  }

  lemma WithoutSub(list: seq<AccountSession>, sub: string)
    requires DistinctSubs(list)
    ensures var r := Filter(list, (a: AccountSession) => a.sub != sub);
            && DistinctSubs(r) && Table(r) == Table(list) - {sub} && forall x | x in r :: x in list
  {
    hide Table, DistinctSubs;
    var r := Filter(list, (a: AccountSession) => a.sub != sub);
    FilterSubs(list, sub);
    FilterMeans(list, (a: AccountSession) => a.sub != sub);
    var m, m' := Table(list) - {sub}, Table(r);
    forall k
      ensures k in m <==> k in m'
    {
      KeptSub(list, r, sub, k);
    }
    forall k | k in m'
      ensures m'[k] == m[k]
    {
      assert m'[k] in list;
      TableHolds(list, m'[k]);
    }
  }

  lemma KeptSub(list: seq<AccountSession>, r: seq<AccountSession>, sub: string, k: string)
    requires forall x :: x in r <==> x in list && x.sub != sub
    ensures k in Table(r) <==> k in Table(list) && k != sub
  {
    hide Table;
    if k in Table(list) && k != sub {
      assert Table(list)[k] in r;
    }
  }

  lemma TableHolds(list: seq<AccountSession>, a: AccountSession)
    requires DistinctSubs(list) && a in list
    ensures a.sub in Table(list) && Table(list)[a.sub] == a
  {
    hide Table;
    var j :| 0 <= j < |list| && list[j] == a;
    TableAt(list, j);
  }

  lemma {:induction false} FilterSubs(list: seq<AccountSession>, sub: string)
    requires DistinctSubs(list)
    ensures DistinctSubs(Filter(list, (a: AccountSession) => a.sub != sub))
  {
    if list != [] {
      var n := |list| - 1;
      FilterSubs(list[..n], sub);
      var r := Filter(list[..n], (a: AccountSession) => a.sub != sub);
      FilterMeans(list[..n], (a: AccountSession) => a.sub != sub);
      forall i | 0 <= i < |r|
        ensures r[i].sub != list[n].sub
      {
        assert r[i] in r && r[i] in list[..n];
      }
    }
  }

  // ----- one browser -----

  /** The active session of a browser's cookie and the inactive accounts of its install. */
  datatype Browser = Browser(active: Option<SessionClaims>, cached: map<string, AccountSession>)

  /** backfillAccountEmail; `profile` is the email of the account's own profile, "" when it could not
      be read. */
  function Backfill(a: AccountSession, profile: string): AccountSession {
    if a.email != "" || a.accessToken == "" || profile == "" then a else a.(email := profile)
  }

  /** The active account moves to the registry unless it is the one being made active. `live` says
      whether the session cookie still verifies. */
  function Rotated(b: Browser, live: bool, becoming: string, profile: string): map<string, AccountSession> {
    if live && b.active.Some? && b.active.value.sub != "" && b.active.value.sub != becoming
    then b.cached[b.active.value.sub := Backfill(SessionToAccount(b.active.value), profile)]
    else b.cached
  }

  /** The requests that change who is signed in. */
  datatype Event =
    | Add(claims: SessionClaims, live: bool, profile: string, oversized: bool)
    | Switch(sub: string, live: bool, profile: string, now: int, refreshed: Option<SessionClaims>, oversized: bool)
    | Login(claims: SessionClaims, oversized: bool)
    | Logout(live: bool)

  /** A stale token is refreshed before the account becomes active; a failed refresh (None) keeps it. */
  function Activated(a: AccountSession, now: int, refreshed: Option<SessionClaims>): SessionClaims {
    var claims := AccountToSession(a);
    if claims.refreshToken != "" && claims.expiresAt <= now + 300 && refreshed.Some? then refreshed.value else claims
  }

  function Do(b: Browser, e: Event): Browser {
    match e
    case Add(claims, live, profile, oversized) =>
      Browser(Some(Written(claims, oversized)),
              if claims.sub == "" then b.cached else Rotated(b, live, claims.sub, profile) - {claims.sub})
    case Switch(sub, live, profile, now, refreshed, oversized) =>
      if sub == "" || sub !in b.cached then b
      else Browser(Some(Written(Activated(b.cached[sub], now, refreshed), oversized)),
                   Rotated(b, live, b.cached[sub].sub, profile) - {sub})
    case Login(claims, oversized) => Browser(Some(Written(claims, oversized)), b.cached)
    case Logout(live) =>
      Browser(None, if live && b.active.Some? && b.active.value.sub != "" then b.cached - {b.active.value.sub} else b.cached)
  }

  // ----- the handlers -----

  /** registerAccount in an OIDC callback, with the cookie the callback then sets. `current` is what
      currentSession returns. */
  method OidcCallback(reg: AccountRegistry, installId: string, selectAccount: bool, current: Option<SessionClaims>,
                      claims: SessionClaims, profile: string, oversized: bool)
    returns (cookie: SessionClaims)
    requires reg.Valid()
    modifies reg
    ensures reg.Valid() && forall i :: i != installId ==> Of(reg.accounts, i) == Of(old(reg.accounts), i)
    ensures var e := if selectAccount then Add(claims, current.Some?, profile, oversized) else Login(claims, oversized);
            Browser(Some(cookie), Of(reg.accounts, installId)) == Do(Browser(current, Of(old(reg.accounts), installId)), e)
  {
    hide Table, WellFormed;
    if claims.sub == "" {
      cookie := SetSessionCookie(claims, oversized);
      return;
    }
    if selectAccount {
      Rotate(reg, installId, current, claims.sub, profile);
      reg.Remove(installId, claims.sub);
    }
    cookie := SetSessionCookie(claims, oversized);
  }

  /** The rotation both handlers begin with: the active account moves to the registry, with its email filled
      in, unless it is the one being made active. */
  method Rotate(reg: AccountRegistry, installId: string, current: Option<SessionClaims>, becoming: string, profile: string)
    requires reg.Valid()
    modifies reg
    ensures reg.Valid() && forall i :: i != installId ==> Of(reg.accounts, i) == Of(old(reg.accounts), i)
    ensures Of(reg.accounts, installId) ==
            Rotated(Browser(current, Of(old(reg.accounts), installId)), current.Some?, becoming, profile)
  {
    hide Table, WellFormed;
    if current.Some? && current.value.sub != "" && current.value.sub != becoming {
      var acc := SessionToAccount(current.value);
      if !(acc.email != "" || acc.accessToken == "") && profile != "" {
        acc := acc.(email := profile);
      }
      reg.Put(installId, acc);
    }
  }

  /** setSessionCookie, up to signing: every claim reaches the cookie unchanged but the id token, which is
      shed exactly when the signed claims would be too large with it. */
  method SetSessionCookie(claims: SessionClaims, oversized: bool) returns (cookie: SessionClaims)
    ensures cookie.(idToken := claims.idToken) == claims
    ensures cookie.idToken == if oversized then "" else claims.idToken
  {
    cookie := claims;
    if cookie.idToken != "" {
      if oversized {
        cookie := cookie.(idToken := "");
      }
    }
  }

  /** authSwitch once the form and the install cookie are read; None is the redirect that changes
      nothing. */
  method AuthSwitch(reg: AccountRegistry, installId: string, sub: string, current: Option<SessionClaims>,
                    profile: string, now: int, refreshed: Option<SessionClaims>, oversized: bool)
    returns (cookie: Option<SessionClaims>)
    requires reg.Valid()
    modifies reg
    ensures reg.Valid() && forall i :: i != installId ==> Of(reg.accounts, i) == Of(old(reg.accounts), i)
    ensures var b := Browser(current, Of(old(reg.accounts), installId));
            Browser(if cookie.Some? then cookie else current, Of(reg.accounts, installId)) ==
            Do(b, Switch(sub, current.Some?, profile, now, refreshed, oversized))
  {
    hide Table, WellFormed, Rotated;
    if sub == "" {
      return None;
    }
    var found := reg.Get(installId, sub);
    if found.None? {
      return None;
    }
    var target := found.value;
    Rotate(reg, installId, current, target.sub, profile);
    reg.Remove(installId, sub);
    var claims := AccountToSession(target);
    if claims.refreshToken != "" && claims.expiresAt <= now + 300 {
      if refreshed.Some? {
        claims := refreshed.value;
      }
    }
    var written := SetSessionCookie(claims, oversized);
    assert written == Written(claims, oversized);
    hide Written, DistinctSubs;
    return Some(written);
  }

  // ----- what a run of requests keeps -----

  /** Every cached account is filed under its own sub, and the active one is not also cached. */
  ghost predicate Inv(b: Browser) {
    && (forall k | k in b.cached :: k != "" && b.cached[k].sub == k)
    && (b.active.Some? ==> b.active.value.sub != "" && b.active.value.sub !in b.cached)
  }

  /** The accounts the browser is signed in to. */
  function Known(b: Browser): set<string> {
    b.cached.Keys + if b.active.Some? then {b.active.value.sub} else {}
  }

  /** An identity provider that names its users, and a refresh that returns the same user. */
  ghost predicate Named(e: Event) {
    match e
    case Add(claims, _, _, _) => claims.sub != ""
    case Login(claims, _) => claims.sub != ""
    case Switch(sub, _, _, _, refreshed, _) => refreshed.Some? ==> refreshed.value.sub == sub
    case Logout(_) => true
  }

  /** The session cookie verifies whenever an account is added or switched to. */
  ghost predicate Live(b: Browser, e: Event) {
    match e
    case Add(_, live, _, _) => live || b.active.None?
    case Switch(_, live, _, _, _, _) => live || b.active.None?
    case _ => false
  }

  function Gained(e: Event): set<string> {
    match e
    case Add(claims, _, _, _) => {claims.sub}
    case _ => {}
  }

  /** Adding and switching lose no account and list none twice. */
  lemma StepKeepsAccounts(b: Browser, e: Event)
    requires Inv(b) && Named(e) && Live(b, e)
    ensures Inv(Do(b, e)) && Known(Do(b, e)) == Known(b) + Gained(e)
  {
  }

  function Run(b: Browser, es: seq<Event>): Browser {
    if es == [] then b else Do(Run(b, es[..|es| - 1]), es[|es| - 1])
  }

  function AllGained(es: seq<Event>): set<string> {
    if es == [] then {} else AllGained(es[..|es| - 1]) + Gained(es[|es| - 1])
  }

  ghost predicate LiveRun(b: Browser, es: seq<Event>) {
    forall i :: 0 <= i < |es| ==> Named(es[i]) && Live(Run(b, es[..i]), es[i])
  }

  /** Over any run of add-account callbacks and switches made with a verifiable session, the accounts
      known at the end are exactly those known at the start and those added, each held in one place. */
  lemma {:induction false} RunKeepsAccounts(b: Browser, es: seq<Event>)
    requires Inv(b) && LiveRun(b, es)
    ensures Inv(Run(b, es)) && Known(Run(b, es)) == Known(b) + AllGained(es)
  {
    if es != [] {
      var n := |es| - 1;
      forall i | 0 <= i < n
        ensures Named(es[..n][i]) && Live(Run(b, es[..n][..i]), es[..n][i])
      {
        assert es[..n][..i] == es[..i];
      }
      RunKeepsAccounts(b, es[..n]);
      StepKeepsAccounts(Run(b, es[..n]), es[n]);
    }
  }

  /** What the browser holds for an account, wherever it is. */
  function Held(b: Browser, sub: string): AccountSession
    requires sub in Known(b)
  {
    if b.active.Some? && b.active.value.sub == sub then SessionToAccount(b.active.value) else b.cached[sub]
  }

  /** Rotation carries an account's credentials unchanged; only a missing email may be filled in. The
      one account whose tokens may change is the one being made active. */
  lemma RotationKeepsCredentials(b: Browser, e: Event, sub: string)
    requires Inv(b) && Named(e) && Live(b, e) && sub in Known(b)
    requires match e case Add(claims, _, _, _) => sub != claims.sub case Switch(s, _, _, _, _, _) => sub != s case _ => true
    ensures sub in Known(Do(b, e))
    ensures Held(Do(b, e), sub) == Held(b, sub) ||
            (Held(b, sub).email == "" && exists m :: Held(Do(b, e), sub) == Held(b, sub).(email := m))
  {
    StepKeepsAccounts(b, e);
    var x, y := Held(b, sub), Held(Do(b, e), sub);
    assert y == x || y == x.(email := y.email);
  }

  /** The account being made active, without a refresh, keeps all of them but an id token the cookie has no
      room for. */
  lemma ActivationShedsIdTokenOnly(b: Browser, e: Event)
    requires Inv(b) && e.Switch? && e.sub in b.cached && e.refreshed.None?
    ensures Do(b, e).active.Some? && Do(b, e).active.value.sub == e.sub
    ensures var x, y := Held(b, e.sub), Held(Do(b, e), e.sub);
            y == if x.idToken != "" && e.oversized then x.(idToken := "") else x
  {
  }

  /** What a switch makes active, field by field: the refreshed claims when the account has a refresh token,
      expires within five minutes and the refresh succeeds; otherwise what was cached for it. */
  lemma SwitchActivates(b: Browser, e: Event)
    requires e.Switch? && e.sub != "" && e.sub in b.cached
    ensures var a := b.cached[e.sub];
            var due := a.refreshToken != "" && a.expiresAt - e.now <= 300;
            var got := Do(b, e).active;
            && got.Some?
            && (due && e.refreshed.Some? ==>
                  got.value == e.refreshed.value.(idToken := if e.oversized then "" else e.refreshed.value.idToken))
            && (!due || e.refreshed.None? ==>
                  got.value == SessionClaims(a.sub, a.email, a.accessToken, a.refreshToken, if e.oversized then "" else a.idToken,
                                             a.project, a.expiresAt, a.rest))
  {
  }

  /** What it caches for the account it leaves, field by field: the session as it was, with the profile's
      email where it had none and a token to ask with. */
  lemma SwitchCaches(b: Browser, e: Event)
    requires Inv(b) && b.active.Some? && e.Switch? && e.live && e.sub != "" && e.sub in b.cached
    ensures var c := b.active.value;
            c.sub in Do(b, e).cached &&
            Do(b, e).cached[c.sub] ==
            AccountSession(c.sub, if c.email == "" && c.accessToken != "" then e.profile else c.email, c.accessToken,
                           c.refreshToken, c.idToken, c.project, c.expiresAt, c.rest)
  {
  }

  /** Switching away and back, without a refresh due, restores the session and the cached accounts, but
      for id tokens shed on the way: nothing else is lost. */
  lemma SwitchAndBack(b: Browser, e: Event, back: Event)
    requires Inv(b) && b.active.Some? && b.active.value.email != ""
    requires e.Switch? && e.live && e.sub in b.cached && b.cached[e.sub].email != ""
    requires back.Switch? && back.live && back.sub == b.active.value.sub
    requires e.refreshed.None? && back.refreshed.None?
    ensures var away := SessionToAccount(Written(AccountToSession(b.cached[e.sub]), e.oversized));
            Do(Do(b, e), back) == Browser(Some(Written(b.active.value, back.oversized)), b.cached[e.sub := away])
    ensures !e.oversized && !back.oversized ==> Do(Do(b, e), back) == b
  {
    var away := SessionToAccount(Written(AccountToSession(b.cached[e.sub]), e.oversized));
    var b1 := Do(b, e);
    assert b1.cached == b.cached[b.active.value.sub := SessionToAccount(b.active.value)] - {e.sub};
    var b2 := Do(b1, back);
    assert b2.cached == b1.cached[e.sub := away] - {b.active.value.sub};
    assert b2.cached == b.cached[e.sub := away];
    assert b.cached[e.sub := b.cached[e.sub]] == b.cached;
  }

  // ----- the requests the run excludes -----

  /** A switch loses an account exactly when it succeeds on a session cookie that no longer verifies:
      the account it carried is dropped. */
  lemma SwitchLosesOnlyExpired(b: Browser, e: Event)
    requires Inv(b) && e.Switch? && Named(e)
    ensures Known(Do(b, e)) == Known(b) <==> e.sub == "" || e.sub !in b.cached || e.live || b.active.None?
  {
    if e.sub != "" && e.sub in b.cached && !e.live && b.active.Some? {
      assert b.active.value.sub !in Known(Do(b, e));
      assert b.active.value.sub in Known(b);
    }
  }

  /** A plain sign-in skips the registry: it keeps the invariant exactly when the account was not
      cached, and the account it replaces is kept exactly when it is the same one. */
  lemma LoginSkipsRegistry(b: Browser, e: Event)
    requires Inv(b) && e.Login? && Named(e)
    ensures Inv(Do(b, e)) <==> e.claims.sub !in b.cached
    ensures Known(b) <= Known(Do(b, e)) <==> b.active.None? || b.active.value.sub == e.claims.sub
  {
    if b.active.Some? && b.active.value.sub != e.claims.sub {
      assert b.active.value.sub in Known(b) && b.active.value.sub !in Known(Do(b, e));
    }
  }

  function Signed(sub: string): SessionClaims {
    SessionClaims(sub, "", "token", "", "", "", 0, "")
  }

  /** The browser that signed in as "a" and then added "b". */
  function TwoAccounts(): Browser {
    Do(Do(Browser(None, map[]), Add(Signed("a"), false, "", false)), Add(Signed("b"), true, "", false))
  }

  /** Both happen: switching back to "a" once the cookie of "b" has expired loses "b", and signing in
      afresh as "a" leaves "a" active and cached. */
  lemma TwoAccountsGoWrong()
    ensures var b, expired, login := TwoAccounts(), Switch("a", false, "", 0, None, false), Login(Signed("a"), false);
            && Inv(b) && Known(b) == {"a", "b"} && Named(expired) && Named(login)
            && Known(Do(b, expired)) == {"a"}
            && !Inv(Do(b, login)) && "a" in Do(b, login).cached && Do(b, login).active == Some(Signed("a"))
  {
    var b1 := Do(Browser(None, map[]), Add(Signed("a"), false, "", false));
    assert b1 == Browser(Some(Signed("a")), map[]);
    assert TwoAccounts() == Browser(Some(Signed("b")), map["a" := SessionToAccount(Signed("a"))]);
    assert Do(TwoAccounts(), Switch("a", false, "", 0, None, false)).cached == map[];
  }

  /** Signing out forgets the active account and no other. */
  lemma LogoutForgetsOne(b: Browser, e: Event)
    requires Inv(b) && e.Logout?
    ensures Inv(Do(b, e))
    ensures Known(Do(b, e)) == if b.active.Some? then Known(b) - {b.active.value.sub} else Known(b)
  {
  }

  /** Even of an account that is active and cached, as a plain sign-in can leave it, signing out keeps no copy,
      if and only if the session cookie still verifies; every other account stays. */
  lemma LogoutUncaches(b: Browser, e: Event)
    requires e.Logout? && b.active.Some? && b.active.value.sub != "" && b.active.value.sub in b.cached
    ensures Do(b, e).active.None?
    ensures b.active.value.sub in Do(b, e).cached <==> !e.live
    ensures forall k :: k != b.active.value.sub ==> (k in Do(b, e).cached <==> k in b.cached)
    ensures forall k | k in Do(b, e).cached :: Do(b, e).cached[k] == b.cached[k]
  {
  }
}
