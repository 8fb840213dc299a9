/**
 An agent's tool configuration (agent.go, agent_tools.go): the allowed and banned lists, the
 per-tool and per-group policies, the Tools form that edits them, and the resolver that decides
 what is granted.
 */
module Tools {
  import opened Options
  import opened Slices
  import opened Text

  datatype ToolPolicy = ToolPolicy(confirm: bool, message: string, disabled: bool)

  /** The server-computed capability group: read-only for the gateway. */
  datatype ToolGroup = ToolGroup(id: string, policy: string, enabled: bool, tools: seq<string>)

  const SET_SESSION_TITLE := "set_session_title"
  const SESSION_GROUP := "session"
  const OTHER_GROUP := "other"

  predicate IsDelegationTool(t: string) {
    t == "spawn_agents" || t == "list_available_agents"
  }

  predicate IsBanManaged(t: string) {
    t == SET_SESSION_TITLE
  }

  function GroupPolicyKey(id: string): string {
    "@group:" + id
  }

  type Policies = map<string, ToolPolicy>

  function Lookup(m: Policies, k: string): Option<ToolPolicy> {
    if k in m then Some(m[k]) else None
  }

  /** The tool fields of an AgentDefinition, as a save changes them. */
  datatype ToolState = ToolState(tools: seq<string>, banned: seq<string>, policies: Policies, defaultPolicy: string)

  // ----- the form -----

  /** A form field of the Tools page. The source spells these "tool", "defaultToolPolicy",
      "toolPolicy.<tool>", "groupPolicy.<id>", "groupWasEnabled.<id>" and "groupEnabled.<id>". */
  datatype Field =
    | ToolField
    | DefaultPolicyField
    | PolicyOf(tool: string)
    | GroupPolicyOf(id: string)
    | GroupWasEnabled(id: string)
    | GroupEnabled(id: string)

  type Form = map<Field, seq<string>>

  function Values(form: Form, f: Field): seq<string> {
    if f in form then form[f] else []
  }

  /** url.Values.Get: the first value, or "". */
  function Get(form: Form, f: Field): string {
    if f in form && form[f] != [] then form[f][0] else ""
  }

  // ----- what a save does -----

  /** The four-way policy switch; any other value leaves the stored entry alone. */
  function Submitted(value: string, stored: Option<ToolPolicy>): Option<ToolPolicy> {
    if value == "ask" then Some(ToolPolicy(true, "", false))
    else if value == "deny" then Some(ToolPolicy(false, "", true))
    else if value == "allow" then Some(ToolPolicy(false, "", false))
    else if value == "inherit" then None
    else stored
  }

  /** A key's entry after the per-tool selects. */
  function AfterToolSelects(form: Form, m: Policies, k: string): Option<ToolPolicy> {
    if PolicyOf(k) in form then Submitted(Get(form, PolicyOf(k)), Lookup(m, k)) else Lookup(m, k)
  }

  ghost predicate GroupSelectWrites(groups: seq<ToolGroup>, form: Form, k: string) {
    exists g :: g in groups && k == GroupPolicyKey(g.id) && GroupPolicyOf(g.id) in form
  }

  /** A key's entry after the per-tool selects and then the group selects. */
  ghost function SavedPolicy(groups: seq<ToolGroup>, form: Form, m: Policies, k: string): Option<ToolPolicy> {
    if GroupSelectWrites(groups, form, k)
    then Submitted(Get(form, GroupPolicyOf(k[7..])), AfterToolSelects(form, m, k))
    else AfterToolSelects(form, m, k)
  }

  /** Whether the group's enable switch was rendered and toggled, and to what. */
  function Toggle(form: Form, g: ToolGroup): Option<bool> {
    if GroupWasEnabled(g.id) !in form then None
    else
      var was := Get(form, GroupWasEnabled(g.id)) == "true";
      var now := GroupEnabled(g.id) in form;
      if was == now then None else Some(now)
  }

  function Members(g: ToolGroup): (r: seq<string>)
    ensures forall t :: t in r <==> t in g.tools && !IsDelegationTool(t)
  {
    FilterMeans(g.tools, t => !IsDelegationTool(t));
    Filter(g.tools, t => !IsDelegationTool(t))
  }

  datatype Lists = Lists(tools: seq<string>, banned: seq<string>)

  /** The enable/disable fan-out of the first groups. */
  function FanOut(groups: seq<ToolGroup>, form: Form, l: Lists): Lists {
    if groups == [] then l
    else
      var n := |groups| - 1;
      var r := FanOut(groups[..n], form, l);
      match Toggle(form, groups[n])
      case None => r
      case Some(true) => Lists(Appended(r.tools, Members(groups[n])), Removed(r.banned, Members(groups[n])))
      case Some(false) => Lists(Removed(r.tools, Members(groups[n])), Appended(r.banned, Members(groups[n])))
  }

  /** The two lists before any fan-out: the checked boxes are allowed and no longer banned, and the
      always-injected builtin is banned exactly when its rendered box is unchecked. */
  function Checked(form: Form, banned: seq<string>): Lists {
    var tools := Values(form, ToolField);
    var b := Removed(banned, tools);
    Lists(tools,
          if GroupWasEnabled(SESSION_GROUP) !in form then b
          else if SET_SESSION_TITLE in tools then Removed(b, [SET_SESSION_TITLE])
          else Appended(b, [SET_SESSION_TITLE]))
  }

  function SavedLists(groups: seq<ToolGroup>, form: Form, banned: seq<string>): Lists {
    var l := FanOut(groups, form, Checked(form, banned));
    l.(tools := Removed(l.tools, [SET_SESSION_TITLE]))
  }

  ghost predicate Saves(groups: seq<ToolGroup>, form: Form, s: ToolState, s': ToolState) {
    var l := SavedLists(groups, form, s.banned);
    && s'.tools == l.tools
    && s'.banned == l.banned
    && s'.defaultPolicy == TrimSpace(Get(form, DefaultPolicyField))
    && forall k :: Lookup(s'.policies, k) == SavedPolicy(groups, form, s.policies, k)
  }

  /** Every form can be saved. */
  lemma SaveExists(groups: seq<ToolGroup>, form: Form, s: ToolState) returns (s': ToolState)
    ensures Saves(groups, form, s, s')
  {
    hide SavedPolicy, SavedLists, TrimSpace, Get;
    var m := s.policies;
    var keys := m.Keys + (set f | f in form && f.PolicyOf? :: f.tool) + (set g | g in groups :: GroupPolicyKey(g.id));
    var l := SavedLists(groups, form, s.banned);
    s' := ToolState(l.tools, l.banned,
                    map k | k in keys && SavedPolicy(groups, form, m, k).Some? :: SavedPolicy(groups, form, m, k).value,
                    TrimSpace(Get(form, DefaultPolicyField)));
    forall k
      ensures Lookup(s'.policies, k) == SavedPolicy(groups, form, m, k)
    {
      SavedKeys(groups, form, m, k);
      if k !in m && PolicyOf(k) in form {
        assert PolicyOf(k).tool == k;
      }
    }
  }

  lemma SavedKeys(groups: seq<ToolGroup>, form: Form, m: Policies, k: string)
    ensures SavedPolicy(groups, form, m, k).Some? ==>
              k in m || PolicyOf(k) in form || exists g :: g in groups && k == GroupPolicyKey(g.id)
  {
  }

  // ----- the code of a save -----

  /** The AgentDefinition fields the Tools section writes, and the catalog it reads. */
  class AgentDefinition {
    var tools: seq<string>
    var bannedTools: seq<string>
    var toolPolicies: Policies
    var defaultToolPolicy: string
    const toolGroups: seq<ToolGroup>

    constructor (s: ToolState, groups: seq<ToolGroup>)
      ensures State() == s && toolGroups == groups
    {
      tools, bannedTools, toolPolicies, defaultToolPolicy := s.tools, s.banned, s.policies, s.defaultPolicy;
      toolGroups := groups;
    }

    ghost function State(): ToolState
      reads this
    {
      ToolState(tools, bannedTools, toolPolicies, defaultToolPolicy)
    }

    /** applyAgentToolsSection. The submitted keys are a Go map, so the loop below takes them in any
        order; the result does not depend on it. */
    method ApplyToolsSection(form: Form)
      modifies this
      ensures Saves(toolGroups, form, old(State()), State())
    {
      hide Removed, Appended, TrimSpace, FanOut, Submitted, Get, Lookup;
      tools := Values(form, ToolField);
      bannedTools := RemoveItems(bannedTools, tools);
      defaultToolPolicy := TrimSpace(Get(form, DefaultPolicyField));
      if GroupWasEnabled(SESSION_GROUP) in form {
        if SET_SESSION_TITLE in tools {
          bannedTools := RemoveItems(bannedTools, [SET_SESSION_TITLE]);
        } else {
          bannedTools := AppendUnique(bannedTools, [SET_SESSION_TITLE]);
        }
      }
      assert Lists(tools, bannedTools) == Checked(form, old(bannedTools));
      var policies := ToolSelects(form, toolPolicies);
      policies := GroupSelects(toolGroups, form, policies);
      ApplyToolGroups(form);
      tools := RemoveItems(tools, [SET_SESSION_TITLE]);
      toolPolicies := policies;
    }

    /** The second loop of applyToolGroups: the enable/disable fan-out. */
    method ApplyToolGroups(form: Form)
      modifies this`tools, this`bannedTools
      ensures Lists(tools, bannedTools) == FanOut(toolGroups, form, old(Lists(tools, bannedTools)))
    {
      hide Removed, Appended, Filter, Members, Get;
      for i := 0 to |toolGroups|
        invariant Lists(tools, bannedTools) == FanOut(toolGroups[..i], form, old(Lists(tools, bannedTools)))
      {
        var g := toolGroups[i];
        assert toolGroups[..i + 1][..i] == toolGroups[..i];
        if GroupWasEnabled(g.id) !in form {
          continue;
        }
        var wasEnabled := Get(form, GroupWasEnabled(g.id)) == "true";
        var nowEnabled := GroupEnabled(g.id) in form;
        if wasEnabled == nowEnabled {
          continue;
        }
        var members := FanOutMembers(g);
        if nowEnabled {
          tools := AppendUnique(tools, members);
          bannedTools := RemoveItems(bannedTools, members);
        } else {
          tools := RemoveItems(tools, members);
          bannedTools := AppendUnique(bannedTools, members);
        }
      }
      assert toolGroups[..|toolGroups|] == toolGroups;
    }
  }

  method FanOutMembers(g: ToolGroup) returns (members: seq<string>)
    ensures members == Members(g)
  {
    hide Filter;
    members := [];
    FilterEmpty(g.tools[..0], t => !IsDelegationTool(t));
    for i := 0 to |g.tools|
      invariant members == Filter(g.tools[..i], t => !IsDelegationTool(t))
    {
      FilterNext(g.tools, i, t => !IsDelegationTool(t));
      if IsDelegationTool(g.tools[i]) {
        continue;
      }
      members := members + [g.tools[i]];
    }
    assert g.tools[..|g.tools|] == g.tools;
  }

  method WritePolicy(policies: Policies, key: string, value: string) returns (r: Policies)
    ensures forall k :: Lookup(r, k) == if k == key then Submitted(value, Lookup(policies, key)) else Lookup(policies, k)
  {
    r := policies;
    if value == "ask" {
      r := r[key := ToolPolicy(true, "", false)];
    } else if value == "deny" {
      r := r[key := ToolPolicy(false, "", true)];
    } else if value == "allow" {
      r := r[key := ToolPolicy(false, "", false)];
    } else if value == "inherit" {
      r := r - {key};
    }
  }

  /** The per-tool selects, taken in an arbitrary order. */
  method ToolSelects(form: Form, stored: Policies) returns (policies: Policies)
    ensures forall k :: Lookup(policies, k) == AfterToolSelects(form, stored, k)
  {
    policies := stored;
    var todo := form.Keys;
    while todo != {}
      invariant todo <= form.Keys
      invariant forall k :: Lookup(policies, k) ==
                            if PolicyOf(k) in todo then Lookup(stored, k) else AfterToolSelects(form, stored, k)
    {
      var key :| key in todo;
      todo := todo - {key};
      if key.PolicyOf? {
        policies := WritePolicy(policies, key.tool, Get(form, key));
      }
    }
  }

  /** The first loop of applyToolGroups: the group policy selects. */
  method GroupSelects(groups: seq<ToolGroup>, form: Form, stored: Policies) returns (policies: Policies)
    ensures forall k :: Lookup(policies, k) == if GroupSelectWrites(groups, form, k)
                                               then Submitted(Get(form, GroupPolicyOf(k[7..])), Lookup(stored, k))
                                               else Lookup(stored, k)
  {
    policies := stored;
    for i := 0 to |groups|
      invariant forall k :: Lookup(policies, k) == if GroupSelectWrites(groups[..i], form, k)
                                                   then Submitted(Get(form, GroupPolicyOf(k[7..])), Lookup(stored, k))
                                                   else Lookup(stored, k)
    {
      var g := groups[i];
      GroupSelectsNext(groups, form, i);
      if GroupPolicyOf(g.id) !in form {
        continue;
      }
      assert GroupPolicyKey(g.id)[7..] == g.id;
      policies := WritePolicy(policies, GroupPolicyKey(g.id), Get(form, GroupPolicyOf(g.id)));
    }
    assert groups[..|groups|] == groups;
  }

  lemma GroupSelectsNext(groups: seq<ToolGroup>, form: Form, i: nat)
    requires i < |groups|
    ensures forall k :: GroupSelectWrites(groups[..i + 1], form, k) <==>
                        GroupSelectWrites(groups[..i], form, k) ||
                        (k == GroupPolicyKey(groups[i].id) && GroupPolicyOf(groups[i].id) in form)
  {
    var shorter, longer := groups[..i], groups[..i + 1];
    assert longer == shorter + [groups[i]];
    assert groups[i] in longer && forall g :: g in longer <==> g in shorter || g == groups[i];
    forall k
      ensures GroupSelectWrites(longer, form, k) <==>
              GroupSelectWrites(shorter, form, k) || (k == GroupPolicyKey(groups[i].id) && GroupPolicyOf(groups[i].id) in form)
    {
      if GroupSelectWrites(longer, form, k) {
        var g :| g in longer && k == GroupPolicyKey(g.id) && GroupPolicyOf(g.id) in form;
        assert g in shorter || g == groups[i];
      }
    }
  }

  // ----- what a save means -----

  /** The last rendered and toggled group that lists t decides, if there is one. */
  function LastToggle(groups: seq<ToolGroup>, form: Form, t: string): Option<bool> {
    if groups == [] then None
    else
      var n := |groups| - 1;
      if t in groups[n].tools && Toggle(form, groups[n]).Some? then Toggle(form, groups[n])
      else LastToggle(groups[..n], form, t)
  }

  lemma {:induction false} FanOutDecides(groups: seq<ToolGroup>, form: Form, l: Lists, t: string)
    ensures var r := FanOut(groups, form, l);
            var last := if IsDelegationTool(t) then None else LastToggle(groups, form, t);
            && (t in r.tools <==> if last.Some? then last.value else t in l.tools)
            && (t in r.banned <==> if last.Some? then !last.value else t in l.banned)
  {
    if groups != [] {
      FanOutDecides(groups[..|groups| - 1], form, l, t);
    }
  }

  /** Membership after any save: the last toggled group that lists an ordinary tool decides; without
      one its checkbox does, and an unchecked box never lifts a ban. */
  lemma SaveMembership(groups: seq<ToolGroup>, form: Form, s: ToolState, s': ToolState, t: string)
    requires Saves(groups, form, s, s') && t != SET_SESSION_TITLE
    ensures var last := if IsDelegationTool(t) then None else LastToggle(groups, form, t);
            var box := t in Values(form, ToolField);
            && (t in s'.tools <==> if last.Some? then last.value else box)
            && (t in s'.banned <==> if last.Some? then !last.value else t in s.banned && !box)
  {
    hide FanOut, SavedPolicy, TrimSpace, LastToggle;
    FanOutDecides(groups, form, Checked(form, s.banned), t);
  }

  /** The always-injected builtin is never stored as allowed; its ban follows the last toggled group
      that lists it, else its checkbox when the session group was rendered. */
  lemma {:induction false} SaveBanManaged(groups: seq<ToolGroup>, form: Form, s: ToolState, s': ToolState)
    requires Saves(groups, form, s, s')
    ensures SET_SESSION_TITLE !in s'.tools
    ensures var last := LastToggle(groups, form, SET_SESSION_TITLE);
            var box := SET_SESSION_TITLE in Values(form, ToolField);
            SET_SESSION_TITLE in s'.banned <==>
              if last.Some? then !last.value
              else !box && (GroupWasEnabled(SESSION_GROUP) in form || SET_SESSION_TITLE in s.banned)
  {
    FanOutDecides(groups, form, Checked(form, s.banned), SET_SESSION_TITLE);
  }

  /** No save leaves a tool both allowed and banned, whatever was stored or submitted. */
  lemma SaveDisjoint(groups: seq<ToolGroup>, form: Form, s: ToolState, s': ToolState, t: string)
    requires Saves(groups, form, s, s')
    ensures !(t in s'.tools && t in s'.banned)
  {
    if t == SET_SESSION_TITLE {
      SaveBanManaged(groups, form, s, s');
    } else {
      SaveMembership(groups, form, s, s', t);
    }
  }

  /** A policy whose select was not submitted is kept verbatim. */
  lemma SaveKeepsUntouchedPolicies(groups: seq<ToolGroup>, form: Form, s: ToolState, s': ToolState, k: string)
    requires Saves(groups, form, s, s')
    requires PolicyOf(k) !in form && forall id :: k == GroupPolicyKey(id) ==> GroupPolicyOf(id) !in form
    ensures Lookup(s'.policies, k) == Lookup(s.policies, k)
  {
    assert Lookup(s'.policies, k) == SavedPolicy(groups, form, s.policies, k);
  }

  /** Two saves of one form agree: nothing depends on the order the submitted keys are read in. */
  lemma SaveDetermined(groups: seq<ToolGroup>, form: Form, s: ToolState, s1: ToolState, s2: ToolState)
    requires Saves(groups, form, s, s1) && Saves(groups, form, s, s2)
    ensures s1 == s2
  {
    hide SavedPolicy, SavedLists, TrimSpace, Get;
    forall k
      ensures Lookup(s1.policies, k) == Lookup(s2.policies, k)
    {
    }
    assert forall k :: k in s1.policies <==> Lookup(s1.policies, k).Some?;
    assert forall k :: k in s2.policies <==> Lookup(s2.policies, k).Some?;
    assert forall k | k in s1.policies :: s1.policies[k] == Lookup(s1.policies, k).value == s2.policies[k];
    assert s1.policies == s2.policies;
  }

  // ----- the same, read off the submitted form -----

  /** The Tools page submitted the group's baseline and a switch that differs from it. */
  predicate Switched(form: Form, id: string) {
    GroupWasEnabled(id) in form && (Get(form, GroupWasEnabled(id)) == "true") != (GroupEnabled(id) in form)
  }

  lemma ToggleMeans(form: Form, g: ToolGroup)
    ensures Toggle(form, g) == if Switched(form, g.id) then Some(GroupEnabled(g.id) in form) else None
  {
    hide Get;
  }

  lemma {:induction false} LastSwitched(groups: seq<ToolGroup>, form: Form, t: string, i: nat)
    requires i < |groups| && t in groups[i].tools && Switched(form, groups[i].id)
    requires forall j | i < j < |groups| && t in groups[j].tools :: !Switched(form, groups[j].id)
    ensures LastToggle(groups, form, t) == Some(GroupEnabled(groups[i].id) in form)
  {
    hide Switched, Toggle;
    var n := |groups| - 1;
    ToggleMeans(form, groups[n]);
    if i < n {
      LastSwitched(groups[..n], form, t, i);
    }
  }

  lemma {:induction false} NoneSwitched(groups: seq<ToolGroup>, form: Form, t: string)
    requires forall g | g in groups && t in g.tools :: !Switched(form, g.id)
    ensures LastToggle(groups, form, t) == None
  {
    hide Switched, Toggle;
    if groups != [] {
      var n := |groups| - 1;
      assert groups[n] in groups;
      ToggleMeans(form, groups[n]);
      NoneSwitched(groups[..n], form, t);
    }
  }

  /** Flipping a group's switch is obeyed: a member is stored as allowed if the submitted switch is on and
      as banned if it is off, whatever its own checkbox says and whatever was stored; only a later group
      that lists it and was flipped too overrules that. */
  lemma SwitchDecides(groups: seq<ToolGroup>, form: Form, s: ToolState, s': ToolState, t: string, i: nat)
    requires Saves(groups, form, s, s')
    requires t != "spawn_agents" && t != "list_available_agents" && t != "set_session_title"
    requires i < |groups| && t in groups[i].tools
    requires var id := groups[i].id;
             GroupWasEnabled(id) in form && (Get(form, GroupWasEnabled(id)) == "true") != (GroupEnabled(id) in form)
    requires forall j | i < j < |groups| && t in groups[j].tools :: !Switched(form, groups[j].id)
    ensures t in s'.tools <==> GroupEnabled(groups[i].id) in form
    ensures t in s'.banned <==> GroupEnabled(groups[i].id) !in form
  {
    hide Saves, LastToggle, Get;
    LastSwitched(groups, form, t, i);
    SaveMembership(groups, form, s, s', t);
  }

  /** A tool no flipped group lists keeps to its own checkbox, and so do the two delegation tools in any
      group: checked is allowed, unchecked is not, and only checking lifts a ban. */
  lemma CheckboxDecides(groups: seq<ToolGroup>, form: Form, s: ToolState, s': ToolState, t: string)
    requires Saves(groups, form, s, s') && t != "set_session_title"
    requires t == "spawn_agents" || t == "list_available_agents" ||
             forall g | g in groups && t in g.tools :: !Switched(form, g.id)
    ensures var box := ToolField in form && t in form[ToolField];
            && (t in s'.tools <==> box)
            && (t in s'.banned <==> t in s.banned && !box)
  {
    hide Saves, LastToggle, Switched;
    if !IsDelegationTool(t) {
      NoneSwitched(groups, form, t);
    }
    SaveMembership(groups, form, s, s', t);
  }

  /** The always-injected builtin has only a ban: the last flipped group that lists it decides; without one
      a rendered session group bans it exactly when its box is unchecked. */
  lemma SessionTitleBan(groups: seq<ToolGroup>, form: Form, s: ToolState, s': ToolState)
    requires Saves(groups, form, s, s')
    ensures forall i | 0 <= i < |groups| && "set_session_title" in groups[i].tools && Switched(form, groups[i].id) &&
                       forall j | i < j < |groups| && "set_session_title" in groups[j].tools :: !Switched(form, groups[j].id) ::
              "set_session_title" in s'.banned <==> GroupEnabled(groups[i].id) !in form
    ensures (forall g | g in groups && "set_session_title" in g.tools :: !Switched(form, g.id)) &&
            GroupWasEnabled("session") in form ==>
              ("set_session_title" in s'.banned <==> ToolField !in form || "set_session_title" !in form[ToolField])
  {
    hide Saves, LastToggle, Switched;
    SaveBanManaged(groups, form, s, s');
    forall i | 0 <= i < |groups| && "set_session_title" in groups[i].tools && Switched(form, groups[i].id) &&
               forall j | i < j < |groups| && "set_session_title" in groups[j].tools :: !Switched(form, groups[j].id)
      ensures "set_session_title" in s'.banned <==> GroupEnabled(groups[i].id) !in form
    {
      LastSwitched(groups, form, "set_session_title", i);
    }
    if forall g | g in groups && "set_session_title" in g.tools :: !Switched(form, g.id) {
      NoneSwitched(groups, form, "set_session_title");
    }
  }

  /** The submitted default policy is stored without the spaces around it. */
  lemma DefaultTrimmed(groups: seq<ToolGroup>, form: Form, s: ToolState, s': ToolState, before: string, v: string, after: string)
    requires Saves(groups, form, s, s') && DefaultPolicyField in form && form[DefaultPolicyField] == [before + v + after]
    requires Trimmed(v) && (forall c | c in before :: IsSpace(c)) && (forall c | c in after :: IsSpace(c))
    ensures s'.defaultPolicy == v
  {
    hide IsSpace, TrimSpace, SavedLists, SavedPolicy;
    TrimPadded(before, v, after);
  }

  /** What each submitted policy select leaves stored under its key: "ask", "deny" and "allow" write a bare
      record, "inherit" deletes it, anything else leaves it. A tool's select writes the key of the tool, a
      listed group's the key of the group. */
  lemma SelectWrites(groups: seq<ToolGroup>, form: Form, s: ToolState, s': ToolState, t: string, value: string)
    requires Saves(groups, form, s, s')
    requires if "@group:" <= t
             then GroupPolicyOf(t[7..]) in form && Get(form, GroupPolicyOf(t[7..])) == value &&
                  PolicyOf(t) !in form && exists g :: g in groups && g.id == t[7..]
             else PolicyOf(t) in form && Get(form, PolicyOf(t)) == value
    ensures value == "ask" ==> t in s'.policies && s'.policies[t] == ToolPolicy(true, "", false)
    ensures value == "deny" ==> t in s'.policies && s'.policies[t] == ToolPolicy(false, "", true)
    ensures value == "allow" ==> t in s'.policies && s'.policies[t] == ToolPolicy(false, "", false)
    ensures value == "inherit" ==> t !in s'.policies
    ensures value !in ["ask", "deny", "allow", "inherit"] ==>
              (t in s'.policies <==> t in s.policies) && (t in s.policies ==> s'.policies[t] == s.policies[t])
  {
    hide SavedLists, TrimSpace, Get;
    assert Lookup(s'.policies, t) == SavedPolicy(groups, form, s.policies, t);
    if "@group:" <= t {
      var g :| g in groups && g.id == t[7..];
      assert t == GroupPolicyKey(g.id);
    } else {
      assert forall id :: "@group:" <= GroupPolicyKey(id);
    }
  }

  // ----- what is granted -----

  predicate IsGlob(s: string) {
    '*' in s || '?' in s || '[' in s
  }

  /** `glob(p, t)` is `path.Match(p, t)` succeeding; nothing about it is assumed. */
  type Glob = (string, string) -> bool

  predicate WhitelistMatches(patterns: seq<string>, t: string, glob: Glob) {
    exists p :: p in patterns && (p == "*" || p == t || (IsGlob(p) && glob(p, t)))
  }

  predicate BannedMatches(patterns: seq<string>, t: string, glob: Glob) {
    exists p :: p in patterns && (p == t || (IsGlob(p) && glob(p, t)))
  }

  /** mergeToolGroupID: the first group that lists t, or "". */
  function OwningGroup(groups: seq<ToolGroup>, t: string): string {
    if groups == [] then ""
    else if t in groups[0].tools then groups[0].id
    else OwningGroup(groups[1..], t)
  }

  /** strings.EqualFold(s, "deny"); none of these four letters has a case variant outside ASCII. */
  predicate EqualFoldDeny(s: string) {
    |s| == 4 && s[0] in "dD" && s[1] in "eE" && s[2] in "nN" && s[3] in "yY"
  }

  /** No entry of its own and none of its group decides about t. */
  predicate FallsToDefault(groups: seq<ToolGroup>, s: ToolState, t: string) {
    var g := OwningGroup(groups, t);
    t !in s.policies && (g == "" || g == OTHER_GROUP || GroupPolicyKey(g) !in s.policies)
  }

  predicate BlockedByPolicy(groups: seq<ToolGroup>, s: ToolState, t: string) {
    if t in s.policies then s.policies[t].disabled
    else
      var g := OwningGroup(groups, t);
      if g != "" && g != OTHER_GROUP && GroupPolicyKey(g) in s.policies
      then s.policies[GroupPolicyKey(g)].disabled
      else EqualFoldDeny(TrimSpace(s.defaultPolicy))
  }

  /** agentToolGranted. */
  predicate Granted(groups: seq<ToolGroup>, s: ToolState, t: string, glob: Glob) {
    && s.tools != []
    && WhitelistMatches(s.tools, t, glob)
    && !BannedMatches(s.banned, t, glob)
    && !BlockedByPolicy(groups, s, t)
  }

  // ----- the code of the resolver -----

  /** toolWhitelistMatches. */
  method ToolWhitelistMatches(patterns: seq<string>, t: string, glob: Glob) returns (r: bool)
    ensures r == WhitelistMatches(patterns, t, glob)
  {
    for i := 0 to |patterns|
      invariant forall j :: 0 <= j < i ==> patterns[j] != "*" && patterns[j] != t && !(IsGlob(patterns[j]) && glob(patterns[j], t))
    {
      var p := patterns[i];
      assert p in patterns;
      if p == "*" || p == t {
        return true;
      }
      if !IsGlob(p) {
        continue;
      }
      if glob(p, t) {
        return true;
      }
    }
    return false;
  }

  /** bannedToolMatches. */
  method BannedToolMatches(patterns: seq<string>, t: string, glob: Glob) returns (r: bool)
    ensures r == BannedMatches(patterns, t, glob)
  {
    for i := 0 to |patterns|
      invariant forall j :: 0 <= j < i ==> patterns[j] != t && !(IsGlob(patterns[j]) && glob(patterns[j], t))
    {
      var p := patterns[i];
      assert p in patterns;
      if p == t {
        return true;
      }
      if !IsGlob(p) {
        continue;
      }
      if glob(p, t) {
        return true;
      }
    }
    return false;
  }

  /** mergeToolGroupID. */
  method MergeToolGroupId(groups: seq<ToolGroup>, t: string) returns (id: string)
    ensures id == OwningGroup(groups, t)
  {
    for i := 0 to |groups|
      invariant OwningGroup(groups[i..], t) == OwningGroup(groups, t)
    {
      var g := groups[i];
      assert groups[i..][0] == g && groups[i..][1..] == groups[i + 1..];
      for j := 0 to |g.tools|
        invariant forall k :: 0 <= k < j ==> g.tools[k] != t
      {
        if g.tools[j] == t {
          return g.id;
        }
      }
    }
    return "";
  }

  /** agentToolBlockedByPolicy. */
  method AgentToolBlockedByPolicy(def: AgentDefinition, t: string) returns (r: bool)
    ensures r == BlockedByPolicy(def.toolGroups, def.State(), t)
  {
    hide EqualFoldDeny, TrimSpace;
    if t in def.toolPolicies {
      return def.toolPolicies[t].disabled;
    }
    var group := MergeToolGroupId(def.toolGroups, t);
    if group != "" && group != OTHER_GROUP {
      if GroupPolicyKey(group) in def.toolPolicies {
        return def.toolPolicies[GroupPolicyKey(group)].disabled;
      }
    }
    return EqualFoldDeny(TrimSpace(def.defaultToolPolicy));
  }

  /** agentToolGranted. */
  method AgentToolGranted(def: AgentDefinition?, t: string, glob: Glob) returns (r: bool)
    ensures r <==> def != null && Granted(def.toolGroups, def.State(), t, glob)
  {
    hide BlockedByPolicy, WhitelistMatches, BannedMatches;
    if def == null || |def.tools| == 0 {
      return false;
    }
    var listed := ToolWhitelistMatches(def.tools, t, glob);
    if !listed {
      return false;
    }
    var banned := BannedToolMatches(def.bannedTools, t, glob);
    if banned {
      return false;
    }
    var blocked := AgentToolBlockedByPolicy(def, t);
    return !blocked;
  }

  // ----- what the resolver promises -----

  /** One whitelist entry is enough: when "*", the exact name or a glob that matches is stored, the tool is
      granted exactly when no ban entry names or matches it and no policy blocks it. */
  lemma MatchingEntryGrants(groups: seq<ToolGroup>, s: ToolState, t: string, p: string, glob: Glob)
    requires p in s.tools
    requires p == "*" || p == t || (('*' in p || '?' in p || '[' in p) && glob(p, t))
    ensures Granted(groups, s, t, glob) <==>
            (forall b | b in s.banned :: b != t && (('*' in b || '?' in b || '[' in b) ==> !glob(b, t))) &&
            !BlockedByPolicy(groups, s, t)
  {
    hide BlockedByPolicy;
  }

  /** Without such an entry nothing is granted: an empty whitelist denies everything, and a stored text
      without a glob character is a name and nothing more. */
  lemma NoEntryNoGrant(groups: seq<ToolGroup>, s: ToolState, t: string, glob: Glob)
    requires forall p | p in s.tools :: p != "*" && p != t && (('*' in p || '?' in p || '[' in p) ==> !glob(p, t))
    ensures !Granted(groups, s, t, glob)
  {
    hide BlockedByPolicy;
  }

  /** Allowing more and banning less takes no grant away, as long as the policies stay. */
  lemma WiderGrantsMore(groups: seq<ToolGroup>, s: ToolState, s': ToolState, t: string, glob: Glob)
    requires (forall p | p in s.tools :: p in s'.tools) && (forall p | p in s'.banned :: p in s.banned)
    requires s'.policies == s.policies && s'.defaultPolicy == s.defaultPolicy
    requires Granted(groups, s, t, glob)
    ensures Granted(groups, s', t, glob)
  {
    hide IsGlob, OwningGroup, EqualFoldDeny, TrimSpace;
    var p :| p in s.tools && (p == "*" || p == t || (IsGlob(p) && glob(p, t)));
    assert p in s'.tools;
  }

  /** Which policy decides about a tool: its own entry; else the entry of the first group that lists it,
      unless that is the display-only group; else the default, which blocks when it spells "deny" in any
      case. A matching entry decides alone: it overrules a deny further out. */
  lemma PolicyPrecedence(groups: seq<ToolGroup>, s: ToolState, t: string)
    ensures t in s.policies ==> (BlockedByPolicy(groups, s, t) <==> s.policies[t].disabled)
    ensures forall i | 0 <= i < |groups| && t in groups[i].tools && (forall j :: 0 <= j < i ==> t !in groups[j].tools) ::
              t !in s.policies && groups[i].id != "" && groups[i].id != "other" && "@group:" + groups[i].id in s.policies ==>
                (BlockedByPolicy(groups, s, t) <==> s.policies["@group:" + groups[i].id].disabled)
    ensures t !in s.policies &&
            (forall g | g in groups && t in g.tools :: g.id == "" || g.id == "other" || "@group:" + g.id !in s.policies) ==>
              (BlockedByPolicy(groups, s, t) <==> AnyCase(TrimSpace(s.defaultPolicy), "deny", "DENY"))
  {
    hide TrimSpace, BlockedByPolicy;
    assert t in s.policies ==> (BlockedByPolicy(groups, s, t) <==> s.policies[t].disabled) by {
      OwnEntryDecides(groups, s, t);
    }
    forall i | 0 <= i < |groups| && t in groups[i].tools && (forall j :: 0 <= j < i ==> t !in groups[j].tools)
      ensures t !in s.policies && groups[i].id != "" && groups[i].id != "other" && "@group:" + groups[i].id in s.policies ==>
                (BlockedByPolicy(groups, s, t) <==> s.policies["@group:" + groups[i].id].disabled)
    {
      FirstListing(groups, i, t);
      GroupEntryDecides(groups, s, t);
    }
    OwnerLists(groups, t);
    DefaultDecides(groups, s, t);
  }

  /** The page's word is obeyed: a tool saved with "deny" is not granted, one saved with "allow" or "ask" is
      granted exactly as the lists say, whatever its group's policy and the default are. */
  lemma SelectDecidesGrant(groups: seq<ToolGroup>, form: Form, s: ToolState, s': ToolState, t: string, glob: Glob)
    requires Saves(groups, form, s, s') && PolicyOf(t) in form && !("@group:" <= t)
    ensures Get(form, PolicyOf(t)) == "deny" ==> !Granted(groups, s', t, glob)
    ensures Get(form, PolicyOf(t)) == "allow" || Get(form, PolicyOf(t)) == "ask" ==>
              (Granted(groups, s', t, glob) <==> WhitelistMatches(s'.tools, t, glob) && !BannedMatches(s'.banned, t, glob))
  {
    hide Saves, Get, WhitelistMatches, BannedMatches;
    SelectWrites(groups, form, s, s', t, Get(form, PolicyOf(t)));
    assert s'.tools == [] ==> !WhitelistMatches(s'.tools, t, glob) by {
      EmptyMatchesNothing(t, glob);
    }
  }

  lemma EmptyMatchesNothing(t: string, glob: Glob)
    ensures !WhitelistMatches([], t, glob)
  {
  }

  lemma OwnEntryDecides(groups: seq<ToolGroup>, s: ToolState, t: string)
    ensures t in s.policies ==> (BlockedByPolicy(groups, s, t) <==> s.policies[t].disabled)
  {
  }

  lemma GroupEntryDecides(groups: seq<ToolGroup>, s: ToolState, t: string)
    ensures var g := OwningGroup(groups, t);
            t !in s.policies && g != "" && g != "other" && "@group:" + g in s.policies ==>
              (BlockedByPolicy(groups, s, t) <==> s.policies["@group:" + g].disabled)
  {
  }

  lemma DefaultDecides(groups: seq<ToolGroup>, s: ToolState, t: string)
    ensures FallsToDefault(groups, s, t) ==>
              (BlockedByPolicy(groups, s, t) <==> AnyCase(TrimSpace(s.defaultPolicy), "deny", "DENY"))
  {
    hide TrimSpace, OwningGroup;
  }

  lemma {:induction false} OwnerLists(groups: seq<ToolGroup>, t: string)
    ensures OwningGroup(groups, t) == "" || exists g :: g in groups && t in g.tools && g.id == OwningGroup(groups, t)
  {
    if groups != [] {
      if t in groups[0].tools {
        assert groups[0] in groups;
      } else {
        OwnerLists(groups[1..], t);
        assert forall g | g in groups[1..] :: g in groups;
      }
    }
  }

  /** End to end: once a group is switched off and saved, the resolver refuses its members, however wide the
      stored globs and whatever the policies say; switched on, a member is granted exactly when no ban glob
      matches it and no policy blocks it. */
  lemma SwitchedAndSaved(groups: seq<ToolGroup>, form: Form, s: ToolState, s': ToolState, t: string, i: nat, glob: Glob)
    requires Saves(groups, form, s, s')
    requires t != "spawn_agents" && t != "list_available_agents" && t != "set_session_title"
    requires i < |groups| && t in groups[i].tools
    requires var id := groups[i].id;
             GroupWasEnabled(id) in form && (Get(form, GroupWasEnabled(id)) == "true") != (GroupEnabled(id) in form)
    requires forall j | i < j < |groups| && t in groups[j].tools :: !Switched(form, groups[j].id)
    ensures Granted(groups, s', t, glob) <==>
            GroupEnabled(groups[i].id) in form &&
            (forall b | b in s'.banned && ('*' in b || '?' in b || '[' in b) :: !glob(b, t)) &&
            !BlockedByPolicy(groups, s', t)
  {
    hide Saves, BlockedByPolicy, Get, Switched;
    SwitchDecides(groups, form, s, s', t, i) by {
      assert Switched(form, groups[i].id) by {
        ToggleMeans(form, groups[i]);
      }
    }
    GrantedWhenListed(groups, s', t, glob);
  }

  /** Switching a group off takes its members away for good: unless a later toggled group turns one
      back on, it is not granted afterwards, however wide the whitelist's globs are. */
  lemma {:induction false} SwitchedOffIsDenied(groups: seq<ToolGroup>, form: Form, s: ToolState, s': ToolState, t: string, glob: Glob)
    requires Saves(groups, form, s, s')
    requires !IsDelegationTool(t) && LastToggle(groups, form, t) == Some(false)
    ensures !Granted(groups, s', t, glob)
  {
    if t == SET_SESSION_TITLE {
      SaveBanManaged(groups, form, s, s');
    } else {
      SaveMembership(groups, form, s, s', t);
    }
  }

  /** Switching on is only half a grant: an enabled member is granted exactly when no ban glob and no
      policy is in the way. */
  lemma {:induction false} SwitchedOnIsGranted(groups: seq<ToolGroup>, form: Form, s: ToolState, s': ToolState, t: string, glob: Glob)
    requires Saves(groups, form, s, s')
    requires !IsDelegationTool(t) && t != SET_SESSION_TITLE && LastToggle(groups, form, t) == Some(true)
    ensures Granted(groups, s', t, glob) <==>
            !(exists p :: p in s'.banned && IsGlob(p) && glob(p, t)) && !BlockedByPolicy(groups, s', t)
  {
    hide Saves, Granted, BlockedByPolicy, LastToggle;
    SaveMembership(groups, form, s, s', t);
    GrantedWhenListed(groups, s', t, glob);
  }

  lemma GrantedWhenListed(groups: seq<ToolGroup>, s: ToolState, t: string, glob: Glob)
    ensures t in s.tools && t !in s.banned ==>
              (Granted(groups, s, t, glob) <==>
               !(exists p :: p in s.banned && IsGlob(p) && glob(p, t)) && !BlockedByPolicy(groups, s, t))
  {
    hide IsGlob, BlockedByPolicy;
  }

  /** A stored group deny blocks every member whose first listing group it is and that has no entry
      of its own; the display-only group "other" is never consulted. */
  lemma GroupDenyBlocks(groups: seq<ToolGroup>, s: ToolState, i: nat, t: string, glob: Glob)
    requires i < |groups| && t in groups[i].tools
    requires forall j :: 0 <= j < i ==> t !in groups[j].tools
    requires groups[i].id != "" && groups[i].id != OTHER_GROUP
    requires t !in s.policies && GroupPolicyKey(groups[i].id) in s.policies
    requires s.policies[GroupPolicyKey(groups[i].id)].disabled
    ensures !Granted(groups, s, t, glob)
  {
    FirstListing(groups, i, t);
  }

  lemma {:induction false} FirstListing(groups: seq<ToolGroup>, i: nat, t: string)
    requires i < |groups| && t in groups[i].tools
    requires forall j :: 0 <= j < i ==> t !in groups[j].tools
    ensures OwningGroup(groups, t) == groups[i].id
  {
    if i > 0 {
      assert t !in groups[0].tools;
      forall j | 0 <= j < i - 1
        ensures t !in groups[1..][j].tools
      {
        assert groups[1..][j] == groups[j + 1];
      }
      FirstListing(groups[1..], i - 1, t);
    }
  }
}
