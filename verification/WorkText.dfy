/**
 The one-per-line text boxes of the work and sandbox settings (agent_work.go, agent.go): trigger
 rules "status | prompt", transition rules "from -> to" and environment variables "KEY=VALUE". Each
 is parsed line by line and printed back into the box.
 */
module WorkText {
  import opened Options
  import opened Order
  import opened Slices
  import opened Text

  datatype Trigger = Trigger(status: string, prompt: string)
  datatype Transition = Transition(from: string, to: string)
  const NL := '\n'

  /** The lines of a box, trimmed, without the empty ones. */
  function Lines(raw: string): seq<string> {
    Trims(Split(raw, NL))
  }

  function Trims(ls: seq<string>): seq<string> {
    if ls == [] then []
    else
      var n := |ls| - 1;
      var l := TrimSpace(ls[n]);
      if l == "" then Trims(ls[..n]) else Trims(ls[..n]) + [l]
  }

  // ----- what one line means -----

  function TriggerOf(line: string): Option<Trigger> {
    var cut := Cut(line, "|");
    var status := TrimSpace(cut.before);
    if status == "" then None else Some(Trigger(status, TrimSpace(cut.after)))
  }

  function TransitionOf(line: string): Option<Transition> {
    var cut := Cut(line, "->");
    if !cut.found then None
    else
      var from, to := TrimSpace(cut.before), TrimSpace(cut.after);
      if from == "" || to == "" then None else Some(Transition(from, to))
  }

  function Collect<T>(ls: seq<string>, f: string -> Option<T>): seq<T> {
    if ls == [] then []
    else
      var n := |ls| - 1;
      match f(ls[n])
      case None => Collect(ls[..n], f)
      case Some(x) => Collect(ls[..n], f) + [x]
  }

  function Triggers(raw: string): seq<Trigger> {
    Collect(Lines(raw), TriggerOf)
  }

  function Transitions(raw: string): seq<Transition> {
    Collect(Lines(raw), TransitionOf)
  }

  // ----- the parsers -----

  /** parseRuleTriggers. */
  method ParseRuleTriggers(raw: string) returns (out: seq<Trigger>)
    ensures out == Triggers(raw)
  {
    hide TrimSpace, Cut, Infix, Contains, Split;
    out := [];
    var lines := Split(raw, NL);
    for i := 0 to |lines|
      invariant out == Collect(Trims(lines[..i]), TriggerOf)
    {
      assert lines[..i + 1][..i] == lines[..i];
      var line := TrimSpace(lines[i]);
      if line == "" {
        continue;
      }
      assert (Trims(lines[..i]) + [line])[..|Trims(lines[..i])|] == Trims(lines[..i]);
      var cut := Cut(line, "|");
      var status := TrimSpace(cut.before);
      if status == "" {
        continue;
      }
      out := out + [Trigger(status, TrimSpace(cut.after))];
    }
    assert lines[..|lines|] == lines;
  }

  /** parseRuleTransitions. */
  method ParseRuleTransitions(raw: string) returns (out: seq<Transition>)
    ensures out == Transitions(raw)
  {
    hide TrimSpace, Cut, Infix, Contains, Split;
    out := [];
    var lines := Split(raw, NL);
    for i := 0 to |lines|
      invariant out == Collect(Trims(lines[..i]), TransitionOf)
    {
      assert lines[..i + 1][..i] == lines[..i];
      var line := TrimSpace(lines[i]);
      if line == "" {
        continue;
      }
      assert (Trims(lines[..i]) + [line])[..|Trims(lines[..i])|] == Trims(lines[..i]);
      var cut := Cut(line, "->");
      if !cut.found {
        continue;
      }
      var from, to := TrimSpace(cut.before), TrimSpace(cut.after);
      if from == "" || to == "" {
        continue;
      }
      out := out + [Transition(from, to)];
    }
    assert lines[..|lines|] == lines;
  }

  // ----- the printers -----

  function TriggerLine(t: Trigger): string {
    if t.prompt != "" then t.status + " | " + t.prompt else t.status
  }

  function TransitionLine(t: Transition): string {
    t.from + " -> " + t.to
  }

  /** ruleTriggersText. */
  method RuleTriggersText(ts: seq<Trigger>) returns (text: string)
    ensures text == Join(Each(ts, TriggerLine), NL)
  {
    var lines: seq<string> := [];
    for i := 0 to |ts|
      invariant lines == Each(ts[..i], TriggerLine)
    {
      var t := ts[i];
      if t.prompt != "" {
        lines := lines + [t.status + " | " + t.prompt];
      } else {
        lines := lines + [t.status];
      }
    }
    assert ts[..|ts|] == ts;
    text := Join(lines, NL);
  }

  /** ruleTransitionsText. */
  method RuleTransitionsText(ts: seq<Transition>) returns (text: string)
    ensures text == Join(Each(ts, TransitionLine), NL)
  {
    var lines: seq<string> := [];
    for i := 0 to |ts|
      invariant lines == Each(ts[..i], TransitionLine)
    {
      lines := lines + [ts[i].from + " -> " + ts[i].to];
    }
    assert ts[..|ts|] == ts;
    text := Join(lines, NL);
  }

  // ----- normal forms -----

  /** A field as a parser leaves it: trimmed and on one line. */
  predicate Field(s: string) {
    Trimmed(s) && NL !in s
  }

  predicate NormalTrigger(t: Trigger) {
    t.status != "" && Field(t.status) && Field(t.prompt) && !Contains(t.status, "|")
  }

  predicate NormalTransition(t: Transition) {
    t.from != "" && t.to != "" && Field(t.from) && Field(t.to) && !Contains(t.from, "->")
  }

  // ----- lines round-trip -----

  /** Printing lines that are already trimmed and non-empty and splitting them again changes nothing. */
  lemma LinesOfJoin(ls: seq<string>)
    requires forall l | l in ls :: l != "" && Field(l)
    ensures Lines(Join(ls, NL)) == ls
  {
    if ls == [] {
      assert Split("", NL) == [""];
      assert Trims([""]) == Trims([""][..0]) == [];
    } else {
      SplitJoin(ls, NL);
      TrimsTrimmed(ls);
    }
  }

  lemma {:induction false} TrimsTrimmed(ls: seq<string>)
    requires forall l | l in ls :: l != "" && Field(l)
    ensures Trims(ls) == ls
  {
    hide TrimSpace, IsSpace;
    if ls != [] {
      var n := |ls| - 1;
      assert ls[n] in ls && forall l | l in ls[..n] :: l in ls;
      TrimsTrimmed(ls[..n]);
      TrimTrimmed(ls[n]);
      assert ls == ls[..n] + [ls[n]];
    }
  }

  lemma {:induction false} LinesAreFields(ls: seq<string>)
    requires forall l | l in ls :: NL !in l
    ensures forall l | l in Trims(ls) :: l != "" && Field(l)
  {
    hide TrimSpace, Infix;
    if ls != [] {
      var n := |ls| - 1;
      assert ls[n] in ls && forall l | l in ls[..n] :: l in ls;
      LinesAreFields(ls[..n]);
      TrimIsInfix(ls[n]);
      InfixLacks(TrimSpace(ls[n]), ls[n], NL);
    }
  }

  lemma FieldOf(part: string, line: string)
    requires NL !in line && forall c | c in part :: c in line
    ensures Field(TrimSpace(part))
  {
    TrimIsInfix(part);
    InfixLacks(TrimSpace(part), part, NL);
  }

  /** If every printed item reads back as itself, the whole box does. */
  lemma {:induction false} CollectPrinted<T>(xs: seq<T>, show: T -> string, read: string -> Option<T>)
    requires forall x | x in xs :: read(show(x)) == Some(x)
    ensures Collect(Each(xs, show), read) == xs
  {
    if xs != [] {
      var n := |xs| - 1;
      assert xs[n] in xs && forall x | x in xs[..n] :: x in xs;
      assert Each(xs, show)[..n] == Each(xs[..n], show);
      CollectPrinted(xs[..n], show, read);
      assert xs == xs[..n] + [xs[n]];
    }
  }

  lemma {:induction false} CollectHolds<T>(ls: seq<string>, read: string -> Option<T>, good: T -> bool)
    requires forall l | l in ls :: read(l).Some? ==> good(read(l).value)
    ensures forall i :: 0 <= i < |Collect(ls, read)| ==> good(Collect(ls, read)[i])
  {
    if ls != [] {
      var n := |ls| - 1;
      assert ls[n] in ls && forall l | l in ls[..n] :: l in ls;
      CollectHolds(ls[..n], read, good);
    }
  }

  lemma {:induction false} TrimsConcat(a: seq<string>, b: seq<string>)
    ensures Trims(a + b) == Trims(a) + Trims(b)
  {
    hide TrimSpace;
    if b == [] {
      assert a + b == a;
    } else {
      var n := |b| - 1;
      assert (a + b)[..|a + b| - 1] == a + b[..n];
      TrimsConcat(a, b[..n]);
    }
  }

  lemma {:induction false} CollectConcat<T>(a: seq<string>, b: seq<string>, f: string -> Option<T>)
    ensures Collect(a + b, f) == Collect(a, f) + Collect(b, f)
  {
    if b == [] {
      assert a + b == a;
    } else {
      var n := |b| - 1;
      assert (a + b)[..|a + b| - 1] == a + b[..n];
      CollectConcat(a, b[..n], f);
    }
  }

  /** Lines are read one by one: what a box says above a line end and below it are independent, so a line
      without a rule loses no rule above or below it. */
  lemma BoxesConcat(a: string, b: string)
    ensures Triggers(a + [NL] + b) == Triggers(a) + Triggers(b)
    ensures Transitions(a + [NL] + b) == Transitions(a) + Transitions(b)
  {
    hide Split, Trims, Collect, TriggerOf, TransitionOf;
    SplitConcat(a, b, NL);
    TrimsConcat(Split(a, NL), Split(b, NL));
    CollectConcat(Lines(a), Lines(b), TriggerOf);
    CollectConcat(Lines(a), Lines(b), TransitionOf);
  }

  // ----- triggers -----

  /** A printed trigger is one clean line, and reading it gives the trigger back; the prompt may
      contain "|", since only the first one cuts. */
  lemma TriggerLineReads(t: Trigger)
    requires NormalTrigger(t)
    ensures TriggerLine(t) != "" && Field(TriggerLine(t))
    ensures TriggerOf(TriggerLine(t)) == Some(t)
  {
    hide TriggerOf, Contains, IsSpace;
    if t.prompt == "" {
      BareTriggerReads(t.status);
    } else {
      FullTriggerReads(t);
    }
  }

  lemma BareTriggerReads(status: string)
    requires status != "" && Field(status) && !Contains(status, "|")
    ensures TriggerOf(status) == Some(Trigger(status, ""))
  {
    hide Cut, Contains, Infix;
    CutMissing(status, "|");
    TrimTrimmed(status);
    TrimTrimmed("");
  }

  lemma FullTriggerReads(t: Trigger)
    requires NormalTrigger(t)
    ensures TriggerOf(t.status + " | " + t.prompt) == Some(t)
  {
    hide TrimSpace, Contains, Cut, Infix;
    var before, after := t.status + " ", " " + t.prompt;
    assert t.status + " | " + t.prompt == before + "|" + after;
    ContainsChar(t.status, "|");
    CutAtChar(before, "|", after);
    TrimPadded("", t.status, " ");
    TrimPadded(" ", t.prompt, "");
    assert "" + t.status + " " == before && " " + t.prompt + "" == after;
  }

  lemma TriggerReadIsNormal(line: string)
    requires NL !in line && TriggerOf(line).Some?
    ensures NormalTrigger(TriggerOf(line).value)
  {
    var cut := Cut(line, "|");
    CutParts(line, "|");
    CutBeforeLacks(line, "|");
    FieldOf(cut.before, line);
    FieldOf(cut.after, line);
    TrimIsInfix(cut.before);
    InfixLacksText(TrimSpace(cut.before), cut.before, "|");
  }

  /** parse inverts print on every list of well-formed triggers. */
  lemma TriggersReadBack(ts: seq<Trigger>)
    requires forall t | t in ts :: NormalTrigger(t)
    ensures Triggers(Join(Each(ts, TriggerLine), NL)) == ts
  {
    var ls := Each(ts, TriggerLine);
    forall t | t in ts {
      TriggerLineReads(t);
    }
    forall l | l in ls
      ensures l != "" && Field(l)
    {
      var i :| 0 <= i < |ls| && ls[i] == l;
      assert ts[i] in ts;
    }
    LinesOfJoin(ls);
    CollectPrinted(ts, TriggerLine, TriggerOf);
  }

  /** For every text, parse . print . parse == parse. */
  lemma TriggersStable(raw: string)
    ensures Triggers(Join(Each(Triggers(raw), TriggerLine), NL)) == Triggers(raw)
  {
    SplitLacksSep(raw, NL);
    LinesAreFields(Split(raw, NL));
    forall l | l in Lines(raw) && TriggerOf(l).Some? {
      TriggerReadIsNormal(l);
    }
    CollectHolds(Lines(raw), TriggerOf, NormalTrigger);
    TriggersReadBack(Triggers(raw));
  }

  // ----- transitions -----

  lemma NoEarlierArrow(from: string, after: string, i: nat)
    requires !Contains(from, "->") && i <= |from|
    ensures !("->" <= (from + " " + "->" + after)[i..])
  {
    var line := from + " " + "->" + after;
    assert line[i..][0] == line[i] && line[i..][1] == line[i + 1];
    if i + 2 <= |from| {
      assert !("->" <= from[i..]);
      assert from[i..][0] == from[i] == line[i] && from[i..][1] == from[i + 1] == line[i + 1];
    } else {
      assert line[i] == ' ' || line[i + 1] == ' ';
    }
  }

  /** A printed transition reads back; the target may contain "->", since only the first one cuts. */
  lemma TransitionLineReads(t: Transition)
    requires NormalTransition(t)
    ensures TransitionLine(t) != "" && Field(TransitionLine(t))
    ensures TransitionOf(TransitionLine(t)) == Some(t)
  {
    hide TrimSpace, Contains, Cut;
    var before, after := t.from + " ", " " + t.to;
    var line := before + "->" + after;
    assert TransitionLine(t) == line;
    forall i | 0 <= i < |before|
      ensures !("->" <= line[i..])
    {
      NoEarlierArrow(t.from, after, i);
    }
    CutAt(before, "->", after);
    TrimPadded("", t.from, " ");
    TrimPadded(" ", t.to, "");
    assert "" + t.from + " " == before && " " + t.to + "" == after;
  }

  lemma TransitionReadIsNormal(line: string)
    requires NL !in line && TransitionOf(line).Some?
    ensures NormalTransition(TransitionOf(line).value)
  {
    var cut := Cut(line, "->");
    CutParts(line, "->");
    CutBeforeLacks(line, "->");
    FieldOf(cut.before, line);
    FieldOf(cut.after, line);
    TrimIsInfix(cut.before);
    InfixLacksText(TrimSpace(cut.before), cut.before, "->");
  }

  lemma TransitionsReadBack(ts: seq<Transition>)
    requires forall t | t in ts :: NormalTransition(t)
    ensures Transitions(Join(Each(ts, TransitionLine), NL)) == ts
  {
    var ls := Each(ts, TransitionLine);
    forall t | t in ts {
      TransitionLineReads(t);
    }
    forall l | l in ls
      ensures l != "" && Field(l)
    {
      var i :| 0 <= i < |ls| && ls[i] == l;
      assert ts[i] in ts;
    }
    LinesOfJoin(ls);
    CollectPrinted(ts, TransitionLine, TransitionOf);
  }

  lemma TransitionsStable(raw: string)
    ensures Transitions(Join(Each(Transitions(raw), TransitionLine), NL)) == Transitions(raw)
  {
    SplitLacksSep(raw, NL);
    LinesAreFields(Split(raw, NL));
    forall l | l in Lines(raw) && TransitionOf(l).Some? {
      TransitionReadIsNormal(l);
    }
    CollectHolds(Lines(raw), TransitionOf, NormalTransition);
    TransitionsReadBack(Transitions(raw));
  }

  // ----- environment variables -----

  datatype EnvResult = EnvOk(vars: map<string, string>) | NotKeyValue | GitTokenKey

  /** unicode.ToLower(c) == t, for the letters of the two reserved names. */
  predicate LowersTo(c: char, t: char) {
    c == t || ('a' <= t <= 'z' && c as int == t as int - 32) || (t == 'k' && c == '\U{212A}') || (t == 'i' && c == '\U{130}')
  }

  predicate LowersToText(s: string, t: string) {
    |s| == |t| && forall i :: 0 <= i < |s| ==> LowersTo(s[i], t[i])
  }

  /** isGitTokenEnvKey. */
  predicate IsGitToken(key: string) {
    var k := TrimSpace(key);
    LowersToText(k, "gh_token") || LowersToText(k, "github_token")
  }

  /** One line of the box: KEY=VALUE, cut at the first "=". */
  function EnvLine(vars: map<string, string>, line: string): EnvResult {
    var cut := Cut(line, "=");
    var k := TrimSpace(cut.before);
    if !cut.found || k == "" then NotKeyValue
    else if IsGitToken(k) then GitTokenKey
    else EnvOk(vars[k := TrimSpace(cut.after)])
  }

  /** The whole box: the first bad line is the answer. */
  function Env(ls: seq<string>): EnvResult {
    if ls == [] then EnvOk(map[])
    else
      var r := Env(ls[..|ls| - 1]);
      if r.EnvOk? then EnvLine(r.vars, ls[|ls| - 1]) else r
  }

  lemma EnvStep(ls: seq<string>, line: string)
    ensures Env(ls + [line]) == if Env(ls).EnvOk? then EnvLine(Env(ls).vars, line) else Env(ls)
  {
    hide EnvLine;
    assert (ls + [line])[..|ls|] == ls;
  }

  lemma TrimsStep(ls: seq<string>, i: nat)
    requires i < |ls|
    ensures var l := TrimSpace(ls[i]);
            Trims(ls[..i + 1]) == if l == "" then Trims(ls[..i]) else Trims(ls[..i]) + [l]
  {
    hide TrimSpace;
    assert ls[..i + 1][..i] == ls[..i];
  }

  lemma {:induction false} EnvStops(ls: seq<string>, n: nat)
    requires n <= |ls| && !Env(ls[..n]).EnvOk?
    ensures Env(ls) == Env(ls[..n])
  {
    if n < |ls| {
      assert ls[..|ls| - 1][..n] == ls[..n];
      EnvStops(ls[..|ls| - 1], n);
    } else {
      assert ls[..n] == ls;
    }
  }

  /** What a line does once the ones before it are accepted. Without "=", or with a blank key, it makes the
      box no key-value text; a key that spells one of the two git tokens in any case makes it a reserved one;
      any other key takes the trimmed value, replacing an earlier one. */
  lemma EnvRefusals(ls: seq<string>, i: nat, before: string, after: string)
    requires i < |ls| && Env(ls[..i]).EnvOk?
    ensures '=' !in ls[i] ==> Env(ls) == NotKeyValue
    ensures ls[i] == before + "=" + after && '=' !in before ==>
              var k := TrimSpace(before);
              && (k == "" ==> Env(ls) == NotKeyValue)
              && (AnyCase(k, "gh_token", "GH_TOKEN") || AnyCase(k, "github_token", "GITHUB_TOKEN") ==> Env(ls) == GitTokenKey)
              && (k != "" && !IsGitToken(k) ==> Env(ls[..i + 1]) == EnvOk(Env(ls[..i]).vars[k := TrimSpace(after)]))
  {
    hide TrimSpace, Env, EnvLine, AnyCase, IsGitToken;
    assert ls[..i + 1] == ls[..i] + [ls[i]];
    EnvStep(ls[..i], ls[i]);
    if !Env(ls[..i + 1]).EnvOk? {
      EnvStops(ls, i + 1);
    }
    EnvLineRefusals(Env(ls[..i]).vars, ls[i], before, after);
  }

  lemma EnvLineRefusals(vars: map<string, string>, line: string, before: string, after: string)
    ensures '=' !in line ==> EnvLine(vars, line) == NotKeyValue
    ensures line == before + "=" + after && '=' !in before ==>
              var k := TrimSpace(before);
              && (k == "" ==> EnvLine(vars, line) == NotKeyValue)
              && (AnyCase(k, "gh_token", "GH_TOKEN") || AnyCase(k, "github_token", "GITHUB_TOKEN") ==> EnvLine(vars, line) == GitTokenKey)
              && (k != "" && !IsGitToken(k) ==> EnvLine(vars, line) == EnvOk(vars[k := TrimSpace(after)]))
  {
    hide TrimSpace, IsSpace, Infix, Cut, Contains, LowersToText, AnyCase;
    ContainsChar(line, "=");
    if '=' !in line {
      CutMissing(line, "=");
    }
    if line == before + "=" + after && '=' !in before {
      var k := TrimSpace(before);
      CutAtChar(before, "=", after);
      TrimTrimmed(k);
      AnyCaseLowers(k, "gh_token", "GH_TOKEN");
      AnyCaseLowers(k, "github_token", "GITHUB_TOKEN");
      AnyCaseLength(k, "gh_token", "GH_TOKEN");
      AnyCaseLength(k, "github_token", "GITHUB_TOKEN");
    }
  }

  lemma AnyCaseLength(s: string, lower: string, upper: string)
    requires |lower| == |upper|
    ensures AnyCase(s, lower, upper) ==> |s| == |lower|
  {
  }

  lemma AnyCaseLowers(s: string, lower: string, upper: string)
    requires |lower| == |upper|
    requires forall i :: 0 <= i < |lower| ==>
               upper[i] == lower[i] || ('a' <= lower[i] <= 'z' && upper[i] as int == lower[i] as int - 32)
    ensures AnyCase(s, lower, upper) ==> LowersToText(s, lower)
  {
  }

  /** The environment part of the sandbox form handler. */
  method ParseEnvVars(raw: string) returns (r: EnvResult)
    ensures r == Env(Lines(raw))
  {
    assert Env(Trims([])) == EnvOk(map[]);
    hide TrimSpace, Infix, Split, EnvLine, Env, Trims;
    var vars := map[];
    var lines := Split(raw, NL);
    assert Env(Trims(lines[..0])) == EnvOk(vars) by {
    }
    for i := 0 to |lines|
      invariant Env(Trims(lines[..i])) == EnvOk(vars)
    {
      var line := TrimSpace(lines[i]);
      TrimsStep(lines, i);
      if line == "" {
        continue;
      }
      EnvStep(Trims(lines[..i]), line);
      var next := ParseEnvLine(vars, line);
      if !next.EnvOk? {
        TrimsPrefix(lines, i + 1);
        EnvStops(Trims(lines), |Trims(lines[..i + 1])|);
        return next;
      }
      vars := next.vars;
    }
    assert lines[..|lines|] == lines;
    return EnvOk(vars);
  }

  method ParseEnvLine(vars: map<string, string>, line: string) returns (r: EnvResult)
    ensures r == EnvLine(vars, line)
  {
    var cut := Cut(line, "=");
    var k := TrimSpace(cut.before);
    if !cut.found || k == "" {
      return NotKeyValue;
    }
    if IsGitToken(k) {
      return GitTokenKey;
    }
    return EnvOk(vars[k := TrimSpace(cut.after)]);
  }

  lemma {:induction false} TrimsPrefix(ls: seq<string>, n: nat)
    requires n <= |ls|
    ensures |Trims(ls[..n])| <= |Trims(ls)| && Trims(ls)[..|Trims(ls[..n])|] == Trims(ls[..n])
  {
    if n == |ls| {
      assert ls[..n] == ls;
    } else {
      assert ls[..|ls| - 1][..n] == ls[..n];
      TrimsPrefix(ls[..|ls| - 1], n);
    }
  }

  ghost function EnvText(vars: map<string, string>): string {
    Join(EnvLines(vars, SortedSet(vars.Keys)), NL)
  }

  function EnvLines(vars: map<string, string>, keys: seq<string>): (r: seq<string>)
    requires forall k | k in keys :: k in vars
    ensures |r| == |keys| && forall i :: 0 <= i < |r| ==> r[i] == keys[i] + "=" + vars[keys[i]]
  {
    seq(|keys|, i requires 0 <= i < |keys| => keys[i] + "=" + vars[keys[i]])
  }

  /** sandboxEnvVars: the keys come out of a Go map in any order and are sorted. */
  method SandboxEnvVars(vars: map<string, string>) returns (text: string)
    ensures text == EnvText(vars)
  {
    hide Sort, Less;
    var keys: seq<string> := [];
    var todo := vars.Keys;
    while todo != {}
      invariant todo <= vars.Keys
      invariant Distinct(keys) && forall k :: k in keys <==> k in vars && k !in todo
    {
      var k :| k in todo;
      keys := keys + [k];
      todo := todo - {k};
    }
    SortStringsStrict(keys);
    keys := Sort(keys, Less);
    SortedNamesUnique(keys, SortedSet(vars.Keys));
    var lines: seq<string> := [];
    for i := 0 to |keys|
      invariant lines == EnvLines(vars, keys[..i])
    {
      assert keys[i] in keys;
      lines := lines + [keys[i] + "=" + vars[keys[i]]];
    }
    assert keys[..|keys|] == keys;
    text := Join(lines, NL);
  }

  ghost predicate NormalEnv(vars: map<string, string>) {
    forall k | k in vars :: k != "" && Field(k) && !Contains(k, "=") && !IsGitToken(k) && Field(vars[k])
  }

  lemma EnvLineReads(vars: map<string, string>, k: string, v: string)
    requires k != "" && Field(k) && !Contains(k, "=") && !IsGitToken(k) && Field(v)
    ensures k + "=" + v != "" && Field(k + "=" + v)
    ensures EnvLine(vars, k + "=" + v) == EnvOk(vars[k := v])
  {
    hide TrimSpace, Contains, Cut, Infix, IsGitToken;
    ContainsChar(k, "=");
    CutAtChar(k, "=", v);
    TrimTrimmed(k);
    TrimTrimmed(v);
  }

  function Restrict(vars: map<string, string>, keys: seq<string>): (r: map<string, string>)
    requires forall k | k in keys :: k in vars
    ensures forall k :: k in r <==> k in keys
    ensures forall k | k in r :: r[k] == vars[k]
  {
    if keys == [] then map[]
    else
      assert keys == keys[..|keys| - 1] + [keys[|keys| - 1]];
      Restrict(vars, keys[..|keys| - 1])[keys[|keys| - 1] := vars[keys[|keys| - 1]]]
  }

  lemma {:induction false} EnvReads(vars: map<string, string>, keys: seq<string>)
    requires NormalEnv(vars) && forall k | k in keys :: k in vars
    ensures Env(EnvLines(vars, keys)) == EnvOk(Restrict(vars, keys))
    decreases keys, 1
  {
    if keys == [] {
      assert EnvLines(vars, keys) == [];
    } else {
      EnvReadsStep(vars, keys, |keys| - 1);
    }
  }

  lemma EnvReadsStep(vars: map<string, string>, keys: seq<string>, n: nat)
    requires NormalEnv(vars) && (forall k | k in keys :: k in vars) && |keys| == n + 1
    ensures Env(EnvLines(vars, keys)) == EnvOk(Restrict(vars, keys))
    decreases keys, 0
  {
    hide EnvLine, NormalEnv, Env, Contains, IsGitToken;
    var k, v := keys[n], vars[keys[n]];
    assert EnvLines(vars, keys) == EnvLines(vars, keys[..n]) + [k + "=" + v];
    EnvReads(vars, keys[..n]);
    EnvStep(EnvLines(vars, keys[..n]), k + "=" + v);
    NormalEntry(vars, k);
    EnvLineReads(Restrict(vars, keys[..n]), k, v);
  }

  lemma NormalEntry(vars: map<string, string>, k: string)
    ensures NormalEnv(vars) && k in vars ==> k != "" && Field(k) && !Contains(k, "=") && !IsGitToken(k) && Field(vars[k])
  {
  }

  /** Printing a well-formed environment and reading the box gives it back. */
  lemma EnvReadsBack(vars: map<string, string>)
    requires NormalEnv(vars)
    ensures Env(Lines(EnvText(vars))) == EnvOk(vars)
  {
    hide NormalEnv, EnvLine, TrimSpace, Contains, IsGitToken, Field, Lines, Env, Join, Restrict, Sort, Less;
    var keys := SortedSet(vars.Keys);
    var ls := EnvLines(vars, keys);
    forall l | l in ls
      ensures l != "" && Field(l)
    {
      var i :| 0 <= i < |ls| && ls[i] == l;
      assert keys[i] in keys;
      NormalEntry(vars, keys[i]);
      EnvLineReads(vars, keys[i], vars[keys[i]]);
    }
    LinesOfJoin(ls);
    EnvReads(vars, keys);
    assert vars == Restrict(vars, keys);
  }

  lemma EnvLineNormal(vars: map<string, string>, line: string)
    requires NL !in line && NormalEnv(vars) && EnvLine(vars, line).EnvOk?
    ensures NormalEnv(EnvLine(vars, line).vars)
  {
    hide TrimSpace, IsGitToken, Contains, Cut;
    var cut := Cut(line, "=");
    CutParts(line, "=");
    CutBeforeLacks(line, "=");
    FieldOf(cut.before, line);
    FieldOf(cut.after, line);
    TrimIsInfix(cut.before);
    InfixLacksText(TrimSpace(cut.before), cut.before, "=");
  }

  lemma {:induction false} EnvIsNormal(ls: seq<string>)
    requires (forall l | l in ls :: NL !in l) && Env(ls).EnvOk?
    ensures NormalEnv(Env(ls).vars)
  {
    if ls != [] {
      hide NormalEnv, EnvLine;
      var n := |ls| - 1;
      assert ls[n] in ls && forall l | l in ls[..n] :: l in ls;
      EnvIsNormal(ls[..n]);
      EnvLineNormal(Env(ls[..n]).vars, ls[n]);
    }
  }

  /** An accepted box is stable: the text the page shows for it is accepted and means the same. */
  lemma EnvStable(raw: string, vars: map<string, string>)
    requires Env(Lines(raw)) == EnvOk(vars)
    ensures Env(Lines(EnvText(vars))) == EnvOk(vars)
  {
    hide NormalEnv, EnvLine;
    SplitLacksSep(raw, NL);
    LinesAreFields(Split(raw, NL));
    EnvIsNormal(Lines(raw));
    EnvReadsBack(vars);
  }

  // ----- through the browser -----

  /** The value of a text box: CR LF and a lone CR become LF. */
  function Normalized(s: string): string {
    if s == "" then ""
    else if s[0] != '\r' then [s[0]] + Normalized(s[1..])
    else [NL] + Normalized(if |s| > 1 && s[1] == NL then s[2..] else s[1..])
  }

  function CrLf(t: string): string {
    if t == "" then "" else (if t[0] == NL then "\r\n" else [t[0]]) + CrLf(t[1..])
  }

  /** What a browser submits for a box showing s: its value, with every line end as CR LF. */
  function Posted(s: string): string {
    CrLf(Normalized(s))
  }

  lemma {:induction false} NormalizedLacksCr(s: string)
    ensures '\r' !in Normalized(s)
    ensures '\r' !in s ==> Normalized(s) == s
    decreases |s|
  {
    if s != "" {
      NormalizedLacksCr(s[1..]);
      if |s| > 1 {
        NormalizedLacksCr(s[2..]);
      }
      assert s == [s[0]] + s[1..];
    }
  }

  lemma {:induction false} TrimLeftCr(p: string)
    ensures TrimLeft(p + "\r") == if TrimLeft(p) == "" then "" else TrimLeft(p) + "\r"
  {
    if p == "" {
      assert "" + "\r" == "\r" && "\r"[1..] == "";
    } else {
      assert (p + "\r")[1..] == p[1..] + "\r";
      TrimLeftCr(p[1..]);
    }
  }

  /** A carriage return at the end of a line is a space to trim. */
  lemma TrimCr(p: string)
    ensures TrimSpace(p + "\r") == TrimSpace(p)
  {
    TrimLeftCr(p);
    var t := TrimLeft(p);
    assert (t + "\r")[..|t|] == t;
  }

  /** Pieces of the same lines: the second list may end its own with a carriage return. */
  ghost predicate SamePieces(ps: seq<string>, qs: seq<string>) {
    |ps| == |qs| && forall i :: 0 <= i < |ps| ==> qs[i] == ps[i] || qs[i] == ps[i] + "\r"
  }

  lemma {:induction false} CrLfPieces(t: string)
    ensures SamePieces(Split(t, NL), Split(CrLf(t), NL))
  {
    if t != "" {
      CrLfPieces(t[1..]);
      var ps, qs := Split(t[1..], NL), Split(CrLf(t[1..]), NL);
      if t[0] == NL {
        assert CrLf(t) == "\r" + ([NL] + CrLf(t[1..]));
        CrLfSplits(CrLf(t[1..]));
        hide Split, CrLf;
        assert "" + "\r" == "\r";
      } else {
        assert CrLf(t)[1..] == CrLf(t[1..]);
        SplitNonEmpty(t[1..], NL);
        assert Split(t, NL) == Prepend(t[0], ps) && Split(CrLf(t), NL) == Prepend(t[0], qs);
        hide Split, CrLf;
        PrependSame(t[0], ps, qs);
      }
    }
  }

  lemma PrependSame(c: char, ps: seq<string>, qs: seq<string>)
    requires SamePieces(ps, qs) && ps != []
    ensures SamePieces(Prepend(c, ps), Prepend(c, qs))
  {
    assert qs[0] == ps[0] + "\r" ==> [c] + qs[0] == ([c] + ps[0]) + "\r";
  }

  lemma CrLfSplits(rest: string)
    ensures Split("\r" + ([NL] + rest), NL) == ["\r"] + Split(rest, NL)
  {
    assert "\r" + ([NL] + rest) == "\r" + [NL] + rest;
    SplitFirst("\r", rest, NL);
  }

  lemma {:induction false} TrimsSame(ps: seq<string>, qs: seq<string>)
    requires SamePieces(ps, qs)
    ensures Trims(ps) == Trims(qs)
  {
    hide TrimSpace;
    if ps != [] {
      var n := |ps| - 1;
      TrimsSame(ps[..n], qs[..n]);
      TrimCr(ps[n]);
    }
  }

  /** The parsers see the normalized box: the submitted CR before each LF is trimmed away. */
  lemma PostedLines(s: string)
    ensures Lines(Posted(s)) == Lines(Normalized(s))
  {
    hide Trims, CrLf, Normalized, Split;
    CrLfPieces(Normalized(s));
    TrimsSame(Split(Normalized(s), NL), Split(CrLf(Normalized(s)), NL));
  }

  lemma {:induction false} TrimsLack(ls: seq<string>, c: char)
    requires forall l | l in ls :: c !in l
    ensures forall l | l in Trims(ls) :: c !in l
  {
    hide TrimSpace, Infix;
    if ls != [] {
      var n := |ls| - 1;
      assert ls[n] in ls && forall l | l in ls[..n] :: l in ls;
      TrimsLack(ls[..n], c);
      TrimIsInfix(ls[n]);
      InfixLacks(TrimSpace(ls[n]), ls[n], c);
    }
  }

  /** No line of a submitted box contains a carriage return or a line feed. */
  lemma PostedLacksCr(s: string)
    ensures forall l | l in Lines(Posted(s)) :: '\r' !in l && NL !in l
  {
    hide Trims, CrLf, Normalized, Split, Posted;
    PostedLines(s);
    NormalizedLacksCr(s);
    SplitLacks(Normalized(s), NL, '\r');
    SplitLacksSep(Normalized(s), NL);
    TrimsLack(Split(Normalized(s), NL), '\r');
    TrimsLack(Split(Normalized(s), NL), NL);
  }

  lemma PlainPosted(s: string)
    requires '\r' !in s
    ensures Lines(Posted(s)) == Lines(s)
  {
    hide Trims, CrLf, Normalized, Split, Posted;
    PostedLines(s);
    NormalizedLacksCr(s);
  }

  lemma {:induction false} JoinLacks(ls: seq<string>, c: char)
    requires c != NL && forall l | l in ls :: c !in l
    ensures c !in Join(ls, NL)
  {
    if |ls| == 1 {
      assert ls[0] in ls;
    } else if |ls| > 1 {
      assert ls[0] in ls && forall l | l in ls[1..] :: l in ls;
      JoinLacks(ls[1..], c);
    }
  }

  lemma TrimLacks(part: string, c: char)
    requires c !in part
    ensures c !in TrimSpace(part)
  {
    TrimIsInfix(part);
    InfixLacks(TrimSpace(part), part, c);
  }

  predicate TriggerLacksCr(t: Trigger) {
    '\r' !in t.status && '\r' !in t.prompt
  }

  predicate TransitionLacksCr(t: Transition) {
    '\r' !in t.from && '\r' !in t.to
  }

  ghost predicate TriggersLackCr(ts: seq<Trigger>) {
    forall i :: 0 <= i < |ts| ==> TriggerLacksCr(ts[i])
  }

  ghost predicate TransitionsLackCr(ts: seq<Transition>) {
    forall i :: 0 <= i < |ts| ==> TransitionLacksCr(ts[i])
  }

  lemma PostedTriggersLackCr(s: string)
    ensures TriggersLackCr(Triggers(Posted(s)))
    ensures forall t | t in Triggers(Posted(s)) :: NormalTrigger(t)
  {
    hide TrimSpace, Lines, Posted, NormalTrigger;
    PostedLacksCr(s);
    forall l | l in Lines(Posted(s)) && TriggerOf(l).Some?
      ensures NormalTrigger(TriggerOf(l).value)
      ensures TriggerLacksCr(TriggerOf(l).value)
    {
      TriggerReadIsNormal(l);
      CutParts(l, "|");
      TrimLacks(Cut(l, "|").before, '\r');
      TrimLacks(Cut(l, "|").after, '\r');
    }
    hide TriggerOf;
    CollectHolds(Lines(Posted(s)), TriggerOf, NormalTrigger);
    CollectHolds(Lines(Posted(s)), TriggerOf, TriggerLacksCr);
  }

  /** Showing well-formed triggers in the page's box and submitting it untouched gives them back exactly
      when none contains a carriage return: the browser would make it a line end. */
  lemma TriggersSubmitted(ts: seq<Trigger>)
    requires forall t | t in ts :: NormalTrigger(t)
    ensures Triggers(Posted(Join(Each(ts, TriggerLine), NL))) == ts <==> TriggersLackCr(ts)
  {
    hide Posted, NormalTrigger, Lines, TriggerOf;
    var ls := Each(ts, TriggerLine);
    PostedTriggersLackCr(Join(ls, NL));
    if TriggersLackCr(ts) {
      forall l | l in ls
        ensures '\r' !in l
      {
        var i :| 0 <= i < |ls| && ls[i] == l;
      }
      JoinLacks(ls, '\r');
      PlainPosted(Join(ls, NL));
      TriggersReadBack(ts);
    }
  }

  /** So whatever a browser once submitted, submitting the box again changes nothing. */
  lemma TriggersResubmitted(s: string)
    ensures var ts := Triggers(Posted(s)); Triggers(Posted(Join(Each(ts, TriggerLine), NL))) == ts
  {
    hide Posted, Triggers, NormalTrigger;
    PostedTriggersLackCr(s);
    TriggersSubmitted(Triggers(Posted(s)));
  }

  lemma PostedTransitionsLackCr(s: string)
    ensures TransitionsLackCr(Transitions(Posted(s)))
    ensures forall t | t in Transitions(Posted(s)) :: NormalTransition(t)
  {
    hide TrimSpace, Lines, Posted, NormalTransition;
    PostedLacksCr(s);
    forall l | l in Lines(Posted(s)) && TransitionOf(l).Some?
      ensures NormalTransition(TransitionOf(l).value)
      ensures TransitionLacksCr(TransitionOf(l).value)
    {
      TransitionReadIsNormal(l);
      CutParts(l, "->");
      TrimLacks(Cut(l, "->").before, '\r');
      TrimLacks(Cut(l, "->").after, '\r');
    }
    hide TransitionOf;
    CollectHolds(Lines(Posted(s)), TransitionOf, NormalTransition);
    CollectHolds(Lines(Posted(s)), TransitionOf, TransitionLacksCr);
  }

  lemma TransitionsSubmitted(ts: seq<Transition>)
    requires forall t | t in ts :: NormalTransition(t)
    ensures Transitions(Posted(Join(Each(ts, TransitionLine), NL))) == ts <==> TransitionsLackCr(ts)
  {
    hide Posted, NormalTransition, Lines, TransitionOf;
    var ls := Each(ts, TransitionLine);
    PostedTransitionsLackCr(Join(ls, NL));
    if TransitionsLackCr(ts) {
      forall l | l in ls
        ensures '\r' !in l
      {
        var i :| 0 <= i < |ls| && ls[i] == l;
      }
      JoinLacks(ls, '\r');
      PlainPosted(Join(ls, NL));
      TransitionsReadBack(ts);
    }
  }

  lemma TransitionsResubmitted(s: string)
    ensures var ts := Transitions(Posted(s)); Transitions(Posted(Join(Each(ts, TransitionLine), NL))) == ts
  {
    hide Posted, Transitions, NormalTransition;
    PostedTransitionsLackCr(s);
    TransitionsSubmitted(Transitions(Posted(s)));
  }

  ghost predicate EnvLacksCr(vars: map<string, string>) {
    forall k | k in vars :: '\r' !in k && '\r' !in vars[k]
  }

  lemma {:induction false} EnvOfPlainLines(ls: seq<string>)
    requires (forall l | l in ls :: '\r' !in l) && Env(ls).EnvOk?
    ensures EnvLacksCr(Env(ls).vars)
  {
    if ls != [] {
      hide EnvLine;
      var n := |ls| - 1;
      assert ls[n] in ls && forall l | l in ls[..n] :: l in ls;
      EnvOfPlainLines(ls[..n]);
      EnvLineLacksCr(Env(ls[..n]).vars, ls[n]);
    }
  }

  lemma EnvLineLacksCr(vars: map<string, string>, line: string)
    requires '\r' !in line && EnvLacksCr(vars) && EnvLine(vars, line).EnvOk?
    ensures EnvLacksCr(EnvLine(vars, line).vars)
  {
    hide TrimSpace, IsGitToken, Cut;
    CutParts(line, "=");
    TrimLacks(Cut(line, "=").before, '\r');
    TrimLacks(Cut(line, "=").after, '\r');
  }

  lemma EnvSubmitted(vars: map<string, string>)
    requires NormalEnv(vars)
    ensures Env(Lines(Posted(EnvText(vars)))) == EnvOk(vars) <==> EnvLacksCr(vars)
  {
    hide Posted, NormalEnv, Lines, Env, Sort, Less, SortedSet;
    PostedLacksCr(EnvText(vars));
    if Env(Lines(Posted(EnvText(vars)))) == EnvOk(vars) {
      EnvOfPlainLines(Lines(Posted(EnvText(vars))));
    }
    if EnvLacksCr(vars) {
      var keys := SortedSet(vars.Keys);
      var ls := EnvLines(vars, keys);
      forall l | l in ls
        ensures '\r' !in l
      {
        var i :| 0 <= i < |ls| && ls[i] == l;
        assert keys[i] in keys;
      }
      JoinLacks(ls, '\r');
      PlainPosted(Join(ls, NL));
      EnvReadsBack(vars);
    }
  }

  lemma EnvResubmitted(s: string, vars: map<string, string>)
    requires Env(Lines(Posted(s))) == EnvOk(vars)
    ensures Env(Lines(Posted(EnvText(vars)))) == EnvOk(vars)
  {
    hide Posted, NormalEnv, Lines, Env, EnvText;
    PostedLacksCr(s);
    EnvIsNormal(Lines(Posted(s)));
    EnvOfPlainLines(Lines(Posted(s)));
    EnvSubmitted(vars);
  }
}
