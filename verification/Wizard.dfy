/**
 The blueprint install, import and update wizard (blueprints_handlers.go): each request previews, shows a
 page or applies, and the pages' forms carry the wizard's state on. The backend's answers are arbitrary.
 */
module Wizard {
  import opened Options
  import opened Text

  /** What is being installed: a stored blueprint, a repository import, or an update by name. */
  datatype Source = Blueprint(id: string) | Repository(url: string, ref: string, token: string) | Update(name: string)

  /** A manifest agent; model is "" when it pins none. */
  datatype ManifestAgent = ManifestAgent(name: string, model: string)

  /** The answer to a preview: an error, a plan without object-type collisions, or one with. */
  datatype Preview = Failed | Clean | Conflicts

  /** What the backend answers during one request. `servable` says which pinned models resolve. */
  datatype Answers = Answers(preview: Preview, manifest: Option<seq<ManifestAgent>>, servable: set<string>, saved: map<string, string>)

  datatype Row = Row(agent: string, model: string, issue: bool, selected: string)

  /** A rendered answer. */
  datatype Page =
    | Redirect
    | ConflictPage(source: Source, overrides: map<string, string>)
    | ReviewPage(source: Source, rows: seq<Row>, merge: bool)

  /** The backend calls that matter here. */
  datatype Call = Previewed(source: Source, answer: Preview) | Applied(source: Source, overrides: map<string, string>, merge: bool)

  datatype Outcome = Outcome(calls: seq<Call>, page: Page)

  // ----- form values -----

  predicate LowersTo(s: string, t: string) {
    |s| == |t| && forall i :: 0 <= i < |s| ==> s[i] == t[i] || ('a' <= t[i] <= 'z' && s[i] as int == t[i] as int - 32)
  }

  /** isMergeConfirmed. */
  predicate Confirmed(v: string) {
    var t := TrimSpace(v);
    t == "1" || LowersTo(t, "true") || LowersTo(t, "on") || LowersTo(t, "yes")
  }

  /** The fields of a confirm form: the hidden source, the model choices, and two markers. */
  datatype ConfirmForm = ConfirmForm(source: Source, overrides: map<string, string>, mergeTypeConflicts: string, modelReviewed: string)

  // ----- the model review rows -----

  function ModelRow(a: ManifestAgent, servable: set<string>, saved: map<string, string>): Row {
    var issue := a.model !in servable;
    Row(a.name, a.model, issue, if a.name in saved then saved[a.name] else if issue then "" else a.model)
  }

  function ModelRows(agents: seq<ManifestAgent>, servable: set<string>, saved: map<string, string>): seq<Row> {
    if agents == [] then []
    else
      var n := |agents| - 1;
      var r := ModelRows(agents[..n], servable, saved);
      if agents[n].model == "" then r else r + [ModelRow(agents[n], servable, saved)]
  }

  function Overlaid(rows: seq<Row>, overrides: map<string, string>): (r: seq<Row>)
    ensures |r| == |rows|
    ensures forall i :: 0 <= i < |r| ==>
              r[i] == if rows[i].agent in overrides then rows[i].(selected := overrides[rows[i].agent]) else rows[i]
  {
    seq(|rows|, i requires 0 <= i < |rows| =>
      if rows[i].agent in overrides then rows[i].(selected := overrides[rows[i].agent]) else rows[i])
  }

  /** buildModelMapRows. */
  method BuildModelMapRows(agents: seq<ManifestAgent>, servable: set<string>, saved: map<string, string>) returns (rows: seq<Row>)
    ensures rows == ModelRows(agents, servable, saved)
  {
    rows := [];
    for i := 0 to |agents|
      invariant rows == ModelRows(agents[..i], servable, saved)
    {
      var a := agents[i];
      assert agents[..i + 1][..i] == agents[..i];
      if a.model == "" {
        continue;
      }
      var issue := a.model !in servable;
      var selected := "";
      if a.name in saved {
        selected := saved[a.name];
      } else if !issue {
        selected := a.model;
      }
      rows := rows + [Row(a.name, a.model, issue, selected)];
    }
    assert agents[..|agents|] == agents;
  }

  /** applyModelOverridesToRows: the rows are rewritten in place. */
  method ApplyModelOverridesToRows(rows: array<Row>, overrides: map<string, string>)
    modifies rows
    ensures rows[..] == Overlaid(old(rows[..]), overrides)
  {
    if |overrides| == 0 {
      assert forall k :: k !in overrides;
      return;
    }
    for i := 0 to rows.Length
      invariant rows[i..] == old(rows[..])[i..]
      invariant rows[..i] == Overlaid(old(rows[..]), overrides)[..i]
    {
      assert rows[i] == rows[i..][0] == old(rows[..])[i];
      if rows[i].agent in overrides {
        rows[i] := rows[i].(selected := overrides[rows[i].agent]);
      }
      assert rows[i + 1..] == old(rows[..])[i + 1..];
    }
  }

  /** The rows a review page shows. */
  method ReviewRows(agents: seq<ManifestAgent>, a: Answers, overrides: map<string, string>) returns (rows: seq<Row>)
    ensures rows == Overlaid(ModelRows(agents, a.servable, a.saved), overrides)
  {
    var built := BuildModelMapRows(agents, a.servable, a.saved);
    var backing := new Row[|built|](i requires 0 <= i < |built| => built[i]);
    assert backing[..] == built;
    ApplyModelOverridesToRows(backing, overrides);
    rows := backing[..];
  }

  // ----- what each request does -----

  function Rows(a: Answers, overrides: map<string, string>): seq<Row>
    requires a.manifest.Some?
  {
    Overlaid(ModelRows(a.manifest.value, a.servable, a.saved), overrides)
  }

  /** No agent pins a model, or nobody can tell. */
  predicate NothingToReview(a: Answers) {
    a.manifest.None? || ModelRows(a.manifest.value, a.servable, a.saved) == []
  }

  /** Past the conflict gate: review the models if there are any to review, else apply. */
  function Proceed(source: Source, overrides: map<string, string>, merge: bool, a: Answers, calls: seq<Call>): Outcome {
    if NothingToReview(a) then Outcome(calls + [Applied(source, overrides, merge)], Redirect)
    else Outcome(calls, ReviewPage(source, Rows(a, overrides), merge))
  }

  /** The conflict gate: without a confirmed merge, a failed preview ends the request and a collision
      renders the conflict page. */
  function Gate(source: Source, overrides: map<string, string>, a: Answers): Option<Outcome> {
    var calls := [Previewed(source, a.preview)];
    match a.preview
    case Failed => Some(Outcome(calls, Redirect))
    case Conflicts => Some(Outcome(calls, ConflictPage(source, overrides)))
    case Clean => None
  }

  function Flow(source: Source, overrides: map<string, string>, merge: bool, a: Answers): Outcome {
    match source
    case Blueprint(_) =>
      if merge then Proceed(source, overrides, true, a, [])
      else if Gate(source, overrides, a).Some? then Gate(source, overrides, a).value
      else Proceed(source, overrides, false, a, [Previewed(source, a.preview)])
    case Repository(_, _, _) =>
      // an import previews even when the merge is confirmed: the preview carries the manifest
      if a.preview.Failed? || (!merge && a.preview.Conflicts?) then Gate(source, overrides, a).value
      else if a.manifest.None? then Outcome([Previewed(source, a.preview)], Redirect)
      else Proceed(source, overrides, merge, a, [Previewed(source, a.preview)])
    case Update(_) =>
      if merge then Outcome([Applied(source, map[], true)], Redirect)
      else if Gate(source, map[], a).Some? then Gate(source, map[], a).value
      else Outcome([Previewed(source, a.preview), Applied(source, map[], false)], Redirect)
  }

  predicate MissingSource(source: Source) {
    match source
    case Blueprint(id) => id == ""
    case Repository(url, _, _) => url == ""
    case Update(name) => name == ""
  }

  /** A request: the first step of a wizard, or a posted confirm form. An update has no other form
      than its conflict page's. */
  datatype Request = Start(source: Source) | Confirm(form: ConfirmForm)

  function Handle(r: Request, a: Answers): Outcome {
    match r
    case Start(source) =>
      if MissingSource(source) then Outcome([], Redirect) else Flow(source, map[], false, a)
    case Confirm(form) =>
      var merge := Confirmed(form.mergeTypeConflicts);
      if MissingSource(form.source) then Outcome([], Redirect)
      else if form.source.Update? then Flow(form.source, map[], merge, a)
      else if merge && Confirmed(form.modelReviewed) then Outcome([Applied(form.source, form.overrides, true)], Redirect)
      else if merge then Flow(form.source, form.overrides, true, a)
      else if Gate(form.source, form.overrides, a).Some? then Gate(form.source, form.overrides, a).value
      else Outcome([Previewed(form.source, a.preview), Applied(form.source, form.overrides, false)], Redirect)
  }

  // ----- the handlers -----

  /** startInstallFlow. */
  method StartInstallFlow(source: Source, overrides: map<string, string>, merge: bool, a: Answers)
    returns (calls: seq<Call>, page: Page)
    requires source.Blueprint?
    ensures Outcome(calls, page) == Flow(source, overrides, merge, a)
  {
    calls := [];
    if !merge {
      calls := [Previewed(source, a.preview)];
      if a.preview == Failed {
        return calls, Redirect;
      }
      if a.preview == Conflicts {
        return calls, ConflictPage(source, overrides);
      }
    }
    if a.manifest.None? {
      return calls + [Applied(source, overrides, merge)], Redirect;
    }
    var rows := ReviewRows(a.manifest.value, a, overrides);
    if |rows| == 0 {
      return calls + [Applied(source, overrides, merge)], Redirect;
    }
    return calls, ReviewPage(source, rows, merge);
  }

  /** startImportFlow. */
  method StartImportFlow(source: Source, overrides: map<string, string>, merge: bool, a: Answers)
    returns (calls: seq<Call>, page: Page)
    requires source.Repository?
    ensures Outcome(calls, page) == Flow(source, overrides, merge, a)
  {
    calls := [Previewed(source, a.preview)];
    if a.preview == Failed {
      return calls, Redirect;
    }
    if !merge && a.preview == Conflicts {
      return calls, ConflictPage(source, overrides);
    }
    if a.manifest.None? {
      return calls, Redirect;
    }
    var rows := ReviewRows(a.manifest.value, a, overrides);
    if |rows| == 0 {
      return calls + [Applied(source, overrides, merge)], Redirect;
    }
    return calls, ReviewPage(source, rows, merge);
  }

  /** uiInstallBlueprintConfirm and uiImportGitHubBlueprintConfirm. */
  method ConfirmHandler(form: ConfirmForm, a: Answers) returns (calls: seq<Call>, page: Page)
    requires !form.source.Update?
    ensures Outcome(calls, page) == Handle(Confirm(form), a)
  {
    hide Confirmed, Flow, ModelRows;
    if MissingSource(form.source) {
      return [], Redirect;
    }
    var merge := Confirmed(form.mergeTypeConflicts);
    var modelReviewed := Confirmed(form.modelReviewed);
    if merge {
      if modelReviewed {
        return [Applied(form.source, form.overrides, true)], Redirect;
      }
      if form.source.Blueprint? {
        calls, page := StartInstallFlow(form.source, form.overrides, true, a);
      } else {
        calls, page := StartImportFlow(form.source, form.overrides, true, a);
      }
      return;
    }
    calls := [Previewed(form.source, a.preview)];
    if a.preview == Failed {
      return calls, Redirect;
    }
    if a.preview == Conflicts {
      return calls, ConflictPage(form.source, form.overrides);
    }
    return calls + [Applied(form.source, form.overrides, false)], Redirect;
  }

  /** uiApplyBlueprintUpdate. */
  method ApplyBlueprintUpdate(name: string, mergeTypeConflicts: string, a: Answers) returns (calls: seq<Call>, page: Page)
    ensures Outcome(calls, page) == Handle(Confirm(ConfirmForm(Update(name), map[], mergeTypeConflicts, "")), a)
  {
    hide Confirmed;
    if name == "" {
      return [], Redirect;
    }
    var source, merge := Update(name), Confirmed(mergeTypeConflicts);
    calls := [];
    if !merge {
      calls := [Previewed(source, a.preview)];
      if a.preview == Failed {
        return calls, Redirect;
      }
      if a.preview == Conflicts {
        return calls, ConflictPage(source, map[]);
      }
    }
    return calls + [Applied(source, map[], merge)], Redirect;
  }

  // ----- every request, however it was made -----

  function SourceOf(r: Request): Source {
    if r.Start? then r.source else r.form.source
  }

  predicate PostsMerge(r: Request) {
    r.Confirm? && Confirmed(r.form.mergeTypeConflicts)
  }

  /** Safety of any single request, forged or not: it applies at most once, as its last call and only
      what it names; without merge only after its own preview came back without a collision; with
      merge only if it posted the confirmation. */
  lemma ApplyIsGuarded(r: Request, a: Answers, i: nat)
    requires i < |Handle(r, a).calls| && Handle(r, a).calls[i].Applied?
    ensures var calls := Handle(r, a).calls;
            var source := SourceOf(r);
            && i == |calls| - 1
            && calls[i].source == source && !MissingSource(source)
            && (calls[i].merge <==> PostsMerge(r))
            && (!calls[i].merge ==> i > 0 && calls[i - 1] == Previewed(source, Clean))
  {
    hide Confirmed, ModelRows;
  }

  /** Whatever a conflict page names was previewed with a collision in the request that shows it, and
      that request applied nothing. */
  lemma ConflictPageIsEarned(r: Request, a: Answers)
    requires Handle(r, a).page.ConflictPage?
    ensures Handle(r, a).calls == [Previewed(Handle(r, a).page.source, Conflicts)] && !PostsMerge(r)
  {
    hide Confirmed, ModelRows;
  }

  /** A model choice a request posted is the one pre-selected on the review page it gets back. */
  lemma PostedChoiceIsPreselected(r: Request, a: Answers, k: int)
    requires r.Confirm? && Handle(r, a).page.ReviewPage? && 0 <= k < |Handle(r, a).page.rows|
    ensures var row := Handle(r, a).page.rows[k];
            row.agent in r.form.overrides ==> row.selected == r.form.overrides[row.agent]
  {
    hide Confirmed, ModelRows;
  }

  // ----- runs through the rendered pages -----

  /** The requests a page's form can send: the conflict page posts its hidden fields with the merge
      marker; the review page posts the reviewed marker, its merge flag and the user's choices. */
  ghost predicate Sends(p: Page, r: Request) {
    match p
    case Redirect => false
    case ConflictPage(source, overrides) => r == Confirm(ConfirmForm(source, overrides, "1", ""))
    case ReviewPage(source, rows, merge) =>
      && r.Confirm? && r.form.source == source
      && r.form.mergeTypeConflicts == (if merge then "1" else "") && r.form.modelReviewed == "1"
      && r.form.overrides.Keys == set i | 0 <= i < |rows| :: rows[i].agent
  }

  datatype Exchange = Exchange(request: Request, answers: Answers)

  function Answer(x: Exchange): Outcome {
    Handle(x.request, x.answers)
  }

  /** A run of a browser that only starts wizards and submits the forms it was shown, in any order and
      as often as it likes, whatever the backend answers. */
  ghost predicate Browsed(run: seq<Exchange>) {
    forall i :: 0 <= i < |run| ==> run[i].request.Start? || exists j :: 0 <= j < i && Sends(Answer(run[j]).page, run[i].request)
  }

  lemma OneConfirms()
    ensures Confirmed("1") && !Confirmed("")
  {
    TrimTrimmed("1");
    TrimTrimmed("");
  }

  /** Nothing is merged unseen: before any apply with merge, the browser was shown the conflict page of
      that very source. */
  lemma {:induction false} MergeWasShown(run: seq<Exchange>, i: nat)
    requires Browsed(run) && i < |run| && PostsMerge(run[i].request)
    ensures exists j :: 0 <= j < i && Answer(run[j]).page.ConflictPage? && Answer(run[j]).page.source == run[i].request.form.source
    decreases i
  {
    hide Confirmed, Handle;
    OneConfirms();
    var j :| 0 <= j < i && Sends(Answer(run[j]).page, run[i].request);
    if Answer(run[j]).page.ReviewPage? {
      ReviewPageKeepsMerge(run[j].request, run[j].answers);
      MergeWasShown(run, j);
    }
  }

  lemma ReviewPageKeepsMerge(r: Request, a: Answers)
    requires Handle(r, a).page.ReviewPage?
    ensures Handle(r, a).page.merge <==> PostsMerge(r)
    ensures Handle(r, a).page.source == SourceOf(r)
  {
    hide Confirmed, ModelRows;
  }

  lemma MergedOnlyIfShown(run: seq<Exchange>, i: nat, k: nat)
    requires Browsed(run) && i < |run| && k < |Answer(run[i]).calls|
    requires Answer(run[i]).calls[k].Applied? && Answer(run[i]).calls[k].merge
    ensures exists j :: 0 <= j < i && Answer(run[j]).page.ConflictPage? && Answer(run[j]).page.source == Answer(run[i]).calls[k].source
  {
    hide Handle;
    ApplyIsGuarded(run[i].request, run[i].answers, k);
    MergeWasShown(run, i);
  }

  /** Pinned models are reviewed: a browsed run applies a source whose manifest pins models, as far as
      the request can read it, only in answer to a review page of that source. */
  lemma PinnedModelsReviewed(run: seq<Exchange>, i: nat, k: nat)
    requires Browsed(run) && i < |run| && k < |Answer(run[i]).calls| && Answer(run[i]).calls[k].Applied?
    requires !Answer(run[i]).calls[k].source.Update? && !NothingToReview(run[i].answers)
    ensures exists j :: 0 <= j < i && Answer(run[j]).page.ReviewPage? && Sends(Answer(run[j]).page, run[i].request)
  {
    hide Confirmed, ModelRows;
    OneConfirms();
    var r, a := run[i].request, run[i].answers;
    if r.Start? || (PostsMerge(r) && !Confirmed(r.form.modelReviewed)) {
      FlowReviews(r, a);
      assert false;
    }
    var j :| 0 <= j < i && Sends(Answer(run[j]).page, r);
  }

  lemma FlowReviews(r: Request, a: Answers)
    requires !NothingToReview(a)
    requires !SourceOf(r).Update?
    requires r.Start? || (PostsMerge(r) && !Confirmed(r.form.modelReviewed))
    ensures forall k :: 0 <= k < |Handle(r, a).calls| ==> !Handle(r, a).calls[k].Applied?
  {
    hide Confirmed, ModelRows;
  }

  ghost predicate Applies(r: Request, a: Answers) {
    exists k :: 0 <= k < |Handle(r, a).calls| && Handle(r, a).calls[k].Applied?
  }

  /** The handlers alone enforce less than the pages. Of a source whose manifest pins models, a request
      applies exactly when it confirms a merge with the reviewed marker, or confirms without a merge and
      its own preview is clean; whether anyone has seen the review page is asked on the merge path only. */
  lemma AppliesExactly(r: Request, a: Answers)
    requires !SourceOf(r).Update? && !MissingSource(SourceOf(r)) && !NothingToReview(a)
    ensures Applies(r, a) <==>
            r.Confirm? && if Confirmed(r.form.mergeTypeConflicts) then Confirmed(r.form.modelReviewed) else a.preview == Clean
  {
    hide Confirmed, NothingToReview;
    var calls := Handle(r, a).calls;
    if calls != [] {
      assert calls[|calls| - 1].Applied? ==> Applies(r, a);
    }
  }

  /** No agent of the manifest pins a model, or there is no manifest to read. */
  predicate PinsNothing(a: Answers) {
    a.manifest.Some? ==> forall m | m in a.manifest.value :: m.model == ""
  }

  lemma {:induction false} NoRows(agents: seq<ManifestAgent>, servable: set<string>, saved: map<string, string>)
    ensures ModelRows(agents, servable, saved) == [] <==> forall m | m in agents :: m.model == ""
  {
    if agents != [] {
      var n := |agents| - 1;
      assert agents == agents[..n] + [agents[n]];
      NoRows(agents[..n], servable, saved);
      assert forall m :: m in agents <==> m in agents[..n] || m == agents[n];
    }
  }

  lemma PinsNothingMeans(a: Answers)
    ensures NothingToReview(a) <==> PinsNothing(a)
  {
    if a.manifest.Some? {
      NoRows(a.manifest.value, a.servable, a.saved);
    }
  }

  /** The model choices a request applies: an update and a first step carry none. */
  function Choices(r: Request): map<string, string> {
    if r.Confirm? && !r.form.source.Update? then r.form.overrides else map[]
  }

  /** When exactly a request applies. With pinned models only the two confirm paths do (AppliesExactly). With
      none, every first step and every confirmed merge goes straight through: an install or update needs
      the merge or its own clean preview; an import previews in any case and needs a readable manifest. */
  ghost predicate GoesThrough(r: Request, a: Answers) {
    var merge := PostsMerge(r);
    match SourceOf(r)
    case Update(name) => name != "" && (merge || a.preview == Clean)
    case Blueprint(id) =>
      id != "" && (merge || a.preview == Clean) &&
      (PinsNothing(a) || (r.Confirm? && (merge ==> Confirmed(r.form.modelReviewed))))
    case Repository(url, _, _) =>
      url != "" && if r.Confirm? && (merge ==> Confirmed(r.form.modelReviewed)) then merge || a.preview == Clean
                   else a.manifest.Some? && PinsNothing(a) && (a.preview == Clean || (merge && a.preview == Conflicts))
  }

  /** Every request, forged or not, applies if and only if it goes through, and then its last call applies
      the source it names with the choices and the merge flag it posted. */
  lemma AppliesIff(r: Request, a: Answers)
    ensures Applies(r, a) <==> GoesThrough(r, a)
    ensures Applies(r, a) ==>
              var calls := Handle(r, a).calls;
              calls != [] && calls[|calls| - 1] == Applied(SourceOf(r), Choices(r), PostsMerge(r)) &&
              Handle(r, a).page == Redirect
  {
    hide Confirmed, NothingToReview, PinsNothing;
    PinsNothingMeans(a);
    LastApplies(r, a);
  }

  lemma LastApplies(r: Request, a: Answers)
    ensures var calls := Handle(r, a).calls; Applies(r, a) <==> calls != [] && calls[|calls| - 1].Applied?
  {
    hide Confirmed, NothingToReview;
    var calls := Handle(r, a).calls;
    if calls != [] && calls[|calls| - 1].Applied? {
      assert Applies(r, a);
    }
  }

  /** What a request shows, exactly. Without a confirmed merge every collision shows the conflict page of the
      source with the posted choices; past that gate the first step and a merge confirmed without the
      reviewed marker show the review page whenever the manifest pins a model. */
  lemma ShowsExactly(r: Request, a: Answers)
    ensures Handle(r, a).page.ConflictPage? <==> !MissingSource(SourceOf(r)) && !PostsMerge(r) && a.preview == Conflicts
    ensures Handle(r, a).page.ConflictPage? ==> Handle(r, a).page == ConflictPage(SourceOf(r), Choices(r))
    ensures Handle(r, a).page.ReviewPage? <==>
            && !MissingSource(SourceOf(r)) && !SourceOf(r).Update? && !PinsNothing(a)
            && (r.Start? || (PostsMerge(r) && !Confirmed(r.form.modelReviewed)))
            && (a.preview == Clean || (PostsMerge(r) && (SourceOf(r).Blueprint? || a.preview == Conflicts)))
    ensures Handle(r, a).page.ReviewPage? ==>
              Handle(r, a).page.source == SourceOf(r) && Handle(r, a).page.merge == PostsMerge(r)
  {
    hide Confirmed, NothingToReview, PinsNothing;
    PinsNothingMeans(a);
    assert PinsNothing(a) || a.manifest.Some? by {
      NoManifestPinsNothing(a);
    }
  }

  lemma NoManifestPinsNothing(a: Answers)
    ensures a.manifest.None? ==> PinsNothing(a)
  {
  }

  /** The review page has one row per pinned agent. A row flags a model that cannot be served and preselects
      the posted choice, else the saved one, else the pinned model if it can be served, else nothing. */
  lemma ReviewsPinnedAgents(r: Request, a: Answers)
    requires Handle(r, a).page.ReviewPage?
    ensures a.manifest.Some?
    ensures forall row | row in Handle(r, a).page.rows :: exists m :: m in a.manifest.value && Reviews(row, m, Choices(r), a)
    ensures forall m | m in a.manifest.value && m.model != "" :: exists row :: row in Handle(r, a).page.rows && Reviews(row, m, Choices(r), a)
  {
    hide Handle, Reviews;
    ReviewPageRows(r, a);
    RowsReview(a.manifest.value, a, Choices(r));
  }

  lemma ReviewPageRows(r: Request, a: Answers)
    requires Handle(r, a).page.ReviewPage?
    ensures a.manifest.Some? && Handle(r, a).page.rows == Rows(a, Choices(r))
  {
    hide Confirmed, ModelRows, Overlaid;
  }

  ghost predicate Reviews(row: Row, m: ManifestAgent, choices: map<string, string>, a: Answers) {
    && m.model != "" && row.agent == m.name && row.model == m.model && (row.issue <==> m.model !in a.servable)
    && row.selected == if m.name in choices then choices[m.name]
                       else if m.name in a.saved then a.saved[m.name]
                       else if m.model in a.servable then m.model
                       else ""
  }

  lemma {:induction false} RowsReview(agents: seq<ManifestAgent>, a: Answers, choices: map<string, string>)
    ensures var rows := Overlaid(ModelRows(agents, a.servable, a.saved), choices);
            && (forall row | row in rows :: exists m :: m in agents && Reviews(row, m, choices, a))
            && (forall m | m in agents && m.model != "" :: exists row :: row in rows && Reviews(row, m, choices, a))
  {
    if agents != [] {
      var n := |agents| - 1;
      var m := agents[n];
      assert agents == agents[..n] + [m];
      RowsReview(agents[..n], a, choices);
      var r, r' := ModelRows(agents[..n], a.servable, a.saved), ModelRows(agents, a.servable, a.saved);
      if m.model != "" {
        assert Overlaid(r', choices)[..|r|] == Overlaid(r, choices);
        var last := Overlaid(r', choices)[|r|];
        assert Overlaid(r', choices) == Overlaid(r, choices) + [last];
        assert Reviews(last, m, choices, a);
        hide Reviews, ModelRows, Overlaid;
        assert forall x :: x in agents <==> x in agents[..n] || x == m;
        assert forall x :: x in Overlaid(r', choices) <==> x in Overlaid(r, choices) || x == last;
      } else {
        hide Reviews, ModelRows, Overlaid;
        assert forall x :: x in agents <==> x in agents[..n] || x == m;
      }
    }
  }

  /** The accepted spellings of a marker: "1", or "true", "on" or "yes" in any case, in any spaces. */
  lemma MarkerSpellings(before: string, word: string, after: string)
    requires Trimmed(word) && (forall c | c in before :: IsSpace(c)) && (forall c | c in after :: IsSpace(c))
    ensures Confirmed(before + word + after) <==>
            word == "1" || AnyCase(word, "true", "TRUE") || AnyCase(word, "on", "ON") || AnyCase(word, "yes", "YES")
  {
    hide TrimSpace, IsSpace, LowersTo, AnyCase;
    TrimPadded(before, word, after);
    LowersToAnyCase(word, "true", "TRUE");
    LowersToAnyCase(word, "on", "ON");
    LowersToAnyCase(word, "yes", "YES");
  }

  lemma LowersToAnyCase(s: string, lower: string, upper: string)
    requires |lower| == |upper|
    requires forall i :: 0 <= i < |lower| ==> 'a' <= lower[i] <= 'z' && upper[i] as int == lower[i] as int - 32
    ensures LowersTo(s, lower) <==> AnyCase(s, lower, upper)
  {
  }

  /** Without a merge the reviewed marker is not even read. */
  lemma ReviewedMarkUnread(form: ConfirmForm, mark: string, a: Answers)
    requires !Confirmed(form.mergeTypeConflicts)
    ensures Handle(Confirm(form), a) == Handle(Confirm(form.(modelReviewed := mark)), a)
  {
    hide Confirmed, Flow, Gate;
  }

  /** So a confirm posted without either marker, whatever choices it carries, applies without a review. */
  lemma BareConfirmSkipsReview(source: Source, overrides: map<string, string>, a: Answers)
    requires !source.Update? && !MissingSource(source) && a.preview == Clean
    ensures Handle(Confirm(ConfirmForm(source, overrides, "", "")), a).calls ==
            [Previewed(source, Clean), Applied(source, overrides, false)]
  {
    hide Confirmed, ModelRows;
    OneConfirms();
  }

  /** A late collision does not lose the choices made: submitted from a review page, sent to the
      conflict page and confirmed there, they are applied or pre-selected again. */
  lemma ChoicesSurviveConflict(first: Exchange, second: Exchange, k: int)
    requires first.request.Confirm? && Answer(first).page.ConflictPage? && Sends(Answer(first).page, second.request)
    requires !first.request.form.source.Update?
    ensures var ov := first.request.form.overrides;
            && (0 <= k < |Answer(second).calls| && Answer(second).calls[k].Applied? ==>
                  Answer(second).calls[k].overrides == ov && Answer(second).calls[k].merge)
            && (Answer(second).page.ReviewPage? && 0 <= k < |Answer(second).page.rows| ==>
                  var row := Answer(second).page.rows[k]; row.agent in ov ==> row.selected == ov[row.agent])
  {
    hide Confirmed, ModelRows;
    OneConfirms();
  }
}
