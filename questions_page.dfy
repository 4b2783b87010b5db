/**
 * The questions page: the spreadsheet import loop with its accounting,
 * the status toggle, the per-sub-category tier count and the
 * sub-category filter of the form.
 */
module QuestionsPage {
  import opened Wrappers
  import opened JsValues
  import opened JsArrays
  import opened Firestore
  import opened CategoryApi
  import opened QuestionApi
  import opened QuestionQuery
  import opened ImportSummary

  /** One parsed spreadsheet row: every cell is whatever value the sheet held, `undefined` when empty. */
  datatype QuestionRow = QuestionRow(
    mainName: Value, subName: Value, points: Value, questionText: Value, answerText: Value,
    questionMedia: Value, answerMedia: Value, status: Value)

  /** Why a row is counted as an error. */
  datatype RowError =
    | MainNotFound(mainName: Value)
    | SubNotFound(subName: Value, mainName: Value)
    | InvalidPoints(points: Value)
    | Thrown(error: WriteError)  // `questionsApi.create` threw; the loop catches it

  /** The message the loop pushes onto `errors`. */
  function ErrorText(e: RowError): string
  {
    match e
    case MainNotFound(m) => "Main category \"" + Text(m) + "\" not found"
    case SubNotFound(s, m) => "Sub category \"" + Text(s) + "\" not found in main category \"" + Text(m) + "\""
    case InvalidPoints(p) => "Invalid points value \"" + Text(p) + "\" for question. Must be 200, 400, or 600"
    case Thrown(w) => "Question error: " + Message(w)
  }

  /**
   * The page state the import reads: the main and sub-category lists and
   * the question list as last loaded (with the page's filters applied).
   * None of them is refreshed during the loop.
   */
  datatype Snapshot = Snapshot(mains: seq<Listed<MainCategory>>, subs: seq<JoinedSub>, questions: seq<JoinedQuestion>)

  /** The first main category whose name is exactly the row's. */
  function ResolveMain(row: QuestionRow, snap: Snapshot): Option<Listed<MainCategory>>
  {
    Find(snap.mains, (m: Listed<MainCategory>) => m.doc.name == row.mainName)
  }

  /** The first sub-category of that main category whose name is exactly the row's. */
  function ResolveSub(row: QuestionRow, main: Listed<MainCategory>, snap: Snapshot): Option<JoinedSub>
  {
    Find(snap.subs, (s: JoinedSub) => s.sub.mainCategoryId == main.id && s.sub.name == row.subName)
  }

  predicate ValidTier(points: Option<int>)
  {
    points == Some(200) || points == Some(400) || points == Some(600)
  }

  /** Whether the snapshot already lists a question for the pair. */
  predicate InSnapshot(snap: Snapshot, subCategoryId: string, points: int)
  {
    Find(snap.questions, (q: JoinedQuestion) => q.q.subCategoryId == subCategoryId && q.q.points == points).Some?
  }

  /** What the loop does with a row before any write: reject it, skip it, or try to create a question. */
  datatype Plan = Reject(error: RowError) | Skip | Insert(q: NewQuestion)

  function RowPlan(row: QuestionRow, snap: Snapshot): Plan
  {
    match ResolveMain(row, snap)
    case None => Reject(MainNotFound(row.mainName))
    case Some(main) =>
      match ResolveSub(row, main, snap)
      case None => Reject(SubNotFound(row.subName, row.mainName))
      case Some(sub) =>
        var points := ParseIntValue(row.points);
        if !ValidTier(points) then Reject(InvalidPoints(row.points))
        else if InSnapshot(snap, sub.id, points.value) then Skip
        else Insert(NewQuestion(sub.id, row.questionText, row.answerText, Or(row.questionMedia, Null),
                                Or(row.answerMedia, Null), points.value, Or(row.status, Str("active"))))
  }

  /** One iteration: the row's outcome and the store after it. */
  function Step(qs: map<string, Question>, plan: Plan, stamp: Stamp): (Outcome<RowError>, map<string, Question>)
  {
    match plan
    case Reject(e) => (Errored(e), qs)
    case Skip => (Skipped, qs)
    case Insert(q) =>
      match AddQuestion(qs, q, stamp)
      case Ok(after) => (Created(stamp.id), after)
      case Err(w) => (Errored(Thrown(w)), qs)
  }

  /** One iteration of the loop over the rows, given the snapshot. */
  function RowStep(snap: Snapshot): (map<string, Question>, QuestionRow, Stamp) -> (Outcome<RowError>, map<string, Question>)
  {
    (qs, row, stamp) => Step(qs, RowPlan(row, snap), stamp)
  }

  /** The loop over the rows, in order: every outcome and the final store. */
  function RunImport(qs: map<string, Question>, rows: seq<QuestionRow>, snap: Snapshot, stamps: seq<Stamp>)
    : (r: (seq<Outcome<RowError>>, map<string, Question>))
    requires |stamps| == |rows|
    ensures |r.0| == |rows|
  {
    Fold(RowStep(snap), qs, rows, stamps)
  }

  /** The ids the store hands out during the import: new, and all different. */
  predicate FreshStamps(stamps: seq<Stamp>, qs: map<string, Question>)
  {
    && (forall i :: 0 <= i < |stamps| ==> stamps[i].id !in qs)
    && (forall i, j :: 0 <= i < j < |stamps| ==> stamps[i].id != stamps[j].id)
  }

  /** Each row's outcome is decided by its plan and the store as the earlier rows left it. */
  lemma OutcomeOfRow(qs: map<string, Question>, rows: seq<QuestionRow>, snap: Snapshot, stamps: seq<Stamp>, k: int)
    requires |stamps| == |rows| && 0 <= k < |rows|
    ensures RunImport(qs, rows, snap, stamps).0[k]
         == Step(RunImport(qs, rows[..k], snap, stamps[..k]).1, RowPlan(rows[k], snap), stamps[k]).0
    ensures RunImport(qs, rows[..k + 1], snap, stamps[..k + 1]).1
         == Step(RunImport(qs, rows[..k], snap, stamps[..k]).1, RowPlan(rows[k], snap), stamps[k]).1
  {
    FoldOutcome(RowStep(snap), qs, rows, stamps, k);
    UnfoldRun(qs, rows, snap, stamps, k);
  }

  /** After the loop the three counters add up to the number of rows, and there is one message per error. */
  lemma ImportAccounting(qs: map<string, Question>, rows: seq<QuestionRow>, snap: Snapshot, stamps: seq<Stamp>)
    requires |stamps| == |rows|
    ensures var outs := RunImport(qs, rows, snap, stamps).0;
      && CreatedCount(outs) + SkippedCount(outs) + ErroredCount(outs) == |rows|
      && |ErrorMessages(outs, ErrorText)| == ErroredCount(outs)
  {
    var outs := RunImport(qs, rows, snap, stamps).0;
    CountsAddUp(outs);
    MessagesMatchErrorCount(outs, ErrorText);
  }

  /**
   * A row is an error, with nothing created, when no main category bears
   * its main name, or when that main category has no sub-category with its
   * sub name.
   */
  lemma UnresolvedRowIsError(row: QuestionRow, snap: Snapshot)
    ensures RowPlan(row, snap) == Reject(MainNotFound(row.mainName))
        <==> forall i :: 0 <= i < |snap.mains| ==> snap.mains[i].doc.name != row.mainName
    ensures ResolveMain(row, snap).Some? ==>
      ((RowPlan(row, snap) == Reject(SubNotFound(row.subName, row.mainName)))
        <==> forall i :: 0 <= i < |snap.subs| ==>
               !(snap.subs[i].sub.mainCategoryId == ResolveMain(row, snap).value.id && snap.subs[i].sub.name == row.subName))
  {
    var plan := RowPlan(row, snap);
    match ResolveMain(row, snap)
    case None =>
      assert plan == Reject(MainNotFound(row.mainName));
    case Some(main) =>
      assert !plan.Reject? || !plan.error.MainNotFound?;
      var sub := ResolveSub(row, main, snap);
      assert (plan == Reject(SubNotFound(row.subName, row.mainName))) <==> sub.None?;
  }

  /**
   * Only a row whose points parse to 200, 400 or 600 reaches the snapshot
   * check; a resolved row with any other points is an error.
   */
  lemma PointsGate(row: QuestionRow, snap: Snapshot)
    ensures RowPlan(row, snap).Skip? || RowPlan(row, snap).Insert? ==> ValidTier(ParseIntValue(row.points))
    ensures RowPlan(row, snap).Insert? ==> RowPlan(row, snap).q.points in {200, 400, 600}
    ensures (ResolveMain(row, snap).Some? && ResolveSub(row, ResolveMain(row, snap).value, snap).Some?
             && !ValidTier(ParseIntValue(row.points))) ==> RowPlan(row, snap) == Reject(InvalidPoints(row.points))
  {
    var plan := RowPlan(row, snap);
    match ResolveMain(row, snap)
    case None =>
      assert plan.Reject?;
    case Some(main) =>
      match ResolveSub(row, main, snap)
      case None =>
        assert plan.Reject?;
      case Some(sub) =>
        var points := ParseIntValue(row.points);
        if !ValidTier(points) {
          assert plan == Reject(InvalidPoints(row.points));
        } else if InSnapshot(snap, sub.id, points.value) {
          assert plan == Skip;
        } else {
          assert plan.q.points == points.value;
          assert points.value in {200, 400, 600};
        }
  }

  /** A resolved row with valid points is skipped exactly when the snapshot lists a question for its pair. */
  lemma SkipIffInSnapshot(row: QuestionRow, snap: Snapshot)
    requires ResolveMain(row, snap).Some?
    requires ResolveSub(row, ResolveMain(row, snap).value, snap).Some?
    requires ValidTier(ParseIntValue(row.points))
    ensures var sub := ResolveSub(row, ResolveMain(row, snap).value, snap).value;
      (RowPlan(row, snap) == Skip)
        <==> exists i :: 0 <= i < |snap.questions| && snap.questions[i].q.subCategoryId == sub.id
                         && snap.questions[i].q.points == ParseIntValue(row.points).value
  {
  }

  /** A row the loop tries to create carries its status or `'active'`, and null for empty media. */
  lemma InsertedFields(row: QuestionRow, snap: Snapshot)
    requires RowPlan(row, snap).Insert?
    ensures var q := RowPlan(row, snap).q;
      && q.status == (if Truthy(row.status) then row.status else Str("active"))
      && q.questionMedia == (if Truthy(row.questionMedia) then row.questionMedia else Null)
      && q.answerMedia == (if Truthy(row.answerMedia) then row.answerMedia else Null)
      && q.questionText == row.questionText && q.answerText == row.answerText
      && Some(q.points) == ParseIntValue(row.points)
  {
  }

  /** Skipping never depends on the store: a row is skipped exactly when its plan is to skip. */
  lemma SkippedIffPlanned(qs: map<string, Question>, rows: seq<QuestionRow>, snap: Snapshot, stamps: seq<Stamp>, k: int)
    requires |stamps| == |rows| && 0 <= k < |rows|
    ensures RunImport(qs, rows, snap, stamps).0[k].Skipped? <==> RowPlan(rows[k], snap) == Skip
  {
    OutcomeOfRow(qs, rows, snap, stamps, k);
  }

  /** A step with a fresh id keeps every stored record. */
  lemma StepKeeps(qs: map<string, Question>, plan: Plan, stamp: Stamp)
    requires stamp.id !in qs
    ensures var after := Step(qs, plan, stamp).1;
      forall id :: id in qs ==> id in after && after[id] == qs[id]
  {
  }

  /** A step that creates writes the planned question under the new id. */
  lemma StepCreated(qs: map<string, Question>, plan: Plan, stamp: Stamp)
    requires Step(qs, plan, stamp).0.Created?
    ensures plan.Insert? && Step(qs, plan, stamp).1 == qs[stamp.id := Stored(plan.q, stamp)]
  {
  }

  /** A step adds at most its own id. */
  lemma StepKeys(qs: map<string, Question>, plan: Plan, stamp: Stamp)
    ensures Step(qs, plan, stamp).1.Keys <= qs.Keys + {stamp.id}
  {
  }

  /** Every id in the store after the import was there before or was handed to one of the rows. */
  lemma {:induction false} RunImportIds(qs: map<string, Question>, rows: seq<QuestionRow>, snap: Snapshot, stamps: seq<Stamp>)
    requires |stamps| == |rows|
    ensures forall id :: id in RunImport(qs, rows, snap, stamps).1 ==>
      id in qs || exists j :: 0 <= j < |stamps| && stamps[j].id == id
    decreases |rows|
  {
    if rows != [] {
      var n := |rows| - 1;
      UnfoldRun(qs, rows, snap, stamps, n);
      assert rows[..n + 1] == rows && stamps[..n + 1] == stamps;
      RunImportIds(qs, rows[..n], snap, stamps[..n]);
      var prev := RunImport(qs, rows[..n], snap, stamps[..n]).1;
      StepKeys(prev, RowPlan(rows[n], snap), stamps[n]);
      forall id | id in RunImport(qs, rows, snap, stamps).1
        ensures id in qs || exists j :: 0 <= j < |stamps| && stamps[j].id == id
      {
        if id !in prev {
          assert stamps[n].id == id;
        } else if id !in qs {
          var j :| 0 <= j < |stamps[..n]| && stamps[..n][j].id == id;
          assert stamps[j].id == id;
        }
      }
    }
  }

  /** With fresh ids, the store during the import only grows: each record written stays as written. */
  lemma {:induction false} RunImportExtends(qs: map<string, Question>, rows: seq<QuestionRow>, snap: Snapshot, stamps: seq<Stamp>, m: int)
    requires |stamps| == |rows| && FreshStamps(stamps, qs) && 0 <= m <= |rows|
    ensures var early := RunImport(qs, rows[..m], snap, stamps[..m]).1;
      var final := RunImport(qs, rows, snap, stamps).1;
      forall id :: id in early ==> id in final && final[id] == early[id]
    decreases |rows|
  {
    if m < |rows| {
      var n := |rows| - 1;
      var rowsN, stampsN := rows[..n], stamps[..n];
      UnfoldRun(qs, rows, snap, stamps, n);
      assert rows[..n + 1] == rows && stamps[..n + 1] == stamps;
      FreshStampsPrefix(stamps, qs, n);
      RunImportExtends(qs, rowsN, snap, stampsN, m);
      assert rowsN[..m] == rows[..m] && stampsN[..m] == stamps[..m];
      FreshAt(qs, rows, snap, stamps, n);
      var mid := RunImport(qs, rowsN, snap, stampsN).1;
      StepKeeps(mid, RowPlan(rows[n], snap), stamps[n]);
      assert RunImport(qs, rows, snap, stamps).1 == Step(mid, RowPlan(rows[n], snap), stamps[n]).1;
    } else {
      assert rows[..m] == rows && stamps[..m] == stamps;
    }
  }

  /** A row planned for creation whose pair the store holds by then ends as the store's duplicate error. */
  lemma HeldPairIsError(qs: map<string, Question>, rows: seq<QuestionRow>, snap: Snapshot, stamps: seq<Stamp>, k: int, holder: string)
    requires |stamps| == |rows| && 0 <= k < |rows|
    requires RowPlan(rows[k], snap).Insert?
    requires var atK := RunImport(qs, rows[..k], snap, stamps[..k]).1;
      && holder in atK
      && atK[holder].subCategoryId == RowPlan(rows[k], snap).q.subCategoryId
      && atK[holder].points == RowPlan(rows[k], snap).q.points
    ensures RunImport(qs, rows, snap, stamps).0[k] == Errored(Thrown(DuplicateTier(RowPlan(rows[k], snap).q.points)))
  {
    OutcomeOfRow(qs, rows, snap, stamps, k);
    var q := RowPlan(rows[k], snap).q;
    var atK := RunImport(qs, rows[..k], snap, stamps[..k]).1;
    assert CheckDuplicate(atK, q.subCategoryId, q.points, None);
  }

  /**
   * Two rows of one batch with the same new pair: once the first is
   * created, the second is not created but counted as an error, through
   * the store's own duplicate check.
   */
  lemma IntraBatchDuplicateIsError(qs: map<string, Question>, rows: seq<QuestionRow>, snap: Snapshot, stamps: seq<Stamp>, j: int, k: int)
    requires |stamps| == |rows| && FreshStamps(stamps, qs) && 0 <= j < k < |rows|
    requires RowPlan(rows[j], snap).Insert? && RowPlan(rows[k], snap).Insert?
    requires RowPlan(rows[j], snap).q.subCategoryId == RowPlan(rows[k], snap).q.subCategoryId
    requires RowPlan(rows[j], snap).q.points == RowPlan(rows[k], snap).q.points
    requires RunImport(qs, rows, snap, stamps).0[j].Created?
    ensures RunImport(qs, rows, snap, stamps).0[k] == Errored(Thrown(DuplicateTier(RowPlan(rows[k], snap).q.points)))
  {
    CreatedRowStays(qs, rows, snap, stamps, j, k);
    HeldPairIsError(qs, rows, snap, stamps, k, stamps[j].id);
  }

  /** With fresh ids, the question a created row wrote is still stored when a later row k comes up. */
  lemma CreatedRowStays(qs: map<string, Question>, rows: seq<QuestionRow>, snap: Snapshot, stamps: seq<Stamp>, j: int, k: int)
    requires |stamps| == |rows| && FreshStamps(stamps, qs) && 0 <= j < k <= |rows|
    requires RunImport(qs, rows, snap, stamps).0[j].Created?
    ensures RowPlan(rows[j], snap).Insert?
    ensures var atK := RunImport(qs, rows[..k], snap, stamps[..k]).1;
      stamps[j].id in atK && atK[stamps[j].id] == Stored(RowPlan(rows[j], snap).q, stamps[j])
  {
    CreatedRowWritten(qs, rows, snap, stamps, j);
    PrefixRunExtends(qs, rows, snap, stamps, j + 1, k);
  }

  /** With fresh ids, the store after the first k rows keeps every record it had after the first m. */
  lemma PrefixRunExtends(qs: map<string, Question>, rows: seq<QuestionRow>, snap: Snapshot, stamps: seq<Stamp>, m: int, k: int)
    requires |stamps| == |rows| && FreshStamps(stamps, qs) && 0 <= m <= k <= |rows|
    ensures var early := RunImport(qs, rows[..m], snap, stamps[..m]).1;
      var later := RunImport(qs, rows[..k], snap, stamps[..k]).1;
      forall id :: id in early ==> id in later && later[id] == early[id]
  {
    var rowsK, stampsK := rows[..k], stamps[..k];
    FreshStampsPrefix(stamps, qs, k);
    assert rowsK[..m] == rows[..m] && stampsK[..m] == stamps[..m];
    RunImportExtends(qs, rowsK, snap, stampsK, m);
  }

  /** A prefix of fresh ids is fresh. */
  lemma FreshStampsPrefix(stamps: seq<Stamp>, qs: map<string, Question>, k: int)
    requires FreshStamps(stamps, qs) && 0 <= k <= |stamps|
    ensures FreshStamps(stamps[..k], qs)
  {
    forall i, j | 0 <= i < j < k
      ensures stamps[..k][i].id != stamps[..k][j].id
    {
      assert stamps[..k][i] == stamps[i] && stamps[..k][j] == stamps[j];
    }
  }

  /** Right after a created row, the store holds the question it wrote under its id. */
  lemma CreatedRowWritten(qs: map<string, Question>, rows: seq<QuestionRow>, snap: Snapshot, stamps: seq<Stamp>, j: int)
    requires |stamps| == |rows| && 0 <= j < |rows|
    requires RunImport(qs, rows, snap, stamps).0[j].Created?
    ensures RowPlan(rows[j], snap).Insert?
    ensures var after := RunImport(qs, rows[..j + 1], snap, stamps[..j + 1]).1;
      stamps[j].id in after && after[stamps[j].id] == Stored(RowPlan(rows[j], snap).q, stamps[j])
  {
    OutcomeOfRow(qs, rows, snap, stamps, j);
    var before := RunImport(qs, rows[..j], snap, stamps[..j]).1;
    StepCreated(before, RowPlan(rows[j], snap), stamps[j]);
  }

  /**
   * A question the store held before the import but the (filtered)
   * snapshot did not list: a row for its pair is not skipped but counted as
   * an error.
   */
  lemma SnapshotMissIsError(qs: map<string, Question>, rows: seq<QuestionRow>, snap: Snapshot, stamps: seq<Stamp>, k: int, holder: string)
    requires |stamps| == |rows| && FreshStamps(stamps, qs) && 0 <= k < |rows|
    requires RowPlan(rows[k], snap).Insert?
    requires holder in qs
    requires qs[holder].subCategoryId == RowPlan(rows[k], snap).q.subCategoryId
    requires qs[holder].points == RowPlan(rows[k], snap).q.points
    ensures RunImport(qs, rows, snap, stamps).0[k] == Errored(Thrown(DuplicateTier(RowPlan(rows[k], snap).q.points)))
  {
    PrefixRunExtends(qs, rows, snap, stamps, 0, k);
    assert rows[..0] == [] && stamps[..0] == [];
    assert RunImport(qs, [], snap, []).1 == qs;
    HeldPairIsError(qs, rows, snap, stamps, k, holder);
  }

  /** The import keeps the store at most one question per pair. */
  lemma {:induction false} ImportKeepsUnique(qs: map<string, Question>, rows: seq<QuestionRow>, snap: Snapshot, stamps: seq<Stamp>)
    requires |stamps| == |rows| && Unique(qs)
    ensures Unique(RunImport(qs, rows, snap, stamps).1)
    decreases |rows|
  {
    if rows != [] {
      var n := |rows| - 1;
      UnfoldRun(qs, rows, snap, stamps, n);
      assert rows[..n + 1] == rows && stamps[..n + 1] == stamps;
      ImportKeepsUnique(qs, rows[..n], snap, stamps[..n]);
      var prev := RunImport(qs, rows[..n], snap, stamps[..n]).1;
      var plan := RowPlan(rows[n], snap);
      if plan.Insert? && AddQuestion(prev, plan.q, stamps[n]).Ok? {
        AddQuestionKeepsUnique(prev, plan.q, stamps[n]);
      }
    }
  }

  /** The loop's state after row i, from its state before it. */
  lemma UnfoldRun(qs: map<string, Question>, rows: seq<QuestionRow>, snap: Snapshot, stamps: seq<Stamp>, i: int)
    requires |stamps| == |rows| && 0 <= i < |rows|
    ensures var prev := RunImport(qs, rows[..i], snap, stamps[..i]);
      var step := Step(prev.1, RowPlan(rows[i], snap), stamps[i]);
      RunImport(qs, rows[..i + 1], snap, stamps[..i + 1]) == (prev.0 + [step.0], step.1)
  {
    FoldUnfold(RowStep(snap), qs, rows, stamps, i);
  }

  /** The id row i receives is not yet in the store. */
  lemma FreshAt(qs: map<string, Question>, rows: seq<QuestionRow>, snap: Snapshot, stamps: seq<Stamp>, i: int)
    requires |stamps| == |rows| && FreshStamps(stamps, qs) && 0 <= i < |rows|
    ensures stamps[i].id !in RunImport(qs, rows[..i], snap, stamps[..i]).1
  {
    RunImportIds(qs, rows[..i], snap, stamps[..i]);
    assert forall j :: 0 <= j < i ==> stamps[..i][j].id != stamps[i].id;
  }

  /** One iteration's write: nothing, or the create the plan calls for. */
  method ApplyPlan(store: QuestionStore, plan: Plan, stamp: Stamp) returns (o: Outcome<RowError>)
    requires stamp.id !in store.questions
    modifies store
    ensures (o, store.questions) == Step(old(store.questions), plan, stamp)
  {
    match plan {
      case Reject(e) =>
        o := Errored(e);
      case Skip =>
        o := Skipped;
      case Insert(q) =>
        var r := store.Create(q, stamp);
        o := if r.Ok? then Created(stamp.id) else Errored(Thrown(r.error));
    }
  }

  /**
   * `handleImportExcel`: the loop over the parsed rows, counting created,
   * skipped and errored rows and collecting the messages, then the
   * closing summary.
   */
  method ImportQuestions(store: QuestionStore, rows: seq<QuestionRow>, snap: Snapshot, stamps: seq<Stamp>)
    returns (created: nat, skipped: nat, errorCount: nat, errors: seq<string>, message: string)
    requires |stamps| == |rows| && FreshStamps(stamps, store.questions)
    modifies store
    ensures var run := RunImport(old(store.questions), rows, snap, stamps);
      && store.questions == run.1
      && created == CreatedCount(run.0) && skipped == SkippedCount(run.0) && errorCount == ErroredCount(run.0)
      && errors == ErrorMessages(run.0, ErrorText)
    ensures message == SummaryMessage(created, skipped, errorCount, errors)
  {
    ghost var qs0 := store.questions;
    created, skipped, errorCount, errors := 0, 0, 0, [];
    var i := 0;
    while i < |rows|
      invariant 0 <= i <= |rows|
      invariant var run := RunImport(qs0, rows[..i], snap, stamps[..i]);
        && store.questions == run.1
        && created == CreatedCount(run.0) && skipped == SkippedCount(run.0) && errorCount == ErroredCount(run.0)
        && errors == ErrorMessages(run.0, ErrorText)
    {
      ghost var prev := RunImport(qs0, rows[..i], snap, stamps[..i]);
      UnfoldRun(qs0, rows, snap, stamps, i);
      FreshAt(qs0, rows, snap, stamps, i);
      var o := ApplyPlan(store, RowPlan(rows[i], snap), stamps[i]);
      ghost var next := RunImport(qs0, rows[..i + 1], snap, stamps[..i + 1]);
      assert next.0 == prev.0 + [o] && next.1 == store.questions;
      ghost var before := (created, skipped, errorCount, errors);
      match o {
        case Created(_) =>
          created := created + 1;
        case Skipped =>
          skipped := skipped + 1;
        case Errored(e) =>
          errors := errors + [ErrorText(e)];
          errorCount := errorCount + 1;
      }
      TallyKept(prev.0, o, ErrorText, before.0, before.1, before.2, before.3, created, skipped, errorCount, errors);
      i := i + 1;
    }
    assert rows[..i] == rows && stamps[..i] == stamps;
    message := SummaryMessage(created, skipped, errorCount, errors);
  }

  /** `handleToggleStatus`: active becomes disabled, anything else becomes active. */
  function NextStatus(status: Value): (r: Value)
    ensures r == Str("disabled") <==> status == Str("active")
    ensures r == Str("active") <==> status != Str("active")
  {
    if status == Str("active") then Str("disabled") else Str("active")
  }

  /** Toggling twice restores active and disabled, but a draft comes back disabled. */
  lemma ToggleTwice(status: Value)
    ensures status == Str("active") || status == Str("disabled") ==> NextStatus(NextStatus(status)) == status
    ensures status != Str("active") ==> NextStatus(NextStatus(status)) == Str("disabled")
  {
  }

  /**
   * A toggle writes only the status: it fails only when the question's
   * document is gone, changes nothing but that question's status and
   * `updated_at`, and keeps the store unique.
   */
  lemma ToggleEffect(qs: map<string, Question>, question: JoinedQuestion, now: int)
    ensures var r := PatchQuestion(qs, question.id, StatusPatch(NextStatus(question.q.status)), now);
      && (r.Ok? <==> question.id in qs)
      && (r.Err? ==> r.error == NotFound(question.id))
      && (r.Ok? ==> r.value == qs[question.id := qs[question.id].(status := NextStatus(question.q.status), updatedAt := now)])
      && (r.Ok? && Unique(qs) ==> Unique(r.value))
  {
    var p := StatusPatch(NextStatus(question.q.status));
    PresentValuesDefined([("question_text_ar", p.questionText), ("answer_text_ar", p.answerText),
                          ("question_media_url", p.questionMedia), ("answer_media_url", p.answerMedia),
                          ("status", p.status)]);
    if question.id in qs && Unique(qs) {
      PatchKeepingPairKeepsUnique(qs, question.id, p, now);
    }
  }

  /** `handleToggleStatus` on a listed question; a failure is only logged. */
  method ToggleStatus(store: QuestionStore, question: JoinedQuestion, now: int)
    modifies store
    ensures question.id in old(store.questions) ==>
      store.questions == old(store.questions)[question.id := old(store.questions)[question.id].(status := NextStatus(question.q.status), updatedAt := now)]
    ensures question.id !in old(store.questions) ==> store.questions == old(store.questions)
  {
    ToggleEffect(store.questions, question, now);
    var _ := store.Update(question.id, StatusPatch(NextStatus(question.q.status)), now);
  }

  /** The predicate of `questions.filter(q => q.sub_category_id === subCategoryId)`. */
  function OfSub(subCategoryId: string): JoinedQuestion -> bool
  {
    (q: JoinedQuestion) => q.q.subCategoryId == subCategoryId
  }

  /** How many of the questions have the points value. */
  function CountWithPoints(xs: seq<JoinedQuestion>, points: int): nat
  {
    if xs == [] then 0 else (if xs[0].q.points == points then 1 else 0) + CountWithPoints(xs[1..], points)
  }

  lemma {:induction false} CountWithPointsAppend(xs: seq<JoinedQuestion>, x: JoinedQuestion, points: int)
    ensures CountWithPoints(xs + [x], points) == CountWithPoints(xs, points) + (if x.q.points == points then 1 else 0)
  {
    if xs != [] {
      assert (xs + [x])[1..] == xs[1..] + [x];
      CountWithPointsAppend(xs[1..], x, points);
    }
  }

  /**
   * `getQuestionCountForSubCategory`: the number of listed questions of the
   * sub-category, and per points value how many of them have it, with 200,
   * 400 and 600 always present.
   */
  method QuestionCountForSubCategory(questions: seq<JoinedQuestion>, subCategoryId: string)
    returns (total: nat, byPoints: map<int, nat>)
    ensures var mine := Filter(questions, OfSub(subCategoryId));
      && total == |mine|
      && (forall p :: p in byPoints <==> p == 200 || p == 400 || p == 600 || exists i :: 0 <= i < |mine| && mine[i].q.points == p)
      && (forall p :: p in byPoints ==> byPoints[p] == CountWithPoints(mine, p))
  {
    var mine := Filter(questions, OfSub(subCategoryId));
    byPoints := map[200 := 0, 400 := 0, 600 := 0];
    var i := 0;
    while i < |mine|
      invariant 0 <= i <= |mine|
      invariant Tallied(byPoints, mine[..i])
    {
      var q := mine[i];
      assert mine[..i + 1] == mine[..i] + [q];
      TallyStep(byPoints, mine[..i], q);
      byPoints := byPoints[q.q.points := (if q.q.points in byPoints then byPoints[q.q.points] else 0) + 1];
      i := i + 1;
    }
    assert mine[..i] == mine;
    total := |mine|;
  }

  /** The tally of xs: keys 200, 400, 600 and every points value in xs, each mapped to its count. */
  ghost predicate Tallied(byPoints: map<int, nat>, xs: seq<JoinedQuestion>)
  {
    && (forall p :: p in byPoints <==> p == 200 || p == 400 || p == 600 || exists j :: 0 <= j < |xs| && xs[j].q.points == p)
    && (forall p :: p in byPoints ==> byPoints[p] == CountWithPoints(xs, p))
  }

  /** Counting one more question into the tally of xs gives the tally of `xs + [q]`. */
  lemma TallyStep(byPoints: map<int, nat>, xs: seq<JoinedQuestion>, q: JoinedQuestion)
    requires Tallied(byPoints, xs)
    ensures Tallied(byPoints[q.q.points := (if q.q.points in byPoints then byPoints[q.q.points] else 0) + 1], xs + [q])
  {
    var v := q.q.points;
    var ys := xs + [q];
    var next := byPoints[v := (if v in byPoints then byPoints[v] else 0) + 1];
    if v !in byPoints {
      CountZeroWhenAbsent(xs, v);
    }
    forall p | p in next
      ensures next[p] == CountWithPoints(ys, p)
    {
      CountWithPointsAppend(xs, q, p);
    }
    forall p
      ensures p in next <==> p == 200 || p == 400 || p == 600 || exists j :: 0 <= j < |ys| && ys[j].q.points == p
    {
      if p == v {
        assert ys[|xs|].q.points == p;
      }
      if exists j :: 0 <= j < |xs| && xs[j].q.points == p {
        var j :| 0 <= j < |xs| && xs[j].q.points == p;
        assert ys[j] == xs[j];
      }
      if exists j :: 0 <= j < |ys| && ys[j].q.points == p {
        var j :| 0 <= j < |ys| && ys[j].q.points == p;
        assert j < |xs| ==> ys[j] == xs[j];
      }
    }
  }

  /** No two listed questions share a (sub-category, points) pair. */
  predicate UniquePairs(xs: seq<JoinedQuestion>)
  {
    forall i, j :: 0 <= i < j < |xs| ==> !(xs[i].q.subCategoryId == xs[j].q.subCategoryId && xs[i].q.points == xs[j].q.points)
  }

  /** A listing of distinct documents of a unique store has unique pairs. */
  lemma ListingOfUniqueStore(qs: map<string, Question>, xs: seq<JoinedQuestion>)
    requires Unique(qs)
    requires forall i :: 0 <= i < |xs| ==> xs[i].id in qs && xs[i].q == qs[xs[i].id]
    requires forall i, j :: 0 <= i < j < |xs| ==> xs[i].id != xs[j].id
    ensures UniquePairs(xs)
  {
  }

  /** Among questions with unique pairs, one sub-category has each points value at most once. */
  lemma {:induction false} TierCountAtMostOne(xs: seq<JoinedQuestion>, subCategoryId: string, points: int)
    requires UniquePairs(xs)
    ensures CountWithPoints(Filter(xs, OfSub(subCategoryId)), points) <= 1
  {
    if xs != [] {
      assert UniquePairs(xs[1..]) by {
        forall i, j | 0 <= i < j < |xs[1..]|
          ensures !(xs[1..][i].q.subCategoryId == xs[1..][j].q.subCategoryId && xs[1..][i].q.points == xs[1..][j].q.points)
        {
          assert xs[1..][i] == xs[i + 1] && xs[1..][j] == xs[j + 1];
        }
      }
      TierCountAtMostOne(xs[1..], subCategoryId, points);
      if xs[0].q.subCategoryId == subCategoryId && xs[0].q.points == points {
        NoLaterPair(xs, subCategoryId, points);
      }
    }
  }

  /** When the first question holds the pair, no later one of its sub-category has those points. */
  lemma NoLaterPair(xs: seq<JoinedQuestion>, subCategoryId: string, points: int)
    requires UniquePairs(xs) && xs != []
    requires xs[0].q.subCategoryId == subCategoryId && xs[0].q.points == points
    ensures CountWithPoints(Filter(xs[1..], OfSub(subCategoryId)), points) == 0
  {
    var rest := Filter(xs[1..], OfSub(subCategoryId));
    forall k | 0 <= k < |rest|
      ensures rest[k].q.points != points
    {
      assert rest[k] in rest;
      var j :| 0 <= j < |xs[1..]| && xs[1..][j] == rest[k];
      assert xs[j + 1] == rest[k];
    }
    CountZeroWhenAbsent(rest, points);
  }

  lemma {:induction false} CountZeroWhenAbsent(xs: seq<JoinedQuestion>, points: int)
    requires forall k :: 0 <= k < |xs| ==> xs[k].q.points != points
    ensures CountWithPoints(xs, points) == 0
  {
    if xs != [] {
      CountZeroWhenAbsent(xs[1..], points);
    }
  }

  /** The predicate of `subCategories.filter(sub => sub.main_category_id === mainCategoryId)`. */
  function OfMain(mainCategoryId: string): JoinedSub -> bool
  {
    (s: JoinedSub) => s.sub.mainCategoryId == mainCategoryId
  }

  /** The sub-categories the form offers: those of the selected main category, or all when none is selected. */
  function FilteredSubCategories(subs: seq<JoinedSub>, mainCategoryId: string): (r: seq<JoinedSub>)
    ensures mainCategoryId != "" ==> forall s :: s in r <==> s in subs && s.sub.mainCategoryId == mainCategoryId
    ensures mainCategoryId == "" ==> r == subs
  {
    if mainCategoryId != "" then Filter(subs, OfMain(mainCategoryId)) else subs
  }

  /** Re-running the filter effect with the same selection changes nothing. */
  lemma FilteredSubCategoriesIdempotent(subs: seq<JoinedSub>, mainCategoryId: string)
    ensures FilteredSubCategories(FilteredSubCategories(subs, mainCategoryId), mainCategoryId)
         == FilteredSubCategories(subs, mainCategoryId)
  {
    if mainCategoryId != "" {
      FilterIdempotent(subs, OfMain(mainCategoryId));
    }
  }
}
