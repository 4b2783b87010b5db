/**
 * The `questions` collection and the uniqueness guard of its API: at most
 * one question per (sub-category, points) pair, checked on create and,
 * only when the patch carries both fields, on update.
 */
module QuestionApi {
  import opened Wrappers
  import opened JsValues
  import opened Firestore

  /** A question document. Fields copied from a spreadsheet cell keep the cell's value. */
  datatype Question = Question(
    subCategoryId: string, questionText: Value, answerText: Value,
    questionMedia: Value, answerMedia: Value, points: int, status: Value,
    createdAt: int, updatedAt: int)

  /** The data `questionsApi.create` receives. */
  datatype NewQuestion = NewQuestion(
    subCategoryId: string, questionText: Value, answerText: Value,
    questionMedia: Value, answerMedia: Value, points: int, status: Value)

  /** A `Partial<Question>`: `None` is a field the update leaves out. */
  datatype QuestionPatch = QuestionPatch(
    subCategoryId: Option<string>, questionText: Option<Value>, answerText: Option<Value>,
    questionMedia: Option<Value>, answerMedia: Option<Value>, points: Option<int>, status: Option<Value>)

  /** A patch that changes nothing but the status. */
  function StatusPatch(status: Value): QuestionPatch
  {
    QuestionPatch(None, None, None, None, None, None, Some(status))
  }

  /** The exclude id is used only when it is truthy, that is present and non-empty. */
  predicate Excludes(excludeId: Option<string>, id: string)
  {
    excludeId.Some? && excludeId.value != "" && id == excludeId.value
  }

  /**
   * `checkDuplicate`: does a stored question other than the excluded one
   * already hold this (sub-category, points) pair?
   */
  function CheckDuplicate(qs: map<string, Question>, subCategoryId: string, points: int, excludeId: Option<string>): (r: bool)
    ensures r <==> exists id :: id in qs && qs[id].subCategoryId == subCategoryId && qs[id].points == points
                                  && !Excludes(excludeId, id)
  {
    var matching := set id | id in qs && qs[id].subCategoryId == subCategoryId && qs[id].points == points;
    assert forall id :: id in matching <==> id in qs && qs[id].subCategoryId == subCategoryId && qs[id].points == points;
    if excludeId.Some? && excludeId.value != "" then exists id :: id in matching && id != excludeId.value
    else matching != {}
  }

  /** At most one question per (sub-category, points) pair. */
  predicate Unique(qs: map<string, Question>)
  {
    forall a, b :: a in qs && b in qs && qs[a].subCategoryId == qs[b].subCategoryId && qs[a].points == qs[b].points ==> a == b
  }

  /** An empty exclude id behaves exactly like none. */
  lemma EmptyExcludeIsNone(qs: map<string, Question>, subCategoryId: string, points: int)
    ensures CheckDuplicate(qs, subCategoryId, points, Some("")) == CheckDuplicate(qs, subCategoryId, points, None)
    ensures CheckDuplicate(qs, subCategoryId, points, None)
        <==> exists id :: id in qs && qs[id].subCategoryId == subCategoryId && qs[id].points == points
  {
  }

  /** In a store that is unique, a question never conflicts with itself. */
  lemma NoSelfConflict(qs: map<string, Question>, id: string)
    requires Unique(qs) && id in qs && id != ""
    ensures !CheckDuplicate(qs, qs[id].subCategoryId, qs[id].points, Some(id))
  {
  }

  /**
   * A store is unique exactly when no question, checked with itself
   * excluded, conflicts.
   */
  lemma UniqueIffNoConflict(qs: map<string, Question>)
    requires "" !in qs
    ensures Unique(qs) <==> forall id :: id in qs ==> !CheckDuplicate(qs, qs[id].subCategoryId, qs[id].points, Some(id))
  {
    if !Unique(qs) {
      var a, b :| a in qs && b in qs && qs[a].subCategoryId == qs[b].subCategoryId && qs[a].points == qs[b].points && a != b;
      assert CheckDuplicate(qs, qs[a].subCategoryId, qs[a].points, Some(a)) by {
        assert b in qs && !Excludes(Some(a), b);
      }
    }
  }

  /** The question document `create` writes. */
  function Stored(q: NewQuestion, stamp: Stamp): Question
  {
    Question(q.subCategoryId, q.questionText, q.answerText, q.questionMedia, q.answerMedia, q.points, q.status,
             stamp.now, stamp.now)
  }

  /** `questionsApi.create`: refuse a taken pair, then write one new document. */
  function AddQuestion(qs: map<string, Question>, q: NewQuestion, stamp: Stamp): Result<map<string, Question>, WriteError>
  {
    if CheckDuplicate(qs, q.subCategoryId, q.points, None) then Err(DuplicateTier(q.points))
    else
      match UndefinedIn([("question_text_ar", q.questionText), ("answer_text_ar", q.answerText),
                         ("question_media_url", q.questionMedia), ("answer_media_url", q.answerMedia),
                         ("status", q.status)])
      case Some(f) => Err(UndefinedField(f))
      case None => Ok(qs[stamp.id := Stored(q, stamp)])
  }

  /** `create` throws the duplicate error exactly when the pair is already stored. */
  lemma AddQuestionRejectsTakenPair(qs: map<string, Question>, q: NewQuestion, stamp: Stamp)
    ensures AddQuestion(qs, q, stamp) == Err(DuplicateTier(q.points))
        <==> exists id :: id in qs && qs[id].subCategoryId == q.subCategoryId && qs[id].points == q.points
  {
    if !CheckDuplicate(qs, q.subCategoryId, q.points, None) {
      var fields := [("question_text_ar", q.questionText), ("answer_text_ar", q.answerText),
                     ("question_media_url", q.questionMedia), ("answer_media_url", q.answerMedia),
                     ("status", q.status)];
      var u := UndefinedIn(fields);
      assert u.Some? ==> AddQuestion(qs, q, stamp) == Err(UndefinedField(u.value));
    }
  }

  /** A successful `create` adds exactly one record, carrying the given fields, and changes no other. */
  lemma AddQuestionAddsOne(qs: map<string, Question>, q: NewQuestion, stamp: Stamp)
    requires stamp.id !in qs
    requires AddQuestion(qs, q, stamp).Ok?
    ensures var after := AddQuestion(qs, q, stamp).value;
      && after.Keys == qs.Keys + {stamp.id}
      && |after| == |qs| + 1
      && (forall id :: id in qs ==> after[id] == qs[id])
      && after[stamp.id].subCategoryId == q.subCategoryId && after[stamp.id].points == q.points
      && after[stamp.id].questionText == q.questionText && after[stamp.id].answerText == q.answerText
      && after[stamp.id].questionMedia == q.questionMedia && after[stamp.id].answerMedia == q.answerMedia
      && after[stamp.id].status == q.status
      && after[stamp.id].createdAt == stamp.now && after[stamp.id].updatedAt == stamp.now
  {
  }

  /** `create` keeps the store unique. */
  lemma AddQuestionKeepsUnique(qs: map<string, Question>, q: NewQuestion, stamp: Stamp)
    requires Unique(qs)
    requires AddQuestion(qs, q, stamp).Ok?
    ensures Unique(AddQuestion(qs, q, stamp).value)
  {
    var after := AddQuestion(qs, q, stamp).value;
    forall a, b | a in after && b in after && after[a].subCategoryId == after[b].subCategoryId && after[a].points == after[b].points
      ensures a == b
    {
    }
  }

  /** Whether `update` runs the duplicate check: only when the patch has a truthy sub-category id and truthy points. */
  predicate GuardApplies(p: QuestionPatch)
  {
    p.subCategoryId.Some? && p.subCategoryId.value != "" && p.points.Some? && p.points.value != 0
  }

  /** The question after a patch: patched fields replaced, `updated_at` set. */
  function ApplyQuestionPatch(c: Question, p: QuestionPatch, now: int): Question
  {
    Question(Patched(p.subCategoryId, c.subCategoryId), Patched(p.questionText, c.questionText),
             Patched(p.answerText, c.answerText), Patched(p.questionMedia, c.questionMedia),
             Patched(p.answerMedia, c.answerMedia), Patched(p.points, c.points), Patched(p.status, c.status),
             c.createdAt, now)
  }

  /** `questionsApi.update`. */
  function PatchQuestion(qs: map<string, Question>, id: string, p: QuestionPatch, now: int): Result<map<string, Question>, WriteError>
  {
    if GuardApplies(p) && CheckDuplicate(qs, p.subCategoryId.value, p.points.value, Some(id)) then
      Err(DuplicateTier(p.points.value))
    else
      match UndefinedIn(PresentValues([("question_text_ar", p.questionText), ("answer_text_ar", p.answerText),
                                       ("question_media_url", p.questionMedia), ("answer_media_url", p.answerMedia),
                                       ("status", p.status)]))
      case Some(f) => Err(UndefinedField(f))
      case None =>
        if id !in qs then Err(NotFound(id)) else Ok(qs[id := ApplyQuestionPatch(qs[id], p, now)])
  }

  /**
   * `update` refuses a pair only when the patch carries both fields, and
   * then exactly when another question holds the pair.
   */
  lemma PatchQuestionGuard(qs: map<string, Question>, id: string, p: QuestionPatch, now: int)
    ensures !GuardApplies(p) ==> !(PatchQuestion(qs, id, p, now).Err? && PatchQuestion(qs, id, p, now).error.DuplicateTier?)
    ensures GuardApplies(p) && id != "" ==>
      ((PatchQuestion(qs, id, p, now) == Err(DuplicateTier(p.points.value)))
         <==> exists other :: other in qs && other != id && qs[other].subCategoryId == p.subCategoryId.value
                             && qs[other].points == p.points.value)
  {
    if !GuardApplies(p) {
      var u := UndefinedIn(PresentValues([("question_text_ar", p.questionText), ("answer_text_ar", p.answerText),
                                          ("question_media_url", p.questionMedia), ("answer_media_url", p.answerMedia),
                                          ("status", p.status)]));
      assert u.Some? ==> PatchQuestion(qs, id, p, now) == Err(UndefinedField(u.value));
    } else if id != "" && !CheckDuplicate(qs, p.subCategoryId.value, p.points.value, Some(id)) {
      var u := UndefinedIn(PresentValues([("question_text_ar", p.questionText), ("answer_text_ar", p.answerText),
                                          ("question_media_url", p.questionMedia), ("answer_media_url", p.answerMedia),
                                          ("status", p.status)]));
      assert u.Some? ==> PatchQuestion(qs, id, p, now) == Err(UndefinedField(u.value));
    }
  }

  /**
   * A successful update touches one document: patched fields take the
   * patch's values, the rest keep theirs, `updated_at` is the clock, and
   * no other document changes.
   */
  lemma PatchQuestionFrame(qs: map<string, Question>, id: string, p: QuestionPatch, now: int)
    requires PatchQuestion(qs, id, p, now).Ok?
    ensures id in qs
    ensures var after := PatchQuestion(qs, id, p, now).value;
      && after.Keys == qs.Keys
      && (forall other :: other in qs && other != id ==> after[other] == qs[other])
      && after[id].subCategoryId == (if p.subCategoryId.Some? then p.subCategoryId.value else qs[id].subCategoryId)
      && after[id].points == (if p.points.Some? then p.points.value else qs[id].points)
      && after[id].status == (if p.status.Some? then p.status.value else qs[id].status)
      && after[id].questionText == (if p.questionText.Some? then p.questionText.value else qs[id].questionText)
      && after[id].answerText == (if p.answerText.Some? then p.answerText.value else qs[id].answerText)
      && after[id].questionMedia == (if p.questionMedia.Some? then p.questionMedia.value else qs[id].questionMedia)
      && after[id].answerMedia == (if p.answerMedia.Some? then p.answerMedia.value else qs[id].answerMedia)
      && after[id].createdAt == qs[id].createdAt && after[id].updatedAt == now
  {
  }

  /** An update carrying both fields keeps the store unique. */
  lemma PatchWithBothKeepsUnique(qs: map<string, Question>, id: string, p: QuestionPatch, now: int)
    requires Unique(qs) && GuardApplies(p)
    requires PatchQuestion(qs, id, p, now).Ok?
    ensures Unique(PatchQuestion(qs, id, p, now).value)
  {
    var after := PatchQuestion(qs, id, p, now).value;
    forall a, b | a in after && b in after && after[a].subCategoryId == after[b].subCategoryId && after[a].points == after[b].points
      ensures a == b
    {
    }
  }

  /** An update that leaves the pair as it was (a status toggle, say) keeps the store unique. */
  lemma PatchKeepingPairKeepsUnique(qs: map<string, Question>, id: string, p: QuestionPatch, now: int)
    requires Unique(qs)
    requires PatchQuestion(qs, id, p, now).Ok?
    requires Patched(p.subCategoryId, qs[id].subCategoryId) == qs[id].subCategoryId
    requires Patched(p.points, qs[id].points) == qs[id].points
    ensures Unique(PatchQuestion(qs, id, p, now).value)
  {
  }

  /**
   * The gap: an update without both fields is not checked, and it breaks
   * uniqueness exactly when another question already holds the pair the
   * patched question ends up with.
   */
  lemma UncheckedPatchBreaksUniqueIff(qs: map<string, Question>, id: string, p: QuestionPatch, now: int)
    requires Unique(qs) && !GuardApplies(p)
    requires PatchQuestion(qs, id, p, now).Ok?
    ensures var s := Patched(p.subCategoryId, qs[id].subCategoryId);
      var pts := Patched(p.points, qs[id].points);
      (!Unique(PatchQuestion(qs, id, p, now).value))
        <==> exists other :: other in qs && other != id && qs[other].subCategoryId == s && qs[other].points == pts
  {
    var after := PatchQuestion(qs, id, p, now).value;
    var s := Patched(p.subCategoryId, qs[id].subCategoryId);
    var pts := Patched(p.points, qs[id].points);
    if exists other :: other in qs && other != id && qs[other].subCategoryId == s && qs[other].points == pts {
      var other :| other in qs && other != id && qs[other].subCategoryId == s && qs[other].points == pts;
      assert after[other] == qs[other] && after[id].subCategoryId == s && after[id].points == pts;
    } else {
      forall a, b | a in after && b in after && after[a].subCategoryId == after[b].subCategoryId && after[a].points == after[b].points
        ensures a == b
      {
      }
    }
  }

  /** A two-question store: the same sub-category at 200 and at 400 points. */
  function TwoTiers(): map<string, Question>
  {
    map["q1" := Question("sc", Str("a"), Str("b"), Null, Null, 200, Str("active"), 0, 0),
        "q2" := Question("sc", Str("c"), Str("d"), Null, Null, 400, Str("active"), 0, 0)]
  }

  /**
   * A points-only update moving the 400-point question to 200 points is
   * accepted, and the store then holds two questions for one pair.
   */
  lemma PointsOnlyPatchBreaksUnique()
    ensures Unique(TwoTiers())
    ensures var p := QuestionPatch(None, None, None, None, None, Some(200), None);
      && PatchQuestion(TwoTiers(), "q2", p, 1).Ok?
      && !Unique(PatchQuestion(TwoTiers(), "q2", p, 1).value)
  {
    var qs := TwoTiers();
    var p := QuestionPatch(None, None, None, None, None, Some(200), None);
    assert PresentValues([("question_text_ar", p.questionText), ("answer_text_ar", p.answerText),
                          ("question_media_url", p.questionMedia), ("answer_media_url", p.answerMedia),
                          ("status", p.status)]) == [];
    var after := PatchQuestion(qs, "q2", p, 1).value;
    assert after["q1"].points == after["q2"].points && after["q1"].subCategoryId == after["q2"].subCategoryId;
  }

  /** The `questions` collection, updated in place by the API's writes. */
  class QuestionStore {
    var questions: map<string, Question>

    constructor (questions0: map<string, Question>)
      ensures questions == questions0
    {
      questions := questions0;
    }

    /** `questionsApi.create`: on a duplicate it throws and writes nothing. */
    method Create(q: NewQuestion, stamp: Stamp) returns (r: Result<string, WriteError>)
      requires stamp.id !in questions
      modifies this
      ensures AddQuestion(old(questions), q, stamp).Ok? ==> r == Ok(stamp.id) && questions == AddQuestion(old(questions), q, stamp).value
      ensures AddQuestion(old(questions), q, stamp).Err? ==> r == Err(AddQuestion(old(questions), q, stamp).error) && questions == old(questions)
    {
      match AddQuestion(questions, q, stamp)
      case Ok(after) =>
        questions := after;
        r := Ok(stamp.id);
      case Err(e) =>
        r := Err(e);
    }

    /** `questionsApi.update`. */
    method Update(id: string, p: QuestionPatch, now: int) returns (r: Result<string, WriteError>)
      modifies this
      ensures PatchQuestion(old(questions), id, p, now).Ok? ==> r == Ok(id) && questions == PatchQuestion(old(questions), id, p, now).value
      ensures PatchQuestion(old(questions), id, p, now).Err? ==> r == Err(PatchQuestion(old(questions), id, p, now).error) && questions == old(questions)
    {
      match PatchQuestion(questions, id, p, now)
      case Ok(after) =>
        questions := after;
        r := Ok(id);
      case Err(e) =>
        r := Err(e);
    }
  }
}
