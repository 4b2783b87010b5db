/**
 * `questionsApi.getAll`: one server query, chosen by the last present
 * filter; a lookup of each referenced sub-category and its main category;
 * a join; then the in-memory main-category filter and the case-insensitive
 * search.
 */
module QuestionQuery {
  import opened Wrappers
  import opened JsValues
  import opened JsStrings
  import opened JsArrays
  import opened Firestore
  import opened CategoryApi
  import opened QuestionApi

  /** The optional filters; a filter takes part only when it is truthy. */
  datatype Filters = Filters(
    mainCategoryId: Option<string>, subCategoryId: Option<string>, points: Option<int>,
    status: Option<string>, search: Option<string>)

  predicate Present(s: Option<string>)
  {
    s.Some? && s.value != ""
  }

  predicate PresentPoints(p: Option<int>)
  {
    p.Some? && p.value != 0
  }

  /** The server query: every question, or those with one sub-category, one points value or one status. */
  datatype Query = AllQuestions | BySubCategory(id: string) | ByPoints(points: int) | ByStatus(status: string)

  /** The query `getAll` sends: each present filter replaces the query built before it. */
  function ServerQuery(f: Filters): Query
  {
    var q0 := AllQuestions;
    var q1 := if Present(f.subCategoryId) then BySubCategory(f.subCategoryId.value) else q0;
    var q2 := if PresentPoints(f.points) then ByPoints(f.points.value) else q1;
    if Present(f.status) then ByStatus(f.status.value) else q2
  }

  predicate Admits(q: Query, doc: Question)
  {
    match q
    case AllQuestions => true
    case BySubCategory(id) => doc.subCategoryId == id
    case ByPoints(p) => doc.points == p
    case ByStatus(s) => doc.status == Str(s)
  }

  /** The documents the query returns, in the listing's (newest first) order. */
  function Fetch(listing: seq<Listed<Question>>, q: Query): seq<Listed<Question>>
  {
    Filter(listing, (d: Listed<Question>) => Admits(q, d.doc))
  }

  /** The sub-category a question is joined to, with its main category's name when that document exists. */
  datatype SubRef = SubRef(name: Value, mainCategoryId: string, mainName: Option<Value>)

  /** A question as `getAll` returns it: `subCategory` is absent when its sub-category document is missing. */
  datatype JoinedQuestion = JoinedQuestion(id: string, q: Question, subCategory: Option<SubRef>)

  /** The join of one question with the sub-category and main-category documents. */
  function JoinOne(d: Listed<Question>, subs: map<string, SubCategory>, mains: map<string, MainCategory>): JoinedQuestion
  {
    var sc := d.doc.subCategoryId;
    if sc !in subs then JoinedQuestion(d.id, d.doc, None)
    else
      var mc := subs[sc].mainCategoryId;
      JoinedQuestion(d.id, d.doc, Some(SubRef(subs[sc].name, mc, if mc in mains then Some(mains[mc].name) else None)))
  }

  /** The join stage: one output per fetched question, in the same order. */
  function Join(fetched: seq<Listed<Question>>, subs: map<string, SubCategory>, mains: map<string, MainCategory>): (r: seq<JoinedQuestion>)
    ensures |r| == |fetched|
    ensures forall i :: 0 <= i < |r| ==> r[i] == JoinOne(fetched[i], subs, mains)
  {
    if fetched == [] then [] else [JoinOne(fetched[0], subs, mains)] + Join(fetched[1..], subs, mains)
  }

  /** The sub-category ids of the fetched questions, in order. */
  function SubIdsOf(fetched: seq<Listed<Question>>): (ids: seq<string>)
    ensures |ids| == |fetched|
    ensures forall i :: 0 <= i < |fetched| ==> ids[i] == fetched[i].doc.subCategoryId
  {
    if fetched == [] then [] else [fetched[0].doc.subCategoryId] + SubIdsOf(fetched[1..])
  }

  predicate InMainCategory(x: JoinedQuestion, mainCategoryId: string)
  {
    x.subCategory.Some? && x.subCategory.value.mainCategoryId == mainCategoryId
  }

  /** The main-category filter, applied in memory after the join. */
  function MainFilter(xs: seq<JoinedQuestion>, f: Filters): seq<JoinedQuestion>
  {
    if Present(f.mainCategoryId) then Filter(xs, (x: JoinedQuestion) => InMainCategory(x, f.mainCategoryId.value))
    else xs
  }

  /**
   * Whether the search keeps a question, for an already lower-cased term:
   * `None` when `toLowerCase` is called on a text that is not a string,
   * which throws. The answer text is examined only when the question text
   * does not match.
   */
  function Hit(x: JoinedQuestion, term: string): (r: Option<bool>)
    ensures r == Some(true) <==>
      || (x.q.questionText.Str? && Includes(ToLower(x.q.questionText.s), term))
      || (x.q.questionText.Str? && x.q.answerText.Str? && Includes(ToLower(x.q.answerText.s), term))
    ensures r.None? <==>
      || !x.q.questionText.Str?
      || (!Includes(ToLower(x.q.questionText.s), term) && !x.q.answerText.Str?)
  {
    match x.q.questionText
    case Str(t) =>
      if Includes(ToLower(t), term) then Some(true)
      else (match x.q.answerText
            case Str(a) => Some(Includes(ToLower(a), term))
            case _ => None)
    case _ => None
  }

  /** The search stage: the questions the term hits, or `None` when some question's text makes it throw. */
  function Search(xs: seq<JoinedQuestion>, term: string): Option<seq<JoinedQuestion>>
  {
    if xs == [] then Some([])
    else
      match Hit(xs[0], term)
      case None => None
      case Some(keep) =>
        match Search(xs[1..], term)
        case None => None
        case Some(rest) => Some(if keep then [xs[0]] + rest else rest)
  }

  /** The whole of `getAll`, from the listing and the two category collections. */
  function GetAllResult(listing: seq<Listed<Question>>, subs: map<string, SubCategory>, mains: map<string, MainCategory>, f: Filters)
    : Option<seq<JoinedQuestion>>
  {
    var narrowed := MainFilter(Join(Fetch(listing, ServerQuery(f)), subs, mains), f);
    if Present(f.search) then Search(narrowed, ToLower(f.search.value)) else Some(narrowed)
  }

  /**
   * Only the last present filter among sub-category, points and status
   * narrows the result: with points or status present the sub-category
   * filter has no effect, and with status present neither has the points
   * filter.
   */
  lemma LastFilterWins(listing: seq<Listed<Question>>, subs: map<string, SubCategory>, mains: map<string, MainCategory>, f: Filters)
    ensures PresentPoints(f.points) || Present(f.status) ==>
      GetAllResult(listing, subs, mains, f) == GetAllResult(listing, subs, mains, f.(subCategoryId := None))
    ensures Present(f.status) ==>
      GetAllResult(listing, subs, mains, f) == GetAllResult(listing, subs, mains, f.(subCategoryId := None, points := None))
    ensures Present(f.subCategoryId) && !PresentPoints(f.points) && !Present(f.status) ==>
      forall d :: d in Fetch(listing, ServerQuery(f)) <==> d in listing && d.doc.subCategoryId == f.subCategoryId.value
  {
  }

  /** With sub-category and status filters both given, questions of other sub-categories come back. */
  lemma SubFilterIgnoredWithStatus()
    ensures var q := Question("other", Str("a"), Str("b"), Null, Null, 200, Str("active"), 0, 0);
      var f := Filters(None, Some("chosen"), None, Some("active"), None);
      GetAllResult([Listed("q1", q)], map[], map[], f) == Some([JoinedQuestion("q1", q, None)])
  {
    var q := Question("other", Str("a"), Str("b"), Null, Null, 200, Str("active"), 0, 0);
    var f := Filters(None, Some("chosen"), None, Some("active"), None);
    assert Fetch([Listed("q1", q)], ServerQuery(f)) == [Listed("q1", q)];
    assert Join([Listed("q1", q)], map[], map[]) == [JoinedQuestion("q1", q, None)];
  }

  /**
   * The main-category filter keeps a question exactly when its joined
   * sub-category belongs to that main category; so a question whose
   * sub-category document is missing is dropped.
   */
  lemma MainFilterKeepsIff(fetched: seq<Listed<Question>>, subs: map<string, SubCategory>, mains: map<string, MainCategory>, f: Filters)
    requires Present(f.mainCategoryId)
    ensures forall x :: x in MainFilter(Join(fetched, subs, mains), f) <==>
      x in Join(fetched, subs, mains) && x.q.subCategoryId in subs && subs[x.q.subCategoryId].mainCategoryId == f.mainCategoryId.value
  {
    var joined := Join(fetched, subs, mains);
    forall x | x in joined
      ensures InMainCategory(x, f.mainCategoryId.value) <==>
        x.q.subCategoryId in subs && subs[x.q.subCategoryId].mainCategoryId == f.mainCategoryId.value
    {
      var i :| 0 <= i < |joined| && joined[i] == x;
      assert x == JoinOne(fetched[i], subs, mains);
    }
  }

  /**
   * When the search does not throw, it keeps exactly the questions whose
   * lower-cased question or answer text contains the term, in their order;
   * it throws exactly when some question's text is not a string where it
   * is examined.
   */
  lemma {:induction false} SearchIsFilter(xs: seq<JoinedQuestion>, term: string)
    ensures Search(xs, term).Some? ==> Search(xs, term).value == Filter(xs, (x: JoinedQuestion) => Hit(x, term) == Some(true))
    ensures Search(xs, term).None? <==> exists i :: 0 <= i < |xs| && Hit(xs[i], term).None?
  {
    if xs != [] {
      SearchIsFilter(xs[1..], term);
      if Hit(xs[0], term).Some? && !(exists i :: 0 <= i < |xs[1..]| && Hit(xs[1..][i], term).None?) {
        forall i | 0 <= i < |xs|
          ensures Hit(xs[i], term).Some?
        {
          if i > 0 {
            assert xs[i] == xs[1..][i - 1];
          }
        }
      }
    }
  }

  /** A question whose question or answer text contains the search term verbatim is found, whatever the case. */
  lemma VerbatimMatchIsHit(x: JoinedQuestion, search: string)
    requires x.q.questionText.Str? && x.q.answerText.Str?
    requires Includes(x.q.questionText.s, search) || Includes(x.q.answerText.s, search)
    ensures Hit(x, ToLower(search)) == Some(true)
  {
    if Includes(x.q.questionText.s, search) {
      IncludesToLower(x.q.questionText.s, search);
    } else {
      IncludesToLower(x.q.answerText.s, search);
    }
  }

  /**
   * The in-memory stages only remove questions and keep their order: the
   * result is the joined list filtered by the main category and then by
   * the search.
   */
  lemma GetAllOnlyRemoves(listing: seq<Listed<Question>>, subs: map<string, SubCategory>, mains: map<string, MainCategory>, f: Filters)
    requires GetAllResult(listing, subs, mains, f).Some?
    ensures var joined := Join(Fetch(listing, ServerQuery(f)), subs, mains);
      var r := GetAllResult(listing, subs, mains, f).value;
      && |r| <= |joined|
      && (forall x :: x in r ==> x in joined)
      && (Present(f.search) ==>
            r == Filter(MainFilter(joined, f), (x: JoinedQuestion) => Hit(x, ToLower(f.search.value)) == Some(true)))
      && (!Present(f.search) ==> r == MainFilter(joined, f))
  {
    var joined := Join(Fetch(listing, ServerQuery(f)), subs, mains);
    var narrowed := MainFilter(joined, f);
    assert |narrowed| <= |joined| && forall x :: x in narrowed ==> x in joined;
    if Present(f.search) {
      SearchIsFilter(narrowed, ToLower(f.search.value));
    }
  }

  /**
   * The lookup loop of `getAll`: each distinct sub-category id is looked up
   * once, and when its document exists, so is its main category.
   */
  method LookUpCategories(fetched: seq<Listed<Question>>, subs: map<string, SubCategory>, mains: map<string, MainCategory>)
    returns (subLookup: map<string, SubCategory>, mainLookup: map<string, MainCategory>)
    ensures forall id :: id in subLookup <==> id in SubIdsOf(fetched) && id in subs
    ensures forall id :: id in subLookup ==> subLookup[id] == subs[id]
    ensures forall m :: m in mainLookup ==> m in mains && mainLookup[m] == mains[m]
    ensures forall id :: id in subLookup && subs[id].mainCategoryId in mains ==> subs[id].mainCategoryId in mainLookup
    ensures forall m :: m in mainLookup ==> exists id :: id in subLookup && subs[id].mainCategoryId == m
  {
    var ids := Distinct(SubIdsOf(fetched));
    subLookup := map[];
    mainLookup := map[];
    var k := 0;
    while k < |ids|
      invariant 0 <= k <= |ids|
      invariant forall id :: id in subLookup <==> id in ids[..k] && id in subs
      invariant forall id :: id in subLookup ==> subLookup[id] == subs[id]
      invariant forall m :: m in mainLookup ==> m in mains && mainLookup[m] == mains[m]
      invariant forall id :: id in subLookup && subs[id].mainCategoryId in mains ==> subs[id].mainCategoryId in mainLookup
      invariant forall m :: m in mainLookup ==> exists id :: id in subLookup && subs[id].mainCategoryId == m
    {
      var scId := ids[k];
      if scId in subs {
        var sc := subs[scId];
        subLookup := subLookup[scId := sc];
        if sc.mainCategoryId in mains {
          mainLookup := mainLookup[sc.mainCategoryId := mains[sc.mainCategoryId]];
        }
      }
      assert ids[..k + 1] == ids[..k] + [scId];
      k := k + 1;
    }
    assert ids[..k] == ids;
  }

  /** The join of one question with what the lookup maps hold. */
  function JoinFound(d: Listed<Question>, subLookup: map<string, SubCategory>, mainLookup: map<string, MainCategory>): JoinedQuestion
  {
    var sc := d.doc.subCategoryId;
    if sc !in subLookup then JoinedQuestion(d.id, d.doc, None)
    else
      var mc := subLookup[sc].mainCategoryId;
      JoinedQuestion(d.id, d.doc, Some(SubRef(subLookup[sc].name, mc, if mc in mainLookup then Some(mainLookup[mc].name) else None)))
  }

  /** The lookup maps hold what the collections hold for every fetched question, so joining with them is the join. */
  lemma JoinFoundIsJoin(fetched: seq<Listed<Question>>, subLookup: map<string, SubCategory>, mainLookup: map<string, MainCategory>,
                        subs: map<string, SubCategory>, mains: map<string, MainCategory>, i: int)
    requires 0 <= i < |fetched|
    requires forall id :: id in subLookup <==> id in SubIdsOf(fetched) && id in subs
    requires forall id :: id in subLookup ==> subLookup[id] == subs[id]
    requires forall m :: m in mainLookup ==> m in mains && mainLookup[m] == mains[m]
    requires forall id :: id in subLookup && subs[id].mainCategoryId in mains ==> subs[id].mainCategoryId in mainLookup
    ensures JoinFound(fetched[i], subLookup, mainLookup) == JoinOne(fetched[i], subs, mains)
  {
    var sc := fetched[i].doc.subCategoryId;
    assert SubIdsOf(fetched)[i] == sc;
    assert sc in subLookup <==> sc in subs;
  }

  /** The join loop of `getAll`, reading the lookup maps. */
  method JoinQuestions(fetched: seq<Listed<Question>>, subLookup: map<string, SubCategory>, mainLookup: map<string, MainCategory>,
                       ghost subs: map<string, SubCategory>, ghost mains: map<string, MainCategory>)
    returns (joined: seq<JoinedQuestion>)
    requires forall id :: id in subLookup <==> id in SubIdsOf(fetched) && id in subs
    requires forall id :: id in subLookup ==> subLookup[id] == subs[id]
    requires forall m :: m in mainLookup ==> m in mains && mainLookup[m] == mains[m]
    requires forall id :: id in subLookup && subs[id].mainCategoryId in mains ==> subs[id].mainCategoryId in mainLookup
    ensures joined == Join(fetched, subs, mains)
  {
    joined := [];
    var i := 0;
    while i < |fetched|
      invariant 0 <= i <= |fetched| && |joined| == i
      invariant forall j :: 0 <= j < i ==> joined[j] == JoinOne(fetched[j], subs, mains)
    {
      JoinFoundIsJoin(fetched, subLookup, mainLookup, subs, mains, i);
      joined := joined + [JoinFound(fetched[i], subLookup, mainLookup)];
      i := i + 1;
    }
  }

  /**
   * `questionsApi.getAll`: query, look up the categories, join each
   * question with what the lookup found, then filter in memory.
   */
  method GetAllQuestions(listing: seq<Listed<Question>>, subs: map<string, SubCategory>, mains: map<string, MainCategory>, f: Filters)
    returns (r: Option<seq<JoinedQuestion>>)
    ensures r == GetAllResult(listing, subs, mains, f)
  {
    var fetched := Fetch(listing, ServerQuery(f));
    var subLookup, mainLookup := LookUpCategories(fetched, subs, mains);
    var joined := JoinQuestions(fetched, subLookup, mainLookup, subs, mains);
    var narrowed := MainFilter(joined, f);
    if Present(f.search) {
      r := Search(narrowed, ToLower(f.search.value));
    } else {
      r := Some(narrowed);
    }
  }
}
