/**
 * The categories page: the spreadsheet import of main or sub-categories
 * with its accounting, the loose `is_active` coercion and its export
 * counterpart, the status toggles, the sub-category media rule on submit
 * and the defaults of a new form.
 */
module CategoriesPage {
  import opened Wrappers
  import opened JsValues
  import opened JsArrays
  import opened Firestore
  import opened CategoryApi
  import opened ImportSummary

  /** Which tab is open; it decides what an import creates and what the form submits. */
  datatype Tab = MainTab | SubTab

  /** One parsed spreadsheet row; `mainName` is only read on the sub-category tab. */
  datatype CategoryRow = CategoryRow(name: Value, mainName: Value, displayOrder: Value, isActive: Value, media: Value)

  /** Why a row is counted as an error. */
  datatype CategoryError =
    | MainMissing(mainName: Value, name: Value)
    | MediaMissing(name: Value)
    | RowThrown(error: WriteError)  // a create threw; the loop catches it

  /** The message the loop pushes onto `errors`. */
  function ErrorText(e: CategoryError): string
  {
    match e
    case MainMissing(m, n) => "Main category \"" + Text(m) + "\" not found for sub-category \"" + Text(n) + "\""
    case MediaMissing(n) => "Media URL is required for sub-category \"" + Text(n) + "\""
    case RowThrown(w) => "Row error: " + Message(w)
  }

  /** A cell read as `is_active`: only the string `'true'` and the boolean `true` count as true. */
  predicate LooseBool(v: Value)
  {
    v == Str("true") || v == Bool(true)
  }

  /** The `is_active` cell the export writes. */
  function ExportIsActive(isActive: bool): Value
  {
    Str(if isActive then "true" else "false")
  }

  /** The status that goes with an active flag. */
  function StatusFor(isActive: bool): string
  {
    if isActive then "active" else "disabled"
  }

  /** Exporting and importing back keeps the flag; no other string or number reads as true. */
  lemma IsActiveRoundTrip(isActive: bool, v: Value)
    ensures LooseBool(ExportIsActive(isActive)) == isActive
    ensures v.Str? && v.s != "true" ==> !LooseBool(v)
    ensures v.Num? || v == Null || v == Undefined ==> !LooseBool(v)
  {
  }

  /**
   * The page state the import reads: the main categories and the
   * sub-categories as last loaded (only those of the selected main
   * category when one is selected). Neither is refreshed during the loop.
   */
  datatype CategorySnapshot = CategorySnapshot(mains: seq<Listed<MainCategory>>, subs: seq<JoinedSub>)

  /** What the loop does with a row before any write. */
  datatype Plan = Reject(error: CategoryError) | Skip | InsertMain(m: NewMain) | InsertSub(s: NewSub)

  /** A row on the main-category tab: skipped when the name is listed, else created with defaults. */
  function MainRowPlan(row: CategoryRow, snap: CategorySnapshot): Plan
  {
    if Find(snap.mains, (m: Listed<MainCategory>) => m.doc.name == row.name).Some? then Skip
    else
      var active := LooseBool(row.isActive);
      InsertMain(NewMain(row.name, Or(row.displayOrder, Num(|snap.mains|)), active, StatusFor(active), Or(row.media, Null)))
  }

  /**
   * A row on the sub-category tab: its main category must be listed; an
   * existing (main category, name) pair is skipped before the media is
   * looked at; a row without media is an error.
   */
  function SubRowPlan(row: CategoryRow, snap: CategorySnapshot): Plan
  {
    match Find(snap.mains, (m: Listed<MainCategory>) => m.doc.name == row.mainName)
    case None => Reject(MainMissing(row.mainName, row.name))
    case Some(main) =>
      if Find(snap.subs, (s: JoinedSub) => s.sub.mainCategoryId == main.id && s.sub.name == row.name).Some? then Skip
      else if !Truthy(row.media) then Reject(MediaMissing(row.name))
      else InsertSub(NewSub(main.id, row.name, Or(row.displayOrder, Num(0)), LooseBool(row.isActive), row.media))
  }

  function RowPlan(tab: Tab, row: CategoryRow, snap: CategorySnapshot): Plan
  {
    match tab
    case MainTab => MainRowPlan(row, snap)
    case SubTab => SubRowPlan(row, snap)
  }

  /** Both collections. */
  datatype Stores = Stores(mains: map<string, MainCategory>, subs: map<string, SubCategory>)

  /** One iteration: the row's outcome and the collections after it. */
  function Step(st: Stores, plan: Plan, stamp: Stamp): (Outcome<CategoryError>, Stores)
  {
    match plan
    case Reject(e) => (Errored(e), st)
    case Skip => (Skipped, st)
    case InsertMain(m) =>
      (match AddMain(st.mains, m, stamp)
       case Ok(after) => (Created(stamp.id), st.(mains := after))
       case Err(w) => (Errored(RowThrown(w)), st))
    case InsertSub(s) =>
      (match AddSub(st.subs, s, stamp)
       case Ok(after) => (Created(stamp.id), st.(subs := after))
       case Err(w) => (Errored(RowThrown(w)), st))
  }

  /** One iteration of the loop over the rows of a tab, given the snapshot. */
  function RowStep(tab: Tab, snap: CategorySnapshot): (Stores, CategoryRow, Stamp) -> (Outcome<CategoryError>, Stores)
  {
    (st, row, stamp) => Step(st, RowPlan(tab, row, snap), stamp)
  }

  /** The loop over the rows, in order: every outcome and the final collections. */
  function RunImport(st: Stores, tab: Tab, rows: seq<CategoryRow>, snap: CategorySnapshot, stamps: seq<Stamp>)
    : (r: (seq<Outcome<CategoryError>>, Stores))
    requires |stamps| == |rows|
    ensures |r.0| == |rows|
  {
    Fold(RowStep(tab, snap), st, rows, stamps)
  }

  /** The ids the store hands out during the import: new in both collections, and all different. */
  predicate FreshStamps(stamps: seq<Stamp>, st: Stores)
  {
    && (forall i :: 0 <= i < |stamps| ==> stamps[i].id !in st.mains && stamps[i].id !in st.subs)
    && (forall i, j :: 0 <= i < j < |stamps| ==> stamps[i].id != stamps[j].id)
  }

  /** The loop's state after row i, from its state before it. */
  lemma UnfoldRun(st: Stores, tab: Tab, rows: seq<CategoryRow>, snap: CategorySnapshot, stamps: seq<Stamp>, i: int)
    requires |stamps| == |rows| && 0 <= i < |rows|
    ensures var prev := RunImport(st, tab, rows[..i], snap, stamps[..i]);
      var step := Step(prev.1, RowPlan(tab, rows[i], snap), stamps[i]);
      RunImport(st, tab, rows[..i + 1], snap, stamps[..i + 1]) == (prev.0 + [step.0], step.1)
  {
    FoldUnfold(RowStep(tab, snap), st, rows, stamps, i);
  }

  /** Each row's outcome is decided by its plan and the collections as the earlier rows left them. */
  lemma OutcomeOfRow(st: Stores, tab: Tab, rows: seq<CategoryRow>, snap: CategorySnapshot, stamps: seq<Stamp>, k: int)
    requires |stamps| == |rows| && 0 <= k < |rows|
    ensures RunImport(st, tab, rows, snap, stamps).0[k]
         == Step(RunImport(st, tab, rows[..k], snap, stamps[..k]).1, RowPlan(tab, rows[k], snap), stamps[k]).0
  {
    FoldOutcome(RowStep(tab, snap), st, rows, stamps, k);
  }

  /** A step with a fresh id keeps every stored document. */
  lemma StepKeeps(st: Stores, plan: Plan, stamp: Stamp)
    requires stamp.id !in st.mains && stamp.id !in st.subs
    ensures var after := Step(st, plan, stamp).1;
      && (forall id :: id in st.mains ==> id in after.mains && after.mains[id] == st.mains[id])
      && (forall id :: id in st.subs ==> id in after.subs && after.subs[id] == st.subs[id])
  {
  }

  /** A step adds at most its own id, to either collection. */
  lemma StepKeys(st: Stores, plan: Plan, stamp: Stamp)
    ensures var after := Step(st, plan, stamp).1;
      && after.mains.Keys <= st.mains.Keys + {stamp.id}
      && after.subs.Keys <= st.subs.Keys + {stamp.id}
  {
  }

  /** Every id in the collections after the import was there before or was handed to one of the rows. */
  lemma {:induction false} RunImportIds(st: Stores, tab: Tab, rows: seq<CategoryRow>, snap: CategorySnapshot, stamps: seq<Stamp>)
    requires |stamps| == |rows|
    ensures var final := RunImport(st, tab, rows, snap, stamps).1;
      forall id :: id in final.mains || id in final.subs ==>
        id in st.mains || id in st.subs || exists j :: 0 <= j < |stamps| && stamps[j].id == id
    decreases |rows|
  {
    if rows != [] {
      var n := |rows| - 1;
      UnfoldRun(st, tab, rows, snap, stamps, n);
      assert rows[..n + 1] == rows && stamps[..n + 1] == stamps;
      RunImportIds(st, tab, rows[..n], snap, stamps[..n]);
      var prev := RunImport(st, tab, rows[..n], snap, stamps[..n]).1;
      StepKeys(prev, RowPlan(tab, rows[n], snap), stamps[n]);
      var final := RunImport(st, tab, rows, snap, stamps).1;
      forall id | id in final.mains || id in final.subs
        ensures id in st.mains || id in st.subs || exists j :: 0 <= j < |stamps| && stamps[j].id == id
      {
        if id !in prev.mains && id !in prev.subs {
          assert stamps[n].id == id;
        } else if id !in st.mains && id !in st.subs {
          var j :| 0 <= j < |stamps[..n]| && stamps[..n][j].id == id;
          assert stamps[j].id == id;
        }
      }
    }
  }

  /** With fresh ids, the collections during the import only grow: each document written stays as written. */
  lemma {:induction false} RunImportExtends(st: Stores, tab: Tab, rows: seq<CategoryRow>, snap: CategorySnapshot, stamps: seq<Stamp>, m: int)
    requires |stamps| == |rows| && FreshStamps(stamps, st) && 0 <= m <= |rows|
    ensures var early := RunImport(st, tab, rows[..m], snap, stamps[..m]).1;
      var final := RunImport(st, tab, rows, snap, stamps).1;
      && (forall id :: id in early.mains ==> id in final.mains && final.mains[id] == early.mains[id])
      && (forall id :: id in early.subs ==> id in final.subs && final.subs[id] == early.subs[id])
    decreases |rows|
  {
    if m < |rows| {
      var n := |rows| - 1;
      UnfoldRun(st, tab, rows, snap, stamps, n);
      assert rows[..n + 1] == rows && stamps[..n + 1] == stamps;
      assert FreshStamps(stamps[..n], st);
      RunImportExtends(st, tab, rows[..n], snap, stamps[..n], m);
      assert rows[..n][..m] == rows[..m] && stamps[..n][..m] == stamps[..m];
      FreshAt(st, tab, rows, snap, stamps, n);
      StepKeeps(RunImport(st, tab, rows[..n], snap, stamps[..n]).1, RowPlan(tab, rows[n], snap), stamps[n]);
    } else {
      assert rows[..m] == rows && stamps[..m] == stamps;
    }
  }

  /** The id row i receives is in neither collection yet. */
  lemma FreshAt(st: Stores, tab: Tab, rows: seq<CategoryRow>, snap: CategorySnapshot, stamps: seq<Stamp>, i: int)
    requires |stamps| == |rows| && FreshStamps(stamps, st) && 0 <= i < |rows|
    ensures var prev := RunImport(st, tab, rows[..i], snap, stamps[..i]).1;
      stamps[i].id !in prev.mains && stamps[i].id !in prev.subs
  {
    RunImportIds(st, tab, rows[..i], snap, stamps[..i]);
    assert forall j :: 0 <= j < i ==> stamps[..i][j].id != stamps[i].id;
  }

  /** After the loop the three counters add up to the number of rows, and there is one message per error. */
  lemma ImportAccounting(st: Stores, tab: Tab, rows: seq<CategoryRow>, snap: CategorySnapshot, stamps: seq<Stamp>)
    requires |stamps| == |rows|
    ensures var outs := RunImport(st, tab, rows, snap, stamps).0;
      && CreatedCount(outs) + SkippedCount(outs) + ErroredCount(outs) == |rows|
      && |ErrorMessages(outs, ErrorText)| == ErroredCount(outs)
  {
    var outs := RunImport(st, tab, rows, snap, stamps).0;
    CountsAddUp(outs);
    MessagesMatchErrorCount(outs, ErrorText);
  }

  /**
   * On the main tab a row is skipped exactly when a listed main category
   * has exactly its name; with a defined name it is otherwise always
   * created, whatever the collections hold by then.
   */
  lemma MainRowOutcome(st: Stores, rows: seq<CategoryRow>, snap: CategorySnapshot, stamps: seq<Stamp>, k: int)
    requires |stamps| == |rows| && 0 <= k < |rows|
    ensures RunImport(st, MainTab, rows, snap, stamps).0[k].Skipped?
        <==> exists i :: 0 <= i < |snap.mains| && snap.mains[i].doc.name == rows[k].name
    ensures rows[k].name != Undefined && (forall i :: 0 <= i < |snap.mains| ==> snap.mains[i].doc.name != rows[k].name) ==>
      RunImport(st, MainTab, rows, snap, stamps).0[k] == Created(stamps[k].id)
  {
    OutcomeOfRow(st, MainTab, rows, snap, stamps, k);
  }

  /**
   * Two main-category rows of one batch with the same new name are both
   * created: the collection then holds two documents with that name.
   */
  lemma SameNameRowsBothCreated(st: Stores, rows: seq<CategoryRow>, snap: CategorySnapshot, stamps: seq<Stamp>, j: int, k: int)
    requires |stamps| == |rows| && FreshStamps(stamps, st) && 0 <= j < k < |rows|
    requires rows[j].name == rows[k].name && rows[k].name != Undefined
    requires forall i :: 0 <= i < |snap.mains| ==> snap.mains[i].doc.name != rows[k].name
    ensures var run := RunImport(st, MainTab, rows, snap, stamps);
      && run.0[j] == Created(stamps[j].id) && run.0[k] == Created(stamps[k].id)
      && stamps[j].id != stamps[k].id
      && stamps[j].id in run.1.mains && stamps[k].id in run.1.mains
      && run.1.mains[stamps[j].id].name == rows[k].name && run.1.mains[stamps[k].id].name == rows[k].name
  {
    MainRowOutcome(st, rows, snap, stamps, j);
    MainRowOutcome(st, rows, snap, stamps, k);
    CreatedMainStays(st, rows, snap, stamps, j);
    CreatedMainStays(st, rows, snap, stamps, k);
  }

  /** A main category the import created is still in the collection at the end, with the row's name. */
  lemma CreatedMainStays(st: Stores, rows: seq<CategoryRow>, snap: CategorySnapshot, stamps: seq<Stamp>, i: int)
    requires |stamps| == |rows| && FreshStamps(stamps, st) && 0 <= i < |rows|
    requires MainRowPlan(rows[i], snap).InsertMain?
    requires RunImport(st, MainTab, rows, snap, stamps).0[i].Created?
    ensures var final := RunImport(st, MainTab, rows, snap, stamps).1;
      stamps[i].id in final.mains && final.mains[stamps[i].id].name == rows[i].name
  {
    var m := MainRowPlan(rows[i], snap).m;
    OutcomeOfRow(st, MainTab, rows, snap, stamps, i);
    UnfoldRun(st, MainTab, rows, snap, stamps, i);
    var prev := RunImport(st, MainTab, rows[..i], snap, stamps[..i]).1;
    assert AddMain(prev.mains, m, stamps[i]).Ok?;
    var after := RunImport(st, MainTab, rows[..i + 1], snap, stamps[..i + 1]).1;
    assert after.mains == AddMain(prev.mains, m, stamps[i]).value;
    assert stamps[i].id in after.mains && after.mains[stamps[i].id].name == rows[i].name;
    RunImportExtends(st, MainTab, rows, snap, stamps, i + 1);
  }

  /**
   * What a created main category carries: the row's name, its display
   * order or else the listed count (so 0 and an empty cell give the same
   * order), the coerced flag with the status that matches it, and its media
   * or null.
   */
  lemma MainRowFields(row: CategoryRow, snap: CategorySnapshot)
    requires MainRowPlan(row, snap).InsertMain?
    ensures var m := MainRowPlan(row, snap).m;
      && m.name == row.name
      && m.displayOrder == (if Truthy(row.displayOrder) then row.displayOrder else Num(|snap.mains|))
      && m.isActive == LooseBool(row.isActive)
      && (m.status == "active" <==> m.isActive)
      && m.media == (if Truthy(row.media) then row.media else Null)
    ensures MainRowPlan(row.(displayOrder := Num(0)), snap) == MainRowPlan(row.(displayOrder := Undefined), snap)
  {
  }

  /** A main category exported and imported into a page that does not list its name comes back with the same flag and status. */
  lemma ExportImportKeepsFlag(c: MainCategory, snap: CategorySnapshot)
    requires forall i :: 0 <= i < |snap.mains| ==> snap.mains[i].doc.name != c.name
    requires c.status == StatusFor(c.isActive)
    ensures var row := CategoryRow(c.name, Undefined, c.displayOrder, ExportIsActive(c.isActive), c.media);
      && MainRowPlan(row, snap).InsertMain?
      && MainRowPlan(row, snap).m.isActive == c.isActive
      && MainRowPlan(row, snap).m.status == c.status
  {
  }

  /**
   * The order of the checks on a sub-category row: an unknown main name is
   * an error; an existing (main category, name) pair is skipped even without
   * media; otherwise missing media is an error; otherwise the sub-category
   * is created under the resolved main category.
   */
  lemma SubRowChecks(row: CategoryRow, snap: CategorySnapshot)
    ensures (forall i :: 0 <= i < |snap.mains| ==> snap.mains[i].doc.name != row.mainName) ==>
      SubRowPlan(row, snap) == Reject(MainMissing(row.mainName, row.name))
    ensures var main := Find(snap.mains, (m: Listed<MainCategory>) => m.doc.name == row.mainName);
      main.Some? ==>
        && ((exists i :: 0 <= i < |snap.subs| && snap.subs[i].sub.mainCategoryId == main.value.id && snap.subs[i].sub.name == row.name)
              ==> SubRowPlan(row, snap) == Skip)
        && ((forall i :: 0 <= i < |snap.subs| ==> !(snap.subs[i].sub.mainCategoryId == main.value.id && snap.subs[i].sub.name == row.name))
              ==> SubRowPlan(row, snap) == (if !Truthy(row.media) then Reject(MediaMissing(row.name))
                                           else InsertSub(NewSub(main.value.id, row.name, Or(row.displayOrder, Num(0)),
                                                                 LooseBool(row.isActive), row.media))))
  {
  }

  /**
   * With a main category selected the page lists only its sub-categories,
   * so a row for another main category is never skipped: with media it is
   * created again even when that sub-category already exists.
   */
  lemma FilteredSubsNeverSkipOthers(row: CategoryRow, snap: CategorySnapshot, selected: string)
    requires forall i :: 0 <= i < |snap.subs| ==> snap.subs[i].sub.mainCategoryId == selected
    requires Find(snap.mains, (m: Listed<MainCategory>) => m.doc.name == row.mainName).Some?
    requires Find(snap.mains, (m: Listed<MainCategory>) => m.doc.name == row.mainName).value.id != selected
    requires Truthy(row.media)
    ensures SubRowPlan(row, snap).InsertSub?
  {
  }

  /** One iteration's write: nothing, or the create the plan calls for. */
  method ApplyPlan(store: CategoryStore, plan: Plan, stamp: Stamp) returns (o: Outcome<CategoryError>)
    requires stamp.id !in store.mains && stamp.id !in store.subs
    modifies store
    ensures (o, Stores(store.mains, store.subs)) == Step(Stores(old(store.mains), old(store.subs)), plan, stamp)
  {
    match plan {
      case Reject(e) =>
        o := Errored(e);
      case Skip =>
        o := Skipped;
      case InsertMain(m) =>
        var r := store.CreateMain(m, stamp);
        o := if r.Ok? then Created(stamp.id) else Errored(RowThrown(r.error));
      case InsertSub(s) =>
        var r := store.CreateSub(s, stamp);
        o := if r.Ok? then Created(stamp.id) else Errored(RowThrown(r.error));
    }
  }

  /**
   * `handleImportExcel`: the loop over the parsed rows on the open tab,
   * counting created, skipped and errored rows and collecting the
   * messages, then the closing summary.
   */
  method ImportCategories(store: CategoryStore, tab: Tab, rows: seq<CategoryRow>, snap: CategorySnapshot, stamps: seq<Stamp>)
    returns (created: nat, skipped: nat, errorCount: nat, errors: seq<string>, message: string)
    requires |stamps| == |rows| && FreshStamps(stamps, Stores(store.mains, store.subs))
    modifies store
    ensures var run := RunImport(Stores(old(store.mains), old(store.subs)), tab, rows, snap, stamps);
      && store.mains == run.1.mains && store.subs == run.1.subs
      && created == CreatedCount(run.0) && skipped == SkippedCount(run.0) && errorCount == ErroredCount(run.0)
      && errors == ErrorMessages(run.0, ErrorText)
    ensures message == SummaryMessage(created, skipped, errorCount, errors)
  {
    ghost var st0 := Stores(store.mains, store.subs);
    created, skipped, errorCount, errors := 0, 0, 0, [];
    var i := 0;
    while i < |rows|
      invariant 0 <= i <= |rows|
      invariant var run := RunImport(st0, tab, rows[..i], snap, stamps[..i]);
        && store.mains == run.1.mains && store.subs == run.1.subs
        && created == CreatedCount(run.0) && skipped == SkippedCount(run.0) && errorCount == ErroredCount(run.0)
        && errors == ErrorMessages(run.0, ErrorText)
    {
      ghost var prev := RunImport(st0, tab, rows[..i], snap, stamps[..i]);
      UnfoldRun(st0, tab, rows, snap, stamps, i);
      FreshAt(st0, tab, rows, snap, stamps, i);
      var o := ApplyPlan(store, RowPlan(tab, rows[i], snap), stamps[i]);
      ghost var next := RunImport(st0, tab, rows[..i + 1], snap, stamps[..i + 1]);
      assert next.0 == prev.0 + [o] && next.1 == Stores(store.mains, store.subs);
      ghost var before := (created, skipped, errorCount, errors);
      match o {
        case Created(_) =>
          created := created + 1;
        case Skipped =>
          skipped := skipped + 1;
        case Errored(e) =>
          errors := errors + [ErrorText(e)];
          errorCount := errorCount + 1;
      }
      TallyKept(prev.0, o, ErrorText, before.0, before.1, before.2, before.3, created, skipped, errorCount, errors);
      i := i + 1;
    }
    assert rows[..i] == rows && stamps[..i] == stamps;
    message := SummaryMessage(created, skipped, errorCount, errors);
  }

  /** The patch `handleToggleStatus` sends for a main category: the flag flipped and the status following it. */
  function MainTogglePatch(c: MainCategory): MainPatch
  {
    MainPatch(None, None, Some(!c.isActive), Some(if c.isActive then "disabled" else "active"), None)
  }

  /** The patch `handleToggleStatus` sends for a sub-category: the flag flipped, nothing else. */
  function SubTogglePatch(c: SubCategory): SubPatch
  {
    SubPatch(None, None, None, Some(!c.isActive), None)
  }

  /**
   * Toggling a listed main category fails only when its document is gone;
   * otherwise it flips the flag, sets the status that matches the new
   * flag, and changes nothing else but `updated_at`.
   */
  lemma MainToggleEffect(mains: map<string, MainCategory>, id: string, c: MainCategory, now: int)
    ensures var r := PatchMain(mains, id, MainTogglePatch(c), now);
      && (r.Ok? <==> id in mains)
      && (r.Ok? ==> r.value == mains[id := mains[id].(isActive := !c.isActive, status := StatusFor(!c.isActive), updatedAt := now)])
  {
    var p := MainTogglePatch(c);
    PresentValuesDefined([("name_ar", p.name), ("display_order", p.displayOrder), ("media_url", p.media)]);
  }

  /** Toggling a listed sub-category flips only its flag (and sets `updated_at`). */
  lemma SubToggleEffect(subs: map<string, SubCategory>, id: string, c: SubCategory, now: int)
    ensures var r := PatchSub(subs, id, SubTogglePatch(c), now);
      && (r.Ok? <==> id in subs)
      && (r.Ok? ==> r.value == subs[id := subs[id].(isActive := !c.isActive, updatedAt := now)])
  {
    var p := SubTogglePatch(c);
    PresentValuesDefined([("name_ar", p.name), ("display_order", p.displayOrder), ("media_url", p.media)]);
  }

  /** Toggling a main category twice, from the page's fresh copy each time, restores flag and status. */
  lemma MainToggleTwice(mains: map<string, MainCategory>, id: string, now1: int, now2: int)
    requires id in mains && mains[id].status == StatusFor(mains[id].isActive)
    ensures PatchMain(mains, id, MainTogglePatch(mains[id]), now1).Ok?
    ensures var once := PatchMain(mains, id, MainTogglePatch(mains[id]), now1).value;
      && id in once && PatchMain(once, id, MainTogglePatch(once[id]), now2).Ok?
      && var twice := PatchMain(once, id, MainTogglePatch(once[id]), now2).value;
         twice[id].isActive == mains[id].isActive && twice[id].status == mains[id].status
  {
    MainToggleEffect(mains, id, mains[id], now1);
    var once := PatchMain(mains, id, MainTogglePatch(mains[id]), now1).value;
    MainToggleEffect(once, id, once[id], now2);
  }

  /** `handleToggleStatus` on the main-category tab; a failure only raises an alert. */
  method ToggleMain(store: CategoryStore, id: string, c: MainCategory, now: int)
    modifies store
    ensures store.subs == old(store.subs)
    ensures id in old(store.mains) ==>
      store.mains == old(store.mains)[id := old(store.mains)[id].(isActive := !c.isActive, status := StatusFor(!c.isActive), updatedAt := now)]
    ensures id !in old(store.mains) ==> store.mains == old(store.mains)
  {
    MainToggleEffect(store.mains, id, c, now);
    var _ := store.UpdateMain(id, MainTogglePatch(c), now);
  }

  /** `handleToggleStatus` on the sub-category tab. */
  method ToggleSub(store: CategoryStore, id: string, c: SubCategory, now: int)
    modifies store
    ensures store.mains == old(store.mains)
    ensures id in old(store.subs) ==> store.subs == old(store.subs)[id := old(store.subs)[id].(isActive := !c.isActive, updatedAt := now)]
    ensures id !in old(store.subs) ==> store.subs == old(store.subs)
  {
    SubToggleEffect(store.subs, id, c, now);
    var _ := store.UpdateSub(id, SubTogglePatch(c), now);
  }

  /** The main-category form. */
  datatype MainForm = MainForm(name: Value, media: Value, displayOrder: Value, isActive: bool, status: string)

  /** The sub-category form. */
  datatype SubForm = SubForm(mainCategoryId: string, name: Value, media: Value, displayOrder: Value, isActive: bool)

  /** How a submit ends: refused by the page, saved, or refused by the store. */
  datatype SubmitResult = Aborted(alert: string) | Saved(id: string) | Failed(error: WriteError)

  /** The defaults of the form for a new main category: placed after the listed ones, active. */
  function NewMainForm(mains: seq<Listed<MainCategory>>): MainForm
  {
    MainForm(Str(""), Null, Num(|mains|), true, "active")
  }

  /** The defaults of the form for a new sub-category. */
  function NewSubForm(selected: string, mains: seq<Listed<MainCategory>>, subs: seq<JoinedSub>): SubForm
  {
    var first := if |mains| > 0 then mains[0].id else "";
    SubForm(if selected != "" then selected else first, Str(""), Str(""), Num(|subs|), true)
  }

  /**
   * A new main category's form is active with the matching status and
   * ordered after the listed ones; a new sub-category's form belongs to the
   * selected main category, else to the first listed one, else to none, and
   * has no media yet.
   */
  lemma NewFormDefaults(selected: string, mains: seq<Listed<MainCategory>>, subs: seq<JoinedSub>)
    ensures var f := NewMainForm(mains);
      f.isActive && f.status == StatusFor(f.isActive) && f.displayOrder == Num(|mains|) && f.media == Null
    ensures var f := NewSubForm(selected, mains, subs);
      && (selected != "" ==> f.mainCategoryId == selected)
      && (selected == "" && |mains| > 0 ==> f.mainCategoryId == mains[0].id)
      && (selected == "" && mains == [] ==> f.mainCategoryId == "")
      && !Truthy(f.media) && f.isActive && f.displayOrder == Num(|subs|)
  {
  }

  /** `handleSubmit` on the main-category tab: update the edited document, or create one. */
  method SubmitMain(store: CategoryStore, editingId: Option<string>, form: MainForm, stamp: Stamp) returns (r: SubmitResult)
    requires stamp.id !in store.mains
    modifies store
    ensures store.subs == old(store.subs)
    ensures editingId.None? ==>
      var w := AddMain(old(store.mains), NewMain(form.name, form.displayOrder, form.isActive, form.status, form.media), stamp);
      (if w.Ok? then r == Saved(stamp.id) && store.mains == w.value else r == Failed(w.error) && store.mains == old(store.mains))
    ensures editingId.Some? ==>
      var w := PatchMain(old(store.mains), editingId.value,
                         MainPatch(Some(form.name), Some(form.displayOrder), Some(form.isActive), Some(form.status), Some(form.media)), stamp.now);
      (if w.Ok? then r == Saved(editingId.value) && store.mains == w.value else r == Failed(w.error) && store.mains == old(store.mains))
  {
    var w;
    if editingId.Some? {
      w := store.UpdateMain(editingId.value, MainPatch(Some(form.name), Some(form.displayOrder), Some(form.isActive), Some(form.status), Some(form.media)), stamp.now);
    } else {
      w := store.CreateMain(NewMain(form.name, form.displayOrder, form.isActive, form.status, form.media), stamp);
    }
    r := if w.Ok? then Saved(w.value) else Failed(w.error);
  }

  /** `handleSubmit` on the sub-category tab: without media nothing is written. */
  method SubmitSub(store: CategoryStore, editingId: Option<string>, form: SubForm, stamp: Stamp) returns (r: SubmitResult)
    requires stamp.id !in store.subs
    modifies store
    ensures store.mains == old(store.mains)
    ensures !Truthy(form.media) ==> r == Aborted("Sub-category media is required") && store.subs == old(store.subs)
    ensures Truthy(form.media) && editingId.None? ==>
      var w := AddSub(old(store.subs), NewSub(form.mainCategoryId, form.name, form.displayOrder, form.isActive, form.media), stamp);
      (if w.Ok? then r == Saved(stamp.id) && store.subs == w.value else r == Failed(w.error) && store.subs == old(store.subs))
    ensures Truthy(form.media) && editingId.Some? ==>
      var w := PatchSub(old(store.subs), editingId.value,
                        SubPatch(Some(form.mainCategoryId), Some(form.name), Some(form.displayOrder), Some(form.isActive), Some(form.media)), stamp.now);
      (if w.Ok? then r == Saved(editingId.value) && store.subs == w.value else r == Failed(w.error) && store.subs == old(store.subs))
  {
    if !Truthy(form.media) {
      return Aborted("Sub-category media is required");
    }
    var w;
    if editingId.Some? {
      w := store.UpdateSub(editingId.value, SubPatch(Some(form.mainCategoryId), Some(form.name), Some(form.displayOrder), Some(form.isActive), Some(form.media)), stamp.now);
    } else {
      w := store.CreateSub(NewSub(form.mainCategoryId, form.name, form.displayOrder, form.isActive, form.media), stamp);
    }
    r := if w.Ok? then Saved(w.value) else Failed(w.error);
  }
}
