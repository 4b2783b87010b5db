/**
 * The `main_categories` and `sub_categories` collections and the API over
 * them: create and update are plain writes with no uniqueness check, and
 * the sub-category listing joins each sub-category to its main category's
 * name.
 */
module CategoryApi {
  import opened Wrappers
  import opened JsValues
  import opened JsArrays
  import opened Firestore

  /**
   * A main category document. Fields an import copies from a spreadsheet
   * cell keep the cell's JavaScript value.
   */
  datatype MainCategory = MainCategory(
    name: Value, displayOrder: Value, isActive: bool, status: string, media: Value,
    createdAt: int, updatedAt: int)

  /** The data `mainCategoriesApi.create` receives. */
  datatype NewMain = NewMain(name: Value, displayOrder: Value, isActive: bool, status: string, media: Value)

  /** A `Partial<MainCategory>`: `None` is a field the update leaves out. */
  datatype MainPatch = MainPatch(
    name: Option<Value>, displayOrder: Option<Value>, isActive: Option<bool>,
    status: Option<string>, media: Option<Value>)

  /** A sub-category document; its main category reference is always an id. */
  datatype SubCategory = SubCategory(
    mainCategoryId: string, name: Value, displayOrder: Value, isActive: bool, media: Value,
    createdAt: int, updatedAt: int)

  /** The data `subCategoriesApi.create` receives. */
  datatype NewSub = NewSub(mainCategoryId: string, name: Value, displayOrder: Value, isActive: bool, media: Value)

  /** A `Partial<SubCategory>`. */
  datatype SubPatch = SubPatch(
    mainCategoryId: Option<string>, name: Option<Value>, displayOrder: Option<Value>,
    isActive: Option<bool>, media: Option<Value>)

  /** A sub-category as `subCategoriesApi.getAll` returns it, with its main category's name when that exists. */
  datatype JoinedSub = JoinedSub(id: string, sub: SubCategory, mainName: Option<Value>)

  /** `mainCategoriesApi.create`: one new document, whatever the existing names. */
  function AddMain(mains: map<string, MainCategory>, m: NewMain, stamp: Stamp): Result<map<string, MainCategory>, WriteError>
  {
    match UndefinedIn([("name_ar", m.name), ("display_order", m.displayOrder), ("media_url", m.media)])
    case Some(f) => Err(UndefinedField(f))
    case None =>
      Ok(mains[stamp.id := MainCategory(m.name, m.displayOrder, m.isActive, m.status, m.media, stamp.now, stamp.now)])
  }

  /** The main category after a patch: patched fields replaced, `updated_at` set. */
  function ApplyMainPatch(c: MainCategory, p: MainPatch, now: int): MainCategory
  {
    MainCategory(Patched(p.name, c.name), Patched(p.displayOrder, c.displayOrder), Patched(p.isActive, c.isActive),
                 Patched(p.status, c.status), Patched(p.media, c.media), c.createdAt, now)
  }

  /** `mainCategoriesApi.update`. */
  function PatchMain(mains: map<string, MainCategory>, id: string, p: MainPatch, now: int): Result<map<string, MainCategory>, WriteError>
  {
    match UndefinedIn(PresentValues([("name_ar", p.name), ("display_order", p.displayOrder), ("media_url", p.media)]))
    case Some(f) => Err(UndefinedField(f))
    case None =>
      if id !in mains then Err(NotFound(id)) else Ok(mains[id := ApplyMainPatch(mains[id], p, now)])
  }

  /** `subCategoriesApi.create`: one new document, whatever the existing names. */
  function AddSub(subs: map<string, SubCategory>, s: NewSub, stamp: Stamp): Result<map<string, SubCategory>, WriteError>
  {
    match UndefinedIn([("name_ar", s.name), ("display_order", s.displayOrder), ("media_url", s.media)])
    case Some(f) => Err(UndefinedField(f))
    case None =>
      Ok(subs[stamp.id := SubCategory(s.mainCategoryId, s.name, s.displayOrder, s.isActive, s.media, stamp.now, stamp.now)])
  }

  /** The sub-category after a patch: patched fields replaced, `updated_at` set. */
  function ApplySubPatch(c: SubCategory, p: SubPatch, now: int): SubCategory
  {
    SubCategory(Patched(p.mainCategoryId, c.mainCategoryId), Patched(p.name, c.name), Patched(p.displayOrder, c.displayOrder),
                Patched(p.isActive, c.isActive), Patched(p.media, c.media), c.createdAt, now)
  }

  /** `subCategoriesApi.update`. */
  function PatchSub(subs: map<string, SubCategory>, id: string, p: SubPatch, now: int): Result<map<string, SubCategory>, WriteError>
  {
    match UndefinedIn(PresentValues([("name_ar", p.name), ("display_order", p.displayOrder), ("media_url", p.media)]))
    case Some(f) => Err(UndefinedField(f))
    case None =>
      if id !in subs then Err(NotFound(id)) else Ok(subs[id := ApplySubPatch(subs[id], p, now)])
  }

  /**
   * Creating a main category never looks at the names already stored: with
   * a defined name it adds exactly one document carrying the given fields,
   * even when another main category has the same name.
   */
  lemma AddMainHasNoGuard(mains: map<string, MainCategory>, m: NewMain, stamp: Stamp)
    requires stamp.id !in mains
    requires m.name != Undefined && m.displayOrder != Undefined && m.media != Undefined
    ensures AddMain(mains, m, stamp).Ok?
    ensures var after := AddMain(mains, m, stamp).value;
      && after.Keys == mains.Keys + {stamp.id}
      && |after| == |mains| + 1
      && (forall id :: id in mains ==> after[id] == mains[id])
      && after[stamp.id].name == m.name && after[stamp.id].isActive == m.isActive
      && after[stamp.id].status == m.status && after[stamp.id].createdAt == stamp.now
  {
  }

  /** Creating a main category fails exactly when one of its values is `undefined`, and then writes nothing. */
  lemma AddMainFailsOnlyOnUndefined(mains: map<string, MainCategory>, m: NewMain, stamp: Stamp)
    ensures AddMain(mains, m, stamp).Err? <==> m.name == Undefined || m.displayOrder == Undefined || m.media == Undefined
  {
    var fields := [("name_ar", m.name), ("display_order", m.displayOrder), ("media_url", m.media)];
    assert fields[0].1 == m.name && fields[1].1 == m.displayOrder && fields[2].1 == m.media;
  }

  /**
   * An update touches one document: its patched fields take the patch's
   * values, every other field but `updated_at` keeps its value, and every
   * other document is unchanged.
   */
  lemma PatchMainFrame(mains: map<string, MainCategory>, id: string, p: MainPatch, now: int)
    requires PatchMain(mains, id, p, now).Ok?
    ensures id in mains
    ensures var after := PatchMain(mains, id, p, now).value;
      && after.Keys == mains.Keys
      && (forall other :: other in mains && other != id ==> after[other] == mains[other])
      && after[id].isActive == (if p.isActive.Some? then p.isActive.value else mains[id].isActive)
      && after[id].status == (if p.status.Some? then p.status.value else mains[id].status)
      && after[id].name == (if p.name.Some? then p.name.value else mains[id].name)
      && after[id].displayOrder == (if p.displayOrder.Some? then p.displayOrder.value else mains[id].displayOrder)
      && after[id].media == (if p.media.Some? then p.media.value else mains[id].media)
      && after[id].createdAt == mains[id].createdAt && after[id].updatedAt == now
  {
  }

  /** The same frame for sub-categories. */
  lemma PatchSubFrame(subs: map<string, SubCategory>, id: string, p: SubPatch, now: int)
    requires PatchSub(subs, id, p, now).Ok?
    ensures id in subs
    ensures var after := PatchSub(subs, id, p, now).value;
      && after.Keys == subs.Keys
      && (forall other :: other in subs && other != id ==> after[other] == subs[other])
      && after[id].isActive == (if p.isActive.Some? then p.isActive.value else subs[id].isActive)
      && after[id].mainCategoryId == (if p.mainCategoryId.Some? then p.mainCategoryId.value else subs[id].mainCategoryId)
      && after[id].name == (if p.name.Some? then p.name.value else subs[id].name)
      && after[id].media == (if p.media.Some? then p.media.value else subs[id].media)
      && after[id].displayOrder == (if p.displayOrder.Some? then p.displayOrder.value else subs[id].displayOrder)
      && after[id].createdAt == subs[id].createdAt && after[id].updatedAt == now
  {
  }

  /** The server-side part of `subCategoriesApi.getAll`: all documents, or those of one main category. */
  function SubsQuery(listing: seq<Listed<SubCategory>>, mainCategoryId: string): seq<Listed<SubCategory>>
  {
    if mainCategoryId != "" then Filter(listing, (d: Listed<SubCategory>) => d.doc.mainCategoryId == mainCategoryId)
    else listing
  }

  /** With a main category id, every listed sub-category belongs to it, and every one of its documents is listed. */
  lemma SubsQueryNarrows(listing: seq<Listed<SubCategory>>, mainCategoryId: string)
    requires mainCategoryId != ""
    ensures forall d :: d in SubsQuery(listing, mainCategoryId) <==> d in listing && d.doc.mainCategoryId == mainCategoryId
  {
  }

  /** The main-category ids the listed sub-categories refer to. */
  function MainIdsOf(fetched: seq<Listed<SubCategory>>): (ids: seq<string>)
    ensures |ids| == |fetched|
    ensures forall i :: 0 <= i < |fetched| ==> ids[i] == fetched[i].doc.mainCategoryId
  {
    if fetched == [] then [] else [fetched[0].doc.mainCategoryId] + MainIdsOf(fetched[1..])
  }

  /** Look up each distinct main-category id once; keep the documents that exist. */
  method LookUpMains(ids: seq<string>, mains: map<string, MainCategory>) returns (found: map<string, MainCategory>)
    ensures forall id :: id in found <==> id in ids && id in mains
    ensures forall id :: id in found ==> found[id] == mains[id]
  {
    found := map[];
    var k := 0;
    while k < |ids|
      invariant 0 <= k <= |ids|
      invariant forall id :: id in found <==> id in ids[..k] && id in mains
      invariant forall id :: id in found ==> found[id] == mains[id]
    {
      var id := ids[k];
      if id in mains {
        found := found[id := mains[id]];
      }
      assert ids[..k + 1] == ids[..k] + [id];
      k := k + 1;
    }
    assert ids[..k] == ids;
  }

  /** Attach to each listed sub-category the name of its main category, when the lookup found it. */
  method JoinSubs(fetched: seq<Listed<SubCategory>>, mains: map<string, MainCategory>, found: map<string, MainCategory>)
    returns (r: seq<JoinedSub>)
    requires forall i :: 0 <= i < |fetched| ==> (fetched[i].doc.mainCategoryId in found <==> fetched[i].doc.mainCategoryId in mains)
    requires forall id :: id in found ==> id in mains && found[id] == mains[id]
    ensures |r| == |fetched|
    ensures forall i :: 0 <= i < |r| ==>
           && r[i].id == fetched[i].id && r[i].sub == fetched[i].doc
           && r[i].mainName == (if fetched[i].doc.mainCategoryId in mains
                                then Some(mains[fetched[i].doc.mainCategoryId].name) else None)
  {
    r := [];
    var i := 0;
    while i < |fetched|
      invariant 0 <= i <= |fetched| && |r| == i
      invariant forall j :: 0 <= j < i ==>
           && r[j].id == fetched[j].id && r[j].sub == fetched[j].doc
           && r[j].mainName == (if fetched[j].doc.mainCategoryId in mains
                                then Some(mains[fetched[j].doc.mainCategoryId].name) else None)
    {
      var sc := fetched[i].doc;
      var mainName := if sc.mainCategoryId in found then Some(found[sc.mainCategoryId].name) else None;
      r := r + [JoinedSub(fetched[i].id, sc, mainName)];
      i := i + 1;
    }
  }

  /**
   * `subCategoriesApi.getAll`: list the sub-categories (in the listing's
   * order, narrowed to one main category when its id is given), look up
   * each distinct main category once, and attach its name when its
   * document exists.
   */
  method GetAllSubs(listing: seq<Listed<SubCategory>>, mains: map<string, MainCategory>, mainCategoryId: string)
    returns (r: seq<JoinedSub>)
    ensures var fetched := SubsQuery(listing, mainCategoryId);
      && |r| == |fetched|
      && forall i :: 0 <= i < |r| ==>
           && r[i].id == fetched[i].id && r[i].sub == fetched[i].doc
           && r[i].mainName == (if fetched[i].doc.mainCategoryId in mains
                                then Some(mains[fetched[i].doc.mainCategoryId].name) else None)
  {
    var fetched := SubsQuery(listing, mainCategoryId);
    var ids := Distinct(MainIdsOf(fetched));
    var found := LookUpMains(ids, mains);
    forall i | 0 <= i < |fetched|
      ensures fetched[i].doc.mainCategoryId in found <==> fetched[i].doc.mainCategoryId in mains
    {
      assert MainIdsOf(fetched)[i] == fetched[i].doc.mainCategoryId;
    }
    r := JoinSubs(fetched, mains, found);
  }

  /** The two collections, updated in place by the API's writes. */
  class CategoryStore {
    var mains: map<string, MainCategory>
    var subs: map<string, SubCategory>

    constructor (mains0: map<string, MainCategory>, subs0: map<string, SubCategory>)
      ensures mains == mains0 && subs == subs0
    {
      mains := mains0;
      subs := subs0;
    }

    /** `mainCategoriesApi.create`. */
    method CreateMain(m: NewMain, stamp: Stamp) returns (r: Result<string, WriteError>)
      requires stamp.id !in mains
      modifies this
      ensures subs == old(subs)
      ensures AddMain(old(mains), m, stamp).Ok? ==> r == Ok(stamp.id) && mains == AddMain(old(mains), m, stamp).value
      ensures AddMain(old(mains), m, stamp).Err? ==> r == Err(AddMain(old(mains), m, stamp).error) && mains == old(mains)
    {
      match AddMain(mains, m, stamp)
      case Ok(after) =>
        mains := after;
        r := Ok(stamp.id);
      case Err(e) =>
        r := Err(e);
    }

    /** `mainCategoriesApi.update`. */
    method UpdateMain(id: string, p: MainPatch, now: int) returns (r: Result<string, WriteError>)
      modifies this
      ensures subs == old(subs)
      ensures PatchMain(old(mains), id, p, now).Ok? ==> r == Ok(id) && mains == PatchMain(old(mains), id, p, now).value
      ensures PatchMain(old(mains), id, p, now).Err? ==> r == Err(PatchMain(old(mains), id, p, now).error) && mains == old(mains)
    {
      match PatchMain(mains, id, p, now)
      case Ok(after) =>
        mains := after;
        r := Ok(id);
      case Err(e) =>
        r := Err(e);
    }

    /** `subCategoriesApi.create`. */
    method CreateSub(s: NewSub, stamp: Stamp) returns (r: Result<string, WriteError>)
      requires stamp.id !in subs
      modifies this
      ensures mains == old(mains)
      ensures AddSub(old(subs), s, stamp).Ok? ==> r == Ok(stamp.id) && subs == AddSub(old(subs), s, stamp).value
      ensures AddSub(old(subs), s, stamp).Err? ==> r == Err(AddSub(old(subs), s, stamp).error) && subs == old(subs)
    {
      match AddSub(subs, s, stamp)
      case Ok(after) =>
        subs := after;
        r := Ok(stamp.id);
      case Err(e) =>
        r := Err(e);
    }

    /** `subCategoriesApi.update`. */
    method UpdateSub(id: string, p: SubPatch, now: int) returns (r: Result<string, WriteError>)
      modifies this
      ensures mains == old(mains)
      ensures PatchSub(old(subs), id, p, now).Ok? ==> r == Ok(id) && subs == PatchSub(old(subs), id, p, now).value
      ensures PatchSub(old(subs), id, p, now).Err? ==> r == Err(PatchSub(old(subs), id, p, now).error) && subs == old(subs)
    {
      match PatchSub(subs, id, p, now)
      case Ok(after) =>
        subs := after;
        r := Ok(id);
      case Err(e) =>
        r := Err(e);
    }
  }
}
