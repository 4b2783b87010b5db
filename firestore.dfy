/**
 * What the document store contributes to the model: a listed document, the
 * values one write receives from the store and the clock, and the errors a
 * write can throw.
 */
module Firestore {
  import opened Wrappers
  import opened JsNumbers
  import opened JsValues

  /** A document as a listing returns it: its id and its data. */
  datatype Listed<T> = Listed(id: string, doc: T)

  /** What one write obtains from outside: the generated document id and the clock reading. */
  datatype Stamp = Stamp(id: string, now: int)

  /** Why a write throws. */
  datatype WriteError =
    | UndefinedField(field: string)  // the SDK refuses a field whose value is `undefined`
    | NotFound(id: string)           // `updateDoc` on a document that does not exist
    | DuplicateTier(points: int)     // `questionsApi.create`/`update` found the (sub-category, points) pair taken

  /** The error's `message`. */
  function Message(e: WriteError): string
  {
    match e
    case UndefinedField(f) => "Unsupported field value: undefined (found in field " + f + ")"
    case NotFound(id) => "No document to update: " + id
    case DuplicateTier(p) => "A question with " + IntToString(p) + " points already exists for this sub-category"
  }

  /** The first field, in write order, whose value is `undefined` (the SDK refuses it). */
  function UndefinedIn(fields: seq<(string, Value)>): (r: Option<string>)
    ensures r.None? <==> forall i :: 0 <= i < |fields| ==> fields[i].1 != Undefined
    ensures r.Some? ==> exists i :: 0 <= i < |fields| && fields[i] == (r.value, Undefined)
  {
    if fields == [] then None
    else if fields[0].1 == Undefined then Some(fields[0].0)
    else UndefinedIn(fields[1..])
  }

  /** `patch` if present, else the old value. */
  function Patched<T>(patch: Option<T>, current: T): T
  {
    if patch.Some? then patch.value else current
  }

  /** The present fields of a patch that carry a value, as the write sees them. */
  function PresentValues(fields: seq<(string, Option<Value>)>): seq<(string, Value)>
  {
    if fields == [] then []
    else if fields[0].1.Some? then [(fields[0].0, fields[0].1.value)] + PresentValues(fields[1..])
    else PresentValues(fields[1..])
  }

  /** A patch none of whose present values is `undefined` passes the SDK's check. */
  lemma {:induction false} PresentValuesDefined(fields: seq<(string, Option<Value>)>)
    requires forall i :: 0 <= i < |fields| ==> fields[i].1 != Some(Undefined)
    ensures UndefinedIn(PresentValues(fields)) == None
  {
    if fields != [] {
      PresentValuesDefined(fields[1..]);
    }
  }

  /** The duplicate message names the points value: it reads back from the text. */
  lemma DuplicateMessageNamesPoints(p: int)
    ensures var m := Message(DuplicateTier(p));
      exists i, j :: 0 <= i <= j <= |m| && m[i..j] == IntToString(p) && ParseInt(m[i..j]) == Some(p)
  {
    var m := Message(DuplicateTier(p));
    var prefix := "A question with ";
    var t := IntToString(p);
    assert m[|prefix|..|prefix| + |t|] == t;
    ParseIntOfIntToString(p);
  }
}
