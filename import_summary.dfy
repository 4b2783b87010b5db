/**
 * The accounting both spreadsheet imports share: each row ends created,
 * skipped or errored; errored rows add a message; the closing alert shows
 * the three counts and at most the first five messages.
 */
module ImportSummary {
  import opened JsNumbers
  import opened JsStrings

  /** How one row of an import ended. */
  datatype Outcome<+E> = Created(id: string) | Skipped | Errored(error: E)

  /**
   * The import loop: the rows in order, each step seeing the state the
   * earlier rows left and taking one value from outside (the id and clock
   * reading of its write); every row's outcome and the final state.
   */
  function Fold<S, R, K, E>(step: (S, R, K) -> (Outcome<E>, S), s: S, rows: seq<R>, keys: seq<K>): (r: (seq<Outcome<E>>, S))
    requires |keys| == |rows|
    ensures |r.0| == |rows|
  {
    if rows == [] then ([], s)
    else
      var n := |rows| - 1;
      var prev := Fold(step, s, rows[..n], keys[..n]);
      var last := step(prev.1, rows[n], keys[n]);
      (prev.0 + [last.0], last.1)
  }

  /** The loop's state after row i, from its state before it. */
  lemma FoldUnfold<S, R, K, E>(step: (S, R, K) -> (Outcome<E>, S), s: S, rows: seq<R>, keys: seq<K>, i: int)
    requires |keys| == |rows| && 0 <= i < |rows|
    ensures var prev := Fold(step, s, rows[..i], keys[..i]);
      var last := step(prev.1, rows[i], keys[i]);
      Fold(step, s, rows[..i + 1], keys[..i + 1]) == (prev.0 + [last.0], last.1)
  {
    assert rows[..i + 1][..i] == rows[..i] && keys[..i + 1][..i] == keys[..i];
  }

  /** Row k's outcome is its step on the state the rows before it left. */
  lemma {:induction false} FoldOutcome<S, R, K, E>(step: (S, R, K) -> (Outcome<E>, S), s: S, rows: seq<R>, keys: seq<K>, k: int)
    requires |keys| == |rows| && 0 <= k < |rows|
    ensures Fold(step, s, rows, keys).0[k] == step(Fold(step, s, rows[..k], keys[..k]).1, rows[k], keys[k]).0
    decreases |rows|
  {
    var n := |rows| - 1;
    FoldUnfold(step, s, rows, keys, k);
    if k < n {
      assert rows[..n + 1] == rows && keys[..n + 1] == keys;
      FoldUnfold(step, s, rows, keys, n);
      FoldOutcome(step, s, rows[..n], keys[..n], k);
      assert rows[..n][..k] == rows[..k] && keys[..n][..k] == keys[..k];
      assert rows[..n][k] == rows[k] && keys[..n][k] == keys[k];
    } else {
      assert rows[..k + 1] == rows && keys[..k + 1] == keys;
    }
  }

  function CreatedCount<E>(outs: seq<Outcome<E>>): nat
  {
    if outs == [] then 0 else CreatedCount(outs[..|outs| - 1]) + (if outs[|outs| - 1].Created? then 1 else 0)
  }

  function SkippedCount<E>(outs: seq<Outcome<E>>): nat
  {
    if outs == [] then 0 else SkippedCount(outs[..|outs| - 1]) + (if outs[|outs| - 1].Skipped? then 1 else 0)
  }

  function ErroredCount<E>(outs: seq<Outcome<E>>): nat
  {
    if outs == [] then 0 else ErroredCount(outs[..|outs| - 1]) + (if outs[|outs| - 1].Errored? then 1 else 0)
  }

  /** The `errors` array: one message per errored row, in row order. */
  function ErrorMessages<E>(outs: seq<Outcome<E>>, text: E -> string): seq<string>
  {
    if outs == [] then []
    else
      var last := outs[|outs| - 1];
      ErrorMessages(outs[..|outs| - 1], text) + (if last.Errored? then [text(last.error)] else [])
  }

  /** The counts and messages after one more row. */
  lemma CountsAppend<E>(outs: seq<Outcome<E>>, o: Outcome<E>, text: E -> string)
    ensures CreatedCount(outs + [o]) == CreatedCount(outs) + (if o.Created? then 1 else 0)
    ensures SkippedCount(outs + [o]) == SkippedCount(outs) + (if o.Skipped? then 1 else 0)
    ensures ErroredCount(outs + [o]) == ErroredCount(outs) + (if o.Errored? then 1 else 0)
    ensures ErrorMessages(outs + [o], text) == ErrorMessages(outs, text) + (if o.Errored? then [text(o.error)] else [])
  {
    assert (outs + [o])[..|outs|] == outs;
  }

  /**
   * The loop's bookkeeping for one more row: from accumulators that match
   * the earlier rows' outcomes, bumping the one the new outcome names (and
   * pushing its message) gives accumulators that match all of them.
   */
  lemma TallyKept<E>(outs: seq<Outcome<E>>, o: Outcome<E>, text: E -> string,
                     created: nat, skipped: nat, errorCount: nat, errors: seq<string>,
                     created': nat, skipped': nat, errorCount': nat, errors': seq<string>)
    requires created == CreatedCount(outs) && skipped == SkippedCount(outs)
    requires errorCount == ErroredCount(outs) && errors == ErrorMessages(outs, text)
    requires created' == created + (if o.Created? then 1 else 0)
    requires skipped' == skipped + (if o.Skipped? then 1 else 0)
    requires errorCount' == errorCount + (if o.Errored? then 1 else 0)
    requires errors' == errors + (if o.Errored? then [text(o.error)] else [])
    ensures created' == CreatedCount(outs + [o]) && skipped' == SkippedCount(outs + [o])
    ensures errorCount' == ErroredCount(outs + [o]) && errors' == ErrorMessages(outs + [o], text)
  {
    CountsAppend(outs, o, text);
  }

  /** Every row is counted exactly once. */
  lemma {:induction false} CountsAddUp<E>(outs: seq<Outcome<E>>)
    ensures CreatedCount(outs) + SkippedCount(outs) + ErroredCount(outs) == |outs|
  {
    if outs != [] {
      CountsAddUp(outs[..|outs| - 1]);
    }
  }

  /** There are as many messages as errored rows. */
  lemma {:induction false} MessagesMatchErrorCount<E>(outs: seq<Outcome<E>>, text: E -> string)
    ensures |ErrorMessages(outs, text)| == ErroredCount(outs)
  {
    if outs != [] {
      MessagesMatchErrorCount(outs[..|outs| - 1], text);
    }
  }

  /** The messages of later rows come after those of earlier rows. */
  lemma {:induction false} MessagesInRowOrder<E>(a: seq<Outcome<E>>, b: seq<Outcome<E>>, text: E -> string)
    ensures ErrorMessages(a + b, text) == ErrorMessages(a, text) + ErrorMessages(b, text)
    decreases |b|
  {
    if b == [] {
      assert a + b == a;
    } else {
      MessagesInRowOrder(a, b[..|b| - 1], text);
      assert (a + b)[..|a + b| - 1] == a + b[..|b| - 1];
    }
  }

  /** The messages the alert lists: all of them up to five, else the first five. */
  function ShownErrors(errors: seq<string>): (shown: seq<string>)
    ensures |shown| == if |errors| <= 5 then |errors| else 5
    ensures shown == errors[..|shown|]
  {
    if |errors| > 5 then errors[..5] else errors
  }

  /** The first lines of the alert: the three counts, the error count being the full total. */
  function Header(created: nat, skipped: nat, errorCount: nat): string
  {
    "Import complete!\n\nCreated: " + NatToString(created) + "\nSkipped: " + NatToString(skipped)
      + "\nErrors: " + NatToString(errorCount)
  }

  /** The alert closing an import. */
  function SummaryMessage(created: nat, skipped: nat, errorCount: nat, errors: seq<string>): string
  {
    var head := Header(created, skipped, errorCount);
    if |errors| > 0 && |errors| <= 5 then head + "\n\nErrors:\n" + Join(errors, "\n")
    else if |errors| > 5 then head + "\n\nShowing first 5 errors:\n" + Join(errors[..5], "\n")
    else head
  }

  /**
   * The alert is the counts followed by the shown messages, one per line,
   * under a heading that says whether they are all of them.
   */
  lemma SummaryShowsAtMostFive(created: nat, skipped: nat, errorCount: nat, errors: seq<string>)
    ensures var m := SummaryMessage(created, skipped, errorCount, errors);
      var shown := ShownErrors(errors);
      && StartsWith(m, Header(created, skipped, errorCount))
      && (shown == [] ==> m == Header(created, skipped, errorCount))
      && (shown != [] && |errors| <= 5 ==> m == Header(created, skipped, errorCount) + "\n\nErrors:\n" + Join(shown, "\n"))
      && (|errors| > 5 ==> m == Header(created, skipped, errorCount) + "\n\nShowing first 5 errors:\n" + Join(shown, "\n"))
  {
  }
}
