/**
 * The two display helpers of the payments page: the payment-method label
 * and the badge variant of a payment status.
 */
module Payments {
  import opened Wrappers
  import opened JsStrings

  /** `word.charAt(0).toUpperCase() + word.slice(1)`. */
  function Capitalize(w: string): string
  {
    if w == [] then [] else [UpperChar(w[0])] + w[1..]
  }

  function CapitalizeAll(words: seq<string>): (r: seq<string>)
    ensures |r| == |words|
  {
    if words == [] then [] else [Capitalize(words[0])] + CapitalizeAll(words[1..])
  }

  /** `formatMethod`: 'N/A' for a missing or empty method, else its `_`-separated words capitalized and joined by spaces. */
  function FormatMethod(payMethod: Option<string>): string
  {
    if payMethod.None? || payMethod.value == "" then "N/A"
    else Join(CapitalizeAll(Split(payMethod.value, '_')), " ")
  }

  /**
   * The label spelled character by character: each `_` becomes a space, and
   * a character that starts a word is upper-cased.
   */
  function Spelled(s: string, atWordStart: bool): string
  {
    if s == [] then []
    else if s[0] == '_' then " " + Spelled(s[1..], true)
    else [if atWordStart then UpperChar(s[0]) else s[0]] + Spelled(s[1..], false)
  }

  lemma JoinConsChar(c: char, a: string, rest: seq<string>, sep: string)
    ensures Join([[c] + a] + rest, sep) == [c] + Join([a] + rest, sep)
  {
    if rest != [] {
      assert ([[c] + a] + rest)[1..] == rest && ([a] + rest)[1..] == rest;
    }
  }

  /** The split-map-join chain, with its first word capitalized or not, is the character-by-character spelling. */
  lemma {:induction false} ChainIsSpelled(s: string, atWordStart: bool)
    ensures var parts := Split(s, '_');
      Join([if atWordStart then Capitalize(parts[0]) else parts[0]] + CapitalizeAll(parts[1..]), " ") == Spelled(s, atWordStart)
  {
    if s != [] {
      var parts := Split(s, '_');
      var rest := Split(s[1..], '_');
      ChainIsSpelled(s[1..], s[0] == '_');
      if s[0] == '_' {
        assert parts == [""] + rest;
        assert parts[1..] == rest;
        assert CapitalizeAll(rest) == [Capitalize(rest[0])] + CapitalizeAll(rest[1..]);
        assert Join([""] + CapitalizeAll(rest), " ") == "" + " " + Join(CapitalizeAll(rest), " ");
      } else {
        assert parts == [[s[0]] + rest[0]] + rest[1..];
        var first := if atWordStart then UpperChar(s[0]) else s[0];
        assert (if atWordStart then Capitalize(parts[0]) else parts[0]) == [first] + rest[0];
        JoinConsChar(first, rest[0], CapitalizeAll(rest[1..]), " ");
      }
    }
  }

  /** The character the label holds at position `i` of `s`. */
  function LabelChar(s: string, i: nat, atWordStart: bool): char
    requires i < |s|
  {
    if s[i] == '_' then ' '
    else if (i == 0 && atWordStart) || (i > 0 && s[i - 1] == '_') then UpperChar(s[i])
    else s[i]
  }

  /** What the spelling holds at each position. */
  lemma {:induction false} SpelledAt(s: string, atWordStart: bool)
    ensures |Spelled(s, atWordStart)| == |s|
    ensures forall i :: 0 <= i < |s| ==> Spelled(s, atWordStart)[i] == LabelChar(s, i, atWordStart)
  {
    if s != [] {
      var tail := Spelled(s[1..], s[0] == '_');
      SpelledAt(s[1..], s[0] == '_');
      assert Spelled(s, atWordStart) == [Spelled(s, atWordStart)[0]] + tail;
      forall i | 0 <= i < |s|
        ensures Spelled(s, atWordStart)[i] == LabelChar(s, i, atWordStart)
      {
        if i > 0 {
          assert Spelled(s, atWordStart)[i] == tail[i - 1] == LabelChar(s[1..], i - 1, s[0] == '_');
          assert s[1..][i - 1] == s[i];
          assert i - 1 > 0 ==> s[1..][i - 2] == s[i - 1];
        }
      }
    }
  }

  /**
   * The label of a non-empty method has one character per input character:
   * `_` becomes a space, the first character of each word is upper-cased,
   * every other character is kept.
   */
  lemma FormatMethodPointwise(m: string)
    requires m != ""
    ensures |FormatMethod(Some(m))| == |m|
    ensures forall i :: 0 <= i < |m| ==> FormatMethod(Some(m))[i] == LabelChar(m, i, true)
  {
    var parts := Split(m, '_');
    assert CapitalizeAll(parts) == [Capitalize(parts[0])] + CapitalizeAll(parts[1..]);
    ChainIsSpelled(m, true);
    SpelledAt(m, true);
  }

  lemma UpperNeverUnderscore(c: char)
    ensures c != '_' ==> UpperChar(c) != '_'
  {
  }

  /** The label never holds `_`, and a missing or empty method reads 'N/A'. */
  lemma FormatMethodHasNoUnderscore(payMethod: Option<string>)
    ensures '_' !in FormatMethod(payMethod)
    ensures payMethod.None? || payMethod == Some("") ==> FormatMethod(payMethod) == "N/A"
  {
    if payMethod.Some? && payMethod.value != "" {
      var m := payMethod.value;
      FormatMethodPointwise(m);
      var r := FormatMethod(Some(m));
      forall i | 0 <= i < |r| ensures r[i] != '_' {
        UpperNeverUnderscore(m[i]);
      }
    }
  }

  /** Formatting a label again changes nothing. */
  lemma FormatMethodIdempotent(payMethod: Option<string>)
    ensures FormatMethod(Some(FormatMethod(payMethod))) == FormatMethod(payMethod)
  {
    var r := FormatMethod(payMethod);
    FormatMethodHasNoUnderscore(payMethod);
    SplitWithoutSeparator(r, '_');
    if payMethod.Some? && payMethod.value != "" {
      FormatMethodPointwise(payMethod.value);
      assert r[0] == UpperChar(r[0]);
      assert [r[0]] + r[1..] == r;
    } else {
      assert r == "N/A";
      assert Capitalize("N/A") == "N/A";
    }
  }

  /** The badge variants. */
  datatype Variant = Success | Error | Warning

  /** `getStatusVariant`. */
  function GetStatusVariant(status: string): Variant
  {
    match status
    case "success" => Success
    case "failed" => Error
    case "pending" => Warning
    case _ => Warning
  }

  /** Only 'success' reads as success and only 'failed' as an error; everything else, 'completed' included, is a warning. */
  lemma StatusVariantIff(status: string)
    ensures GetStatusVariant(status) == Success <==> status == "success"
    ensures GetStatusVariant(status) == Error <==> status == "failed"
    ensures GetStatusVariant(status) == Warning <==> status != "success" && status != "failed"
    ensures GetStatusVariant("completed") == Warning && GetStatusVariant("pending") == Warning
  {
  }
}
