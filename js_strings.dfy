/**
 * The string operations of the core: ASCII case mapping, `startsWith`,
 * `includes`, and `split`/`join` on a one-character separator.
 */
module JsStrings {

  function UpperChar(c: char): char
  {
    if 'a' <= c <= 'z' then (c as int - 32) as char else c
  }

  function LowerChar(c: char): char
  {
    if 'A' <= c <= 'Z' then (c as int + 32) as char else c
  }

  /** `s.toLowerCase()`, character by character. */
  function ToLower(s: string): (r: string)
    ensures |r| == |s|
    ensures forall i :: 0 <= i < |s| ==> r[i] == LowerChar(s[i])
  {
    if s == [] then [] else [LowerChar(s[0])] + ToLower(s[1..])
  }

  /** `s.startsWith(p)`. */
  predicate StartsWith(s: string, p: string)
  {
    |p| <= |s| && s[..|p|] == p
  }

  /** t occurs in s starting at position i. */
  predicate OccursAt(s: string, t: string, i: int)
  {
    0 <= i <= |s| - |t| && s[i..i + |t|] == t
  }

  /** `s.includes(t)`: t occurs in s at some position. */
  predicate Includes(s: string, t: string)
  {
    exists i :: 0 <= i <= |s| - |t| && OccursAt(s, t, i)
  }

  /** An occurrence is still found once both strings are lower-cased. */
  lemma IncludesToLower(s: string, t: string)
    requires Includes(s, t)
    ensures Includes(ToLower(s), ToLower(t))
  {
    var i :| 0 <= i <= |s| - |t| && OccursAt(s, t, i);
    forall k | 0 <= k < |t|
      ensures ToLower(s)[i..i + |t|][k] == ToLower(t)[k]
    {
      assert s[i + k] == t[k];
    }
    assert OccursAt(ToLower(s), ToLower(t), i);
  }

  /** `s.split(sep)` for a one-character separator: always at least one part. */
  function Split(s: string, sep: char): (parts: seq<string>)
    ensures |parts| >= 1
  {
    if s == [] then [""]
    else
      var rest := Split(s[1..], sep);
      if s[0] == sep then [""] + rest else [[s[0]] + rest[0]] + rest[1..]
  }

  /** `parts.join(sep)`. */
  function Join(parts: seq<string>, sep: string): string
  {
    if parts == [] then ""
    else if |parts| == 1 then parts[0]
    else parts[0] + sep + Join(parts[1..], sep)
  }

  /** No part of a split holds the separator. */
  lemma {:induction false} SplitPartsLackSeparator(s: string, sep: char)
    ensures forall k :: 0 <= k < |Split(s, sep)| ==> sep !in Split(s, sep)[k]
  {
    if s != [] {
      SplitPartsLackSeparator(s[1..], sep);
      var rest := Split(s[1..], sep);
      if s[0] != sep {
        var parts := Split(s, sep);
        forall k | 0 <= k < |parts| ensures sep !in parts[k] {
          if k == 0 {
            assert parts[0] == [s[0]] + rest[0];
          } else {
            assert parts[k] == rest[k];
          }
        }
      }
    }
  }

  /** Joining the parts of a split with the separator gives back the string. */
  lemma {:induction false} JoinSplit(s: string, sep: char)
    ensures Join(Split(s, sep), [sep]) == s
  {
    if s != [] {
      JoinSplit(s[1..], sep);
      var rest := Split(s[1..], sep);
      if s[0] == sep {
        assert ([""] + rest)[1..] == rest;
      } else {
        var parts := [[s[0]] + rest[0]] + rest[1..];
        if |rest| > 1 {
          assert parts[1..] == rest[1..];
          assert Join(rest, [sep]) == rest[0] + [sep] + Join(rest[1..], [sep]);
        }
      }
    }
  }

  /** A string without the separator splits into itself alone. */
  lemma {:induction false} SplitWithoutSeparator(s: string, sep: char)
    requires sep !in s
    ensures Split(s, sep) == [s]
  {
    if s != [] {
      SplitWithoutSeparator(s[1..], sep);
      assert [s[0]] + s[1..] == s;
    }
  }

  /** Splitting `x + sep + y` where x lacks the separator cuts off x first. */
  lemma {:induction false} SplitAtFirstSeparator(x: string, y: string, sep: char)
    requires sep !in x
    ensures Split(x + [sep] + y, sep) == [x] + Split(y, sep)
  {
    if x == [] {
      assert ([] + [sep] + y)[1..] == y;
    } else {
      SplitAtFirstSeparator(x[1..], y, sep);
      var s := x + [sep] + y;
      assert s[0] == x[0] && s[1..] == x[1..] + [sep] + y;
      var rest := Split(s[1..], sep);
      assert rest == [x[1..]] + Split(y, sep);
      assert [x[0]] + x[1..] == x;
    }
  }

  /** Splitting a join of separator-free parts gives back the parts. */
  lemma {:induction false} SplitJoin(parts: seq<string>, sep: char)
    requires |parts| >= 1
    requires forall k :: 0 <= k < |parts| ==> sep !in parts[k]
    ensures Split(Join(parts, [sep]), sep) == parts
  {
    if |parts| == 1 {
      SplitWithoutSeparator(parts[0], sep);
    } else {
      SplitJoin(parts[1..], sep);
      SplitAtFirstSeparator(parts[0], Join(parts[1..], [sep]), sep);
      assert [parts[0]] + parts[1..] == parts;
    }
  }

  /** `s.split(sep).pop()`: the last part. */
  function LastPart(s: string, sep: char): string
  {
    var parts := Split(s, sep);
    parts[|parts| - 1]
  }

  /**
   * The last part is the longest suffix of s without the separator: it is
   * the whole string, or it follows a separator.
   */
  lemma {:induction false} LastPartIsSuffix(s: string, sep: char)
    ensures |LastPart(s, sep)| <= |s|
    ensures LastPart(s, sep) == s[|s| - |LastPart(s, sep)|..]
    ensures sep !in LastPart(s, sep)
    ensures |LastPart(s, sep)| == |s| || s[|s| - |LastPart(s, sep)| - 1] == sep
    ensures sep !in s ==> LastPart(s, sep) == s
  {
    SplitPartsLackSeparator(s, sep);
    if s != [] {
      var t := s[1..];
      LastPartIsSuffix(t, sep);
      JoinSplit(t, sep);
      var rest := Split(t, sep);
      var e := LastPart(t, sep);
      var l := LastPart(s, sep);
      assert e == rest[|rest| - 1];
      if s[0] == sep {
        assert Split(s, sep) == [""] + rest;
        assert l == e;
        assert s[|s| - |e|..] == t[|t| - |e|..];
        assert |e| == |t| ==> s[|s| - |e| - 1] == s[0];
        assert |e| < |t| ==> s[|s| - |e| - 1] == t[|t| - |e| - 1];
      } else if |rest| > 1 {
        assert Split(s, sep) == [[s[0]] + rest[0]] + rest[1..];
        assert l == e;
        assert Join(rest, [sep]) == rest[0] + [sep] + Join(rest[1..], [sep]);
        assert t[|rest[0]|] == sep;
        assert |e| < |t|;
        assert s[|s| - |e|..] == t[|t| - |e|..];
        assert s[|s| - |e| - 1] == t[|t| - |e| - 1];
      } else {
        assert Split(s, sep) == [[s[0]] + rest[0]];
        assert e == rest[0] == t;
        assert l == [s[0]] + t == s;
        assert sep !in t && s[0] != sep;
      }
    }
  }

  /** Behind the last separator of `x + [sep] + e` is `e`, when `e` holds no separator. */
  lemma LastPartAfterSeparator(x: string, e: string, sep: char)
    requires sep !in e
    ensures LastPart(x + [sep] + e, sep) == e
  {
    var s := x + [sep] + e;
    var l := LastPart(s, sep);
    LastPartIsSuffix(s, sep);
    forall k | |s| - |l| <= k < |s| ensures s[k] != sep {
      assert s[k] == l[k - (|s| - |l|)];
    }
    forall k | |x| < k < |s| ensures s[k] != sep {
      assert s[k] == e[k - |x| - 1];
    }
    assert s[|x|] == sep;
    assert s[|s| - |e|..] == e;
  }
}
