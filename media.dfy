/**
 * The media helpers: MIME-type checks, the storage path of an upload and the
 * storage path read back from a download URL.
 */
module Media {
  import opened Wrappers
  import opened JsNumbers
  import opened JsStrings

  // ---------------------------------------------------------------------------
  // MIME types
  // ---------------------------------------------------------------------------

  /** The eight MIME types an upload may have. */
  const ValidTypes: seq<string> := [
    "image/jpeg", "image/jpg", "image/png", "image/gif", "image/webp",
    "video/mp4", "video/webm", "video/ogg"
  ]

  /** `isValidMediaFile`: the file's type is one of the listed types. */
  predicate IsValidMediaFile(mimeType: string)
  {
    mimeType in ValidTypes
  }

  datatype MediaType = Image | Video | Unknown

  /** `getMediaType`: classification by the type's prefix. */
  function GetMediaType(mimeType: string): MediaType
  {
    if StartsWith(mimeType, "image/") then Image
    else if StartsWith(mimeType, "video/") then Video
    else Unknown
  }

  /**
   * Every accepted file classifies as an image or a video, never unknown:
   * the listed image types as images, the listed video types as videos.
   */
  lemma ValidFilesAreClassified(mimeType: string)
    requires IsValidMediaFile(mimeType)
    ensures GetMediaType(mimeType) != Unknown
    ensures GetMediaType(mimeType) == Image <==> mimeType in ValidTypes[..5]
    ensures GetMediaType(mimeType) == Video <==> mimeType in ValidTypes[5..]
  {
    var k :| 0 <= k < |ValidTypes| && ValidTypes[k] == mimeType;
    assert ValidTypes[..5] == ValidTypes[..5];
    if k < 5 {
      assert mimeType[..6] == "image/";
      assert mimeType in ValidTypes[..5];
    } else {
      assert mimeType[..6] == "video/";
      assert mimeType in ValidTypes[5..];
    }
  }

  /** Classification is looser than validation: an SVG is an image, yet it is refused. */
  lemma ClassifiedButInvalid()
    ensures GetMediaType("image/svg+xml") == Image && !IsValidMediaFile("image/svg+xml")
    ensures GetMediaType("video/quicktime") == Video && !IsValidMediaFile("video/quicktime")
  {
    assert "image/svg+xml"[..6] == "image/";
    assert "video/quicktime"[..6] == "video/";
  }

  /** The three classes are told apart by the type's prefix. */
  lemma MediaTypeByPrefix(mimeType: string)
    ensures GetMediaType(mimeType) == Image <==> StartsWith(mimeType, "image/")
    ensures GetMediaType(mimeType) == Video <==> StartsWith(mimeType, "video/")
    ensures GetMediaType(mimeType) == Unknown <==> !StartsWith(mimeType, "image/") && !StartsWith(mimeType, "video/")
  {
    if StartsWith(mimeType, "video/") {
      assert mimeType[..6][0] == 'v';
    }
  }

  // ---------------------------------------------------------------------------
  // Upload path
  // ---------------------------------------------------------------------------

  /** `file.name.split('.').pop()`. */
  function FileExtension(name: string): string
  {
    LastPart(name, '.')
  }

  /**
   * The object path of an upload: folder (default 'general'), '/', the clock
   * reading in milliseconds, '-', the random base-36 suffix, '.', the
   * extension. The clock reading and the suffix come from outside.
   */
  function UploadPath(folder: Option<string>, name: string, now: nat, suffix: string): string
  {
    var dir := if folder.Some? then folder.value else "general";
    dir + "/" + NatToString(now) + "-" + suffix + "." + FileExtension(name)
  }

  /**
   * The extension is the text after the last '.' of the name, or the whole
   * name when it has no '.'.
   */
  lemma FileExtensionIsLastPart(name: string)
    ensures var ext := FileExtension(name);
      && '.' !in ext
      && |ext| <= |name|
      && name[|name| - |ext|..] == ext
      && (|ext| == |name| || name[|name| - |ext| - 1] == '.')
      && ('.' !in name ==> ext == name)
  {
    LastPartIsSuffix(name, '.');
  }

  /**
   * The path starts with the folder (or 'general') and '/', and its last
   * '.'-separated part is the file's extension whenever the random suffix
   * holds no '.'.
   */
  lemma UploadPathShape(folder: Option<string>, name: string, now: nat, suffix: string)
    ensures var dir := if folder.Some? then folder.value else "general";
      StartsWith(UploadPath(folder, name, now, suffix), dir + "/")
    ensures '.' !in suffix ==> LastPart(UploadPath(folder, name, now, suffix), '.') == FileExtension(name)
  {
    var dir := if folder.Some? then folder.value else "general";
    var path := UploadPath(folder, name, now, suffix);
    var stem := dir + "/" + NatToString(now) + "-" + suffix;
    assert path == stem + ['.'] + FileExtension(name);
    assert path[..|dir + "/"|] == dir + "/";
    LastPartIsSuffix(name, '.');
    LastPartAfterSeparator(stem, FileExtension(name), '.');
  }

  // ---------------------------------------------------------------------------
  // Path from a download URL
  // ---------------------------------------------------------------------------

  /** The schemes the URL standard treats as special. */
  const SpecialSchemes: set<string> := {"http", "https", "ftp", "ws", "wss", "file"}

  predicate IsAsciiLetter(c: char)
  {
    'a' <= c <= 'z' || 'A' <= c <= 'Z'
  }

  /** A scheme is an ASCII letter followed by letters, digits, '+', '-' or '.'. */
  predicate ValidScheme(scheme: string)
  {
    && |scheme| > 0
    && IsAsciiLetter(scheme[0])
    && forall i :: 0 < i < |scheme| ==>
         IsAsciiLetter(scheme[i]) || '0' <= scheme[i] <= '9' || scheme[i] in "+-."
  }

  /** The URL parser drops every tab and line break before it reads the input. */
  function StripTabsAndNewlines(s: string): (r: string)
    ensures forall c :: c in r ==> c in s && c !in "\t\n\r"
  {
    if s == [] then []
    else if s[0] in "\t\n\r" then StripTabsAndNewlines(s[1..])
    else [s[0]] + StripTabsAndNewlines(s[1..])
  }

  /** The position of the first `c` in `s`. */
  function IndexOf(s: string, c: char): (r: Option<nat>)
    ensures r.None? <==> c !in s
    ensures r.Some? ==> r.value < |s| && s[r.value] == c && c !in s[..r.value]
  {
    if s == [] then None
    else if s[0] == c then Some(0)
    else match IndexOf(s[1..], c)
      case None => None
      case Some(i) =>
        assert s[..i + 1] == [s[0]] + s[1..][..i];
        Some(i + 1)
  }

  /** The longest prefix of `s` free of the `stops`. */
  function BeforeAny(s: string, stops: set<char>): (r: string)
    ensures |r| <= |s| && r == s[..|r|]
    ensures forall c :: c in r ==> c !in stops
  {
    if s == [] || s[0] in stops then [] else [s[0]] + BeforeAny(s[1..], stops)
  }

  /** The suffix of `s` from its first `c` on, or nothing when `s` lacks `c`. */
  function FromFirst(s: string, c: char): (r: string)
    ensures |r| <= |s| && r == s[|s| - |r|..]
  {
    match IndexOf(s, c)
    case None => []
    case Some(i) => s[i..]
  }

  /**
   * The `pathname` of `new URL(url)`, or None where the constructor throws:
   * the input (tabs and line breaks removed) needs a valid scheme before its
   * first ':'; the query and fragment are cut off at the first '?' or '#';
   * after '//' the authority runs to the first '/'; a special scheme other
   * than 'file' needs a host, and its empty path reads '/'.
   */
  function Pathname(url: string): (r: Option<string>)
    ensures r.Some? ==> '?' !in r.value && '#' !in r.value
    ensures ':' !in url ==> r.None?
  {
    var s := StripTabsAndNewlines(url);
    match IndexOf(s, ':')
    case None => None
    case Some(k) => PathnameAfterScheme(s[..k], s[k + 1..])
  }

  /** The part of the parse that follows the scheme and its ':'. */
  function PathnameAfterScheme(scheme: string, rest: string): (r: Option<string>)
    ensures r.Some? ==> '?' !in r.value && '#' !in r.value
  {
    if !ValidScheme(scheme) then None
    else
      var lower := ToLower(scheme);
      var special := lower in SpecialSchemes;
      var body := BeforeAny(rest, {'?', '#'});
      var hierarchical := StartsWith(body, "//");
      var path := PathAfterAuthority(body);
      if special && hierarchical && |path| == |body| - 2 && lower != "file" then None
      else Some(if special && path == [] then "/" else path)
  }

  /** After '//' the authority runs to the first '/', and the path is the rest; without '//' the whole body is the path. */
  function PathAfterAuthority(body: string): (path: string)
    ensures forall c :: c in path ==> c in body
    ensures StartsWith(body, "//") ==> |path| <= |body| - 2
  {
    if StartsWith(body, "//") then
      var path := FromFirst(body[2..], '/');
      assert forall c :: c in path ==> c in body by {
        forall c | c in path ensures c in body {
          var i :| 0 <= i < |path| && path[i] == c;
          assert body[2..][|body| - 2 - |path| + i] == c;
        }
      }
      path
    else body
  }

  /** The characters `.` in a JavaScript regular expression does not match. */
  predicate LineTerminator(c: char)
  {
    c == '\n' || c == '\r' || c == '\U{2028}' || c == '\U{2029}'
  }

  /** The first line terminator at or after `start`, or the end of `p`. */
  function LineEnd(p: string, start: nat): (e: nat)
    requires start <= |p|
    ensures start <= e <= |p|
    ensures forall j :: start <= j < e ==> !LineTerminator(p[j])
    ensures e == |p| || LineTerminator(p[e])
    decreases |p| - start
  {
    if start == |p| || LineTerminator(p[start]) then start else LineEnd(p, start + 1)
  }

  /** The last '?' in `p[lo..hi]`. */
  function LastQuestion(p: string, lo: nat, hi: nat): (r: Option<nat>)
    requires lo <= hi <= |p|
    ensures r.None? <==> forall j :: lo <= j < hi ==> p[j] != '?'
    ensures r.Some? ==> lo <= r.value < hi && p[r.value] == '?'
    decreases hi
  {
    if hi == lo then None
    else if p[hi - 1] == '?' then Some(hi - 1)
    else LastQuestion(p, lo, hi - 1)
  }

  /** The last '?' at least one character after `start` with no line terminator from `start` to it. */
  function QuestionAfter(p: string, start: nat): (r: Option<nat>)
    requires start <= |p|
    ensures r.Some? ==> && start < r.value < |p| && p[r.value] == '?'
                        && forall j :: start <= j < r.value ==> !LineTerminator(p[j])
  {
    var e := LineEnd(p, start);
    if e <= start then None else LastQuestion(p, start + 1, e)
  }

  /**
   * The capture of `/\/o\/(.+)\?/` on `p` from position `i` on: the leftmost
   * '/o/' that a '?' follows on the same line, at least one character later;
   * the greedy `.+` runs to the last such '?'.
   */
  function CaptureFrom(p: string, i: nat): (r: Option<string>)
    requires i <= |p|
    ensures r.Some? ==> && r.value != []
                        && (forall c :: c in r.value ==> !LineTerminator(c))
                        && exists k :: i <= k && OccursAt(p, "/o/" + r.value + "?", k)
    decreases |p| - i
  {
    if |p| - i < 3 then None
    else if p[i..i + 3] == "/o/" && QuestionAfter(p, i + 3).Some? then
      var j := QuestionAfter(p, i + 3).value;
      var c := p[i + 3..j];
      assert p[i..j + 1] == "/o/" + c + "?";
      assert OccursAt(p, "/o/" + c + "?", i);
      Some(c)
    else CaptureFrom(p, i + 1)
  }

  /** `pathname.match(/\/o\/(.+)\?/)`, as the captured group. */
  function RegexCapture(p: string): (r: Option<string>)
    ensures r.Some? ==> '?' in p
  {
    CaptureHasQuestion(p);
    CaptureFrom(p, 0)
  }

  lemma CaptureHasQuestion(p: string)
    ensures CaptureFrom(p, 0).Some? ==> '?' in p
  {
    var r := CaptureFrom(p, 0);
    if r.Some? {
      var k :| 0 <= k && OccursAt(p, "/o/" + r.value + "?", k);
      assert p[k + |r.value| + 3] == ("/o/" + r.value + "?")[|r.value| + 3] == '?';
    }
  }

  /** Wherever '/o/', a one-line text and '?' occur in turn, the pattern matches. */
  lemma {:induction false} CaptureFromFinds(p: string, i: nat, k: nat, c: string)
    requires i <= k
    requires OccursAt(p, "/o/" + c + "?", k)
    requires c != [] && forall x :: x in c ==> !LineTerminator(x)
    ensures CaptureFrom(p, i).Some?
    decreases k - i
  {
    var w := "/o/" + c + "?";
    var j := k + 3 + |c|;
    assert p[j] == w[3 + |c|] == '?';
    if i == k {
      assert p[k..k + 3] == w[..3] == "/o/";
      forall m | k + 3 <= m < j ensures !LineTerminator(p[m]) {
        assert p[m] == w[m - k] == c[m - k - 3];
      }
      var e := LineEnd(p, k + 3);
      assert e > j;
      assert LastQuestion(p, k + 4, e).Some?;
    } else {
      assert |p| - i >= 3;
      CaptureFromFinds(p, i + 1, k, c);
    }
  }

  /** The pattern matches exactly when '/o/', a non-empty one-line text and '?' occur in turn. */
  lemma RegexCaptureIff(p: string)
    ensures RegexCapture(p).Some? <==>
      exists k, c :: && OccursAt(p, "/o/" + c + "?", k)
                     && c != [] && forall x :: x in c ==> !LineTerminator(x)
  {
    if exists k, c :: && OccursAt(p, "/o/" + c + "?", k)
                      && c != [] && forall x :: x in c ==> !LineTerminator(x) {
      var k, c :| && OccursAt(p, "/o/" + c + "?", k)
                   && c != [] && forall x :: x in c ==> !LineTerminator(x);
      CaptureFromFinds(p, 0, k, c);
    }
  }

  /** The value of a hexadecimal digit. */
  function HexValue(c: char): (r: Option<nat>)
    ensures r.Some? ==> r.value < 16
  {
    if '0' <= c <= '9' then Some(c as nat - '0' as nat)
    else if 'a' <= c <= 'f' then Some(c as nat - 'a' as nat + 10)
    else if 'A' <= c <= 'F' then Some(c as nat - 'A' as nat + 10)
    else None
  }

  /**
   * `decodeURIComponent` on escapes of ASCII characters: each '%' and two
   * hexadecimal digits stands for one character; a malformed escape throws
   * (None), and so, in this model, does an escape of a byte above 0x7F.
   */
  function DecodeUriComponent(s: string): (r: Option<string>)
    ensures '%' !in s ==> r == Some(s)
    ensures r.Some? ==> |r.value| <= |s|
    decreases |s|
  {
    if s == [] then Some([])
    else if s[0] != '%' then
      match DecodeUriComponent(s[1..])
      case None => None
      case Some(t) =>
        assert '%' !in s ==> [s[0]] + s[1..] == s;
        Some([s[0]] + t)
    else if |s| < 3 || HexValue(s[1]).None? || HexValue(s[2]).None? then None
    else
      var b := HexValue(s[1]).value * 16 + HexValue(s[2]).value;
      if b >= 0x80 then None
      else match DecodeUriComponent(s[3..])
        case None => None
        case Some(t) => Some([b as char] + t)
  }

  /** The characters `encodeURIComponent` leaves as they are. */
  predicate Unreserved(c: char)
  {
    IsAsciiLetter(c) || '0' <= c <= '9' || c in "-_.!~*'()"
  }

  /** An upper-case hexadecimal digit. */
  function HexDigit(n: nat): char
    requires n < 16
  {
    "0123456789ABCDEF"[n]
  }

  /** `encodeURIComponent` on ASCII text: every reserved character becomes '%' and two hexadecimal digits. */
  function EncodeUriComponent(s: string): (r: string)
    requires forall i :: 0 <= i < |s| ==> s[i] < '\U{0080}'
  {
    if s == [] then []
    else if Unreserved(s[0]) then [s[0]] + EncodeUriComponent(s[1..])
    else ['%', HexDigit(s[0] as nat / 16), HexDigit(s[0] as nat % 16)] + EncodeUriComponent(s[1..])
  }

  lemma HexDigitValue(n: nat)
    requires n < 16
    ensures HexValue(HexDigit(n)) == Some(n)
  {
  }

  /** Decoding one escape, then the rest. */
  lemma DecodeEscape(c: char, t: string)
    requires c < '\U{0080}'
    ensures DecodeUriComponent(['%', HexDigit(c as nat / 16), HexDigit(c as nat % 16)] + t)
         == match DecodeUriComponent(t) case None => None case Some(u) => Some([c] + u)
  {
    var n := c as nat;
    var e := ['%', HexDigit(n / 16), HexDigit(n % 16)] + t;
    HexDigitValue(n / 16);
    HexDigitValue(n % 16);
    assert e[3..] == t;
    assert HexValue(e[1]).value * 16 + HexValue(e[2]).value == n;
    assert n as char == c;
  }

  /** Decoding undoes the encoding with which storage writes an object path into its download URL. */
  lemma {:induction false} DecodeEncode(s: string)
    requires forall i :: 0 <= i < |s| ==> s[i] < '\U{0080}'
    ensures DecodeUriComponent(EncodeUriComponent(s)) == Some(s)
  {
    if s != [] {
      var t := EncodeUriComponent(s[1..]);
      DecodeEncode(s[1..]);
      if Unreserved(s[0]) {
        assert EncodeUriComponent(s) == [s[0]] + t;
        assert ([s[0]] + t)[1..] == t;
      } else {
        assert EncodeUriComponent(s) == ['%', HexDigit(s[0] as nat / 16), HexDigit(s[0] as nat % 16)] + t;
        DecodeEscape(s[0], t);
      }
      assert [s[0]] + s[1..] == s;
    }
  }

  /** `getPathFromUrl`: parse, match, decode; every failure reads as null (None). */
  function GetPathFromUrl(url: string): Option<string>
  {
    match Pathname(url)
    case None => None
    case Some(p) =>
      match RegexCapture(p)
      case None => None
      case Some(c) => DecodeUriComponent(c)
  }

  /**
   * A parsed pathname never holds '?', while the pattern needs one: the
   * function returns null for every input, parsable or not.
   */
  lemma GetPathFromUrlIsAlwaysNull(url: string)
    ensures GetPathFromUrl(url) == None
    ensures Pathname(url).Some? ==> RegexCapture(Pathname(url).value) == None
  {
  }

  /** Applied to the raw text of a download URL instead of its pathname, the pattern does find the encoded object path. */
  lemma RawUrlTextMatches()
    ensures RegexCapture("/o/a%2Fb?x") == Some("a%2Fb") && DecodeUriComponent("a%2Fb") == Some("a/b")
  {
    var raw := "/o/a%2Fb?x";
    assert raw[0..3] == "/o/";
    assert LineEnd(raw, 3) == |raw|;
    assert LastQuestion(raw, 4, |raw|) == Some(8);
    assert QuestionAfter(raw, 3) == Some(8);
    assert raw[3..8] == "a%2Fb";
    assert CaptureFrom(raw, 0) == Some("a%2Fb");
    assert DecodeUriComponent("b") == Some("b");
    assert "%2Fb"[3..] == "b";
    var esc := "%2Fb";
    assert esc[0] == '%' && esc[1] == '2' && esc[2] == 'F' && |esc| == 4;
    assert HexValue('2') == Some(2) && HexValue('F') == Some(15);
    assert (47 as char) == '/';
    assert DecodeUriComponent(esc) == Some(['/'] + "b");
    var enc := "a%2Fb";
    assert enc[0] == 'a' && enc[1..] == esc && enc != [];
    assert enc[0] != '%';
    assert ['/'] + "b" == "/b" && ['a'] + "/b" == "a/b";
    assert DecodeUriComponent(enc) == Some(['a'] + "/b");
  }
}
