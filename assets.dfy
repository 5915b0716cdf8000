/**
 * Uploaded images: where they are stored, the public URL of a stored object,
 * how an object's path is read back out of such a URL, how upload names are
 * made, and what the upload route's POST and DELETE do with the storage.
 *
 * Storage is either the hosted bucket `uploads` (when the service URL and key
 * are both configured) or, outside the hosted deployment, the local
 * `public/uploads` directory. Both are modelled as sets of object names.
 */
module Assets {
  import opened Wrappers
  import opened Text
  import opened Json

  // ---------------------------------------------------------------------------
  // Configuration and public URLs
  // ---------------------------------------------------------------------------

  /** The environment: the storage service URL and key, and whether this is the hosted deployment. */
  datatype Env = Env(serviceUrl: Option<string>, serviceKey: Option<string>, hosted: bool)

  const Bucket := "uploads"
  const PublicPrefix := "/storage/v1/object/public/"

  /** A storage client exists only when both the URL and the key are non-empty. */
  predicate HasClient(env: Env)
  {
    env.serviceUrl.Some? && env.serviceUrl.value != [] && env.serviceKey.Some? && env.serviceKey.value != []
  }

  /** `getStoragePublicUrl`. */
  function PublicUrl(base: Option<string>, path: string): string
  {
    if base.None? || base.value == [] then path
    else
      var clean := if path != [] && path[0] == '/' then path[1..] else path;
      base.value + PublicPrefix + Bucket + "/" + clean
  }

  // ---------------------------------------------------------------------------
  // URL path names (a simplified WHATWG URL parser)
  // ---------------------------------------------------------------------------

  predicate IsAsciiLetter(c: char)
  {
    'a' <= c <= 'z' || 'A' <= c <= 'Z'
  }

  predicate IsSchemeChar(c: char)
  {
    IsAsciiLetter(c) || IsDigit(c) || c == '+' || c == '-' || c == '.'
  }

  /** A URL scheme: a letter, then letters, digits, `+`, `-` or `.`. */
  predicate IsScheme(s: string)
  {
    s != [] && IsAsciiLetter(s[0]) && forall i :: 0 <= i < |s| ==> IsSchemeChar(s[i])
  }

  function LowerAscii(c: char): char
  {
    if 'A' <= c <= 'Z' then (c as int + 32) as char else c
  }

  /** The schemes the URL standard treats as special and parses with a host, except `file`. */
  predicate IsSpecialScheme(s: string)
  {
    var l := seq(|s|, i requires 0 <= i < |s| => LowerAscii(s[i]));
    IsScheme(s) && (l == "http" || l == "https" || l == "ws" || l == "wss" || l == "ftp")
  }

  /**
   * A printable ASCII character that the URL parser keeps as it is in a
   * path: no space, control or non-ASCII character, no backslash (read as
   * `/`), and none of the characters it percent-encodes.
   */
  predicate IsPlainUrlChar(c: char)
  {
    '!' <= c <= '~' && c !in {'"', '<', '>', '\\', '^', '`', '{', '|', '}'}
  }

  predicate AllPlain(s: string)
  {
    forall i :: 0 <= i < |s| ==> IsPlainUrlChar(s[i])
  }

  predicate IsLabelChar(c: char)
  {
    IsAsciiLetter(c) || IsDigit(c) || c == '-'
  }

  /**
   * A host label the parser accepts as it is: it starts with a letter (so the
   * host never reads as an IPv4 address) and is not an `xn--` label (which
   * would be checked as Punycode).
   */
  predicate IsLabel(l: string)
  {
    l != [] && IsAsciiLetter(l[0]) && (forall i :: 0 <= i < |l| ==> IsLabelChar(l[i]))
    && !(|l| >= 4 && LowerAscii(l[0]) == 'x' && LowerAscii(l[1]) == 'n' && l[2] == '-' && l[3] == '-')
  }

  predicate IsHostName(h: string)
  {
    forall l :: l in Split(h, '.') ==> IsLabel(l)
  }

  /** A port: decimal digits, possibly none, worth at most 65535. */
  predicate IsPort(p: string)
  {
    AllDigits(p) && (p == [] || DecimalValue(p) <= 65535)
  }

  predicate IsHostChar(c: char)
  {
    IsLabelChar(c) || c == '.' || c == ':'
  }

  /** A host name of plain labels, with an optional `:` and port. */
  predicate IsPlainHost(h: string)
  {
    (forall i :: 0 <= i < |h| ==> IsHostChar(h[i]))
    && var k := IndexOfAny(h, {':'});
       IsHostName(h[..k]) && (k < |h| ==> IsPort(h[k + 1..]))
  }

  /** A path segment the parser reads as `.`: itself or `%2e`. */
  predicate IsSingleDot(s: string)
  {
    s == "." || (|s| == 3 && s[0] == '%' && s[1] == '2' && (s[2] == 'e' || s[2] == 'E'))
  }

  /** A path segment the parser resolves away: `.` or `..`, with either dot written as `%2e`. */
  predicate IsDotSegment(s: string)
  {
    IsSingleDot(s)
    || (|s| >= 1 && IsSingleDot(s[..1]) && IsSingleDot(s[1..]))
    || (|s| >= 3 && IsSingleDot(s[..3]) && IsSingleDot(s[3..]))
  }

  predicate NoDotSegments(p: string)
  {
    forall seg :: seg in Split(p, '/') ==> !IsDotSegment(seg)
  }

  /** The position of the first character of `s` in `stops`, or `|s|`. */
  function IndexOfAny(s: string, stops: set<char>): (k: nat)
    ensures k <= |s|
    ensures forall i :: 0 <= i < k ==> s[i] !in stops
    ensures k < |s| ==> s[k] in stops
  {
    if s == [] || s[0] in stops then 0 else 1 + IndexOfAny(s[1..], stops)
  }

  /**
   * `new URL(url).pathname` for URLs the parser keeps as they are: a special
   * scheme, `//`, a plain host, and a path of plain characters without dot
   * segments, running to `?` or `#` and read as `/` when empty. Any other
   * text gives `None`: either the constructor throws on it, or it would
   * rewrite the text (strip or drop blanks, turn `\` into `/`, percent-encode,
   * resolve `.` and `..`, find the host past a single `/`), which is not modelled.
   */
  function UrlPathname(url: string): (r: Option<string>)
    ensures r.Some? ==> AllPlain(url) && r.value != [] && r.value[0] == '/'
  {
    var colon := IndexOfAny(url, {':'});
    if !AllPlain(url) || colon == |url| || !IsSpecialScheme(url[..colon]) then None
    else AuthorityPath(url[colon + 1..])
  }

  /** The path after the scheme's `:`: `//`, a plain host ending at `/`, `?` or `#`, then the path. */
  function AuthorityPath(rest: string): (r: Option<string>)
    ensures r.Some? ==> r.value != [] && r.value[0] == '/'
  {
    if !StartsWith(rest, "//") then None
    else
      var afterSlashes := rest[2..];
      var hostEnd := IndexOfAny(afterSlashes, {'/', '?', '#'});
      if !IsPlainHost(afterSlashes[..hostEnd]) then None
      else PathOf(afterSlashes[hostEnd..])
  }

  /** The path that starts `tail` and runs to `?` or `#`, when it has no dot segments. */
  function PathOf(tail: string): (r: Option<string>)
    requires tail == [] || tail[0] in {'/', '?', '#'}
    ensures r.Some? ==> r.value != [] && r.value[0] == '/'
  {
    var path := tail[..IndexOfAny(tail, {'?', '#'})];
    if !NoDotSegments(path) then None
    else Some(if path == [] then "/" else path)
  }

  // ---------------------------------------------------------------------------
  // decodeURIComponent
  // ---------------------------------------------------------------------------

  /** The byte written as `%XX` at position `i`, if there is one. */
  function ByteAt(s: string, i: nat): (b: Option<nat>)
    ensures b.Some? ==> b.value < 256 && i + 3 <= |s|
  {
    if i + 3 <= |s| && s[i] == '%' && IsHex(s[i + 1]) && IsHex(s[i + 2])
    then Some(HexValue(s[i + 1]) * 16 + HexValue(s[i + 2]))
    else None
  }

  /** The low six bits of a UTF-8 continuation byte written as `%XX` at position `i`. */
  function ContAt(s: string, i: nat): (b: Option<nat>)
    ensures b.Some? ==> b.value < 64 && i + 3 <= |s|
  {
    match ByteAt(s, i)
    case Some(b) => if 0x80 <= b < 0xC0 then Some(b - 0x80) else None
    case None => None
  }

  /**
   * The character a `%`-escape sequence at the start of `s` stands for, and
   * the number of characters it takes: one to four bytes of UTF-8, rejecting
   * stray continuation bytes, overlong forms, surrogates and code points
   * above U+10FFFF, as `decodeURIComponent` does.
   */
  function PercentChar(s: string): (r: Option<(char, nat)>)
    ensures r.Some? ==> 3 <= r.value.1 <= |s|
  {
    match ByteAt(s, 0)
    case None => None
    case Some(b0) =>
      if b0 < 0x80 then Some((b0 as char, 3))
      else if 0xC0 <= b0 < 0xE0 then
        match ContAt(s, 3)
        case None => None
        case Some(c1) =>
          var cp := (b0 - 0xC0) * 64 + c1;
          if cp < 0x80 then None else Some((cp as char, 6))
      else if 0xE0 <= b0 < 0xF0 then
        match (ContAt(s, 3), ContAt(s, 6))
        case (Some(c1), Some(c2)) =>
          var cp := ((b0 - 0xE0) * 64 + c1) * 64 + c2;
          if cp < 0x800 || 0xD800 <= cp < 0xE000 then None else Some((cp as char, 9))
        case _ => None
      else if 0xF0 <= b0 < 0xF8 then
        match (ContAt(s, 3), ContAt(s, 6), ContAt(s, 9))
        case (Some(c1), Some(c2), Some(c3)) =>
          var cp := (((b0 - 0xF0) * 64 + c1) * 64 + c2) * 64 + c3;
          if cp < 0x1_0000 || cp >= 0x11_0000 then None else Some((cp as char, 12))
        case _ => None
      else None
  }

  /** `decodeURIComponent`, or `None` where it throws. */
  function DecodeUri(s: string): Option<string>
    decreases |s|
  {
    if s == [] then Some([])
    else if s[0] != '%' then
      match DecodeUri(s[1..])
      case Some(t) => Some([s[0]] + t)
      case None => None
    else
      match PercentChar(s)
      case None => None
      case Some((c, n)) =>
        match DecodeUri(s[n..])
        case Some(t) => Some([c] + t)
        case None => None
  }

  // ---------------------------------------------------------------------------
  // Object path from a public URL
  // ---------------------------------------------------------------------------

  predicate IsLineTerminator(c: char)
  {
    c == '\n' || c == '\r' || c == '\U{2028}' || c == '\U{2029}'
  }

  /**
   * The capture of `/storage/v1/object/public/[^/]+/(.+)` when the match
   * starts at position `i`: a non-empty bucket segment, `/`, and the rest of
   * the line (which must be non-empty).
   */
  function CaptureAt(p: string, i: nat): (r: Option<string>)
    requires i <= |p|
    ensures r.Some? ==> r.value != []
  {
    var s := p[i..];
    if !StartsWith(s, PublicPrefix) then None
    else
      var rest := s[|PublicPrefix|..];
      var k := IndexOfAny(rest, {'/'});
      if k == 0 || k == |rest| then None
      else
        var after := rest[k + 1..];
        var n := LineLength(after);
        if n == 0 then None else Some(after[..n])
  }

  /** The length of the first line of `s`. */
  function LineLength(s: string): (n: nat)
    ensures n <= |s|
    ensures forall i :: 0 <= i < n ==> !IsLineTerminator(s[i])
    ensures n < |s| ==> IsLineTerminator(s[n])
  {
    if s == [] || IsLineTerminator(s[0]) then 0 else 1 + LineLength(s[1..])
  }

  /** The leftmost match at position `i` or later. */
  function Search(p: string, i: nat): (r: Option<string>)
    requires i <= |p|
    decreases |p| - i
  {
    match CaptureAt(p, i)
    case Some(c) => Some(c)
    case None => if i == |p| then None else Search(p, i + 1)
  }

  /**
   * `getPathFromPublicUrl`: the decoded object path, or `None`. A path is
   * only read from a URL whose path name holds the public-object prefix, and
   * it is never longer than that path name.
   */
  function PathFromPublicUrl(url: string): (r: Option<string>)
    ensures r.Some? ==>
      UrlPathname(url).Some?
      && (exists j :: 0 <= j <= |UrlPathname(url).value| && StartsWith(UrlPathname(url).value[j..], PublicPrefix))
      && |r.value| < |UrlPathname(url).value|
  {
    match UrlPathname(url)
    case None => None
    case Some(p) =>
      match Search(p, 0)
      case None => None
      case Some(c) =>
        SearchNeedsPrefix(p, 0);
        SearchShorter(p, 0);
        DecodeShrinks(c);
        DecodeUri(c)
  }

  // ---------------------------------------------------------------------------
  // Upload names
  // ---------------------------------------------------------------------------

  /** The last path segment, with trailing `/` removed: `path.basename`. */
  function Basename(p: string): (b: string)
    ensures '/' !in b
  {
    var trimmed := p[..|p| - TrailingSlashes(p)];
    var k := LastSlash(trimmed);
    trimmed[k..]
  }

  function TrailingSlashes(p: string): (n: nat)
    ensures n <= |p|
    ensures forall i :: |p| - n <= i < |p| ==> p[i] == '/'
    ensures n < |p| ==> p[|p| - n - 1] != '/'
  {
    if p == [] || p[|p| - 1] != '/' then 0 else 1 + TrailingSlashes(p[..|p| - 1])
  }

  /** The position just after the last `/`, or 0. */
  function LastSlash(p: string): (k: nat)
    ensures k <= |p|
    ensures forall i :: k <= i < |p| ==> p[i] != '/'
    ensures k > 0 ==> p[k - 1] == '/'
  {
    if p == [] then 0 else if p[|p| - 1] == '/' then |p| else LastSlash(p[..|p| - 1])
  }

  /** The position of the last `.` in `s`, if any. */
  function LastDot(s: string): (r: Option<nat>)
    ensures r.Some? ==> r.value < |s| && s[r.value] == '.' && forall i :: r.value < i < |s| ==> s[i] != '.'
    ensures r.None? ==> '.' !in s
  {
    if s == [] then None
    else if s[|s| - 1] == '.' then Some(|s| - 1)
    else
      var r := LastDot(s[..|s| - 1]);
      assert forall i :: 0 <= i < |s| - 1 ==> s[..|s| - 1][i] == s[i];
      r
  }

  /**
   * `path.extname`: from the last `.` of the last segment to its end; empty
   * when the segment has no `.`, starts with its only leading dot run, or is `..`.
   */
  function Extname(p: string): (e: string)
    ensures e == [] || (e[0] == '.' && '/' !in e && forall i :: 0 < i < |e| ==> e[i] != '.')
  {
    var b := Basename(p);
    match LastDot(b)
    case None => ""
    case Some(i) =>
      if i == 0 || b == ".." then ""
      else
        assert forall j :: 0 < j < |b[i..]| ==> b[i..][j] == b[i + j];
        b[i..]
  }

  /** `path.extname(name) || ".jpg"`: always an extension, one `.` and no `/`. */
  function ChosenExt(fileName: string): (e: string)
    ensures e != [] && e[0] == '.' && '/' !in e && forall i :: 0 < i < |e| ==> e[i] != '.'
    ensures Extname(fileName) != [] ==> e == Extname(fileName)
  {
    var e := Extname(fileName);
    if e == [] then ".jpg" else e
  }

  /**
   * `${Date.now()}-${random}${ext}`: `now` is the clock reading and `random`
   * the characters taken from a random base-36 fraction. The name starts
   * with a digit, and with base-36 random characters its extension is the
   * one chosen for the file.
   */
  function SafeName(now: nat, random: string, fileName: string): (name: string)
    ensures name != [] && IsDigit(name[0])
    ensures (forall i :: 0 <= i < |random| ==> IsBase36(random[i])) ==> Extname(name) == ChosenExt(fileName)
  {
    var stem := NatToDecimal(now) + "-" + random;
    if forall i :: 0 <= i < |random| ==> IsBase36(random[i]) then
      StemClean(now, random);
      ExtOfPlainName(stem, ChosenExt(fileName));
      stem + ChosenExt(fileName)
    else
      stem + ChosenExt(fileName)
  }

  predicate IsBase36(c: char)
  {
    IsDigit(c) || 'a' <= c <= 'z'
  }

  // ---------------------------------------------------------------------------
  // DELETE decision
  // ---------------------------------------------------------------------------

  datatype DeleteAction =
    | DeleteRefused(status: nat, error: string)
    | RemoveObject(path: string)
    | RemoveLocalFile(name: string)

  const UrlRequired := "url 필요"
  const BadUrl := "잘못된 URL"
  const NotDeletable := "삭제할 수 없는 URL"
  const DeleteFailed := "삭제 실패"

  /** What DELETE does with a request body (`None`: the body was not JSON). */
  function DeleteDecision(env: Env, body: Option<Json>): DeleteAction
  {
    match body
    case None => DeleteRefused(500, DeleteFailed)
    case Some(b) =>
      var url := if Field(b, "url").Some? && Field(b, "url").value.JString? then Field(b, "url").value.s else "";
      if url == [] then DeleteRefused(400, UrlRequired)
      else if HasClient(env) then
        match PathFromPublicUrl(url)
        case Some(path) => if path == [] then DeleteRefused(400, BadUrl) else RemoveObject(path)
        case None => DeleteRefused(400, BadUrl)
      else if StartsWith(url, "/uploads/") then RemoveLocalFile(Basename(url))
      else DeleteRefused(400, NotDeletable)
  }

  // ---------------------------------------------------------------------------
  // The upload route
  // ---------------------------------------------------------------------------

  datatype Response =
    | Uploaded(url: string)
    | Deleted
    | Failure(status: nat, error: string)

  const StorageMissing := "스토리지가 설정되지 않았습니다. Vercel 환경 변수에 NEXT_PUBLIC_SUPABASE_URL, SUPABASE_SERVICE_ROLE_KEY를 추가하고, Supabase Storage에 'uploads' 버킷(공개)을 만든 뒤 다시 배포해 주세요."
  const NoFile := "파일이 없습니다."
  const UploadFailed := "Supabase 업로드 실패. Storage 버킷 'uploads'가 있고 공개(Public)인지 확인해 주세요."

  class UploadRoute {
    /** Object names in the hosted bucket. */
    var objects: set<string>
    /** File names in the local uploads directory. */
    var localFiles: set<string>
    const env: Env

    constructor (e: Env, initialObjects: set<string>, initialFiles: set<string>)
      ensures env == e && objects == initialObjects && localFiles == initialFiles
    {
      env := e;
      objects := initialObjects;
      localFiles := initialFiles;
    }

    /**
     * `POST /api/upload` with the file's name (`None`: no file in the form),
     * the clock reading, the random characters, and whether the storage
     * service reports an error of its own.
     */
    method Post(fileName: Option<string>, now: nat, random: string, serviceFails: bool) returns (r: Response)
      modifies this
      ensures !HasClient(env) && env.hosted ==>
        r == Failure(503, StorageMissing) && objects == old(objects) && localFiles == old(localFiles)
      ensures fileName.None? && (HasClient(env) || !env.hosted) ==>
        r == Failure(400, NoFile) && objects == old(objects) && localFiles == old(localFiles)
      ensures fileName.Some? && !HasClient(env) && !env.hosted ==>
        var name := SafeName(now, random, fileName.value);
        r == Uploaded("/uploads/" + name) && localFiles == old(localFiles) + {name} && objects == old(objects)
      ensures fileName.Some? && HasClient(env) ==>
        var name := SafeName(now, random, fileName.value);
        localFiles == old(localFiles)
        && if serviceFails || name in old(objects) then r.Failure? && r.status == 500 && objects == old(objects)
           else r == Uploaded(PublicUrl(env.serviceUrl, name)) && objects == old(objects) + {name}
    {
      if !HasClient(env) {
        if env.hosted {
          return Failure(503, StorageMissing);
        }
        if fileName.None? {
          return Failure(400, NoFile);
        }
        var name := SafeName(now, random, fileName.value);
        localFiles := localFiles + {name};
        return Uploaded("/uploads/" + name);
      }
      if fileName.None? {
        return Failure(400, NoFile);
      }
      var name := SafeName(now, random, fileName.value);
      // the upload does not overwrite an existing object
      if serviceFails || name in objects {
        return Failure(500, UploadFailed);
      }
      objects := objects + {name};
      r := Uploaded(PublicUrl(env.serviceUrl, name));
    }

    /** `DELETE /api/upload`; a failed local unlink is ignored. */
    method Delete(body: Option<Json>, serviceFails: bool) returns (r: Response)
      modifies this
      ensures match DeleteDecision(env, body)
        case DeleteRefused(status, error) =>
          r == Failure(status, error) && objects == old(objects) && localFiles == old(localFiles)
        case RemoveObject(path) =>
          localFiles == old(localFiles)
          && (serviceFails ==> r.Failure? && r.status == 500 && objects == old(objects))
          && (!serviceFails ==> r == Deleted && objects == old(objects) - {path})
        case RemoveLocalFile(name) =>
          r == Deleted && localFiles == old(localFiles) - {name} && objects == old(objects)
    {
      match DeleteDecision(env, body)
      case DeleteRefused(status, error) =>
        r := Failure(status, error);
      case RemoveObject(path) =>
        if serviceFails {
          r := Failure(500, DeleteFailed);
        } else {
          objects := objects - {path};
          r := Deleted;
        }
      case RemoveLocalFile(name) =>
        localFiles := localFiles - {name};
        r := Deleted;
    }
  }

  // ---------------------------------------------------------------------------
  // Properties
  // ---------------------------------------------------------------------------

  /** Without a service URL the path is returned as it is; with one, a single leading `/` is dropped. */
  lemma PublicUrlShape(base: Option<string>, path: string)
    ensures base.None? || base.value == [] ==> PublicUrl(base, path) == path
    ensures base.Some? && base.value != [] ==>
      PublicUrl(base, "/" + path) == base.value + "/storage/v1/object/public/uploads/" + path
      && (path == [] || path[0] != '/' ==> PublicUrl(base, path) == PublicUrl(base, "/" + path))
  {
    assert ("/" + path)[1..] == path;
  }

  /** Text without `%` decodes to itself. */
  lemma {:induction false} DecodePlain(s: string)
    requires '%' !in s
    ensures DecodeUri(s) == Some(s)
  {
    if s != [] {
      DecodePlain(s[1..]);
      assert [s[0]] + s[1..] == s;
    }
  }

  /** A decoded path is never longer than the text it came from. */
  lemma {:induction false} DecodeShrinks(s: string)
    ensures DecodeUri(s).Some? ==> |DecodeUri(s).value| <= |s|
    decreases |s|
  {
    if s != [] {
      if s[0] != '%' {
        DecodeShrinks(s[1..]);
      } else if PercentChar(s).Some? {
        DecodeShrinks(s[PercentChar(s).value.1..]);
      }
    }
  }

  /** An object path is read only from a URL whose path holds the public-object prefix. */
  lemma {:induction false} SearchNeedsPrefix(p: string, i: nat)
    requires i <= |p|
    requires Search(p, i).Some?
    ensures exists j :: i <= j <= |p| && StartsWith(p[j..], PublicPrefix)
    decreases |p| - i
  {
    if CaptureAt(p, i).None? {
      SearchNeedsPrefix(p, i + 1);
    }
  }

  /** What the pattern captures is shorter than the text it is found in. */
  lemma {:induction false} SearchShorter(p: string, i: nat)
    requires i <= |p|
    requires Search(p, i).Some?
    ensures |Search(p, i).value| < |p|
    decreases |p| - i
  {
    if CaptureAt(p, i).None? {
      SearchShorter(p, i + 1);
    }
  }

  /** Scanning for a stop character skips a prefix free of them. */
  lemma {:induction false} IndexOfAnyPrefix(a: string, b: string, stops: set<char>)
    requires forall i :: 0 <= i < |a| ==> a[i] !in stops
    requires b != [] && b[0] in stops
    ensures IndexOfAny(a + b, stops) == |a|
  {
    if a != [] {
      assert (a + b)[1..] == a[1..] + b;
      IndexOfAnyPrefix(a[1..], b, stops);
    }
  }

  /**
   * A URL made of a special scheme, a plain host and a plain path without
   * dot segments has that path as its path name.
   */
  lemma UrlPathnameOf(scheme: string, host: string, path: string)
    requires IsSpecialScheme(scheme) && IsPlainHost(host)
    requires path != [] && path[0] == '/' && NoDotSegments(path)
    requires forall i :: 0 <= i < |path| ==> IsPlainUrlChar(path[i]) && path[i] !in {'?', '#'}
    ensures UrlPathname(scheme + "://" + host + path) == Some(path)
  {
    var rest := "//" + (host + path);
    var url := scheme + "://" + host + path;
    assert url == scheme + (":" + rest);
    HostIsPlain(host);
    assert AllPlain(host) && AllPlain(path);
    SchemeSplit(scheme, rest);
    UrlIsPlain(scheme, host, path);
    AuthorityOf(host, path);
  }

  lemma UrlIsPlain(scheme: string, host: string, path: string)
    requires IsScheme(scheme) && AllPlain(host) && AllPlain(path)
    ensures AllPlain(scheme + "://" + host + path)
  {
    assert forall i :: 0 <= i < |scheme| ==> IsSchemeChar(scheme[i]);
    assert AllPlain(scheme + "://");
  }

  lemma AuthorityOf(host: string, path: string)
    requires IsPlainHost(host)
    requires forall i :: 0 <= i < |host| ==> host[i] !in {'/', '?', '#'}
    requires path != [] && path[0] == '/' && NoDotSegments(path)
    requires forall i :: 0 <= i < |path| ==> path[i] !in {'?', '#'}
    ensures AuthorityPath("//" + (host + path)) == Some(path)
  {
    var rest := "//" + (host + path);
    AuthoritySplit(host, path);
    var afterSlashes := rest[2..];
    var hostEnd := IndexOfAny(afterSlashes, {'/', '?', '#'});
    assert afterSlashes[..hostEnd] == host;
    assert PathOf(path) == Some(path);
  }

  /** The characters of a plain host are plain and end no host. */
  lemma HostIsPlain(host: string)
    requires IsPlainHost(host)
    ensures forall i :: 0 <= i < |host| ==> IsPlainUrlChar(host[i]) && host[i] !in {'/', '?', '#'}
  {
    assert forall i :: 0 <= i < |host| ==> IsHostChar(host[i]);
  }

  /** The scheme ends at the first `:`. */
  lemma SchemeSplit(scheme: string, rest: string)
    requires IsScheme(scheme)
    ensures var url := scheme + (":" + rest);
      IndexOfAny(url, {':'}) == |scheme| && url[..|scheme|] == scheme && url[|scheme| + 1..] == rest
  {
    var url := scheme + (":" + rest);
    assert forall i :: 0 <= i < |scheme| ==> scheme[i] !in {':'} by {
      forall i | 0 <= i < |scheme| ensures scheme[i] !in {':'} { assert IsSchemeChar(scheme[i]); }
    }
    IndexOfAnyPrefix(scheme, ":" + rest, {':'});
    assert url[..|scheme|] == scheme;
  }

  /** After `//`, the host runs to the path, and the path runs to the end. */
  lemma AuthoritySplit(host: string, path: string)
    requires forall i :: 0 <= i < |host| ==> host[i] !in {'/', '?', '#'}
    requires path != [] && path[0] == '/'
    requires forall i :: 0 <= i < |path| ==> path[i] !in {'?', '#'}
    ensures var rest := "//" + (host + path);
      StartsWith(rest, "//") && rest[2..] == host + path
      && IndexOfAny(host + path, {'/', '?', '#'}) == |host| && (host + path)[|host|..] == path
      && path[..IndexOfAny(path, {'?', '#'})] == path
  {
    var rest := "//" + (host + path);
    assert rest[..2] == "//";
    assert rest[2..] == host + path;
    IndexOfAnyPrefix(host, path, {'/', '?', '#'});
    assert (host + path)[|host|..] == path;
    IndexOfAnyNone(path, {'?', '#'});
    assert path[..|path|] == path;
  }

  lemma IndexOfAnyNone(s: string, stops: set<char>)
    requires forall i :: 0 <= i < |s| ==> s[i] !in stops
    ensures IndexOfAny(s, stops) == |s|
  {
  }

  /** The pattern finds the object path right after the bucket segment of a public path. */
  lemma CaptureOfPublicPath(name: string)
    requires name != [] && forall i :: 0 <= i < |name| ==> !IsLineTerminator(name[i])
    ensures Search(PublicPrefix + (Bucket + ("/" + name)), 0) == Some(name)
  {
    var rest := Bucket + ("/" + name);
    var p := PublicPrefix + rest;
    PrefixSplit(PublicPrefix, rest);
    BucketSegment(name);
    assert LineLength(name) == |name|;
    assert name[..|name|] == name;
    assert CaptureAt(p, 0) == Some(name);
  }

  lemma PrefixSplit(pre: string, r: string)
    ensures (pre + r)[0..] == pre + r && StartsWith(pre + r, pre) && (pre + r)[|pre|..] == r
  {
    assert (pre + r)[..|pre|] == pre;
  }

  lemma BucketSegment(name: string)
    ensures IndexOfAny(Bucket + ("/" + name), {'/'}) == |Bucket|
    ensures (Bucket + ("/" + name))[|Bucket| + 1..] == name
  {
    assert forall i :: 0 <= i < |Bucket| ==> Bucket[i] !in {'/'};
    IndexOfAnyPrefix(Bucket, "/" + name, {'/'});
  }

  /**
   * For a service URL made of a special scheme and a plain host only, and a
   * name that does not start with `/`, holds only plain characters and no
   * `?` or `#`, and has no dot segments, the path read from the name's
   * public URL is the name, percent-decoded.
   */
  lemma PublicUrlPath(scheme: string, host: string, name: string)
    requires IsSpecialScheme(scheme) && IsPlainHost(host)
    requires name != [] && name[0] != '/' && NoDotSegments(name)
    requires forall i :: 0 <= i < |name| ==> IsPlainUrlChar(name[i]) && name[i] !in {'?', '#'}
    ensures PathFromPublicUrl(PublicUrl(Some(scheme + "://" + host), name)) == DecodeUri(name)
  {
    PublicUrlPathname(scheme, host, name);
    PlainNoBreaks(name);
    CaptureOfPublicPath(name);
    PathFromPieces(PublicUrl(Some(scheme + "://" + host), name), PublicPrefix + (Bucket + ("/" + name)), name);
  }

  /** The path name of a public URL is the public prefix, the bucket and the name. */
  lemma PublicUrlPathname(scheme: string, host: string, name: string)
    requires IsSpecialScheme(scheme) && IsPlainHost(host)
    requires name != [] && name[0] != '/' && NoDotSegments(name)
    requires forall i :: 0 <= i < |name| ==> IsPlainUrlChar(name[i]) && name[i] !in {'?', '#'}
    ensures UrlPathname(PublicUrl(Some(scheme + "://" + host), name)) == Some(PublicPrefix + (Bucket + ("/" + name)))
  {
    var path := PublicPrefix + (Bucket + ("/" + name));
    PublicUrlIs(scheme + "://" + host, name);
    assert scheme + "://" + host + path == (scheme + "://" + host) + path;
    ObjectPathClean(name);
    ObjectPathNoDots(name);
    ObjectPathPlain(name);
    UrlPathnameOf(scheme, host, path);
  }

  lemma PlainNoBreaks(name: string)
    requires forall i :: 0 <= i < |name| ==> IsPlainUrlChar(name[i])
    ensures forall i :: 0 <= i < |name| ==> !IsLineTerminator(name[i])
  {
  }

  lemma PathFromPieces(url: string, p: string, c: string)
    requires UrlPathname(url) == Some(p) && Search(p, 0) == Some(c)
    ensures PathFromPublicUrl(url) == DecodeUri(c)
  {
  }

  lemma ObjectPathPlain(name: string)
    requires AllPlain(name)
    ensures AllPlain(PublicPrefix + (Bucket + ("/" + name)))
  {
    Assoc4(PublicPrefix, Bucket, "/", name);
    assert AllPlain(PublicPrefix + Bucket + "/");
  }

  /** The fixed part of a public path adds no dot segment. */
  lemma ObjectPathNoDots(name: string)
    requires NoDotSegments(name)
    ensures NoDotSegments(PublicPrefix + (Bucket + ("/" + name)))
  {
    var fixed := PublicPrefix + Bucket;
    assert PublicPrefix + (Bucket + ("/" + name)) == fixed + ['/'] + name;
    SplitAppend(fixed, name, '/');
    PiecesAvoid(fixed, '/', '.');
    PiecesAvoid(fixed, '/', '%');
    forall seg | seg in Split(fixed, '/') ensures !IsDotSegment(seg) {
      if IsDotSegment(seg) {
        DotSegmentStart(seg);
      }
    }
  }

  /** A dot segment starts with `.` or `%`. */
  lemma DotSegmentStart(s: string)
    requires IsDotSegment(s)
    ensures s != [] && (s[0] == '.' || s[0] == '%') && s[0] in s
  {
    if !IsSingleDot(s) {
      if |s| >= 1 && IsSingleDot(s[..1]) && IsSingleDot(s[1..]) {
        assert s[0] == s[..1][0];
      } else {
        assert s[0] == s[..3][0];
      }
    }
  }

  /** The pieces of a split hold no character the whole text lacks. */
  lemma {:induction false} PiecesAvoid(s: string, sep: char, c: char)
    requires c !in s
    ensures forall piece :: piece in Split(s, sep) ==> c !in piece
  {
    if s != [] {
      PiecesAvoid(s[1..], sep, c);
      var rest := Split(s[1..], sep);
      if s[0] != sep {
        assert forall piece :: piece in rest[1..] ==> piece in rest;
        assert c !in [s[0]] + rest[0];
      }
    }
  }

  lemma PublicUrlIs(base: string, name: string)
    requires base != [] && (name == [] || name[0] != '/')
    ensures PublicUrl(Some(base), name) == base + (PublicPrefix + (Bucket + ("/" + name)))
  {
    Assoc4(PublicPrefix, Bucket, "/", name);
  }

  lemma ObjectPathClean(name: string)
    requires forall i :: 0 <= i < |name| ==> name[i] !in {'?', '#'}
    ensures var path := PublicPrefix + (Bucket + ("/" + name));
      path != [] && path[0] == '/' && forall i :: 0 <= i < |path| ==> path[i] !in {'?', '#'}
  {
    Assoc4(PublicPrefix, Bucket, "/", name);
    FixedPartClean();
    NoStopsAppend(PublicPrefix + Bucket + "/", name, {'?', '#'});
  }

  lemma Assoc4(a: string, b: string, c: string, d: string)
    ensures a + b + c + d == a + (b + (c + d))
  {
  }

  lemma FixedPartClean()
    ensures forall i :: 0 <= i < |PublicPrefix + Bucket + "/"| ==> (PublicPrefix + Bucket + "/")[i] !in {'?', '#'}
  {
  }

  lemma NoStopsAppend(a: string, b: string, stops: set<char>)
    requires forall i :: 0 <= i < |a| ==> a[i] !in stops
    requires forall i :: 0 <= i < |b| ==> b[i] !in stops
    ensures forall i :: 0 <= i < |a + b| ==> (a + b)[i] !in stops
  {
  }

  /**
   * The round trip DELETE relies on: for a service URL made of a special
   * scheme and a plain host only, the object path read from the public URL
   * of a name that does not start with `/`, has no dot segments and holds
   * only plain characters other than `?`, `#` and `%` is the name.
   */
  lemma PathRoundTrip(scheme: string, host: string, name: string)
    requires IsSpecialScheme(scheme) && IsPlainHost(host)
    requires name != [] && name[0] != '/' && NoDotSegments(name)
    requires forall i :: 0 <= i < |name| ==> IsPlainUrlChar(name[i]) && name[i] !in {'?', '#', '%'}
    ensures PathFromPublicUrl(PublicUrl(Some(scheme + "://" + host), name)) == Some(name)
  {
    PublicUrlPath(scheme, host, name);
    DecodePlain(name);
  }

  /**
   * The round trip for generated names: with base-36 random characters and
   * an extension of plain characters other than `?`, `#` and `%`, the
   * object path read back from a generated name's public URL is the name.
   */
  lemma SafeNameRoundTrip(now: nat, random: string, fileName: string, scheme: string, host: string)
    requires IsSpecialScheme(scheme) && IsPlainHost(host)
    requires forall i :: 0 <= i < |random| ==> IsBase36(random[i])
    requires forall i :: 0 <= i < |Extname(fileName)| ==>
      IsPlainUrlChar(Extname(fileName)[i]) && Extname(fileName)[i] !in {'?', '#', '%'}
    ensures PathFromPublicUrl(PublicUrl(Some(scheme + "://" + host), SafeName(now, random, fileName)))
      == Some(SafeName(now, random, fileName))
  {
    SafeNameClean(now, random, fileName);
    PathRoundTrip(scheme, host, SafeName(now, random, fileName));
  }

  /** A generated name meets the conditions of the round trip. */
  lemma SafeNameClean(now: nat, random: string, fileName: string)
    requires forall i :: 0 <= i < |random| ==> IsBase36(random[i])
    requires forall i :: 0 <= i < |Extname(fileName)| ==>
      IsPlainUrlChar(Extname(fileName)[i]) && Extname(fileName)[i] !in {'?', '#', '%'}
    ensures var name := SafeName(now, random, fileName);
      name != [] && name[0] != '/' && NoDotSegments(name)
      && forall i :: 0 <= i < |name| ==> IsPlainUrlChar(name[i]) && name[i] !in {'?', '#', '%'}
  {
    var stem := NatToDecimal(now) + "-" + random;
    var ext := ChosenExt(fileName);
    var name := SafeName(now, random, fileName);
    assert name == stem + ext;
    StemClean(now, random);
    assert forall i :: 0 <= i < |ext| ==> IsPlainUrlChar(ext[i]) && ext[i] !in {'?', '#', '%'};
    assert forall i :: 0 <= i < |name| ==> IsPlainUrlChar(name[i]) && name[i] !in {'?', '#', '%'} by {
      forall i | 0 <= i < |name| ensures IsPlainUrlChar(name[i]) && name[i] !in {'?', '#', '%'} {
        if i >= |stem| { assert name[i] == ext[i - |stem|]; }
      }
    }
    NoSlashJoin(stem, ext);
    assert NoDotSegments(name) by {
      SplitWithoutSeparator(name, '/');
      if IsDotSegment(name) {
        DotSegmentStart(name);
      }
    }
  }

  lemma NoSlashJoin(a: string, b: string)
    requires '/' !in a && '/' !in b
    ensures '/' !in a + b
  {
    forall i | 0 <= i < |a + b| ensures (a + b)[i] != '/' {
      if i < |a| { assert (a + b)[i] == a[i] && a[i] in a; }
      else { assert (a + b)[i] == b[i - |a|] && b[i - |a|] in b; }
    }
  }

  /**
   * The part of a generated name before its extension holds no `/` and no
   * `.`, and only plain URL characters other than `?`, `#` and `%`.
   */
  lemma StemClean(now: nat, random: string)
    requires forall i :: 0 <= i < |random| ==> IsBase36(random[i])
    ensures var stem := NatToDecimal(now) + "-" + random;
      stem != [] && '/' !in stem && '.' !in stem
      && forall i :: 0 <= i < |stem| ==> IsPlainUrlChar(stem[i]) && stem[i] !in {'?', '#', '%'}
  {
    var digits := NatToDecimal(now);
    var stem := digits + "-" + random;
    forall i | 0 <= i < |stem|
      ensures stem[i] != '/' && stem[i] != '.' && IsPlainUrlChar(stem[i]) && stem[i] !in {'?', '#', '%'}
    {
      if i < |digits| { assert IsDigit(stem[i]); }
      else if i > |digits| { assert IsBase36(random[i - |digits| - 1]); }
    }
  }

  /** A name without `/` is its own base name. */
  lemma BasenameOfPlain(n: string)
    requires '/' !in n
    ensures Basename(n) == n
  {
    assert TrailingSlashes(n) == 0;
    assert n[..|n|] == n;
    assert LastSlash(n) == 0;
  }

  /** A stem free of `/` and `.` followed by an extension has that extension. */
  lemma ExtOfPlainName(stem: string, ext: string)
    requires stem != [] && '/' !in stem && '.' !in stem
    requires ext != [] && ext[0] == '.' && '/' !in ext && forall i :: 0 < i < |ext| ==> ext[i] != '.'
    ensures Extname(stem + ext) == ext
  {
    var n := stem + ext;
    BasenameOfPlain(n);
    LastDotOfExt(stem, ext);
    assert n[|stem|..] == ext;
    assert n[0] == stem[0] && stem[0] in stem;
  }

  lemma LastDotOfExt(stem: string, ext: string)
    requires '.' !in stem
    requires ext != [] && ext[0] == '.' && forall i :: 0 < i < |ext| ==> ext[i] != '.'
    ensures LastDot(stem + ext) == Some(|stem|)
  {
    var n := stem + ext;
    assert n[|stem|] == '.';
  }

  /** A name without an extension is stored with `.jpg`. */
  lemma JpgFallback(fileName: string)
    requires '.' !in fileName
    ensures ChosenExt(fileName) == ".jpg"
  {
    var b := Basename(fileName);
    var trimmed := fileName[..|fileName| - TrailingSlashes(fileName)];
    assert '.' !in b by {
      forall i | 0 <= i < |b| ensures b[i] != '.' {
        assert b[i] == trimmed[LastSlash(trimmed) + i];
        assert trimmed[LastSlash(trimmed) + i] == fileName[LastSlash(trimmed) + i];
      }
    }
  }

  /**
   * DELETE: a missing, non-string or empty url is refused with 400; with a
   * storage client, so is a URL no object path can be read from; without
   * one, only `/uploads/` URLs are accepted, and the local file removed is
   * the URL's last segment, which holds no `/`.
   */
  lemma DeleteCases(env: Env, b: Json)
    ensures !(Field(b, "url").Some? && Field(b, "url").value.JString? && Field(b, "url").value.s != []) ==>
      DeleteDecision(env, Some(b)) == DeleteRefused(400, UrlRequired)
    ensures var url := Field(b, "url");
      (url.Some? && url.value.JString? && url.value.s != [] && HasClient(env)
      && PathFromPublicUrl(url.value.s).None?) ==> DeleteDecision(env, Some(b)) == DeleteRefused(400, BadUrl)
    ensures var url := Field(b, "url");
      url.Some? && url.value.JString? && url.value.s != [] && !HasClient(env) ==>
        (StartsWith(url.value.s, "/uploads/") ==>
          DeleteDecision(env, Some(b)) == RemoveLocalFile(Basename(url.value.s)))
        && (!StartsWith(url.value.s, "/uploads/") ==> DeleteDecision(env, Some(b)) == DeleteRefused(400, NotDeletable))
    ensures DeleteDecision(env, Some(b)).RemoveLocalFile? ==> '/' !in DeleteDecision(env, Some(b)).name
    ensures DeleteDecision(env, Some(b)).RemoveObject? ==> HasClient(env) && DeleteDecision(env, Some(b)).path != []
  {
  }

  lemma DecodeEscapedA()
    ensures DecodeUri("%41") == Some("A")
  {
    var t := "%41";
    assert t[0] == '%' && t[1] == '4' && t[2] == '1';
    assert HexValue('4') == 4 && HexValue('1') == 1;
    assert ByteAt(t, 0) == Some(0x41);
    assert (0x41 as char) == 'A';
    assert PercentChar(t) == Some(('A', 3));
    assert t[3..] == [];
    assert DecodeUri(t[3..]) == Some([]);
    assert ['A'] + [] == "A";
  }

  /** Decoding passes over a prefix without `%`. */
  lemma {:induction false} DecodePlainPrefix(a: string, b: string)
    requires '%' !in a
    ensures DecodeUri(a + b) == if DecodeUri(b).Some? then Some(a + DecodeUri(b).value) else None
  {
    if a != [] {
      assert (a + b)[1..] == a[1..] + b;
      DecodePlainPrefix(a[1..], b);
      if DecodeUri(b).Some? {
        assert [a[0]] + (a[1..] + DecodeUri(b).value) == a + DecodeUri(b).value;
      }
    } else {
      assert a + b == b;
      if DecodeUri(b).Some? {
        assert a + DecodeUri(b).value == DecodeUri(b).value;
      }
    }
  }

  lemma ExampleName()
    ensures NoDotSegments("1-a.%41")
    ensures forall i :: 0 <= i < |"1-a.%41"| ==> IsPlainUrlChar("1-a.%41"[i]) && "1-a.%41"[i] !in {'?', '#'}
  {
    SplitWithoutSeparator("1-a.%41", '/');
  }

  /** `https://h` is a service URL of a special scheme and a plain host. */
  lemma ExampleService()
    ensures IsSpecialScheme("https") && IsPlainHost("h")
  {
    var s := "https";
    assert seq(|s|, i requires 0 <= i < |s| => LowerAscii(s[i])) == s;
    assert IndexOfAny("h", {':'}) == 1;
    assert "h"[..1] == "h";
    SplitWithoutSeparator("h", '.');
  }

  /**
   * A name holding `%` is never read back as itself from its public URL:
   * either decoding fails, or the escape is decoded and the path is shorter.
   */
  lemma PercentBreaksRoundTrip(scheme: string, host: string, name: string)
    requires IsSpecialScheme(scheme) && IsPlainHost(host)
    requires name != [] && name[0] != '/' && NoDotSegments(name)
    requires forall i :: 0 <= i < |name| ==> IsPlainUrlChar(name[i]) && name[i] !in {'?', '#'}
    requires '%' in name
    ensures PathFromPublicUrl(PublicUrl(Some(scheme + "://" + host), name)) != Some(name)
  {
    PublicUrlPath(scheme, host, name);
    DecodeShrinksStrictly(name);
  }

  /** Decoding text with `%` either fails or makes it shorter. */
  lemma {:induction false} DecodeShrinksStrictly(s: string)
    requires '%' in s
    ensures DecodeUri(s).Some? ==> |DecodeUri(s).value| < |s|
    decreases |s|
  {
    if s[0] != '%' {
      assert '%' in s[1..] by {
        var k :| 0 <= k < |s| && s[k] == '%';
        assert s[1..][k - 1] == '%';
      }
      DecodeShrinksStrictly(s[1..]);
    } else if PercentChar(s).Some? {
      DecodeShrinks(s[PercentChar(s).value.1..]);
    }
  }

  /** For example, the stored name `1-a.%41` is read back as `1-a.A`. */
  lemma EscapedNameExample()
    ensures PathFromPublicUrl(PublicUrl(Some("https://h"), "1-a.%41")) == Some("1-a.A")
  {
    assert "https" + "://" + "h" == "https://h";
    ExampleService();
    ExampleName();
    PublicUrlPath("https", "h", "1-a.%41");
    ExampleDecodes();
  }

  lemma ExampleDecodes()
    ensures DecodeUri("1-a.%41") == Some("1-a.A")
  {
    DecodeEscapedA();
    assert "1-a.%41" == "1-a." + "%41";
    DecodePlainPrefix("1-a.", "%41");
    assert "1-a." + "A" == "1-a.A";
  }
}
