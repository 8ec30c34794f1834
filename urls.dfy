/** The URL rewriting that `URLReader.fetch` applies before handing a URL to the network:
    `urllib.parse.urlparse`, `quote` on the path component, and the http -> https upgrade. */
module Urls {
  import opened Common

  /** The six components of `urlparse`'s `ParseResult`. */
  datatype Url = Url(scheme: string, netloc: string, path: string, params: string, query: string, fragment: string)

  // ---------------------------------------------------------------------------------------
  // urlparse

  predicate IsSchemeChar(c: char)
  {
    ('a' <= c <= 'z') || ('A' <= c <= 'Z') || ('0' <= c <= '9') || c == '+' || c == '-' || c == '.'
  }

  /** The schemes whose last path segment may carry `;params`. */
  const UsesParams: set<string> :=
    {"", "ftp", "hdl", "prospero", "http", "imap", "https", "shttp", "rtsp", "rtsps", "rtspu",
     "sip", "sips", "mms", "sftp", "tel"}

  predicate IsAsciiLetter(c: char)
  {
    ('a' <= c <= 'z') || ('A' <= c <= 'Z')
  }

  /** Splits off `scheme:` when the text before the first ':' starts with an ASCII letter and
      is made of scheme characters; the scheme is lower-cased. */
  function SplitScheme(url: string): (r: (string, string))
    ensures r.0 != "" ==> 'a' <= r.0[0] <= 'z' && forall k :: 0 <= k < |r.0| ==> IsSchemeChar(r.0[k])
    ensures r.0 == "" ==> r.1 == url
  {
    var i := FindFrom(url, ':', 0);
    if i > 0 && IsAsciiLetter(url[0]) && forall k :: 0 <= k < i ==> IsSchemeChar(url[k]) then
      (Lower(url[..i]), url[i + 1..])
    else ("", url)
  }

  /** The C0 control characters and space, which `urlsplit` strips from the front. */
  predicate IsControlOrSpace(c: char)
  {
    c <= ' '
  }

  /** `url.lstrip(_WHATWG_C0_CONTROL_OR_SPACE)`. */
  function StripLeading(url: string): (r: string)
    ensures |r| <= |url| && r == url[|url| - |r|..]
    ensures forall k :: 0 <= k < |url| - |r| ==> IsControlOrSpace(url[k])
    ensures r != "" ==> !IsControlOrSpace(r[0])
  {
    if url != [] && IsControlOrSpace(url[0]) then
      var r := StripLeading(url[1..]);
      assert url[1..][|url| - 1 - |r|..] == url[|url| - |r|..];
      assert forall k :: 1 <= k < |url| - |r| ==> url[k] == url[1..][k - 1];
      r
    else url
  }

  /** The characters `urlsplit` deletes wherever they appear. */
  predicate IsUnsafe(c: char)
  {
    c == '\t' || c == '\r' || c == '\n'
  }

  /** `url.replace(b, "")` for each of tab, carriage return and line feed. */
  function RemoveUnsafe(url: string): (r: string)
    ensures |r| <= |url|
    ensures forall k :: 0 <= k < |r| ==> !IsUnsafe(r[k])
  {
    if url == [] then ""
    else (if IsUnsafe(url[0]) then "" else [url[0]]) + RemoveUnsafe(url[1..])
  }

  /** `_splitnetloc(url, 2)`: the authority runs up to the first '/', '?' or '#'. */
  function SplitNetloc(url: string): (r: (string, string))
    requires |url| >= 2
    ensures '/' !in r.0 && '?' !in r.0 && '#' !in r.0
  {
    var d1 := FindFrom(url, '/', 2);
    var d2 := FindFrom(url, '?', 2);
    var d3 := FindFrom(url, '#', 2);
    var delim := Earliest(Earliest(Earliest(|url|, d1), d2), d3);
    (url[2..delim], url[delim..])
  }

  function Earliest(delim: nat, found: int): nat
  {
    if found >= 0 && found < delim then found else delim
  }

  /** `s.split(c, 1)` when `c in s`. */
  function SplitOnce(s: string, c: char): (r: (string, string))
    ensures c !in r.0
    ensures forall d :: d !in s ==> d !in r.0 && d !in r.1
  {
    var i := FindFrom(s, c, 0);
    if i < 0 then (s, "") else (s[..i], s[i + 1..])
  }

  /** `_splitparams`: the `;` is searched for only in the last path segment. */
  function SplitParams(path: string): (r: (string, string))
    ensures '#' !in path ==> '#' !in r.0 && '#' !in r.1
    ensures '?' !in path ==> '?' !in r.0 && '?' !in r.1
  {
    var slash := RFind(path, '/');
    var i := if slash >= 0 then FindFrom(path, ';', slash) else FindFrom(path, ';', 0);
    if i < 0 then (path, "") else (path[..i], path[i + 1..])
  }

  /** What `urlsplit` splits: `url` with leading control characters and spaces stripped and
      every tab, CR and LF deleted. */
  function Clean(url: string): (r: string)
  {
    RemoveUnsafe(StripLeading(url))
  }

  /** `urlparse(url)` as in Python 3.12: leading control characters and spaces stripped, tab, CR
      and LF deleted, then urlsplit followed by the params split. An authority with an
      unbalanced '[' or ']' is rejected with ValueError, as urlsplit does. */
  function Parse(url: string): (r: Result<Url>)
    ensures r.Err? ==> r.error == ValueError("Invalid IPv6 URL")
    ensures r.Ok? ==> r.value.scheme == SplitScheme(Clean(url)).0
    ensures r.Ok? ==> Delimited(r.value)
  {
    SplitUrl(Clean(url))
  }

  /** What the splitting guarantees of every parsed URL: the authority stops at the first '/',
      '?' or '#', the query at the first '#', and the path and params at the first '?'. */
  predicate Delimited(u: Url)
  {
    && '/' !in u.netloc && '?' !in u.netloc && '#' !in u.netloc
    && '?' !in u.path && '#' !in u.path
    && '?' !in u.params && '#' !in u.params
    && '#' !in u.query
  }

  /** `urlsplit` and the params split on the cleaned URL. */
  function SplitUrl(url: string): (r: Result<Url>)
    ensures r.Err? ==> r.error == ValueError("Invalid IPv6 URL")
    ensures r.Ok? ==> r.value.scheme == SplitScheme(url).0
    ensures r.Ok? ==> Delimited(r.value)
  {
    var (scheme, rest) := SplitScheme(url);
    var (netloc, rest1) := if |rest| >= 2 && rest[..2] == "//" then SplitNetloc(rest) else ("", rest);
    if ('[' in netloc && ']' !in netloc) || (']' in netloc && '[' !in netloc) then
      Err(ValueError("Invalid IPv6 URL"))
    else
      var (rest2, fragment) := SplitOnce(rest1, '#');
      var (rest3, query) := SplitOnce(rest2, '?');
      var (path, params) := if scheme in UsesParams && ';' in rest3 then SplitParams(rest3) else (rest3, "");
      Ok(Url(scheme, netloc, path, params, query, fragment))
  }

  /** A scheme that `urlparse` finds starts with a lower-case letter and is made of scheme
      characters. */
  lemma ParseScheme(url: string)
    ensures Parse(url).Ok? && Parse(url).value.scheme != "" ==>
            var scheme := Parse(url).value.scheme;
            'a' <= scheme[0] <= 'z' && forall k :: 0 <= k < |scheme| ==> IsSchemeChar(scheme[k])
  {
    var (scheme, _) := SplitScheme(Clean(url));
    assert scheme != "" ==> 'a' <= scheme[0] <= 'z';
  }

  /** Leading spaces never change what `urlparse` finds. */
  lemma ParseIgnoresLeadingSpace(url: string)
    ensures Parse(" " + url) == Parse(url)
  {
    assert (" " + url)[1..] == url;
    assert Clean(" " + url) == Clean(url);
  }

  lemma {:induction false} RemoveUnsafeAppend(a: string, b: string)
    ensures RemoveUnsafe(a + b) == RemoveUnsafe(a) + RemoveUnsafe(b)
  {
    if a != [] {
      assert (a + b)[1..] == a[1..] + b;
      RemoveUnsafeAppend(a[1..], b);
    } else {
      assert a + b == b;
    }
  }

  lemma {:induction false} RemoveUnsafeKeeps(s: string)
    requires forall k :: 0 <= k < |s| ==> !IsUnsafe(s[k])
    ensures RemoveUnsafe(s) == s
  {
    if s != [] {
      RemoveUnsafeKeeps(s[1..]);
    }
  }

  /** `rtsps` is one of the schemes whose last path segment may carry `;params`: they are split
      off into their own component. */
  lemma RtspsKeepsParams(netloc: string, path: string, params: string)
    requires '/' !in netloc && '?' !in netloc && '#' !in netloc && '[' !in netloc && ']' !in netloc
    requires path != [] && path[0] == '/' && ';' !in path && '?' !in path && '#' !in path
    requires '/' !in params && '?' !in params && '#' !in params
    ensures SplitUrl("rtsps://" + netloc + path + ";" + params) == Ok(Url("rtsps", netloc, path, params, "", ""))
  {
    var rest1 := path + ";" + params;
    var rest := "//" + netloc + rest1;
    assert "rtsps://" + netloc + path + ";" + params == "rtsps:" + rest;
    RtspsScheme(rest);
    assert '#' !in rest1 && '?' !in rest1 && ';' in rest1 by {
      assert rest1[|path|] == ';';
      assert forall k :: |path| < k < |rest1| ==> rest1[k] == params[k - |path| - 1];
    }
    AuthorityOf(netloc, rest1);
    ParamsOfLastSegment(path, params);
    RtspsUsesParams();
    SplitUrlWithParams("rtsps:" + rest, "rtsps", rest, netloc, rest1, path, params);
  }

  /** How `urlsplit` takes apart `scheme://netloc/path;params` with no query or fragment. */
  lemma SplitUrlWithParams(url: string, scheme: string, rest: string, netloc: string, rest1: string,
                           path: string, params: string)
    requires SplitScheme(url) == (scheme, rest) && |rest| >= 2 && rest[..2] == "//"
    requires SplitNetloc(rest) == (netloc, rest1) && '[' !in netloc && ']' !in netloc
    requires '#' !in rest1 && '?' !in rest1
    requires scheme in UsesParams && ';' in rest1 && SplitParams(rest1) == (path, params)
    ensures SplitUrl(url) == Ok(Url(scheme, netloc, path, params, "", ""))
  {
    assert SplitOnce(rest1, '#') == (rest1, "");
    assert SplitOnce(rest1, '?') == (rest1, "");
  }

  /** The authority of `//netloc/...` is `netloc`. */
  lemma AuthorityOf(netloc: string, rest1: string)
    requires '/' !in netloc && '?' !in netloc && '#' !in netloc
    requires rest1 != [] && rest1[0] == '/' && '?' !in rest1 && '#' !in rest1
    ensures var rest := "//" + netloc + rest1; |rest| >= 2 && rest[..2] == "//" && SplitNetloc(rest) == (netloc, rest1)
  {
    var rest := "//" + netloc + rest1;
    var n := 2 + |netloc|;
    assert rest[2..n] == netloc && rest[n..] == rest1 && rest[..2] == "//";
    assert forall k :: 2 <= k < n ==> rest[k] == netloc[k - 2];
    assert forall k :: n <= k < |rest| ==> rest[k] == rest1[k - n];
    FindFromIs(rest, '/', 2, n);
    FindFromNone(rest, '?', 2);
    FindFromNone(rest, '#', 2);
  }

  /** The params of `path;params` are split off when the path has no ';' and the params no '/'. */
  lemma ParamsOfLastSegment(path: string, params: string)
    requires path != [] && path[0] == '/' && ';' !in path && '/' !in params
    ensures SplitParams(path + ";" + params) == (path, params)
  {
    var s := path + ";" + params;
    var n := |path|;
    assert forall k :: 0 <= k < n ==> s[k] == path[k];
    assert forall k :: n < k < |s| ==> s[k] == params[k - n - 1];
    var slash := RFind(s, '/');
    assert s[0] == '/' && s[n] == ';';
    assert 0 <= slash < n;
    FindFromIs(s, ';', slash, n);
    assert s[..n] == path && s[n + 1..] == params;
  }

  lemma FindFromIs(s: string, c: char, start: nat, i: nat)
    requires start <= i < |s| && s[i] == c
    requires forall k :: start <= k < i ==> s[k] != c
    ensures FindFrom(s, c, start) == i
  {
  }

  lemma FindFromNone(s: string, c: char, start: nat)
    requires forall k :: start <= k < |s| ==> s[k] != c
    ensures FindFrom(s, c, start) == -1
  {
  }

  lemma RtspsUsesParams()
    ensures "rtsps" in UsesParams
  {
  }

  /** A lower-case scheme written in front of `:` is split off as it is. */
  lemma SplitSchemeOf(scheme: string, rest: string)
    requires scheme != [] && IsAsciiLetter(scheme[0])
    requires forall k :: 0 <= k < |scheme| ==> IsSchemeChar(scheme[k]) && !('A' <= scheme[k] <= 'Z')
    ensures SplitScheme(scheme + ":" + rest) == (scheme, rest)
  {
    var v := scheme + ":" + rest;
    var n := |scheme|;
    assert forall k :: 0 <= k < n ==> v[k] == scheme[k];
    FindFromIs(v, ':', 0, n);
    assert v[..n] == scheme && v[n + 1..] == rest;
    var l := Lower(scheme);
    assert forall k :: 0 <= k < n ==> l[k] == scheme[k];
    assert l == scheme;
  }

  lemma RtspsScheme(rest: string)
    ensures SplitScheme("rtsps:" + rest) == ("rtsps", rest)
  {
    var sc := "rtsps";
    assert sc[0] == 'r' && sc[1] == 't' && sc[2] == 's' && sc[3] == 'p' && sc[4] == 's';
    SplitSchemeOf(sc, rest);
    assert sc + ":" + rest == "rtsps:" + rest;
  }

  lemma HttpsScheme(rest: string)
    ensures SplitScheme("https:" + rest) == ("https", rest)
  {
    var sc := "https";
    assert sc[0] == 'h' && sc[1] == 't' && sc[2] == 't' && sc[3] == 'p' && sc[4] == 's';
    SplitSchemeOf(sc, rest);
    assert sc + ":" + rest == "https:" + rest;
  }

  /** An upgraded URL is read back with scheme `https`, whatever else it holds. */
  lemma UpgradedParsesAsHttps(u: Url)
    requires u.scheme == "http"
    ensures Parse(Unparse(HttpsUrlScheme(u))).Ok? ==> Parse(Unparse(HttpsUrlScheme(u))).value.scheme == "https"
  {
    var v := HttpsUrlScheme(u);
    assert v.scheme == "https";
    HttpsPrefixParses(Unparse(v));
  }

  /** A URL written `https:...` is parsed with scheme `https`. */
  lemma HttpsPrefixParses(t: string)
    requires |t| >= 6 && t[..6] == "https:"
    ensures Parse(t).Ok? ==> Parse(t).value.scheme == "https"
  {
    var head := t[..6];
    var rest := t[6..];
    assert t == head + rest;
    assert head[0] == 'h';
    CleanKeepsHead(head, rest);
    HttpsScheme(RemoveUnsafe(rest));
  }

  /** Cleaning leaves a head without control characters, spaces, tabs or line breaks alone. */
  lemma CleanKeepsHead(head: string, rest: string)
    requires head != [] && !IsControlOrSpace(head[0])
    requires forall k :: 0 <= k < |head| ==> !IsUnsafe(head[k])
    ensures Clean(head + rest) == head + RemoveUnsafe(rest)
  {
    assert (head + rest)[0] == head[0];
    assert StripLeading(head + rest) == head + rest;
    RemoveUnsafeKeeps(head);
    RemoveUnsafeAppend(head, rest);
  }

  /** `urlunparse` writes the params back after ';', and writes an empty authority for
      `itms-services`. */
  lemma UnparseExamples()
    ensures Unparse(Url("rtsps", "h", "/a", "b", "", "")) == "rtsps://h/a;b"
    ensures Unparse(Url("itms-services", "", "x", "", "", "")) == "itms-services:///x"
  {
  }

  /** `1x://h/p` has no scheme, since a scheme starts with a letter, while `x1://h/p` has. */
  lemma SchemeStartsWithLetter()
    ensures SplitScheme("1x://h/p") == ("", "1x://h/p")
    ensures SplitScheme("x1://h/p") == ("x1", "//h/p")
  {
    var v := "x1://h/p";
    assert FindFrom(v, ':', 0) == 2;
    assert v[..2] == "x1" && v[3..] == "//h/p";
    assert forall k :: 0 <= k < 2 ==> IsSchemeChar(v[k]);
    var l := Lower("x1");
    assert l[0] == 'x' && l[1] == '1';
    assert l == "x1";
  }

  lemma DropLineFeed(a: string, b: string)
    requires forall k :: 0 <= k < |a| ==> !IsUnsafe(a[k])
    requires forall k :: 0 <= k < |b| ==> !IsUnsafe(b[k])
    ensures RemoveUnsafe(a + "\n" + b) == a + b
  {
    var nl := "\n";
    assert RemoveUnsafe(nl) == [] by {
      assert nl[1..] == [];
    }
    RemoveUnsafeKeeps(a);
    RemoveUnsafeKeeps(b);
    RemoveUnsafeAppend(a, nl);
    assert RemoveUnsafe(a + nl) == a;
    RemoveUnsafeAppend(a + nl, b);
  }

  /** A leading space and a line feed inside the URL are dropped before it is split. */
  lemma CleanDropsWhitespace(a: string, b: string)
    requires a != [] && !IsControlOrSpace(a[0])
    requires forall k :: 0 <= k < |a| ==> !IsUnsafe(a[k])
    requires forall k :: 0 <= k < |b| ==> !IsUnsafe(b[k])
    ensures Clean(" " + a + "\n" + b) == a + b
  {
    var rest := a + "\n" + b;
    assert (" " + rest)[1..] == rest;
    assert " " + a + "\n" + b == " " + rest;
    assert StripLeading(rest) == rest;
    DropLineFeed(a, b);
  }

  /** The schemes that `urlunsplit` writes with a `//` authority even when it is empty. */
  const UsesNetloc: set<string> :=
    {"", "ftp", "http", "gopher", "nntp", "telnet", "imap", "wais", "file", "mms", "https", "shttp",
     "snews", "prospero", "rtsp", "rtsps", "rtspu", "rsync", "svn", "svn+ssh", "sftp", "nfs", "git",
     "git+ssh", "ws", "wss", "itms-services"}

  /** `urlunparse(u)`: the string form of a parsed URL. It starts with `scheme:` when there is a
      scheme, and ends with `#fragment`, or else `?query`, when those are present. */
  function Unparse(u: Url): (r: string)
    ensures u.scheme != "" ==> |u.scheme| < |r| && r[..|u.scheme| + 1] == u.scheme + ":"
    ensures u.fragment != "" ==> |u.fragment| < |r| && r[|r| - |u.fragment| - 1..] == "#" + u.fragment
    ensures u.fragment == "" && u.query != "" ==> |u.query| < |r| && r[|r| - |u.query| - 1..] == "?" + u.query
  {
    var url := if u.params != "" then u.path + ";" + u.params else u.path;
    var url2 := WithScheme(u.scheme, WithAuthority(u.scheme, u.netloc, url));
    var url3 := Suffixed(url2, '?', u.query);
    var r := Suffixed(url3, '#', u.fragment);
    assert u.scheme != "" ==> r[..|u.scheme| + 1] == url2[..|u.scheme| + 1] by {
      if u.scheme != "" {
        PrefixOfPrefix(r, url3, |u.scheme| + 1);
        PrefixOfPrefix(url3, url2, |u.scheme| + 1);
      }
    }
    r
  }

  /** A prefix of a prefix is a prefix. */
  lemma PrefixOfPrefix(a: string, b: string, n: nat)
    requires |b| <= |a| && a[..|b|] == b && n <= |b|
    ensures a[..n] == b[..n]
  {
    assert forall k :: 0 <= k < n ==> a[k] == a[..|b|][k];
  }

  /** `//netloc` in front of the path, when there is a netloc or the scheme always writes one. */
  function WithAuthority(scheme: string, netloc: string, url: string): string
  {
    if netloc != "" || (scheme != "" && scheme in UsesNetloc && (|url| < 2 || url[..2] != "//")) then
      "//" + netloc + (if url != "" && url[0] != '/' then "/" + url else url)
    else url
  }

  function WithScheme(scheme: string, url: string): (r: string)
    ensures scheme != "" ==> |scheme| < |r| && r[..|scheme| + 1] == scheme + ":"
  {
    if scheme != "" then scheme + ":" + url else url
  }

  /** `s + sep + part` when `part` is not empty. */
  function Suffixed(s: string, sep: char, part: string): (r: string)
    ensures |s| <= |r| && r[..|s|] == s
    ensures part != "" ==> |part| < |r| && r[|r| - |part| - 1..] == [sep] + part
    ensures part == "" ==> r == s
  {
    if part != "" then s + [sep] + part else s
  }

  // ---------------------------------------------------------------------------------------
  // quote(path): percent-encoding of section 2.1 of RFC 3986

  /** The unreserved characters of section 2.3 of RFC 3986, plus '/', which `quote` keeps. */
  predicate IsSafe(c: char)
  {
    ('a' <= c <= 'z') || ('A' <= c <= 'Z') || ('0' <= c <= '9')
    || c == '_' || c == '.' || c == '-' || c == '~' || c == '/'
  }

  /** The UTF-8 encoding of one Unicode scalar value. */
  function Utf8(c: char): (r: seq<byte>)
    ensures 1 <= |r| <= 4
    ensures (c as int < 0x80) <==> |r| == 1
    ensures |r| == 1 ==> r[0] == c as int
  {
    var cp := c as int;
    if cp < 0x80 then [cp]
    else if cp < 0x800 then [0xC0 + cp / 64, 0x80 + cp % 64]
    else if cp < 0x10000 then [0xE0 + cp / 4096, 0x80 + (cp / 64) % 64, 0x80 + cp % 64]
    else [0xF0 + cp / 262144, 0x80 + (cp / 4096) % 64, 0x80 + (cp / 64) % 64, 0x80 + cp % 64]
  }

  function Utf8Encode(s: string): seq<byte>
  {
    if s == [] then [] else Utf8(s[0]) + Utf8Encode(s[1..])
  }

  function HexDigit(d: int): (c: char)
    requires 0 <= d < 16
    ensures IsHex(c) && HexValue(c) == d
  {
    "0123456789ABCDEF"[d]
  }

  predicate IsHex(c: char)
  {
    ('0' <= c <= '9') || ('A' <= c <= 'F') || ('a' <= c <= 'f')
  }

  function HexValue(c: char): (d: int)
    requires IsHex(c)
    ensures 0 <= d < 16
  {
    if '0' <= c <= '9' then c as int - '0' as int
    else if 'A' <= c <= 'F' then c as int - 'A' as int + 10
    else c as int - 'a' as int + 10
  }

  /** `%XY` for every byte, upper-case hex digits. */
  function PercentBytes(bs: seq<byte>): (r: string)
    ensures |r| == 3 * |bs|
    ensures forall i :: 0 <= i < |r| ==> r[i] == '%' || IsHex(r[i])
  {
    if bs == [] then "" else ['%', HexDigit(bs[0] / 16), HexDigit(bs[0] % 16)] + PercentBytes(bs[1..])
  }

  /** What `quote` may emit: safe characters, '%' and hex digits. */
  predicate IsQuotedChar(c: char)
  {
    IsSafe(c) || c == '%' || IsHex(c)
  }

  /** `urllib.parse.quote(s)` with its default `safe='/'`. */
  function Quote(s: string): (r: string)
    ensures forall i :: 0 <= i < |r| ==> IsQuotedChar(r[i])
    ensures |r| >= |s|
  {
    if s == [] then ""
    else if IsSafe(s[0]) then [s[0]] + Quote(s[1..])
    else PercentBytes(Utf8(s[0])) + Quote(s[1..])
  }

  /** `urllib.parse.unquote_to_bytes`: the reference decoder that `Quote` is checked against.
      A '%' not followed by two hex digits stands for itself. */
  function PercentDecode(s: string): (r: seq<byte>)
  {
    if s == [] then []
    else if s[0] == '%' && |s| >= 3 && IsHex(s[1]) && IsHex(s[2]) then
      [HexValue(s[1]) * 16 + HexValue(s[2])] + PercentDecode(s[3..])
    else Utf8(s[0]) + PercentDecode(s[1..])
  }

  /** One `%XY` triple decodes to its byte. */
  lemma DecodeTriple(b: byte, rest: string)
    ensures PercentDecode(['%', HexDigit(b / 16), HexDigit(b % 16)] + rest) == [b] + PercentDecode(rest)
  {
    var s := ['%', HexDigit(b / 16), HexDigit(b % 16)] + rest;
    assert s[0] == '%' && s[1] == HexDigit(b / 16) && s[2] == HexDigit(b % 16);
    assert s[3..] == rest;
  }

  lemma {:induction false} PercentBytesDecode(bs: seq<byte>, rest: string)
    ensures PercentDecode(PercentBytes(bs) + rest) == bs + PercentDecode(rest)
  {
    if bs != [] {
      var b := bs[0];
      var tail := PercentBytes(bs[1..]) + rest;
      assert PercentBytes(bs) + rest == ['%', HexDigit(b / 16), HexDigit(b % 16)] + tail;
      DecodeTriple(b, tail);
      PercentBytesDecode(bs[1..], rest);
      assert bs == [b] + bs[1..];
    } else {
      assert PercentBytes(bs) + rest == rest;
    }
  }

  /** Decoding what `quote` produced gives back the UTF-8 bytes of the input: quoting loses
      nothing. */
  lemma {:induction false} QuoteRoundTrip(s: string)
    ensures PercentDecode(Quote(s)) == Utf8Encode(s)
  {
    if s != [] {
      QuoteRoundTrip(s[1..]);
      if IsSafe(s[0]) {
        assert Quote(s) == [s[0]] + Quote(s[1..]);
        assert ([s[0]] + Quote(s[1..]))[1..] == Quote(s[1..]);
      } else {
        PercentBytesDecode(Utf8(s[0]), Quote(s[1..]));
      }
    }
  }

  /** A path made only of safe characters is left as it is. */
  lemma {:induction false} QuoteSafeIsIdentity(s: string)
    requires forall i :: 0 <= i < |s| ==> IsSafe(s[i])
    ensures Quote(s) == s
  {
    if s != [] {
      QuoteSafeIsIdentity(s[1..]);
    }
  }

  /** A single unsafe ASCII character is quoted as one `%XY` triple. */
  lemma QuoteOneAscii(c: char)
    requires !IsSafe(c) && c as int < 0x80
    ensures Quote([c]) == PercentBytes([c as int])
  {
    assert [c][1..] == [];
  }

  /** '/' is kept, a space becomes %20 and '%' itself is encoded, so quoting an encoded path
      encodes it again: `quote` is not idempotent. */
  lemma QuoteExamples()
    ensures Quote("/") == "/"
    ensures Quote(" ") == "%20"
    ensures Quote("%") == "%25"
    ensures Quote(Quote("%")) == "%2525" != Quote("%")
  {
    QuoteOneAscii(' ');
    assert PercentBytes([32]) == "%20";
    QuoteOneAscii('%');
    assert PercentBytes([37]) == "%25";
    assert Quote("25") == "25";
    assert Quote("%25") == Quote("%") + Quote("25");
  }

  // ---------------------------------------------------------------------------------------
  // URLReader's rewrites

  /** `URLReader.quote_url_path`: only the path component is replaced by its quoted form. */
  function QuoteUrlPath(u: Url): (r: Url)
    ensures r.path == Quote(u.path)
    ensures r.(path := u.path) == u
  {
    u.(path := Quote(u.path))
  }

  /** `URLReader.https_url_scheme`: the scheme `http` becomes `https`; any other URL is returned
      unchanged. */
  function HttpsUrlScheme(u: Url): (r: Url)
    ensures r.scheme != "http"
    ensures u.scheme == "http" ==> r == u.(scheme := "https")
    ensures u.scheme != "http" ==> r == u
  {
    if u.scheme == "http" then u.(scheme := "https") else u
  }

  lemma HttpsUrlSchemeIdempotent(u: Url)
    ensures HttpsUrlScheme(HttpsUrlScheme(u)) == HttpsUrlScheme(u)
  {
  }

  /** `URLReader.fetch`'s two rewrites applied to the components of one parse: path quoting
      first, then the scheme upgrade, each only when its flag is set. */
  function Canonicalize(u: Url, quotePath: bool, forceHttps: bool): (r: Url)
    ensures r.path == (if quotePath then Quote(u.path) else u.path)
    ensures r.scheme == (if forceHttps && u.scheme == "http" then "https" else u.scheme)
    ensures r.netloc == u.netloc && r.params == u.params && r.query == u.query && r.fragment == u.fragment
  {
    var quoted := if quotePath then QuoteUrlPath(u) else u;
    if forceHttps then HttpsUrlScheme(quoted) else quoted
  }

  /** The two rewrites touch different components, so their order does not change the result. */
  lemma RewritesCommute(u: Url)
    ensures HttpsUrlScheme(QuoteUrlPath(u)) == QuoteUrlPath(HttpsUrlScheme(u))
  {
  }

  /** Canonicalising an already canonical URL can change it again: a '%' in the path is
      encoded on every pass. */
  lemma CanonicalizeNotIdempotent()
    ensures var u := Url("http", "example.com", "%", "", "", "");
            Canonicalize(Canonicalize(u, true, true), true, true) != Canonicalize(u, true, true)
  {
    QuoteExamples();
  }
}
