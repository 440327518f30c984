/** The string handling of app.py: the sound file's extension taken from its URL
    (getFileExtension, with the parts of urllib.parse it relies on) and the observation
    identifier and API URL taken from an observation URL. */
module Urls {
  import opened Strings

  // ---------------------------------------------------------------------------
  // urllib.parse.urlparse, as far as its `path` component goes

  predicate IsAsciiLetter(c: char) {
    'a' <= c <= 'z' || 'A' <= c <= 'Z'
  }

  /** The characters a URL scheme may consist of. */
  predicate IsSchemeChar(c: char) {
    IsAsciiLetter(c) || IsDigit(c) || c == '+' || c == '-' || c == '.'
  }

  function AsciiLower(s: string): (r: string)
    ensures |r| == |s|
  {
    seq(|s|, i requires 0 <= i < |s| => if 'A' <= s[i] <= 'Z' then (s[i] as int + 32) as char else s[i])
  }

  /** The schemes for which urlparse splits ";params" off the last path segment. */
  const UsesParams: set<string> :=
    {"", "ftp", "hdl", "prospero", "http", "imap", "https", "shttp", "rtsp", "rtsps",
     "rtspu", "sip", "sips", "mms", "sftp", "tel"}

  /** The scheme step of urlsplit: "<scheme>:" is split off when the text before the first
      ':' is a non-empty run of scheme characters that starts with an ASCII letter; the
      scheme is lower-cased. Returns the scheme and the rest of the URL. */
  function SplitScheme(url: string): (string, string)
  {
    var i := IndexOf(url, ':');
    if i > 0 && IsScheme(url[..i]) then (AsciiLower(url[..i]), url[i + 1..]) else ("", url)
  }

  /** An ASCII letter followed by scheme characters. */
  predicate IsScheme(s: string) {
    |s| > 0 && IsAsciiLetter(s[0]) && forall j | 0 <= j < |s| :: IsSchemeChar(s[j])
  }

  /** The authority step of urlsplit: after a leading "//" the network location runs up to
      the first '/', '?' or '#'. Returns what follows the network location. */
  function AfterNetloc(rest: string): string
  {
    if |rest| >= 2 && rest[0] == '/' && rest[1] == '/'
    then rest[FindAnyFrom(rest, 2, {'/', '?', '#'})..]
    else rest
  }

  /** `s.split(c, 1)[0]`: the text before the first `c`, or all of `s`. */
  function BeforeFirst(s: string, c: char): (r: string)
    ensures c !in r
    ensures c !in s ==> r == s
    ensures c in s ==> |r| < |s| && s[|r|] == c && r == s[..|r|]
  {
    var i := IndexOf(s, c);
    if i < 0 then s else s[..i]
  }

  /** urlparse's `_splitparams`: ";params" is cut off the last path segment, or at the first
      ';' when the path has no '/'. */
  function StripParams(path: string): (r: string)
    requires ';' in path
    ensures |r| <= |path| && r == path[..|r|]
  {
    var slash := LastIndexOf(path, '/');
    var start := if slash >= 0 then slash else 0;
    var semi := IndexOf(path[start..], ';');
    if semi < 0 then path else path[..start + semi]
  }

  /** `urlparse(url).path`: the scheme and the network location are split off, then the
      fragment (from the first '#'), then the query (from the first '?'), then the
      parameters for the schemes that have them. */
  function UrlPath(url: string): (path: string)
    ensures '?' !in path && '#' !in path
  {
    var split := SplitScheme(url);
    var p := CutFragmentAndQuery(AfterNetloc(split.1));
    if split.0 in UsesParams && ';' in p then StripParams(p) else p
  }

  /** The text before the fragment, and then before the query. */
  function CutFragmentAndQuery(s: string): (r: string)
    ensures '?' !in r && '#' !in r
  {
    BeforeFirst(BeforeFirst(s, '#'), '?')
  }

  // ---------------------------------------------------------------------------
  // urllib.parse.unquote

  predicate IsHexDigit(c: char) {
    '0' <= c <= '9' || 'a' <= c <= 'f' || 'A' <= c <= 'F'
  }

  function HexValue(c: char): (v: nat)
    requires IsHexDigit(c)
    ensures v < 16
  {
    if '0' <= c <= '9' then c as int - '0' as int
    else if 'a' <= c <= 'f' then c as int - 'a' as int + 10
    else c as int - 'A' as int + 10
  }

  /** `unquote(s)`: every "%XX" with two hexadecimal digits becomes the character with that
      code; a '%' not followed by two hexadecimal digits is kept. */
  function Unquote(s: string): (r: string)
    ensures |r| <= |s|
    decreases |s|
  {
    if |s| == 0 then []
    else if IsEscape(s) then [EscapedChar(s[1], s[2])] + Unquote(s[3..])
    else [s[0]] + Unquote(s[1..])
  }

  /** `s` starts with '%' and two hexadecimal digits. */
  predicate IsEscape(s: string) {
    |s| >= 3 && s[0] == '%' && IsHexDigit(s[1]) && IsHexDigit(s[2])
  }

  /** The character whose code the two hexadecimal digits spell. */
  function EscapedChar(hi: char, lo: char): char
    requires IsHexDigit(hi) && IsHexDigit(lo)
  {
    (16 * HexValue(hi) + HexValue(lo)) as char
  }

  // ---------------------------------------------------------------------------
  // getFileExtension

  /** The extension of the file a URL names: the percent-decoded path's text after its last
      '.', with its case kept, or "" when the path has no '.'. */
  function GetFileExtension(url: string): (ext: string)
    ensures '.' !in ext
    ensures '.' !in DecodedPath(url) ==> ext == ""
    ensures '.' in DecodedPath(url) ==> DotSuffix(DecodedPath(url), ext)
  {
    AfterLastDot(DecodedPath(url))
  }

  /** The URL's path with its percent-escapes decoded: the text the extension is searched in. */
  function DecodedPath(url: string): string
  {
    Unquote(UrlPath(url))
  }

  /** `path[path.rfind('.') + 1:]`, or "" when there is no '.'. */
  function AfterLastDot(path: string): (ext: string)
    ensures '.' !in ext
    ensures '.' !in path ==> ext == ""
    ensures '.' in path ==> DotSuffix(path, ext)
  {
    var extStart := LastIndexOf(path, '.');
    if extStart == -1 then "" else path[extStart + 1..]
  }

  /** `path` ends with a '.' followed by `ext`. */
  predicate DotSuffix(path: string, ext: string) {
    |ext| < |path| && path[|path| - |ext| - 1] == '.' && path[|path| - |ext|..] == ext
  }

  // ---------------------------------------------------------------------------
  // The observation identifier and the API URL

  const ApiPrefix := "https://api.inaturalist.org/v1/observations/"

  /** The text after the last '/' of the observation URL, or all of it. */
  function ObservationId(observationUrl: string): (id: string)
    ensures '/' !in id
    ensures '/' !in observationUrl ==> id == observationUrl
    ensures '/' in observationUrl ==>
      && |id| < |observationUrl|
      && observationUrl[|observationUrl| - |id| - 1] == '/'
      && observationUrl[|observationUrl| - |id|..] == id
  {
    var lastSlashIndex := LastIndexOf(observationUrl, '/');
    observationUrl[lastSlashIndex + 1..]
  }

  /** The iNaturalist API URL that the observation is fetched from. */
  function ApiUrl(observationUrl: string): string
  {
    ApiPrefix + ObservationId(observationUrl)
  }
}

/** What the URL functions promise: the extension ignores everything but the path, the
    extension is the path's unique dot-free tail, and the API URL names the same observation. */
module UrlProperties {
  import opened Strings
  import opened Urls

  const PathEnd: set<char> := {'/', '?', '#'}

  lemma SplitSchemeAppend(u: string, c: char, t: string)
    requires c == '?' || c == '#'
    ensures SplitScheme(u + [c] + t) == (SplitScheme(u).0, SplitScheme(u).1 + [c] + t)
  {
    var v := u + [c] + t;
    assert v == u + ([c] + t);
    IndexOfAppend(u, [c] + t, ':');
    if ':' in u {
      SchemeFoundBeforeAppend(u, [c] + t);
      var rest := SplitScheme(u).1;
      assert rest + ([c] + t) == rest + [c] + t;
    } else {
      NoSchemeBeforeAppend(u, c, t);
    }
  }

  lemma NoSchemeBeforeAppend(u: string, c: char, t: string)
    requires c == '?' || c == '#'
    requires ':' !in u
    ensures SplitScheme(u + [c] + t) == ("", u + [c] + t)
    ensures SplitScheme(u) == ("", u)
  {
    var v := u + [c] + t;
    assert v == u + ([c] + t);
    IndexOfAppend(u, [c] + t, ':');
    var i := IndexOf(v, ':');
    if i > 0 {
      assert v[..i][|u|] == c;
    }
  }

  lemma SchemeFoundBeforeAppend(u: string, y: string)
    requires ':' in u
    requires IndexOf(u + y, ':') == IndexOf(u, ':')
    ensures SplitScheme(u + y) == (SplitScheme(u).0, SplitScheme(u).1 + y)
  {
    var i := IndexOf(u, ':');
    assert (u + y)[..i] == u[..i];
    assert (u + y)[i + 1..] == u[i + 1..] + y;
  }

  lemma AfterNetlocAppend(rest: string, c: char, t: string)
    requires c == '?' || c == '#'
    ensures AfterNetloc(rest + [c] + t) == AfterNetloc(rest) + [c] + t
  {
    var v := rest + [c] + t;
    if |rest| >= 2 && rest[0] == '/' && rest[1] == '/' {
      var d := FindAnyFrom(rest, 2, PathEnd);
      var e := FindAnyFrom(v, 2, PathEnd);
      assert v[d] in PathEnd;
      assert e == d;
      assert v[d..] == rest[d..] + [c] + t;
    } else {
      assert |rest| < 2 ==> |v| < 2 || v[1] == c || v[0] == c;
    }
  }

  lemma BeforeFirstAppend(x: string, y: string, c: char)
    ensures c in x ==> BeforeFirst(x + y, c) == BeforeFirst(x, c)
    ensures c !in x ==> BeforeFirst(x + y, c) == x + BeforeFirst(y, c)
  {
    IndexOfAppend(x, y, c);
    if c in x {
      assert (x + y)[..IndexOf(x, c)] == x[..IndexOf(x, c)];
    } else if c in y {
      assert (x + y)[..|x| + IndexOf(y, c)] == x + y[..IndexOf(y, c)];
    }
  }

  lemma CutFragmentAndQueryAppend(x: string, c: char, t: string)
    requires c == '?' || c == '#'
    ensures CutFragmentAndQuery(x + [c] + t) == CutFragmentAndQuery(x)
  {
    assert x + [c] + t == x + ([c] + t);
    BeforeFirstAppend(x, [c] + t, '#');
    if '#' !in x {
      if c == '#' {
        assert BeforeFirst([c] + t, '#') == [];
        assert x + [] == x;
      } else {
        var y := BeforeFirst([c] + t, '#');
        assert y[0] == '?';
        BeforeFirstAppend(x, y, '?');
        if '?' !in x {
          assert BeforeFirst(y, '?') == [];
          assert x + [] == x;
        }
      }
    }
  }

  /** The path, and so the extension, never depends on a query string or fragment appended
      to the URL. */
  lemma {:induction false} UrlPathIgnoresQueryAndFragment(u: string, c: char, t: string)
    requires c == '?' || c == '#'
    ensures UrlPath(u + [c] + t) == UrlPath(u)
  {
    SplitSchemeAppend(u, c, t);
    var rest := SplitScheme(u).1;
    AfterNetlocAppend(rest, c, t);
    CutFragmentAndQueryAppend(AfterNetloc(rest), c, t);
  }

  /** Hence a query string or fragment never changes the extension. */
  lemma ExtensionIgnoresQueryAndFragment(u: string, c: char, t: string)
    requires c == '?' || c == '#'
    ensures GetFileExtension(u + [c] + t) == GetFileExtension(u)
  {
    UrlPathIgnoresQueryAndFragment(u, c, t);
  }

  /** The first index at or after `start` holding one of `cs` is the one every earlier index
      lacks. */
  lemma FindAnyFromAt(s: string, start: nat, cs: set<char>, k: nat)
    requires start <= k <= |s|
    requires forall i | start <= i < k :: s[i] !in cs
    requires k == |s| || s[k] in cs
    ensures FindAnyFrom(s, start, cs) == k
  {
  }

  /** A valid scheme followed by ':' is split off. */
  lemma SplitSchemeOf(scheme: string, rest: string)
    requires IsScheme(scheme)
    ensures SplitScheme(scheme + ":" + rest).1 == rest
  {
    var url := scheme + ":" + rest;
    assert url == scheme + (":" + rest);
    assert ':' !in scheme by {
      forall j | 0 <= j < |scheme|
        ensures scheme[j] != ':'
      {
        assert IsSchemeChar(scheme[j]);
      }
    }
    IndexOfAppend(scheme, ":" + rest, ':');
    assert IndexOf(url, ':') == |scheme|;
    assert url[..|scheme|] == scheme && url[|scheme| + 1..] == rest;
  }

  /** A network location without '/', '?' or '#' is split off up to the path. */
  lemma AfterNetlocOf(host: string, rest: string)
    requires '/' !in host && '?' !in host && '#' !in host
    requires rest == [] || rest[0] in PathEnd
    ensures AfterNetloc("//" + host + rest) == rest
  {
    var s := "//" + host + rest;
    var k := 2 + |host|;
    assert forall i | 2 <= i < k :: s[i] == host[i - 2];
    FindAnyFromAt(s, 2, PathEnd, k);
    assert s[k..] == rest;
  }

  /** A path followed by a query or a fragment, or by nothing, is cut back to the path. */
  lemma CutFragmentAndQueryOf(path: string, tail: string)
    requires '?' !in path && '#' !in path
    requires tail == [] || tail[0] == '?' || tail[0] == '#'
    ensures CutFragmentAndQuery(path + tail) == path
  {
    if tail == [] {
      assert path + tail == path;
    } else {
      assert path + tail == path + [tail[0]] + tail[1..];
      CutFragmentAndQueryAppend(path, tail[0], tail[1..]);
    }
  }

  /** For a URL of the form `scheme://host/path?query#fragment`, the path component is exactly
      the text between the network location and the query or fragment. */
  lemma UrlPathOfAuthorityUrl(scheme: string, host: string, path: string, tail: string)
    requires IsScheme(scheme)
    requires '/' !in host && '?' !in host && '#' !in host
    requires path == [] || path[0] == '/'
    requires '?' !in path && '#' !in path && ';' !in path
    requires tail == [] || tail[0] == '?' || tail[0] == '#'
    ensures UrlPath(scheme + "://" + host + path + tail) == path
  {
    var rest := "//" + host + (path + tail);
    assert scheme + "://" + host + path + tail == scheme + ":" + rest;
    SplitSchemeOf(scheme, rest);
    AfterNetlocOf(host, path + tail);
    CutFragmentAndQueryOf(path, tail);
  }

  /** Hence the extension of such a URL is taken from its decoded path alone. */
  lemma ExtensionOfAuthorityUrl(scheme: string, host: string, path: string, tail: string)
    requires IsScheme(scheme)
    requires '/' !in host && '?' !in host && '#' !in host
    requires path == [] || path[0] == '/'
    requires '?' !in path && '#' !in path && ';' !in path
    requires tail == [] || tail[0] == '?' || tail[0] == '#'
    ensures GetFileExtension(scheme + "://" + host + path + tail) == AfterLastDot(Unquote(path))
  {
    UrlPathOfAuthorityUrl(scheme, host, path, tail);
  }

  /** The upper-case hexadecimal digit for `d`. */
  function HexDigit(d: nat): (c: char)
    requires d < 16
    ensures IsHexDigit(c) && HexValue(c) == d
  {
    if d < 10 then (48 + d) as char else (55 + d) as char
  }

  /** Every character written as the "%XX" escape of its code, as `quote` does for an ASCII
      character outside its safe set. Only ASCII is covered: above it `quote` writes the
      UTF-8 bytes of the character. */
  function PercentEncode(s: string): (r: string)
    requires forall i | 0 <= i < |s| :: s[i] as int < 128
    ensures |r| == 3 * |s|
  {
    if s == [] then []
    else ['%', HexDigit(s[0] as int / 16), HexDigit(s[0] as int % 16)] + PercentEncode(s[1..])
  }

  /** `unquote` decodes every escape of an ASCII character: it undoes percent-encoding. */
  lemma {:induction false} UnquotePercentEncode(s: string)
    requires forall i | 0 <= i < |s| :: s[i] as int < 128
    ensures Unquote(PercentEncode(s)) == s
  {
    if s != [] {
      var e := PercentEncode(s);
      var hi, lo := HexDigit(s[0] as int / 16), HexDigit(s[0] as int % 16);
      assert e[0] == '%' && e[1] == hi && e[2] == lo;
      assert IsEscape(e);
      assert EscapedChar(hi, lo) == s[0];
      assert e[3..] == PercentEncode(s[1..]);
      UnquotePercentEncode(s[1..]);
      assert s == [s[0]] + s[1..];
    }
  }

  /** The extension is the only text that follows a '.' at the end of the decoded path and
      holds no '.' itself: it is what comes after the LAST dot. */
  lemma ExtensionIsAfterLastDot(url: string, e: string)
    requires DotSuffix(DecodedPath(url), e) && '.' !in e
    ensures GetFileExtension(url) == e
  {
    AfterLastDotUnique(DecodedPath(url), e);
  }

  lemma {:induction false} AfterLastDotUnique(p: string, e: string)
    requires DotSuffix(p, e) && '.' !in e
    ensures AfterLastDot(p) == e
  {
    assert p[|p| - |e| - 1] == '.';
  }

  /** The extension is empty exactly when the decoded path has no '.' or ends with one. */
  lemma EmptyExtension(url: string)
    ensures var p := DecodedPath(url);
      GetFileExtension(url) == "" <==> '.' !in p || p[|p| - 1] == '.'
  {
    AfterLastDotEmpty(DecodedPath(url));
  }

  lemma AfterLastDotEmpty(p: string)
    ensures AfterLastDot(p) == "" <==> '.' !in p || p[|p| - 1] == '.'
  {
    if '.' in p && p[|p| - 1] == '.' {
      AfterLastDotUnique(p, "");
    }
  }

  /** A path without percent-escapes is searched as it is. */
  lemma {:induction false} UnquoteKeepsPlainPrefix(x: string, y: string)
    requires '%' !in x
    ensures Unquote(x + y) == x + Unquote(y)
  {
    if |x| == 0 {
      assert x + y == y;
    } else {
      var z, rest := x + y, x[1..] + y;
      assert z[0] == x[0] != '%';
      assert z[1..] == rest;
      UnquoteKeepsPlainPrefix(x[1..], y);
      calc {
        Unquote(z);
        [x[0]] + Unquote(rest);
        [x[0]] + (x[1..] + Unquote(y));
        { assert x == [x[0]] + x[1..]; }
        x + Unquote(y);
      }
    }
  }

  /** "%2E" and "%2e" both decode to '.': hexadecimal digits are read in either case. */
  lemma UnquoteEncodedDot(hex: char, e: string)
    requires hex == 'E' || hex == 'e'
    requires '%' !in e
    ensures Unquote("%2" + [hex] + e) == "." + e
  {
    var s := "%2" + [hex] + e;
    assert IsEscape(s) && s[1] == '2' && s[2] == hex && s[3..] == e;
    assert EscapedChar('2', hex) == '.';
    UnquoteKeepsPlainPrefix(e, "");
    assert e + "" == e;
  }

  /** A '%' that does not start two hexadecimal digits is kept as it is. */
  lemma UnquoteKeepsLonePercent(e: string)
    requires '%' !in e
    requires |e| < 2 || !IsHexDigit(e[0]) || !IsHexDigit(e[1])
    ensures Unquote("%" + e) == "%" + e
  {
    var s := "%" + e;
    assert !IsEscape(s) && s[1..] == e;
    UnquoteKeepsPlainPrefix(e, "");
    assert e + "" == e;
  }

  /** Decoding comes before the search for the dot: an encoded dot, "%2E" or "%2e",
      separates the extension like a literal one. */
  lemma EncodedDotStartsExtension(x: string, hex: char, e: string)
    requires hex == 'E' || hex == 'e'
    requires '%' !in x && '%' !in e && '.' !in e
    ensures AfterLastDot(Unquote(x + "%2" + [hex] + e)) == e
  {
    UnquoteKeepsPlainPrefix(x, "%2" + [hex] + e);
    assert x + "%2" + [hex] + e == x + ("%2" + [hex] + e);
    UnquoteEncodedDot(hex, e);
    var p := x + ("." + e);
    assert p[|p| - |e| - 1] == '.' && p[|p| - |e|..] == e;
    AfterLastDotUnique(p, e);
  }

  /** The API URL starts with the fixed prefix and its last segment is the observation
      identifier again: the API is asked about the observation the user named. */
  lemma {:induction false} ApiUrlNamesObservation(observationUrl: string)
    ensures var api := ApiUrl(observationUrl);
      && |ApiPrefix| <= |api| && api[..|ApiPrefix|] == ApiPrefix
      && ObservationId(api) == ObservationId(observationUrl)
  {
    var id := ObservationId(observationUrl);
    var api := ApiUrl(observationUrl);
    var n := |ApiPrefix|;
    assert api[..n] == ApiPrefix;
    assert api[n - 1] == '/';
    assert api[|api| - |id|..] == id;
  }
}
