/**
 * The URL classifier `Crawler.is_url`: a candidate href is followed only when
 * it parses, has both a scheme and a network location (the scheme and
 * authority components of section 3 of RFC 3986), and contains no `#` at all.
 *
 * The parse is a simplified model of CPython's `urlsplit`, which `urlparse`
 * runs first: only the two components the classifier inspects are extracted,
 * plus the remainder, so that the split can be undone.
 */
module Classifier {
  import opened Results
  import opened Seqs

  predicate IsAsciiLetter(c: char)
  {
    'a' <= c <= 'z' || 'A' <= c <= 'Z'
  }

  /** Characters allowed in a scheme: letters, digits, `+`, `-` and `.`. */
  predicate IsSchemeChar(c: char)
  {
    IsAsciiLetter(c) || '0' <= c <= '9' || c == '+' || c == '-' || c == '.'
  }

  /** A scheme recognised before the first `:`: a letter, then scheme characters. */
  predicate IsScheme(t: string)
  {
    |t| > 0 && IsAsciiLetter(t[0]) && forall j :: 0 <= j < |t| ==> IsSchemeChar(t[j])
  }

  /** Characters that end the network location. */
  predicate IsNetlocDelimiter(c: char)
  {
    c == '/' || c == '?' || c == '#'
  }

  /** Index of the first network-location delimiter in `t`, or `|t|`. */
  function DelimiterIndex(t: string): (r: nat)
    ensures r <= |t|
    ensures r < |t| ==> IsNetlocDelimiter(t[r])
    ensures forall j :: 0 <= j < r ==> !IsNetlocDelimiter(t[j])
  {
    if t == [] then 0
    else if IsNetlocDelimiter(t[0]) then 0
    else 1 + DelimiterIndex(t[1..])
  }

  /** Why a parse failed; `urlsplit` raises `ValueError` for it. */
  datatype ParseError = InvalidIPv6

  /**
   * The components of a split URL. `hasAuthority` records that `//` was
   * present, so that an empty network location can be told from none.
   */
  datatype Components = Components(scheme: string, hasAuthority: bool, netloc: string, remainder: string)

  /**
   * Splits off the scheme: the text before the first `:` when it is a well
   * formed scheme, otherwise nothing. Scheme lower-casing is left out.
   */
  function SplitScheme(s: string): (string, string)
  {
    var i := IndexOf(s, ':');
    if i < |s| && IsScheme(s[..i]) then (s[..i], s[i + 1..]) else ("", s)
  }

  /** Splits off the network location that follows a leading `//`. */
  function SplitNetloc(rest: string): (bool, string, string)
  {
    if StartsWith(rest, "//") then
      var e := 2 + DelimiterIndex(rest[2..]);
      (true, rest[2..e], rest[e..])
    else (false, "", rest)
  }

  /** A network location with one square bracket but not the other is refused. */
  predicate UnbalancedBrackets(netloc: string)
  {
    ('[' in netloc) != (']' in netloc)
  }

  /**
   * `urlsplit` as far as the classifier needs it: a scheme is either absent
   * or well formed, a network location appears only after `//`, holds no
   * delimiter, and has both square brackets or neither.
   */
  function Parse(s: string): (r: Result<Components, ParseError>)
    ensures r.Ok? ==> r.value.scheme == "" || IsScheme(r.value.scheme)
    ensures r.Ok? && r.value.netloc != "" ==> r.value.hasAuthority
    ensures r.Ok? ==> forall j :: 0 <= j < |r.value.netloc| ==> !IsNetlocDelimiter(r.value.netloc[j])
    ensures r.Ok? <==> !UnbalancedBrackets(SplitNetloc(SplitScheme(s).1).1)
  {
    var (scheme, rest) := SplitScheme(s);
    var (slashes, netloc, remainder) := SplitNetloc(rest);
    if UnbalancedBrackets(netloc) then Err(InvalidIPv6)
    else Ok(Components(scheme, slashes, netloc, remainder))
  }

  /** Reassembles split components; the inverse of `Parse`. */
  function Unsplit(c: Components): string
  {
    (if c.scheme == "" then "" else c.scheme + ":")
    + (if c.hasAuthority then "//" + c.netloc else "")
    + c.remainder
  }

  /**
   * `Crawler.is_url`: total, and false on a parse error. An accepted string
   * parses, carries a well-formed scheme and a `//` authority, and has no `#`.
   */
  function IsUrl(s: string): (b: bool)
    ensures b ==> Parse(s).Ok? && IsScheme(Parse(s).value.scheme) && Parse(s).value.hasAuthority
    ensures b ==> '#' !in s
  {
    match Parse(s)
    case Err(_) => false
    case Ok(c) => c.scheme != "" && c.netloc != "" && '#' !in s
  }

  /**
   * The URL shapes the classifier admits, described directly on the string:
   * `s[..i]` is a scheme, `://` follows, `s[i+3..e]` is a non-empty network
   * location without delimiters and with both square brackets or neither, and a delimiter
   * or the end of the string follows it.
   */
  predicate SplitsAt(s: string, i: nat, e: nat)
  {
    && i + 3 <= e <= |s|
    && s[i..i + 3] == "://"
    && IsScheme(s[..i])
    && i + 3 < e
    && (forall j :: i + 3 <= j < e ==> !IsNetlocDelimiter(s[j]))
    && !UnbalancedBrackets(s[i + 3..e])
    && (e < |s| ==> IsNetlocDelimiter(s[e]))
  }

  ghost predicate UrlShape(s: string)
  {
    '#' !in s && exists i: nat, e: nat :: SplitsAt(s, i, e)
  }

  lemma SplitSchemeInverse(s: string)
    ensures var (scheme, rest) := SplitScheme(s);
      (if scheme == "" then "" else scheme + ":") + rest == s
  {
    var i := IndexOf(s, ':');
    if i < |s| && IsScheme(s[..i]) {
      assert s == s[..i] + ":" + s[i + 1..];
    }
  }

  lemma SplitNetlocInverse(rest: string)
    ensures var (slashes, netloc, remainder) := SplitNetloc(rest);
      (if slashes then "//" + netloc else "") + remainder == rest
  {
    if StartsWith(rest, "//") {
      var e := 2 + DelimiterIndex(rest[2..]);
      assert rest == "//" + rest[2..e] + rest[e..];
    }
  }

  /** Splitting and reassembling gives back the original string. */
  lemma UnsplitParse(s: string)
    ensures Parse(s).Ok? ==> Unsplit(Parse(s).value) == s
  {
    SplitSchemeInverse(s);
    SplitNetlocInverse(SplitScheme(s).1);
  }

  /** `DelimiterIndex` is pinned down by the first delimiter. */
  lemma DelimiterIndexFirst(t: string, k: nat)
    requires k <= |t|
    requires k < |t| ==> IsNetlocDelimiter(t[k])
    requires forall j :: 0 <= j < k ==> !IsNetlocDelimiter(t[j])
    ensures DelimiterIndex(t) == k
  {
  }

  /** Every accepted string has the admitted shape. */
  lemma UrlHasShape(s: string)
    requires IsUrl(s)
    ensures UrlShape(s)
  {
    var i := IndexOf(s, ':');
    assert SplitScheme(s).0 != "";
    assert i < |s| && IsScheme(s[..i]);
    var rest := s[i + 1..];
    assert SplitScheme(s).1 == rest;
    assert StartsWith(rest, "//");
    var t := rest[2..];
    var d := DelimiterIndex(t);
    var e := i + 3 + d;
    assert t == s[i + 3..];
    assert |t| == |s| - i - 3;
    assert s[i + 3..e] == t[..d] by {
      assert forall j :: 0 <= j < d ==> s[i + 3..e][j] == t[j];
    }
    assert SplitNetloc(rest).1 == t[..d];
    assert s[i..i + 3] == "://" by {
      assert s[i] == ':';
      assert rest[..2] == "//";
      assert s[i + 1] == rest[..2][0] && s[i + 2] == rest[..2][1];
    }
    assert forall j :: i + 3 <= j < e ==> s[j] == t[j - i - 3];
    assert e < |s| ==> s[e] == t[d];
    assert SplitsAt(s, i, e);
  }

  /** Every string of the admitted shape is accepted. */
  lemma ShapeIsUrl(s: string, i: nat, e: nat)
    requires '#' !in s
    requires SplitsAt(s, i, e)
    ensures IsUrl(s)
  {
    assert forall j :: 0 <= j < i ==> s[j] == s[..i][j];
    assert s[i] == ':';
    IndexOfFirst(s, ':', i);
    var rest := s[i + 1..];
    assert SplitScheme(s).1 == rest;
    assert rest[..2] == "//" by {
      assert rest[0] == s[i..i + 3][1] && rest[1] == s[i..i + 3][2];
    }
    var t := rest[2..];
    assert t == s[i + 3..];
    assert forall j :: 0 <= j < e - i - 3 ==> t[j] == s[i + 3 + j];
    DelimiterIndexFirst(t, e - i - 3);
    assert SplitNetloc(rest).1 == s[i + 3..e];
  }

  /** The classifier accepts exactly the strings of the admitted shape. */
  lemma IsUrlIffShape(s: string)
    ensures IsUrl(s) <==> UrlShape(s)
  {
    if IsUrl(s) {
      UrlHasShape(s);
    }
    if UrlShape(s) {
      var i: nat, e: nat :| SplitsAt(s, i, e);
      ShapeIsUrl(s, i, e);
    }
  }

  /** A `#` anywhere rules a string out, even with a scheme and a host. */
  lemma HashNeverFollowed(s: string)
    requires '#' in s
    ensures !IsUrl(s)
  {
  }

  /** Without a scheme or without a network location nothing is followed. */
  lemma SchemeAndNetlocRequired(s: string)
    requires Parse(s).Ok?
    requires Parse(s).value.scheme == "" || Parse(s).value.netloc == ""
    ensures !IsUrl(s)
  {
  }

  /** A parse error yields false instead of an exception. */
  lemma ParseErrorRejected(s: string)
    requires Parse(s).Err?
    ensures !IsUrl(s)
  {
  }

  /** An absolute http URL with a host and a path is followed. */
  lemma AcceptsPlainHttp()
    ensures IsUrl("http://example.com/a")
  {
    var s := "http://example.com/a";
    assert s[4..7] == "://";
    assert s[..4] == "http";
    ShapeIsUrl(s, 4, 18);
  }

  /** The same URL with a fragment is not followed. */
  lemma RejectsFragment()
    ensures !IsUrl("http://example.com/a#frag")
  {
    HashNeverFollowed("http://example.com/a#frag");
  }

  /** Scheme characters never include the `:` that ends the scheme. */
  lemma SchemeThenColon(scheme: string, rest: string)
    requires IsScheme(scheme)
    ensures SplitScheme(scheme + ":" + rest) == (scheme, rest)
  {
    var s := scheme + ":" + rest;
    assert forall j :: 0 <= j < |scheme| ==> s[j] == scheme[j];
    IndexOfFirst(s, ':', |scheme|);
    assert s[..|scheme|] == scheme;
    assert s[|scheme| + 1..] == rest;
  }

  /**
   * A scheme not followed by `//` (`javascript:`, `mailto:`) leaves the
   * network location empty, so the href is not followed.
   */
  lemma SchemeWithoutAuthorityRejected(scheme: string, rest: string)
    requires IsScheme(scheme)
    requires !StartsWith(rest, "//")
    ensures !IsUrl(scheme + ":" + rest)
  {
    SchemeThenColon(scheme, rest);
  }

  /** A network location with `[` but no `]` is a parse error, hence rejected. */
  lemma UnclosedBracketRejected(scheme: string, host: string, tail: string)
    requires IsScheme(scheme)
    requires forall j :: 0 <= j < |host| ==> !IsNetlocDelimiter(host[j])
    requires '[' in host && ']' !in host
    requires tail != [] ==> IsNetlocDelimiter(tail[0])
    ensures Parse(scheme + "://" + host + tail).Err?
    ensures !IsUrl(scheme + "://" + host + tail)
  {
    var rest := "//" + host + tail;
    assert scheme + "://" + host + tail == scheme + ":" + rest;
    SchemeThenColon(scheme, rest);
    assert rest[..2] == "//";
    var t := rest[2..];
    assert t == host + tail;
    assert forall j :: 0 <= j < |host| ==> t[j] == host[j];
    DelimiterIndexFirst(t, |host|);
    assert SplitNetloc(rest).1 == host;
  }

  /** The `javascript:void(0)` href of a script link is not followed. */
  lemma RejectsJavascript()
    ensures !IsUrl("javascript:void(0)")
  {
    assert IsScheme("javascript");
    assert "javascript:void(0)" == "javascript" + ":" + "void(0)";
    assert "void(0)"[0] != '/';
    SchemeWithoutAuthorityRejected("javascript", "void(0)");
  }
}
