/** The parts of Python's `urllib.parse.urlsplit` the core relies on: the
    scheme, the network location and the path of a URL.  The stripping of
    control characters, the IPv6 bracket checks and the NFKC check of the
    network location are not modelled. */
module Urls {
  import opened Base
  import opened Text

  predicate IsAsciiLetter(c: char) { 'a' <= c <= 'z' || 'A' <= c <= 'Z' }

  /** The characters `urllib.parse` allows in a scheme. */
  predicate IsSchemeChar(c: char) {
    IsAsciiLetter(c) || '0' <= c <= '9' || c == '+' || c == '-' || c == '.'
  }

  predicate IsScheme(s: string) {
    |s| > 0 && IsAsciiLetter(s[0]) && forall i :: 0 <= i < |s| ==> IsSchemeChar(s[i])
  }

  /** What `urlsplit` leaves after removing a scheme: the text after the
      first ':' when the text before it is a scheme, otherwise all of it. */
  function AfterScheme(url: string): (rest: string)
    ensures |rest| <= |url| && rest == url[|url| - |rest|..]
  {
    match AfterFirst(url, ':')
    case None => url
    case Some(tail) => if IsScheme(BeforeFirst(url, ':')) then tail else url
  }

  /** The position of the first character of `s` that is in `cs`, or `|s|`. */
  function FirstOfAny(s: string, cs: set<char>): (r: nat)
    ensures r <= |s|
    ensures forall i :: 0 <= i < r ==> s[i] !in cs
    ensures r < |s| ==> s[r] in cs
  {
    if s == [] || s[0] in cs then 0 else 1 + FirstOfAny(s[1..], cs)
  }

  /** What follows the scheme, split as `urlsplit` splits it: a `//` starts
      a network location that runs to the first '/', '?' or '#'; the path
      runs from there to the first '#' and then to the first '?'. */
  function SplitNetloc(rest: string): (r: (string, string))
  {
    var (netloc, tail) :=
      if |rest| >= 2 && rest[..2] == "//" then
        var e := 2 + FirstOfAny(rest[2..], {'/', '?', '#'});
        (rest[2..e], rest[e..])
      else ("", rest);
    (netloc, BeforeFirst(BeforeFirst(tail, '#'), '?'))
  }

  /** `urlsplit(url).netloc` and `.path`. */
  function NetlocAndPath(url: string): (string, string)
  {
    SplitNetloc(AfterScheme(url))
  }

  lemma {:induction false} FirstOfAnyJoined(x: string, c: char, y: string, cs: set<char>)
    requires forall i :: 0 <= i < |x| ==> x[i] !in cs
    requires c in cs
    ensures FirstOfAny(x + [c] + y, cs) == |x|
  {
    if x != [] {
      assert (x + [c] + y)[1..] == x[1..] + [c] + y;
      FirstOfAnyJoined(x[1..], c, y, cs);
    }
  }

  lemma {:induction false} BeforeFirstAbsent(s: string, c: char)
    requires c !in s
    ensures BeforeFirst(s, c) == s
  {
    if s != [] {
      assert c !in s[1..];
      BeforeFirstAbsent(s[1..], c);
    }
  }

  /** A valid scheme and the ':' after it are removed, leaving the rest. */
  lemma SchemeRemoved(scheme: string, rest: string)
    requires IsScheme(scheme)
    ensures AfterScheme(scheme + [':'] + rest) == rest
  {
    assert ':' !in scheme by {
      forall i | 0 <= i < |scheme| ensures scheme[i] != ':' {
        assert IsSchemeChar(scheme[i]);
      }
    }
    SplitJoined(scheme, ':', rest);
  }

  /** `//<bucket>/<key>` splits into network location `<bucket>` and path
      `/<key>`, for a bucket free of '/', '?' and '#' and a key free of '?'
      and '#'. */
  lemma NetlocOfBucket(bucket: string, key: string)
    requires forall i :: 0 <= i < |bucket| ==> bucket[i] !in {'/', '?', '#'}
    requires '?' !in key && '#' !in key
    ensures SplitNetloc("//" + bucket + "/" + key) == (bucket, "/" + key)
  {
    var rest := "//" + bucket + "/" + key;
    assert rest[..2] == "//";
    assert rest[2..] == bucket + ['/'] + key;
    FirstOfAnyJoined(bucket, '/', key, {'/', '?', '#'});
    var e := 2 + |bucket|;
    assert rest[2..e] == bucket;
    assert rest[e..] == "/" + key;
    BeforeFirstAbsent("/" + key, '#');
    BeforeFirstAbsent("/" + key, '?');
  }

  /** `urlsplit(url).scheme`: the text before the first ':' in lower case,
      when it is a scheme, otherwise empty. */
  function Scheme(url: string): (s: string)
    ensures s != [] ==> AfterScheme(url) != url
  {
    match AfterFirst(url, ':')
    case None => ""
    case Some(tail) => if IsScheme(BeforeFirst(url, ':')) then LowerAscii(BeforeFirst(url, ':')) else ""
  }
}
