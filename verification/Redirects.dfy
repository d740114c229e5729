/**
 What a URL says beside its scheme, host and port, and that a redirect keeps it; and the details of reading an
 authority: its end, its letter case, its port.
 */
module Redirects {
  import opened Machine
  import opened Urls

  /** What follows the authority of a URL: its path, query and fragment. */
  function Remainder(url: string): string {
    match CutAt(url, "://")
    case None => ""
    case Some((_, rest)) => rest[|AuthorityText(rest)|..]
  }

  /** The characters up to the first slash, question mark or number sign. */
  function AuthorityText(rest: string): (r: string)
    ensures r <= rest
  {
    if rest == "" || rest[0] in {'/', '?', '#'} then "" else [rest[0]] + AuthorityText(rest[1..])
  }

  lemma {:induction false} SameText(rest: string)
    ensures AuthorityText(rest) == Authority(rest)
  {
    if rest != "" && rest[0] !in {'/', '?', '#'} {
      SameText(rest[1..]);
    }
  }

  // ----- what a redirect keeps -----

  /**
   A redirect that names only a path keeps it: the result is the base's scheme and authority, and then the location,
   whole.
   */
  lemma {:induction false} PathIsKept(base: string, location: string)
    requires SplitUrl(base).Ok? && RootRelative(location) && CutAt(location, "://").None?
    ensures ResolveRelative(base, location).Ok?
    ensures Remainder(ResolveRelative(base, location).value) == location
  {
    ResultTexts(base, location);
    var text := AuthorityOf(SplitUrl(base).value);
    assert (text + location)[|text|..] == location;
  }

  /** Where the result of a rooted redirect is cut. */
  lemma {:induction false} ResultTexts(base: string, location: string)
    requires SplitUrl(base).Ok? && RootRelative(location) && CutAt(location, "://").None?
    ensures ResolveRelative(base, location).Ok?
    ensures var text := AuthorityOf(SplitUrl(base).value);
            && CutAt(ResolveRelative(base, location).value, "://")
               == Some((SplitUrl(base).value.scheme, text + location))
            && AuthorityText(text + location) == text
  {
    var parts := SplitUrl(base).value;
    var text := AuthorityOf(parts);
    AcceptedMeans(base);
    AuthorityIsPlain(parts);
    SchemeCutsAgain(base, text + location);
    AuthorityStops(text, location);
    SameText(text + location);
    Regroup(parts.scheme + "://", text, location);
  }

  /** A redirect that names its host is the base's scheme and then the location, whole. */
  lemma {:induction false} HostNamedIsKept(base: string, location: string)
    requires SplitUrl(base).Ok? && |location| >= 2 && location[..2] == "//" && CutAt(location, "://").None?
    ensures ResolveRelative(base, location).Ok?
    ensures CutAt(ResolveRelative(base, location).value, "://") == Some((SplitUrl(base).value.scheme, location[2..]))
  {
    SchemeCutsAgain(base, location[2..]);
  }

  /** A URL is what it was split into. */
  lemma {:induction false} UrlIsItsTexts(url: string)
    requires CutAt(url, "://").Some?
    ensures var (before, rest) := CutAt(url, "://").value;
            url == before + "://" + AuthorityText(rest) + Remainder(url)
  {
    var (before, rest) := CutAt(url, "://").value;
    assert rest == AuthorityText(rest) + Remainder(url);
    Regroup(before + "://", AuthorityText(rest), Remainder(url));
  }

  /** How the base of a rooted redirect is written back: lower-case, and the port only where it is not the usual one. */
  predicate Written(url: string, parts: Parts) {
    match CutAt(url, "://")
    case None => false
    case Some((before, rest)) =>
      before == parts.scheme
      && AuthorityText(rest) ==
           if (parts.scheme == "https" && parts.port == 443) || (parts.scheme == "http" && parts.port == 80)
           then parts.host else parts.host + ":" + PrintPort(parts.port)
  }

  /**
   Among all URLs, the result of a rooted redirect is the one with the base's scheme and authority so written and the
   location for remainder. Where the host survives it also has the base's scheme, host and port.
   */
  lemma {:induction false} RedirectIsTheOne(base: string, location: string, url: string)
    requires SplitUrl(base).Ok? && RootRelative(location) && CutAt(location, "://").None?
    ensures ResolveRelative(base, location).Ok?
    ensures url == ResolveRelative(base, location).value <==>
              Written(url, SplitUrl(base).value) && Remainder(url) == location
    ensures Survives(SplitUrl(base).value) ==>
              SplitUrl(ResolveRelative(base, location).value) == SplitUrl(base)
  {
    var parts := SplitUrl(base).value;
    PathIsKept(base, location);
    PathStaysOnHost(base, location);
    ResultTexts(base, location);
    UrlIsItsTexts(ResolveRelative(base, location).value);
    if Written(url, parts) && Remainder(url) == location {
      UrlIsItsTexts(url);
    }
  }

  /**
   That the writing has to be fixed too: whatever the scheme, host, port and remainder, another URL has the same,
   with a zero before its port.
   */
  lemma {:induction false} AnotherSpelling(base: string, location: string) returns (url: string)
    requires SplitUrl(base).Ok? && RootRelative(location) && CutAt(location, "://").None?
    requires Survives(SplitUrl(base).value)
    ensures ResolveRelative(base, location).Ok? && url != ResolveRelative(base, location).value
    ensures SplitUrl(url) == SplitUrl(base) && Remainder(url) == location
  {
    var parts := SplitUrl(base).value;
    var text := parts.host + ":" + ("0" + PrintPort(parts.port));
    url := parts.scheme + "://" + text + location;
    AcceptedMeans(base);
    ZeroKeepsParts(base, location);
    SchemeCutsAgain(base, text + location);
    AuthorityStops(text, location);
    SameText(text + location);
    Regroup(parts.scheme + "://", text, location);
    assert (text + location)[|text|..] == location;
    SpelledApart(parts);
    RedirectIsTheOne(base, location, url);
  }

  lemma {:induction false} ZeroKeepsParts(base: string, location: string)
    requires SplitUrl(base).Ok? && RootRelative(location) && Survives(SplitUrl(base).value)
    ensures var parts := SplitUrl(base).value;
            SplitUrl(parts.scheme + "://" + (parts.host + ":" + ("0" + PrintPort(parts.port))) + location)
              == SplitUrl(base)
  {
    var parts := SplitUrl(base).value;
    AcceptedMeans(base);
    ZeroKeepsAuthority(parts);
    SplitsAgain(base, parts.host + ":" + ("0" + PrintPort(parts.port)), location);
  }

  lemma {:induction false} ZeroKeepsAuthority(parts: Parts)
    requires Survives(parts) && parts.host != ""
    ensures SplitAuthority(parts.host + ":" + ("0" + PrintPort(parts.port)), DefaultPort(parts.scheme))
         == Ok((parts.host, parts.port))
  {
    LastColonIs(parts.host, "0" + PrintPort(parts.port));
    ZeroBefore(parts.port);
  }

  lemma {:induction false} ZeroBefore(port: u16)
    ensures ParsePort("0" + PrintPort(port)) == Ok(port)
  {
    assert ("0" + PrintPort(port))[1..] == PrintPort(port);
    DigitsReadBack(port);
  }

  lemma {:induction false} SpelledApart(parts: Parts)
    ensures parts.host + ":" + ("0" + PrintPort(parts.port)) != parts.host
    ensures parts.host + ":" + ("0" + PrintPort(parts.port)) != parts.host + ":" + PrintPort(parts.port)
  {
    assert |parts.host + ":" + ("0" + PrintPort(parts.port))| == |parts.host| + 2 + |PrintPort(parts.port)|;
    assert |parts.host + ":" + PrintPort(parts.port)| == |parts.host| + 1 + |PrintPort(parts.port)|;
  }

  // ----- reading an authority -----

  /** A path, a query and a fragment each end the authority, and what they say has no part in it. */
  lemma {:induction false} OnlyTheAuthorityCounts(scheme: string, authority: string, c: char, more: string)
    requires forall i :: 0 <= i < |scheme| ==> scheme[i] != ':'
    requires forall i :: 0 <= i < |authority| ==> authority[i] !in {'/', '?', '#'}
    requires c == '/' || c == '?' || c == '#'
    ensures SplitUrl(scheme + "://" + (authority + ([c] + more))) == SplitUrl(scheme + "://" + (authority + ""))
  {
    CutsHere(scheme, authority + ([c] + more));
    CutsHere(scheme, authority + "");
    AuthorityStops(authority, [c] + more);
    AuthorityIsAll(authority);
    assert authority + "" == authority;
  }

  lemma {:induction false} AuthorityIsAll(s: string)
    requires forall i :: 0 <= i < |s| ==> s[i] !in {'/', '?', '#'}
    ensures Authority(s) == s
  {
    if s != "" {
      AuthorityIsAll(s[1..]);
    }
  }

  /** Schemes are read without regard to the case of the letters A to Z, and reported in lower case. */
  lemma {:induction false} SchemeIsLower(url: string, i: nat)
    requires SplitUrl(url).Ok? && i < |SplitUrl(url).value.scheme|
    ensures CutAt(url, "://").Some? && |CutAt(url, "://").value.0| == |SplitUrl(url).value.scheme|
    ensures var written, read := CutAt(url, "://").value.0[i], SplitUrl(url).value.scheme[i];
            && !('A' <= read <= 'Z')
            && (if 'A' <= written <= 'Z' then read as int == written as int + 'a' as int - 'A' as int
                else read == written)
  {
  }

  /** Without a port, `http` means 80 and everything else 443. */
  lemma {:induction false} UsualPort(scheme: string, host: string)
    requires forall i :: 0 <= i < |scheme| ==> scheme[i] != ':'
    requires host != "" && host[0] != '[' && forall i :: 0 <= i < |host| ==> host[i] !in {'/', '?', '#', '@', ':'}
    ensures SplitUrl(scheme + "://" + host)
            == Ok(Parts(Lower(scheme), host, if Lower(scheme) == "http" then 80 else 443))
  {
    CutsHere(scheme, host);
    AuthorityIsAll(host);
    NoColon(host);
  }

  /** After a bracketed address only a colon begins a port; anything else is passed over. */
  lemma {:induction false} AfterBrackets(host: string, after: string, usual: u16)
    requires ']' !in host
    ensures SplitAuthority("[" + host + "]" + after, usual) ==
              if after != "" && after[0] == ':'
              then (match ParsePort(after[1..]) case Ok(p) => Ok((host, p)) case Err(e) => Err(e))
              else Ok((host, usual))
  {
    BracketEnds(host, after);
    assert ("[" + host + "]" + after)[1..] == host + "]" + after;
  }

  /** What decimal digits are worth. */
  function Worth(s: string): int {
    if s == "" then 0 else 10 * Worth(s[..|s| - 1]) + (s[|s| - 1] as int - '0' as int)
  }

  predicate Digits(s: string) {
    forall i :: 0 <= i < |s| ==> '0' <= s[i] <= '9'
  }

  /** Reading on from a value: what the digits are worth after it, if that is still a port. */
  lemma {:induction false} ReadIsWorth(s: string, so: u16, read: string)
    requires Digits(read) && Worth(read) == so
    ensures ReadDigits(s, so) == if Digits(s) && Worth(read + s) < 0x1_0000 then Some(Worth(read + s)) else None
  {
    if s == "" {
      assert read + s == read;
    } else if Digit(s[0]) {
      var next := read + [s[0]];
      OneMoreDigit(read, s[0]);
      Regroup(read, [s[0]], s[1..]);
      assert [s[0]] + s[1..] == s;
      DigitsFirst(s);
      if Worth(next) < 0x1_0000 {
        ReadIsWorth(s[1..], Worth(next), next);
      } else if Digits(s) {
        WorthGrows(next, s[1..]);
      }
    }
  }

  lemma {:induction false} OneMoreDigit(read: string, c: char)
    requires Digits(read) && '0' <= c <= '9'
    ensures Digits(read + [c]) && Worth(read + [c]) == 10 * Worth(read) + (c as int - '0' as int)
  {
    assert (read + [c])[..|read|] == read;
  }

  lemma {:induction false} DigitsFirst(s: string)
    requires s != "" && '0' <= s[0] <= '9'
    ensures Digits(s) <==> Digits(s[1..])
  {
    assert forall i :: 0 < i < |s| ==> s[i] == s[1..][i - 1];
  }

  lemma {:induction false} WorthGrows(a: string, b: string)
    requires Worth(a) >= 0 && Digits(b)
    ensures Worth(a + b) >= Worth(a)
    decreases |b|
  {
    if b == "" {
      assert a + b == a;
    } else {
      var n := |b| - 1;
      WorthGrows(a, b[..n]);
      assert (a + b)[..|a| + n] == a + b[..n];
    }
  }

  /** A port is read exactly from an optional plus sign and at least one digit, together worth less than 65536. */
  lemma {:induction false} PortMeans(s: string, port: u16)
    ensures ParsePort(s) == Ok(port) <==>
              var digits := if s != "" && s[0] == '+' then s[1..] else s;
              digits != "" && Digits(digits) && Worth(digits) == port
  {
    var digits := if s != "" && s[0] == '+' then s[1..] else s;
    ReadIsWorth(digits, 0, "");
    assert "" + digits == digits;
  }

  /** What the authority of an accepted scheme is refused for. */
  lemma {:induction false} AuthorityRefusedFor(text: string, usual: u16)
    requires text != ""
    ensures match SplitAuthority(text, usual)
            case Err(UnterminatedLiteral) => text[0] == '[' && ']' !in text[1..]
            case Err(error) => error.PortNotANumber? && ':' in text
            case Ok(_) => text[0] == '[' ==> ']' in text[1..]
  {
    NoneBefore(text[1..], ']');
    if text[0] == '[' && CutAt(text[1..], "]").Some? {
      var (host, after) := CutAt(text[1..], "]").value;
      assert text == [text[0]] + text[1..] && text[1..] == host + "]" + after;
      assert after != "" ==> after[0] in text[1..];
    }
  }

  /** What a URL is refused for, in the order it is read. */
  lemma {:induction false} RefusedFor(url: string)
    ensures SplitUrl(url) == Err(NoScheme) <==> CutAt(url, "://").None?
    ensures CutAt(url, "://").Some? ==>
              var text := AuthorityText(CutAt(url, "://").value.1);
              && (SplitUrl(url) == Err(EmptyAuthority) <==> text == "")
              && (SplitUrl(url) == Err(Userinfo) <==> '@' in text)
              && (SplitUrl(url) == Err(UnterminatedLiteral) <==>
                    text != "" && '@' !in text && text[0] == '[' && ']' !in text[1..])
  {
    if CutAt(url, "://").Some? {
      var (before, rest) := CutAt(url, "://").value;
      SameText(rest);
      if AuthorityText(rest) != "" {
        AuthorityRefusedFor(AuthorityText(rest), DefaultPort(Lower(before)));
      }
    }
  }
}
