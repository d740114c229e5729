/**
 Splitting a URL into what the network policy is asked about, and resolving a redirect against the URL it
 came from. What matters is that the two agree: a redirect that names only a path stays on the host that
 sent it. It does not for every base, and this module says exactly for which.
 */
module Urls {
  import opened Machine

  type u16 = p: nat | p < 0x1_0000 witness 0

  datatype Parts = Parts(scheme: string, host: string, port: u16)

  datatype Malformed =
    | NoScheme | EmptyAuthority | Userinfo | UnterminatedLiteral | PortNotANumber | EmptyHost | PathRelative

  // ----- reading text -----

  /** Split around the first occurrence of a mark. */
  function CutAt(s: string, mark: string): (r: Option<(string, string)>)
    requires mark != ""
    ensures r.Some? ==> s == r.value.0 + mark + r.value.1
  {
    if |s| < |mark| then None
    else if s[..|mark|] == mark then Some(("", s[|mark|..]))
    else
      match CutAt(s[1..], mark)
      case None => None
      case Some((before, after)) => Some(([s[0]] + before, after))
  }

  /** Split around the last colon. */
  function CutAtLastColon(s: string): (r: Option<(string, string)>)
    ensures r.None? ==> ':' !in s
    ensures r.Some? ==> s == r.value.0 + ":" + r.value.1 && ':' !in r.value.1
  {
    if s == "" then None
    else
      match CutAtLastColon(s[1..])
      case Some((before, after)) => Some(([s[0]] + before, after))
      case None => if s[0] == ':' then Some(("", s[1..])) else None
  }

  predicate EndsAuthority(c: char) {
    c == '/' || c == '?' || c == '#'
  }

  function Authority(s: string): (r: string)
    ensures forall i :: 0 <= i < |r| ==> !EndsAuthority(r[i])
  {
    if s == "" || EndsAuthority(s[0]) then "" else [s[0]] + Authority(s[1..])
  }

  function LowerChar(c: char): char {
    if 'A' <= c <= 'Z' then ((c as int) + 32) as char else c
  }

  function Lower(s: string): (r: string)
    ensures |r| == |s| && forall i :: 0 <= i < |s| ==> r[i] == LowerChar(s[i])
  {
    if s == "" then "" else [LowerChar(s[0])] + Lower(s[1..])
  }

  // ----- ports -----

  predicate Digit(c: char) {
    '0' <= c <= '9'
  }

  /** Decimal digits read onto what came before, stopping as soon as sixteen bits are exceeded. */
  function ReadDigits(s: string, so: u16): Option<u16> {
    if s == "" then Some(so)
    else if !Digit(s[0]) then None
    else
      var next := so * 10 + (s[0] as int - '0' as int);
      if next < 0x1_0000 then ReadDigits(s[1..], next) else None
  }

  /** A port as the standard integer parser reads one: a leading `+` and leading zeros are accepted. */
  function ParsePort(s: string): Result<u16, Malformed> {
    var digits := if s != "" && s[0] == '+' then s[1..] else s;
    if digits == "" then Err(PortNotANumber)
    else
      match ReadDigits(digits, 0)
      case None => Err(PortNotANumber)
      case Some(port) => Ok(port)
  }

  function DigitOf(n: nat): (c: char)
    requires n < 10
    ensures Digit(c)
  {
    (n + '0' as int) as char
  }

  function PrintPort(port: nat): (s: string)
    ensures s != "" && forall i :: 0 <= i < |s| ==> Digit(s[i])
  {
    if port < 10 then [DigitOf(port)] else PrintPort(port / 10) + [DigitOf(port % 10)]
  }

  lemma {:induction false} DigitsAppend(a: string, d: char, so: u16, read: u16)
    requires ReadDigits(a, so) == Some(read) && Digit(d)
    requires read * 10 + (d as int - '0' as int) < 0x1_0000
    ensures ReadDigits(a + [d], so) == Some(read * 10 + (d as int - '0' as int))
  {
    if a == "" {
      assert a + [d] == [d] && [d][1..] == "";
    } else {
      assert (a + [d])[1..] == a[1..] + [d];
      DigitsAppend(a[1..], d, so * 10 + (a[0] as int - '0' as int), read);
    }
  }

  lemma {:induction false} DigitsReadBack(port: u16)
    ensures ReadDigits(PrintPort(port), 0) == Some(port)
  {
    if port < 10 {
      assert [DigitOf(port)][1..] == "";
    } else {
      DigitsReadBack(port / 10);
      DigitsAppend(PrintPort(port / 10), DigitOf(port % 10), 0, port / 10);
    }
  }

  /** Every port printed in decimal is read back as itself. */
  lemma {:induction false} PortReadsBack(port: u16)
    ensures ParsePort(PrintPort(port)) == Ok(port)
  {
    DigitsReadBack(port);
  }

  // ----- splitting and resolving -----

  function DefaultPort(scheme: string): u16 {
    if scheme == "http" then 80 else 443
  }

  /** The host and port of an authority. */
  function SplitAuthority(authority: string, default: u16): Result<(string, u16), Malformed> {
    if authority != "" && authority[0] == '[' then
      match CutAt(authority[1..], "]")
      case None => Err(UnterminatedLiteral)
      case Some((host, after)) =>
        if after != "" && after[0] == ':' then WithPort(host, ParsePort(after[1..])) else Ok((host, default))
    else
      match CutAtLastColon(authority)
      case None => Ok((authority, default))
      case Some((host, port)) => WithPort(host, ParsePort(port))
  }

  function WithPort(host: string, port: Result<u16, Malformed>): Result<(string, u16), Malformed> {
    match port
    case Ok(p) => Ok((host, p))
    case Err(e) => Err(e)
  }

  function SplitUrl(url: string): Result<Parts, Malformed> {
    match CutAt(url, "://")
    case None => Err(NoScheme)
    case Some((before, rest)) =>
      var scheme := Lower(before);
      var authority := Authority(rest);
      if authority == "" then Err(EmptyAuthority)
      else if '@' in authority then Err(Userinfo)
      else
        match SplitAuthority(authority, DefaultPort(scheme))
        case Err(e) => Err(e)
        case Ok((host, port)) => if host == "" then Err(EmptyHost) else Ok(Parts(scheme, host, port))
  }

  /** Whether a resolved URL leaves its port unsaid. */
  predicate Unsaid(parts: Parts) {
    (parts.scheme == "https" && parts.port == 443) || (parts.scheme == "http" && parts.port == 80)
  }

  function AuthorityOf(parts: Parts): string {
    if Unsaid(parts) then parts.host else parts.host + ":" + PrintPort(parts.port)
  }

  function ResolveRelative(base: string, location: string): Result<string, Malformed> {
    if CutAt(location, "://").Some? then Ok(location)
    else
      match SplitUrl(base)
      case Err(e) => Err(e)
      case Ok(parts) =>
        if |location| >= 2 && location[..2] == "//" then Ok(parts.scheme + "://" + location[2..])
        else if location != "" && location[0] == '/' then Ok(parts.scheme + "://" + AuthorityOf(parts) + location)
        else Err(PathRelative)
  }

  // ----- what splitting promises -----

  /** A first occurrence stays the first when what precedes it is lower-cased and what follows is replaced. */
  lemma {:induction false} SchemeCutsAgain(url: string, rest: string)
    requires CutAt(url, "://").Some?
    ensures var scheme := Lower(CutAt(url, "://").value.0);
            CutAt(scheme + "://" + rest, "://") == Some((scheme, rest)) && Lower(scheme) == scheme
  {
    var before := CutAt(url, "://").value.0;
    var scheme := Lower(before);
    var again := scheme + "://" + rest;
    if before == "" {
      assert again[..3] == "://" && again[3..] == rest;
    } else {
      var less := Lower(before[1..]);
      SchemeCutsAgain(url[1..], rest);
      assert before[1..] == CutAt(url[1..], "://").value.0;
      assert url[..|before| + 3] == before + "://";
      Regroup([LowerChar(before[0])], less, "://");
      Regroup([LowerChar(before[0])], less + "://", rest);
      StartsAlike(url, before, again, scheme, rest);
      CutLater(LowerChar(before[0]), less + "://" + rest, "://");
    }
  }

  /** A character before a text that does not begin with the mark there is before the cut. */
  lemma {:induction false} CutLater(c: char, s: string, mark: string)
    requires mark != "" && CutAt(s, mark).Some? && ([c] + s)[..|mark|] != mark
    ensures CutAt([c] + s, mark) == Some(([c] + CutAt(s, mark).value.0, CutAt(s, mark).value.1))
  {
    assert ([c] + s)[1..] == s;
  }

  lemma {:induction false} StartsAlike(url: string, before: string, again: string, scheme: string, rest: string)
    requires before != "" && |url| >= |before| + 3 && url[..|before| + 3] == before + "://"
    requires scheme == Lower(before) && again == scheme + "://" + rest
    ensures again[..3] == "://" ==> url[..3] == "://"
  {
    assert forall i :: 0 <= i < 3 ==> again[i] == LowerChar(url[i]) by {
      assert forall i :: 0 <= i < |before| + 3 ==> url[i] == (before + "://")[i];
      assert forall i :: 0 <= i < |before| + 3 ==> again[i] == (scheme + "://")[i];
    }
    if again[..3] == "://" {
      assert again[0] == again[..3][0] && again[1] == again[..3][1] && again[2] == again[..3][2];
    }
  }

  /** Text without a colon, before `://`, is cut off whole. */
  lemma {:induction false} CutsHere(scheme: string, rest: string)
    requires forall i :: 0 <= i < |scheme| ==> scheme[i] != ':'
    ensures CutAt(scheme + "://" + rest, "://") == Some((scheme, rest))
  {
    var s := scheme + "://" + rest;
    if scheme == "" {
      assert s[..3] == "://" && s[3..] == rest;
    } else {
      assert s[..3][0] == scheme[0];
      assert s[1..] == scheme[1..] + "://" + rest;
      CutsHere(scheme[1..], rest);
      assert [s[0]] + scheme[1..] == scheme;
    }
  }

  lemma {:induction false} BracketEnds(host: string, rest: string)
    requires ']' !in host
    ensures CutAt(host + "]" + rest, "]") == Some((host, rest))
  {
    var s := host + "]" + rest;
    if host == "" {
      assert s[..1] == "]" && s[1..] == rest;
    } else {
      assert s[..1][0] == host[0];
      assert s[1..] == host[1..] + "]" + rest;
      BracketEnds(host[1..], rest);
      assert [s[0]] + host[1..] == host;
    }
  }

  lemma {:induction false} AuthorityStops(authority: string, rest: string)
    requires forall i :: 0 <= i < |authority| ==> !EndsAuthority(authority[i])
    requires rest != "" && EndsAuthority(rest[0])
    ensures Authority(authority + rest) == authority
  {
    if authority == "" {
      assert authority + rest == rest;
    } else {
      assert (authority + rest)[1..] == authority[1..] + rest;
      AuthorityStops(authority[1..], rest);
    }
  }

  /** What an accepted host never holds. */
  predicate Plain(host: string) {
    host != "" && (forall i :: 0 <= i < |host| ==> !EndsAuthority(host[i]) && host[i] != '@')
    && (host[0] == '[' ==> ']' !in host)
  }

  lemma {:induction false} NoneBefore(s: string, c: char)
    ensures CutAt(s, [c]).None? <==> c !in s
    ensures CutAt(s, [c]).Some? ==> c !in CutAt(s, [c]).value.0
  {
    if s != "" {
      NoneBefore(s[1..], c);
      assert s == [s[0]] + s[1..];
      assert s[..1] == [s[0]];
    }
  }

  lemma {:induction false} AuthorityGivesPlain(authority: string, default: u16)
    requires authority != "" && '@' !in authority && forall i :: 0 <= i < |authority| ==> !EndsAuthority(authority[i])
    requires SplitAuthority(authority, default).Ok? && SplitAuthority(authority, default).value.0 != ""
    ensures Plain(SplitAuthority(authority, default).value.0)
  {
    var host := SplitAuthority(authority, default).value.0;
    if authority[0] == '[' {
      NoneBefore(authority[1..], ']');
      assert forall i :: 0 <= i < |host| ==> host[i] == authority[1..][i] == authority[i + 1];
    } else {
      assert forall i :: 0 <= i < |host| ==> host[i] == authority[i];
    }
  }

  /** What is known of a URL that was accepted: its scheme is lower-case and its host is plain. */
  lemma {:induction false} AcceptedMeans(url: string)
    requires SplitUrl(url).Ok?
    ensures Plain(SplitUrl(url).value.host)
    ensures Lower(SplitUrl(url).value.scheme) == SplitUrl(url).value.scheme
  {
    var authority := Authority(CutAt(url, "://").value.1);
    SchemeCutsAgain(url, "");
    AuthorityGivesPlain(authority, DefaultPort(SplitUrl(url).value.scheme));
  }

  /** Where only a path is named, the host survives being written out and read again exactly here. */
  predicate Survives(parts: Parts) {
    parts.host != "" && parts.host[0] != '[' && (Unsaid(parts) ==> ':' !in parts.host)
  }

  lemma {:induction false} LastColonIs(host: string, tail: string)
    requires ':' !in tail
    ensures CutAtLastColon(host + ":" + tail) == Some((host, tail))
  {
    var s := host + ":" + tail;
    if host == "" {
      assert s[1..] == tail;
      NoColon(tail);
    } else {
      assert s[1..] == host[1..] + ":" + tail;
      LastColonIs(host[1..], tail);
      assert [s[0]] + host[1..] == host;
    }
  }

  lemma {:induction false} NoColon(s: string)
    requires ':' !in s
    ensures CutAtLastColon(s).None?
  {
    if s != "" {
      NoColon(s[1..]);
    }
  }

  /** Writing an authority out and reading it again. */
  lemma {:induction false} AuthorityReadsBack(parts: Parts)
    requires Plain(parts.host)
    ensures SplitAuthority(AuthorityOf(parts), DefaultPort(parts.scheme)) == Ok((parts.host, parts.port)) <==>
              Survives(parts)
  {
    var text := AuthorityOf(parts);
    var port := PrintPort(parts.port);
    if parts.host[0] == '[' {
      assert text[1..] == if Unsaid(parts) then parts.host[1..] else parts.host[1..] + ":" + port;
      NoneBefore(text[1..], ']');
      assert ']' !in parts.host[1..] && ']' !in port;
      assert ']' !in text[1..];
    } else if !Unsaid(parts) {
      LastColonIs(parts.host, port);
      PortReadsBack(parts.port);
    } else if ':' in parts.host {
      assert CutAtLastColon(text).Some?;
      assert |CutAtLastColon(text).value.0| < |text|;
    } else {
      NoColon(text);
    }
  }

  lemma {:induction false} AuthorityIsPlain(parts: Parts)
    requires Plain(parts.host)
    ensures AuthorityOf(parts) != "" && '@' !in AuthorityOf(parts)
    ensures forall i :: 0 <= i < |AuthorityOf(parts)| ==> !EndsAuthority(AuthorityOf(parts)[i])
  {
  }

  /** An authority and a path behind the scheme of an accepted URL are split where they were joined. */
  lemma {:induction false} SplitsAgain(base: string, authority: string, location: string)
    requires SplitUrl(base).Ok? && location != "" && EndsAuthority(location[0])
    requires authority != "" && '@' !in authority && forall i :: 0 <= i < |authority| ==> !EndsAuthority(authority[i])
    ensures var scheme := SplitUrl(base).value.scheme;
            SplitUrl(scheme + "://" + authority + location) ==
              match SplitAuthority(authority, DefaultPort(scheme))
              case Err(e) => Err(e)
              case Ok((host, port)) => if host == "" then Err(EmptyHost) else Ok(Parts(scheme, host, port))
  {
    var scheme := SplitUrl(base).value.scheme;
    SchemeCutsAgain(base, authority + location);
    AuthorityStops(authority, location);
    Regroup(scheme + "://", authority, location);
  }

  /** A redirect naming a path alone: one leading slash. */
  predicate RootRelative(location: string) {
    location != "" && location[0] == '/' && !(|location| >= 2 && location[..2] == "//")
  }

  /**
   A redirect that names only a path and holds no `://` keeps the scheme, host and port of the URL that
   sent it if and only if the host does not begin with a bracket and, when the port is left unsaid, holds
   no colon.
   */
  lemma {:induction false} PathStaysOnHost(base: string, location: string)
    requires SplitUrl(base).Ok? && RootRelative(location) && CutAt(location, "://").None?
    ensures ResolveRelative(base, location).Ok?
    ensures SplitUrl(ResolveRelative(base, location).value) == SplitUrl(base) <==> Survives(SplitUrl(base).value)
  {
    var parts := SplitUrl(base).value;
    AcceptedMeans(base);
    SplitsAgain(base, AuthorityOf(parts), location);
    AuthorityIsPlain(parts);
    AuthorityReadsBack(parts);
  }

  /** A root-relative location holding `://` is taken for a whole URL: no base has a say in what comes of it. */
  lemma {:induction false} PathTakenForUrl(base: string, location: string)
    requires RootRelative(location) && CutAt(location, "://").Some?
    ensures ResolveRelative(base, location) == Ok(location)
    ensures SplitUrl(location).Ok? ==>
              SplitUrl(location).value.scheme != "" && SplitUrl(location).value.scheme[0] == '/'
  {
    var before := CutAt(location, "://").value.0;
    assert location[..3][0] == location[0] != ':';
    assert before[0] == location[0];
  }

  /** A location that names its own host keeps the scheme of the URL that sent it, or is refused. */
  lemma {:induction false} HostNamedKeepsScheme(base: string, location: string)
    requires SplitUrl(base).Ok? && |location| >= 2 && location[..2] == "//" && CutAt(location, "://").None?
    ensures ResolveRelative(base, location).Ok?
    ensures var to := SplitUrl(ResolveRelative(base, location).value);
            to.Ok? ==> to.value.scheme == SplitUrl(base).value.scheme
  {
    SchemeCutsAgain(base, location[2..]);
  }

  predicate Slashed(scheme: string) {
    scheme != "" && scheme[0] == '/'
  }

  /**
   Where every redirect ends up. It is refused exactly when it is not a whole URL and either nobody can read
   the base or it is not rooted; a whole URL stands for itself; a host it names is taken with the base's
   scheme; and a path alone stays on the base's host exactly where it holds no `://` and that host survives,
   unless the base's own scheme begins with a slash.
   */
  lemma {:induction false} RedirectEndsUp(base: string, location: string)
    ensures var r, whole := ResolveRelative(base, location), CutAt(location, "://").Some?;
            && (r.Err? <==> !whole && (SplitUrl(base).Err? || location == "" || location[0] != '/'))
            && (r.Err? ==> if SplitUrl(base).Err? then r.error == SplitUrl(base).error else r.error == PathRelative)
            && (whole ==> r == Ok(location))
            && (r.Ok? && !whole ==>
                  var to := SplitUrl(r.value);
                  && (RootRelative(location) ==> (to == SplitUrl(base) <==> Survives(SplitUrl(base).value)))
                  && (!RootRelative(location) && to.Ok? ==> to.value.scheme == SplitUrl(base).value.scheme))
    ensures SplitUrl(base).Ok? && RootRelative(location) && !Slashed(SplitUrl(base).value.scheme) ==>
              var r := ResolveRelative(base, location);
              r.Ok? && (SplitUrl(r.value) == SplitUrl(base) <==>
                          CutAt(location, "://").None? && Survives(SplitUrl(base).value))
  {
    if RootRelative(location) && CutAt(location, "://").Some? {
      PathTakenForUrl(base, location);
    }
    if |location| >= 2 && location[..2] == "//" {
      assert location[0] == location[..2][0];
    }
    if ResolveRelative(base, location).Ok? && CutAt(location, "://").None? {
      if RootRelative(location) {
        PathStaysOnHost(base, location);
      } else {
        HostNamedKeepsScheme(base, location);
      }
    }
  }

  /**
   Where it does not survive: a host holding a colon, its port unsaid, comes back as the part before its
   last colon, with the rest read as a port whenever the rest is a number.
   */
  lemma {:induction false} HostIsCutShort(base: string, location: string, before: string, tail: string)
    requires SplitUrl(base).Ok? && RootRelative(location) && CutAt(location, "://").None?
    requires Unsaid(SplitUrl(base).value) && SplitUrl(base).value.host == before + ":" + tail
    requires before != "" && before[0] != '[' && ':' !in tail && ParsePort(tail).Ok?
    ensures ResolveRelative(base, location).Ok?
    ensures SplitUrl(ResolveRelative(base, location).value)
            == Ok(Parts(SplitUrl(base).value.scheme, before, ParsePort(tail).value))
  {
    var parts := SplitUrl(base).value;
    AcceptedMeans(base);
    AuthorityIsPlain(parts);
    SplitsAgain(base, parts.host, location);
    LastColonIs(before, tail);
  }

  /** An address in brackets as a base writes one. */
  function Bracketed(host: string, path: string): string {
    "https" + "://" + ("[" + host + "]" + path)
  }

  lemma {:induction false} BracketIsRead(host: string, default: u16)
    requires ']' !in host
    ensures SplitAuthority("[" + host + "]", default) == Ok((host, default))
  {
    BracketEnds(host, "");
    assert ("[" + host + "]")[1..] == host + "]" + "";
  }

  lemma {:induction false} BracketedIsAccepted(host: string, path: string)
    requires Plain(host) && ']' !in host && path != "" && EndsAuthority(path[0])
    ensures SplitUrl(Bracketed(host, path)) == Ok(Parts("https", host, 443))
  {
    var authority := "[" + host + "]";
    CutsHere("https", authority + path);
    AuthorityStops(authority, path);
    BracketIsRead(host, DefaultPort("https"));
    assert '@' !in authority;
    assert Lower("https") == "https";
  }

  /**
   An address in brackets is such a host: the brackets are not written back, so the group after its last
   colon turns into the port and the rest into the host.
   */
  lemma {:induction false} BracketsAreLost(before: string, tail: string, path: string, location: string)
    requires Plain(before + ":" + tail) && ']' !in before + ":" + tail && path != "" && EndsAuthority(path[0])
    requires before != "" && before[0] != '[' && ':' !in tail && ParsePort(tail).Ok?
    requires RootRelative(location) && CutAt(location, "://").None?
    ensures var base := Bracketed(before + ":" + tail, path);
            SplitUrl(base) == Ok(Parts("https", before + ":" + tail, 443)) && ResolveRelative(base, location).Ok?
            && SplitUrl(ResolveRelative(base, location).value) == Ok(Parts("https", before, ParsePort(tail).value))
  {
    BracketedIsAccepted(before + ":" + tail, path);
    HostIsCutShort(Bracketed(before + ":" + tail, path), location, before, tail);
  }
}
