/** normalize_url, bracket_host and replace_host_port of onvif/util.py. None is the ValueError
    urlparse raises for an authority it does not accept. */
module UrlRewriting {
  import opened Wrappers
  import opened Text
  import opened Urls

  // ------------------------------------------------------------------ the operations

  /** str.split for one character. */
  function Split(s: string, c: char): (parts: seq<string>)
    ensures parts != []
    decreases |s|
  {
    if c !in s then [s] else Split(s[..Last(s, c)], c) + [s[Last(s, c) + 1..]]
  }

  /** str.join for one character. */
  function Join(parts: seq<string>, c: char): string
    requires parts != []
  {
    if |parts| == 1 then parts[0] else Join(parts[..|parts| - 1], c) + [c] + parts[|parts| - 1]
  }

  /** What comes before the last `c`. */
  function BeforeLast(s: string, c: char): string
    requires c in s
  {
    s[..Last(s, c)]
  }

  /** Popping the last part and joining the others cuts at the last separator. */
  lemma PoppedJoin(s: string, c: char)
    requires c in s
    ensures |Split(s, c)| > 1 && Join(Split(s, c)[..|Split(s, c)| - 1], c) == BeforeLast(s, c)
  {
  }

  /** The port is duplicated: more than one colon, outside an IPv6 literal. */
  predicate DuplicatedPort(hostport: string)
    ensures DuplicatedPort(hostport) ==> ':' in hostport
  {
    CountZero(hostport, ':');
    '[' !in hostport && Count(hostport, ':') > 1
  }

  function NormalizedNetloc(netloc: string): string {
    var (userinfo, hostport) := CutLast(netloc, '@');
    if DuplicatedPort(hostport) then userinfo + BeforeLast(hostport, ':') else netloc
  }

  function Normalized(accepts: Accepts, url: string): Option<string> {
    var parsed := Parse(accepts, url);
    if parsed.None? then None
    else if DuplicatedPort(CutLast(parsed.value.netloc, '@').1)
    then Some(Unparse(parsed.value.(netloc := NormalizedNetloc(parsed.value.netloc))))
    else Some(url)
  }

  /** normalize_url; a missing URL stays missing. */
  method NormalizeUrl(accepts: Accepts, url: Option<string>) returns (r: Option<Option<string>>)
    ensures url.None? ==> r == Some(None)
    ensures url.Some? ==>
              r == var normal := Normalized(accepts, url.value); if normal.None? then None else Some(normal)
  {
    if url.None? {
      return Some(None);
    }
    var parsed := Parse(accepts, url.value);
    if parsed.None? {
      return None;
    }
    var (userinfo, hostport) := CutLast(parsed.value.netloc, '@');
    if '[' !in hostport && Count(hostport, ':') > 1 {
      CountZero(hostport, ':');
      PoppedJoin(hostport, ':');
      var hostParts := Split(hostport, ':');
      hostParts := hostParts[..|hostParts| - 1];
      return Some(Some(Unparse(parsed.value.(netloc := userinfo + Join(hostParts, ':')))));
    }
    r := Some(url);
  }

  function BracketHost(host: string): string {
    if "[" <= host || Count(host, ':') < 2 then host else "[" + host + "]"
  }

  function Netloc(host: string, port: int): string {
    BracketHost(host) + ":" + Decimal(port)
  }

  function ReplaceHostPort(accepts: Accepts, url: string, host: string, port: int): Option<string> {
    if url == "" then Some(url) else
    var parsed := Parse(accepts, url);
    if parsed.None? then None else Some(Unparse(parsed.value.(netloc := Netloc(host, port))))
  }

  // ------------------------------------------------------------------ what they promise

  /** A URL urlparse accepts, with a scheme and an authority. */
  predicate Absolute(accepts: Accepts, url: string) {
    Parse(accepts, url).Some? && Parse(accepts, url).value.scheme != "" && Parse(accepts, url).value.netloc != ""
  }

  /** A host that can stand in an authority with this port: no delimiter, and accepted. */
  predicate ValidHost(accepts: Accepts, host: string, port: int) {
    Free(host, DELIMITERS + REMOVED) && accepts(Netloc(host, port))
  }

  lemma PortIsPlain(port: int)
    ensures var tail := ":" + Decimal(port);
            Free(tail, DELIMITERS + REMOVED) && Free(tail, {'[', ']', '@'}) && Free(Decimal(port), {':', '[', '@'})
  {
  }

  /** A plain suffix makes no difference to what an authority may contain. */
  lemma PlainSuffix(a: string, b: string)
    requires Free(b, DELIMITERS + REMOVED)
    ensures Free(a + b, DELIMITERS + REMOVED) <==> Free(a, DELIMITERS + REMOVED)
  {
    FreeConcat(a, b, DELIMITERS + REMOVED);
  }

  lemma BracketsAreHarmless(host: string)
    ensures Free(BracketHost(host), DELIMITERS + REMOVED) <==> Free(host, DELIMITERS + REMOVED)
  {
    FreeConcat("[", host, DELIMITERS + REMOVED);
    FreeConcat("[" + host, "]", DELIMITERS + REMOVED);
  }

  lemma NetlocIsCanonical(host: string, port: int)
    ensures var n := Netloc(host, port);
            && n != "" && (Free(n, DELIMITERS + REMOVED) <==> Free(host, DELIMITERS + REMOVED))
  {
    PortIsPlain(port);
    PlainSuffix(BracketHost(host), ":" + Decimal(port));
    BracketsAreHarmless(host);
    assert Netloc(host, port) == BracketHost(host) + (":" + Decimal(port));
  }

  /** The rewrite sets the authority to host:port and keeps scheme, path, params, query and
      fragment, exactly when the host can stand in an authority. */
  lemma ReplaceSetsOnlyTheNetloc(accepts: Accepts, url: string, host: string, port: int)
    requires Absolute(accepts, url)
    ensures var r := ReplaceHostPort(accepts, url, host, port);
            && r.Some?
            && (Parse(accepts, r.value) == Some(Parse(accepts, url).value.(netloc := Netloc(host, port))) <==>
                  ValidHost(accepts, host, port))
  {
    ParsedIsCanonical(accepts, url);
    NetlocIsCanonical(host, port);
    NonEmpty(accepts, url);
    var c := Parse(accepts, url).value.(netloc := Netloc(host, port));
    if ValidHost(accepts, host, port) {
      ParsePrinted(accepts, c);
    } else if Parse(accepts, Unparse(c)) == Some(c) {
      ParsedIsCanonical(accepts, Unparse(c));
    }
  }

  /** A name, an IPv4 address or a host already in brackets is set as it is. */
  lemma HostIsSetAsItIs(accepts: Accepts, url: string, host: string, port: int)
    requires Absolute(accepts, url) && Free(host, DELIMITERS + REMOVED)
    requires "[" <= host || Count(host, ':') < 2
    requires accepts(host + ":" + Decimal(port))
    ensures var r := ReplaceHostPort(accepts, url, host, port);
            r.Some? && Parse(accepts, r.value) == Some(Parse(accepts, url).value.(netloc := host + ":" + Decimal(port)))
  {
    ReplaceSetsOnlyTheNetloc(accepts, url, host, port);
  }

  lemma LiteralNetloc(host: string, port: int)
    requires !("[" <= host) && Count(host, ':') >= 2
    ensures Netloc(host, port) == "[" + host + "]:" + Decimal(port)
  {
    assert BracketHost(host) == "[" + host + "]";
    assert "[" + host + "]" + ":" + Decimal(port) == "[" + host + "]:" + Decimal(port);
  }

  /** A bare IPv6 literal, and nothing else, is put in brackets. */
  lemma LiteralIsSetInBrackets(accepts: Accepts, url: string, host: string, port: int, netloc: string)
    requires Absolute(accepts, url) && Free(host, DELIMITERS + REMOVED)
    requires !("[" <= host) && Count(host, ':') >= 2
    requires netloc == "[" + host + "]:" + Decimal(port) && accepts(netloc)
    ensures var r := ReplaceHostPort(accepts, url, host, port);
            r.Some? && Parse(accepts, r.value) == Some(Parse(accepts, url).value.(netloc := netloc))
  {
    LiteralNetloc(host, port);
    ReplaceSetsOnlyTheNetloc(accepts, url, host, port);
  }

  lemma NonEmpty(accepts: Accepts, url: string)
    requires Absolute(accepts, url)
    ensures url != ""
  {
  }

  lemma SchemePrefixIsNoHost(accepts: Accepts, host: string, port: int)
    requires "http://" <= host || "https://" <= host
    ensures !ValidHost(accepts, host, port)
  {
    var slash := if "http://" <= host then 5 else 6;
    assert host[slash] == '/' && host[slash] in DELIMITERS;
  }

  /** A camera host given with its scheme, which the device management address accepts, is never
      what the rewrite sets. */
  lemma SchemePrefixedHostIsNotSet(accepts: Accepts, url: string, host: string, port: int)
    requires Absolute(accepts, url) && ("http://" <= host || "https://" <= host)
    ensures Parse(accepts, ReplaceHostPort(accepts, url, host, port).value) !=
              Some(Parse(accepts, url).value.(netloc := Netloc(host, port)))
  {
    SchemePrefixIsNoHost(accepts, host, port);
    ReplaceSetsOnlyTheNetloc(accepts, url, host, port);
  }

  /** What is dropped from a host with duplicated port: one colon and the text after it. */
  lemma ExtraPort(hostport: string)
    requires DuplicatedPort(hostport)
    ensures var kept := BeforeLast(hostport, ':');
            && kept <= hostport && |kept| < |hostport| && ':' in kept
            && Count(kept, ':') == Count(hostport, ':') - 1
  {
    var k := Last(hostport, ':');
    var port := hostport[k + 1..];
    assert hostport == hostport[..k] + (":" + port);
    CountConcat(hostport[..k], ":" + port, ':');
    CountConcat(":", port, ':');
    CountZero(port, ':');
    CountZero(hostport[..k], ':');
  }

  lemma KeptFits(userinfo: string, hostport: string, kept: string)
    requires Free(userinfo + hostport, DELIMITERS + REMOVED)
    requires '@' !in hostport && kept <= hostport && kept != ""
    ensures var n := userinfo + kept; n != "" && Free(n, DELIMITERS + REMOVED) && '@' !in kept
  {
    assert forall x :: x in kept ==> x in hostport;
    FreeConcat(userinfo, hostport, DELIMITERS + REMOVED);
    FreeConcat(userinfo, kept, DELIMITERS + REMOVED);
  }

  lemma NormalizedNetlocFits(netloc: string)
    requires netloc != "" && Free(netloc, DELIMITERS + REMOVED)
    ensures var n := NormalizedNetloc(netloc);
            && n != "" && Free(n, DELIMITERS + REMOVED)
            && CutLast(n, '@').0 == CutLast(netloc, '@').0
            && (DuplicatedPort(CutLast(netloc, '@').1) ==>
                  n != netloc && CutLast(n, '@').1 == BeforeLast(CutLast(netloc, '@').1, ':'))
  {
    var (userinfo, hostport) := CutLast(netloc, '@');
    if DuplicatedPort(hostport) {
      ExtraPort(hostport);
      var kept := BeforeLast(hostport, ':');
      assert netloc == userinfo + hostport;
      KeptFits(userinfo, hostport, kept);
      CutLastConcat(userinfo, kept, '@');
    }
  }

  /** Without a bracket in the user information, which section 3.2.1 of RFC 3986 rules out, what
      normalising leaves of an accepted ASCII authority is accepted. */
  lemma PlainUserInfoStaysAccepted(accepts: Accepts, netloc: string)
    requires ReadsAuthorities(accepts) && accepts(netloc) && Plain(CutLast(netloc, '@').0)
    requires forall i :: 0 <= i < |netloc| ==> netloc[i] < 128 as char
    ensures accepts(NormalizedNetloc(netloc))
  {
    var (userinfo, hostport) := CutLast(netloc, '@');
    if DuplicatedPort(hostport) {
      assert Matched(netloc);
      PlainHostStaysPlain(userinfo, hostport, BeforeLast(hostport, ':'));
    }
  }

  lemma PlainHostStaysPlain(userinfo: string, hostport: string, kept: string)
    requires Matched(userinfo + hostport) && Plain(userinfo) && '[' !in hostport && kept <= hostport
    requires forall i :: 0 <= i < |userinfo + hostport| ==> (userinfo + hostport)[i] < 128 as char
    ensures Plain(userinfo + kept)
  {
    assert '[' !in userinfo + hostport;
    assert ']' !in userinfo + hostport;
    assert forall i :: 0 <= i < |userinfo + kept| ==> (userinfo + kept)[i] == (userinfo + hostport)[i];
    assert forall i :: 0 <= i < |userinfo + hostport| ==> (userinfo + hostport)[i] in userinfo + hostport;
  }

  /** Normalising drops the last port of an authority that has more than one, keeps everything
      else, and returns every other URL as it is. What it returns can be read again exactly when
      what it left of the authority is accepted. */
  lemma NormalizeDropsOnlyTheExtraPort(accepts: Accepts, url: string)
    requires Absolute(accepts, url)
    ensures var c := Parse(accepts, url).value;
            var n := NormalizedNetloc(c.netloc);
            && Normalized(accepts, url).Some?
            && Parse(accepts, Normalized(accepts, url).value) == (if accepts(n) then Some(c.(netloc := n)) else None)
            && Printable(c.(netloc := n))
            && (Normalized(accepts, url) == Some(url) <==> n == c.netloc)
  {
    ParsedIsCanonical(accepts, url);
    var c := Parse(accepts, url).value;
    NormalizedNetlocFits(c.netloc);
    if DuplicatedPort(CutLast(c.netloc, '@').1) {
      ParsePrinted(accepts, c.(netloc := NormalizedNetloc(c.netloc)));
    }
  }

  /** An authority whose port is duplicated loses the last one: user@name:port:extra becomes
      user@name:port, whatever the texts between the colons. */
  lemma ExtraPortIsDropped(accepts: Accepts, url: string, userinfo: string, name: string, port: string, extra: string)
    requires Absolute(accepts, url)
    requires Parse(accepts, url).value.netloc == userinfo + (name + ":" + port + (":" + extra))
    requires userinfo == "" || userinfo[|userinfo| - 1] == '@'
    requires Free(name + ":" + port + (":" + extra), {'[', '@'}) && ':' !in extra
    requires accepts(userinfo + (name + ":" + port))
    ensures var r := Normalized(accepts, url);
            && r.Some?
            && Parse(accepts, r.value) == Some(Parse(accepts, url).value.(netloc := userinfo + (name + ":" + port)))
  {
    var kept := name + ":" + port;
    CutLastConcat(userinfo, kept + (":" + extra), '@');
    KeptPort(name, port, extra);
    NormalizeDropsOnlyTheExtraPort(accepts, url);
  }

  lemma KeptPort(name: string, port: string, extra: string)
    requires Free(name + ":" + port + (":" + extra), {'[', '@'}) && ':' !in extra
    ensures var kept := name + ":" + port;
            DuplicatedPort(kept + (":" + extra)) && BeforeLast(kept + (":" + extra), ':') == kept
  {
    var kept := name + ":" + port;
    FreeConcat(kept, ":" + extra, {'[', '@'});
    FreeConcat(":", extra, {'[', '@'});
    assert kept[|name|] == ':';
    PortAdded(kept, extra);
  }

  /** An authority with at most one colon past the user information, or with a bracket there, is
      left alone, and the URL is returned verbatim. */
  lemma PlainUrlIsVerbatim(accepts: Accepts, url: string, userinfo: string, hostport: string)
    requires Parse(accepts, url).Some? && Parse(accepts, url).value.netloc == userinfo + hostport
    requires (userinfo == "" || userinfo[|userinfo| - 1] == '@') && '@' !in hostport
    requires '[' in hostport || Count(hostport, ':') <= 1
    ensures Normalized(accepts, url) == Some(url)
  {
    CutLastConcat(userinfo, hostport, '@');
  }

  /** Rewriting for NAT absorbs a normalisation before it, exactly when the normalised authority
      is accepted. */
  lemma ReplaceAbsorbsNormalize(accepts: Accepts, url: string, host: string, port: int)
    requires Absolute(accepts, url)
    ensures Normalized(accepts, url).Some?
    ensures ReplaceHostPort(accepts, Normalized(accepts, url).value, host, port) == ReplaceHostPort(accepts, url, host, port)
       <==> accepts(NormalizedNetloc(Parse(accepts, url).value.netloc))
  {
    NormalizeDropsOnlyTheExtraPort(accepts, url);
    NonEmpty(accepts, url);
    NonEmptyStaysNonEmpty(accepts, url, host, port);
  }

  /** Adding a port to a name duplicates it exactly when the name has one and is no IPv6 literal. */
  lemma PortAdded(name: string, port: string)
    requires ':' !in port && '[' !in port
    ensures var hostport := name + (":" + port);
            && (DuplicatedPort(hostport) <==> '[' !in name && ':' in name)
            && BeforeLast(hostport, ':') == name
  {
    var hostport := name + (":" + port);
    CountZero(port, ':');
    CountZero(name, ':');
    CountConcat(name, ":" + port, ':');
    CountConcat(":", port, ':');
    assert '[' in hostport <==> '[' in name;
    assert hostport == (name + ":") + port;
    CutLastConcat(name + ":", port, ':');
    assert hostport[..|name|] == name;
  }

  /** A URL that shows it: the bracket opened before the at sign is closed in the port that is
      dropped, so a version that accepts the authority refuses what normalising leaves of it. */
  lemma BracketAcrossTheAtSign(accepts: Accepts, netloc: string, u: string)
    requires netloc == "[v1.a@v1.x:1:2]" && u == "http://" + netloc + "/x"
    requires ReadsAuthorities(accepts) && accepts(netloc)
    ensures Absolute(accepts, u)
    ensures Normalized(accepts, u).Some? && Parse(accepts, Normalized(accepts, u).value).None?
  {
    NothingDelimits(netloc);
    ClosedInThePort(netloc);
    DroppedBracket(netloc, netloc[..6], netloc[6..12], netloc[13..]);
    RefusedOnceNormalized(accepts, netloc);
  }

  lemma NothingDelimits(netloc: string)
    requires netloc == "[v1.a@v1.x:1:2]"
    ensures Free(netloc, DELIMITERS + REMOVED)
  {
  }

  lemma ClosedInThePort(netloc: string)
    requires netloc == "[v1.a@v1.x:1:2]"
    ensures BracketDropped(netloc, netloc[..6], netloc[6..12], netloc[13..])
  {
    assert netloc[..6][0] == '[' && netloc[6..12][4] == ':' && netloc[13..][1] == ']';
  }

  lemma RefusedOnceNormalized(accepts: Accepts, netloc: string)
    requires netloc != "" && Free(netloc, DELIMITERS + REMOVED)
    requires accepts(netloc) && !accepts(NormalizedNetloc(netloc))
    ensures var u := "http://" + netloc + "/x";
            && Absolute(accepts, u)
            && Normalized(accepts, u).Some? && Parse(accepts, Normalized(accepts, u).value).None?
  {
    var c := Url("http", netloc, "/x", "", "", "");
    SimpleUrl(netloc);
    ParsePrinted(accepts, c);
    NormalizeDropsOnlyTheExtraPort(accepts, Unparse(c));
  }

  lemma SimpleUrl(netloc: string)
    requires netloc != "" && Free(netloc, DELIMITERS + REMOVED)
    ensures var c := Url("http", netloc, "/x", "", "", "");
            Printable(c) && Unparse(c) == "http://" + netloc + "/x"
  {
    assert CutLast("/x", '/').1 == "x";
  }

  /** A bracket opened in the user information is closed in the port. */
  predicate BracketDropped(netloc: string, userinfo: string, name: string, port: string) {
    && netloc == userinfo + (name + (":" + port))
    && userinfo != "" && '[' in userinfo && ']' !in userinfo && userinfo[|userinfo| - 1] == '@'
    && ':' in name && '[' !in name && ']' !in name && '@' !in name
    && ']' in port && ':' !in port && '[' !in port && '@' !in port
  }

  lemma DroppedBracket(netloc: string, userinfo: string, name: string, port: string)
    requires BracketDropped(netloc, userinfo, name, port)
    ensures !Matched(NormalizedNetloc(netloc))
  {
    PortAdded(name, port);
    assert '@' !in name + (":" + port);
    CutLastConcat(userinfo, name + (":" + port), '@');
    assert '[' in userinfo + name && ']' !in userinfo + name;
  }

  // ------------------------------------------------------------------ rewriting again, for every host

  /** The authority urlparse reads after the rewrite: without the characters it removes, up to the
      first delimiter. */
  function ReadNetloc(host: string, port: int): string {
    Cut(Without(Netloc(host, port), REMOVED), DELIMITERS).0
  }

  lemma PortHasColon(host: string, port: int)
    ensures var n := Without(Netloc(host, port), REMOVED);
            var (read, rest) := Cut(n, DELIMITERS);
            && Count(rest, ':') >= (if Free(n, DELIMITERS) then 0 else 1)
            && (Free(n, DELIMITERS) ==> read == n && rest == "")
  {
    PortIsPlain(port);
    PortIsKept(BracketHost(host), ":" + Decimal(port));
    assert Netloc(host, port) == BracketHost(host) + (":" + Decimal(port));
    ColonAfterDelimiter(Without(BracketHost(host), REMOVED), ":" + Decimal(port));
  }

  lemma PortIsKept(front: string, port: string)
    requires Free(port, DELIMITERS + REMOVED)
    ensures Without(front + port, REMOVED) == Without(front, REMOVED) + port
  {
    WithoutConcat(front, port, REMOVED);
    WithoutFree(port, REMOVED);
  }

  /** What follows the first delimiter reaches to the end, and so holds the port's colon. */
  lemma ColonAfterDelimiter(front: string, port: string)
    requires port != "" && port[0] == ':' && Free(port, DELIMITERS)
    ensures var n := front + port;
            var (read, rest) := Cut(n, DELIMITERS);
            && (!Free(n, DELIMITERS) ==> Count(rest, ':') >= 1)
            && (Free(n, DELIMITERS) ==> read == n && rest == "")
  {
    var n := front + port;
    var (read, rest) := Cut(n, DELIMITERS);
    if Free(n, DELIMITERS) {
      CutConcat(n, "", DELIMITERS);
      assert n + "" == n;
    } else {
      FreeConcat(front, port, DELIMITERS);
      assert |read| < |front| by {
        assert rest[0] == n[|read|];
      }
      assert rest[|front| - |read|] == n[|front|] == ':';
      CountZero(rest, ':');
    }
  }

  lemma CutInFront(n: string, tail: string)
    requires tail == "" || tail[0] in DELIMITERS
    ensures Cut(n + tail, DELIMITERS) == (Cut(n, DELIMITERS).0, Cut(n, DELIMITERS).1 + tail)
  {
    var (read, rest) := Cut(n, DELIMITERS);
    assert n + tail == read + (rest + tail);
    CutConcat(read, rest + tail, DELIMITERS);
  }

  /** Reading what a rewrite printed. */
  lemma RewrittenIsRead(accepts: Accepts, url: string, host: string, port: int)
    requires Absolute(accepts, url)
    ensures var c := Parse(accepts, url).value.(netloc := Netloc(host, port));
            var read := ReadNetloc(host, port);
            var tail := Cut(Without(c.netloc, REMOVED), DELIMITERS).1 + Tail(c);
            && ReplaceHostPort(accepts, url, host, port) == Some(Unparse(c)) && Unparse(c) != ""
            && PrintableApart(c) && c.netloc != ""
            && Parse(accepts, Unparse(c)) == (if read != "" && !accepts(read) then None else Some(Located(c.scheme, read, tail)))
            && Reread(c) == (read, tail)
  {
    ParsedIsCanonical(accepts, url);
    NonEmpty(accepts, url);
    var c := Parse(accepts, url).value.(netloc := Netloc(host, port));
    assert Netloc(host, port) != "";
    UnparsedShape(c);
    CutInFront(Without(c.netloc, REMOVED), Tail(c));
    PrintedIsRead(accepts, c);
  }

  /** The last rewrite wins exactly when the first host has no delimiter, and its authority, without
      the characters urlparse removes, is accepted. */
  lemma LastReplaceWins(accepts: Accepts, url: string, host1: string, port1: int, host2: string, port2: int)
    requires Absolute(accepts, url)
    ensures var first := ReplaceHostPort(accepts, url, host1, port1);
            && first.Some?
            && (ReplaceHostPort(accepts, first.value, host2, port2) == ReplaceHostPort(accepts, url, host2, port2) <==>
                  Free(host1, DELIMITERS) && accepts(ReadNetloc(host1, port1)))
  {
    RewrittenIsRead(accepts, url, host1, port1);
    NonEmpty(accepts, url);
    PortHasColon(host1, port1);
    DelimitersOfHost(host1, port1);
    var c := Parse(accepts, url).value;
    var (read, tail) := Reread(c.(netloc := Netloc(host1, port1)));
    var again := Located(c.scheme, read, tail);
    if Free(Without(Netloc(host1, port1), REMOVED), DELIMITERS) {
      ReadNetlocNonEmpty(host1, port1);
      assert "" + Tail(c) == Tail(c);
      assert Tail(c.(netloc := read)) == Tail(c);
      TailRead(c.(netloc := read));
    } else {
      DelimitedDiffers(c, again, tail, Netloc(host2, port2), Cut(Without(Netloc(host1, port1), REMOVED), DELIMITERS).1);
    }
  }

  lemma DelimitersOfHost(host: string, port: int)
    ensures Free(Without(Netloc(host, port), REMOVED), DELIMITERS) <==> Free(host, DELIMITERS)
  {
    WithoutKeepsOthers(Netloc(host, port), REMOVED, DELIMITERS);
    FreeConcat("[", host, DELIMITERS);
    FreeConcat("[" + host, "]", DELIMITERS);
    FreeConcat(BracketHost(host), ":" + Decimal(port), DELIMITERS);
    PortIsPlain(port);
    assert Netloc(host, port) == BracketHost(host) + (":" + Decimal(port));
  }

  lemma ReadNetlocNonEmpty(host: string, port: int)
    requires Free(Without(Netloc(host, port), REMOVED), DELIMITERS)
    ensures ReadNetloc(host, port) != ""
  {
    PortHasColon(host, port);
    WithoutColons(Netloc(host, port), REMOVED);
    CountZero(Netloc(host, port), ':');
    assert Netloc(host, port)[|BracketHost(host)|] == ':';
  }

  /** With a colon moved out of the authority, printing again gives another URL. */
  lemma DelimitedDiffers(c: Url, again: Url, tail: string, netloc: string, moved: string)
    requires IsScheme(c.scheme) && again == Located(c.scheme, again.netloc, tail) && netloc != ""
    requires tail == moved + Tail(c) && Count(moved, ':') >= 1
    ensures Unparse(again.(netloc := netloc)) != Unparse(c.(netloc := netloc))
  {
    LocatedColons(c.scheme, again.netloc, tail);
    CountConcat(moved, Tail(c), ':');
    TailColons(c);
    PrintedColons(again.(netloc := netloc));
    PrintedColons(c.(netloc := netloc));
  }

  lemma PlainSuffixHasNoUser(name: string, b: string)
    requires '@' !in name && Free(b, {'@'})
    ensures '@' !in name + b
  {
  }

  /** What follows the user information once host and port are set. */
  lemma NetlocParts(host: string, port: int)
    ensures var (userinfo, name) := CutLast(BracketHost(host), '@');
            var (user, hostport) := CutLast(Netloc(host, port), '@');
            && user == userinfo && hostport == name + (":" + Decimal(port))
            && (DuplicatedPort(hostport) <==> '[' !in name && ':' in name)
  {
    PortIsPlain(port);
    PortParts(BracketHost(host), Decimal(port));
    assert Netloc(host, port) == BracketHost(host) + (":" + Decimal(port));
  }

  lemma PortParts(host: string, port: string)
    requires Free(port, {':', '[', '@'})
    ensures var (userinfo, name) := CutLast(host, '@');
            var (user, hostport) := CutLast(host + (":" + port), '@');
            && user == userinfo && hostport == name + (":" + port)
            && (DuplicatedPort(hostport) <==> '[' !in name && ':' in name)
  {
    SuffixStays(host, ":" + port);
    PortAdded(CutLast(host, '@').1, port);
  }

  lemma SuffixStays(host: string, b: string)
    requires Free(b, {'@'})
    ensures CutLast(host + b, '@') == (CutLast(host, '@').0, CutLast(host, '@').1 + b)
  {
    var (userinfo, name) := CutLast(host, '@');
    PlainSuffixHasNoUser(name, b);
    assert host + b == userinfo + (name + b);
    CutLastConcat(userinfo, name + b, '@');
  }

  /** Normalising after the rewrite changes nothing, for every host, exactly when the authority that
      is then read is accepted and has no duplicated port: otherwise a port is dropped again. */
  lemma NormalizeKeepsReplaced(accepts: Accepts, url: string, host: string, port: int)
    requires Absolute(accepts, url)
    ensures var r := ReplaceHostPort(accepts, url, host, port).value;
            var read := ReadNetloc(host, port);
            Normalized(accepts, r) == Some(r) <==>
              (read == "" || accepts(read)) && !DuplicatedPort(CutLast(read, '@').1)
  {
    RewrittenIsRead(accepts, url, host, port);
    var c := Parse(accepts, url).value.(netloc := Netloc(host, port));
    var (read, tail) := Reread(c);
    if DuplicatedPort(CutLast(read, '@').1) {
      PortDropped(c, Located(c.scheme, read, tail), tail);
    }
  }

  /** Dropping a port drops a colon. */
  lemma PortDropped(c: Url, read: Url, tail: string)
    requires IsScheme(c.scheme) && c.netloc != "" && Reread(c) == (read.netloc, tail)
    requires read == Located(c.scheme, read.netloc, tail) && DuplicatedPort(CutLast(read.netloc, '@').1)
    ensures Unparse(read.(netloc := NormalizedNetloc(read.netloc))) != Unparse(c)
  {
    var (userinfo, hostport) := CutLast(read.netloc, '@');
    ExtraPort(hostport);
    CountConcat(userinfo, hostport, ':');
    CountConcat(userinfo, BeforeLast(hostport, ':'), ':');
    RereadColons(c);
    LocatedColons(c.scheme, read.netloc, tail);
    PrintedColons(read.(netloc := NormalizedNetloc(read.netloc)));
    PrintedColons(c);
  }

  /** For a host without user information and with an accepted authority: it keeps the port it was
      given unless it has exactly one colon, which is the form bracket_host leaves untouched, and
      no bracket. */
  lemma PlainHostKeepsItsPort(accepts: Accepts, url: string, host: string, port: int)
    requires Absolute(accepts, url) && Free(host, DELIMITERS + REMOVED) && '@' !in host
    ensures var r := ReplaceHostPort(accepts, url, host, port).value;
            Normalized(accepts, r) == Some(r) <==> accepts(Netloc(host, port)) && ('[' in host || Count(host, ':') != 1)
  {
    NormalizeKeepsReplaced(accepts, url, host, port);
    NetlocIsCanonical(host, port);
    PlainIsReadWhole(Netloc(host, port));
    NetlocParts(host, port);
    PlainHostName(host);
  }

  lemma PlainIsReadWhole(netloc: string)
    requires Free(netloc, DELIMITERS + REMOVED)
    ensures Cut(Without(netloc, REMOVED), DELIMITERS).0 == netloc
  {
    WithoutFree(netloc, REMOVED);
    CutConcat(netloc, "", DELIMITERS);
    assert netloc + "" == netloc;
  }

  lemma PlainHostName(host: string)
    requires '@' !in host
    ensures var name := CutLast(BracketHost(host), '@').1;
            '[' in name || ':' !in name <==> '[' in host || Count(host, ':') != 1
  {
    NoUserInHost(BracketHost(host));
    ColonsInHost(host);
  }

  lemma NoUserInHost(name: string)
    requires '@' !in name
    ensures CutLast(name, '@').1 == name
  {
    assert "" + name == name;
    CutLastConcat("", name, '@');
  }

  lemma ColonsInHost(host: string)
    ensures var name := BracketHost(host);
            '[' in name || ':' !in name <==> '[' in host || Count(host, ':') != 1
  {
    CountZero(host, ':');
    assert Count(host, ':') >= 2 && !("[" <= host) ==> BracketHost(host)[0] == '[';
    assert "[" <= host ==> host[0] == '[';
  }

  /** One pass removes one port: normalising is idempotent exactly when at most one is extra and
      the result can be read at all. */
  lemma NormalizeIdempotentExactlyWhen(accepts: Accepts, url: string)
    requires Absolute(accepts, url)
    ensures var netloc := Parse(accepts, url).value.netloc;
            var hostport := CutLast(netloc, '@').1;
            Normalized(accepts, Normalized(accepts, url).value) == Normalized(accepts, url) <==>
              accepts(NormalizedNetloc(netloc)) && ('[' in hostport || Count(hostport, ':') <= 2)
  {
    ParsedIsCanonical(accepts, url);
    NormalizeDropsOnlyTheExtraPort(accepts, url);
    var netloc := Parse(accepts, url).value.netloc;
    var hostport := CutLast(netloc, '@').1;
    NormalizedNetlocFits(netloc);
    if DuplicatedPort(hostport) {
      ExtraPort(hostport);
      assert forall x :: x in BeforeLast(hostport, ':') ==> x in hostport;
    }
    if accepts(NormalizedNetloc(netloc)) {
      NormalizedNetlocFits(NormalizedNetloc(netloc));
      NormalizeDropsOnlyTheExtraPort(accepts, Normalized(accepts, url).value);
    }
  }

  // ------------------------------------------------------------------ empty addresses

  lemma PrintedIsLong(c: Url)
    requires c.netloc != ""
    ensures |Unparse(c)| >= 2
  {
  }

  lemma EmptyScheme(u: string)
    requires u == ""
    ensures Clean(u) == u && SplitScheme(u) == (u, u)
  {
  }

  lemma EmptyAuthority(accepts: Accepts, u: string)
    requires u == "" && Parse(accepts, u).Some?
    ensures Parse(accepts, u).value.netloc == u
  {
    EmptyScheme(u);
    assert SplitNetloc(u) == (u, u);
  }

  lemma EmptyHost(u: string)
    requires u == ""
    ensures !DuplicatedPort(CutLast(u, '@').1)
  {
  }

  /** An empty URL has no authority, so normalising leaves it alone. */
  lemma EmptyStays(accepts: Accepts, u: string)
    requires u == "" && Normalized(accepts, u).Some?
    ensures Normalized(accepts, u).value == u
  {
    EmptyAuthority(accepts, u);
    EmptyHost(u);
  }

  /** Neither normalising nor rewriting makes an address empty, or fills an empty one. */
  lemma NonEmptyStaysNonEmpty(accepts: Accepts, url: string, host: string, port: int)
    ensures Normalized(accepts, url).Some? ==> (Normalized(accepts, url).value == "" <==> url == "")
    ensures ReplaceHostPort(accepts, url, host, port).Some? ==> (ReplaceHostPort(accepts, url, host, port).value == "" <==> url == "")
  {
    if url == "" {
      if Normalized(accepts, url).Some? {
        EmptyStays(accepts, url);
      }
    } else if Parse(accepts, url).Some? {
      var c := Parse(accepts, url).value;
      assert Netloc(host, port) != "";
      PrintedIsLong(c.(netloc := Netloc(host, port)));
      var hostport := CutLast(c.netloc, '@').1;
      if DuplicatedPort(hostport) {
        ExtraPort(hostport);
        PrintedIsLong(c.(netloc := NormalizedNetloc(c.netloc)));
      }
    }
  }
}
