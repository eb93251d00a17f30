/** URL rewriting of onvif/util.py over a model of urlparse and urlunparse (sections 3 and 5.3 of
    RFC 3986). */
module Urls {
  import opened Wrappers
  import opened Text

  datatype Url = Url(scheme: string, netloc: string, path: string, params: string, query: string, fragment: string)

  const DELIMITERS: set<char> := {'/', '?', '#'}
  const REMOVED: set<char> := {'\t', '\r', '\n'}

  // ------------------------------------------------------------------ urlparse

  predicate IsAlpha(c: char) {
    'a' <= c <= 'z' || 'A' <= c <= 'Z'
  }

  predicate IsSchemeChar(c: char) {
    IsAlpha(c) || '0' <= c <= '9' || c == '+' || c == '-' || c == '.'
  }

  function LowerChar(c: char): char {
    if 'A' <= c <= 'Z' then (c as int + 32) as char else c
  }

  function Lower(s: string): (r: string)
    ensures |r| == |s| && forall i :: 0 <= i < |s| ==> r[i] == LowerChar(s[i])
  {
    seq(|s|, i requires 0 <= i < |s| => LowerChar(s[i]))
  }

  predicate IsScheme(s: string) {
    s != "" && IsAlpha(s[0]) && forall i :: 0 <= i < |s| ==> IsSchemeChar(s[i])
  }

  predicate UsesParams(scheme: string) {
    scheme in {"", "ftp", "hdl", "prospero", "http", "imap", "https", "shttp", "rtsp", "rtsps", "rtspu", "sip", "sips",
               "mms", "sftp", "tel"}
  }

  predicate UsesNetloc(scheme: string) {
    scheme in {"", "ftp", "http", "gopher", "nntp", "telnet", "imap", "wais", "file", "mms", "https", "shttp", "snews",
               "prospero", "rtsp", "rtsps", "rtspu", "rsync", "svn", "svn+ssh", "sftp", "nfs", "git", "git+ssh", "ws", "wss"}
  }

  /** Leading control characters and spaces go, and tabs and line ends anywhere. */
  function Clean(u: string): string {
    Without(LStrip(u), REMOVED)
  }

  function LStrip(u: string): string {
    if u != "" && u[0] <= ' ' then LStrip(u[1..]) else u
  }

  function SplitScheme(v: string): (string, string) {
    var i := First(v, {':'});
    if i < |v| && IsScheme(v[..i]) then (Lower(v[..i]), v[i + 1..]) else ("", v)
  }

  function SplitNetloc(rest: string): (string, string) {
    if |rest| >= 2 && rest[..2] == "//" then Cut(rest[2..], DELIMITERS) else ("", rest)
  }

  /** Text before the first `c`, and after it. */
  function Partition(s: string, c: char): (r: (string, string))
    ensures c !in r.0 && ((s == r.0 && r.1 == "") || s == r.0 + ([c] + r.1))
  {
    var (head, tail) := Cut(s, {c});
    (head, if tail == "" then "" else tail[1..])
  }

  /** Parameters start at the first semicolon of the last path segment. */
  function SplitParams(p: string): (string, string) {
    var (front, segment) := CutLast(p, '/');
    var (last, params) := Partition(segment, ';');
    (front + last, params)
  }

  /** The authorities urlparse lets pass. All versions refuse half a bracket pair, and some check
      what stands between the brackets, or what compatibility characters expand to. */
  type Accepts = string -> bool

  predicate Matched(netloc: string) {
    ('[' in netloc) == (']' in netloc)
  }

  predicate Plain(netloc: string) {
    forall i :: 0 <= i < |netloc| ==> netloc[i] < 128 as char && netloc[i] != '[' && netloc[i] != ']'
  }

  /** What holds of every version. */
  ghost predicate ReadsAuthorities(accepts: Accepts) {
    forall n :: (accepts(n) ==> Matched(n)) && (Plain(n) ==> accepts(n))
  }

  /** urlparse; None is its ValueError for an authority it does not accept. */
  function Parse(accepts: Accepts, u: string): Option<Url> {
    var (scheme, rest) := SplitScheme(Clean(u));
    var (netloc, tail) := SplitNetloc(rest);
    if netloc != "" && !accepts(netloc) then None else Some(Located(scheme, netloc, tail))
  }

  /** The components, once scheme and authority are known. */
  function Located(scheme: string, netloc: string, tail: string): Url {
    var (beforeFragment, fragment) := Partition(tail, '#');
    var (hierarchy, query) := Partition(beforeFragment, '?');
    var (path, params) := if UsesParams(scheme) then SplitParams(hierarchy) else (hierarchy, "");
    Url(scheme, netloc, path, params, query, fragment)
  }

  // ------------------------------------------------------------------ urlunparse

  function Prefixed(c: char, s: string): string {
    if s == "" then "" else [c] + s
  }

  function Unparse(c: Url): string {
    var hierarchy := c.path + Prefixed(';', c.params);
    var rooted := if hierarchy != "" && hierarchy[0] != '/' then "/" + hierarchy else hierarchy;
    var located :=
      if c.netloc != "" || (c.scheme != "" && UsesNetloc(c.scheme) && !("//" <= hierarchy)) then "//" + c.netloc + rooted
      else hierarchy;
    (if c.scheme == "" then "" else c.scheme + ":") + located + Prefixed('?', c.query) + Prefixed('#', c.fragment)
  }

  // ------------------------------------------------------------------ the round trip

  /** The components urlparse yields for a URL with a scheme and an authority. */
  ghost predicate Canonical(accepts: Accepts, c: Url) {
    Printable(c) && accepts(c.netloc)
  }

  /** The same, but for an authority that is not accepted. */
  ghost predicate Printable(c: Url) {
    c.netloc != "" && Free(c.netloc, DELIMITERS + REMOVED) && PrintableApart(c)
  }

  /** The same, whatever the authority. */
  ghost predicate PrintableApart(c: Url) {
    && IsScheme(c.scheme) && Lower(c.scheme) == c.scheme
    && (c.path == "" || c.path[0] == '/') && (c.path == "" ==> c.params == "")
    && Free(c.path + c.params, {'?', '#'} + REMOVED) && '/' !in c.params
    && (if UsesParams(c.scheme) then ';' !in CutLast(c.path, '/').1 else c.params == "")
    && Free(c.query, {'#'} + REMOVED) && Free(c.fragment, REMOVED)
  }

  lemma PartitionPrinted(s: string, c: char, t: string)
    requires c !in s
    ensures Partition(s + Prefixed(c, t), c) == (s, t)
  {
    CutConcat(s, Prefixed(c, t), {c});
  }

  /** Neither part of a partition has a character the whole has not. */
  lemma PartitionFree(s: string, c: char, cs: set<char>)
    requires Free(s, cs)
    ensures var r := Partition(s, c); Free(r.0, cs + {c}) && Free(r.1, cs)
  {
  }

  lemma SplitParamsPrinted(path: string, params: string)
    requires '/' !in params && ';' !in CutLast(path, '/').1
    ensures SplitParams(path + Prefixed(';', params)) == (path, params)
  {
    var (front, segment) := CutLast(path, '/');
    assert path + Prefixed(';', params) == front + (segment + Prefixed(';', params));
    CutLastConcat(front, segment + Prefixed(';', params), '/');
    PartitionPrinted(segment, ';', params);
  }

  lemma SplitParamsFree(p: string, cs: set<char>)
    requires Free(p, cs)
    ensures var (path, params) := SplitParams(p); Free(path, cs) && Free(params, cs)
  {
    var (front, segment) := CutLast(p, '/');
    FreeConcat(front, segment, cs);
    PartitionFree(segment, ';', cs);
    FreeConcat(front, Partition(segment, ';').0, cs);
  }

  /** Of a rooted path, all but the last segment is not empty. */
  lemma RootedFront(p: string)
    requires p != "" && p[0] == '/'
    ensures var front := CutLast(p, '/').0; front != "" && front[0] == '/'
  {
  }

  lemma SplitParamsShape(p: string)
    requires p != "" && p[0] == '/'
    ensures var (path, params) := SplitParams(p);
            path != "" && path[0] == '/' && '/' !in params && ';' !in CutLast(path, '/').1
  {
    var (front, segment) := CutLast(p, '/');
    var (last, params) := Partition(segment, ';');
    assert Free(segment, {'/'});
    PartitionFree(segment, ';', {'/'});
    CutLastConcat(front, last, '/');
    RootedFront(p);
  }

  lemma SplitSchemePrinted(scheme: string, rest: string)
    requires IsScheme(scheme) && Lower(scheme) == scheme
    ensures SplitScheme(scheme + (":" + rest)) == (scheme, rest)
  {
    assert Free(scheme, {':'});
    CutConcat(scheme, ":" + rest, {':'});
    var v := scheme + (":" + rest);
    assert v[..First(v, {':'})] == scheme && v[First(v, {':'})..] == ":" + rest;
    assert First(v, {':'}) == |scheme|;
    assert v[|scheme| + 1..] == rest;
  }

  /** The part of a URL after its authority. */
  function Tail(c: Url): string {
    c.path + Prefixed(';', c.params) + Prefixed('?', c.query) + Prefixed('#', c.fragment)
  }

  lemma UnparsedShape(c: Url)
    requires PrintableApart(c) && c.netloc != ""
    ensures Unparse(c) == c.scheme + (":" + ("//" + (c.netloc + Tail(c))))
    ensures Tail(c) == "" || Tail(c)[0] in DELIMITERS
  {
    var hierarchy := c.path + Prefixed(';', c.params);
    var query, fragment := Prefixed('?', c.query), Prefixed('#', c.fragment);
    assert hierarchy == "" || hierarchy[0] == '/';
    assert Unparse(c) == c.scheme + ":" + ("//" + c.netloc + hierarchy) + query + fragment;
    Regroup(c.scheme, c.netloc, hierarchy, query, fragment);
  }

  lemma Regroup(scheme: string, netloc: string, hierarchy: string, query: string, fragment: string)
    ensures scheme + ":" + ("//" + netloc + hierarchy) + query + fragment
         == scheme + (":" + ("//" + (netloc + (hierarchy + query + fragment))))
  {
  }

  lemma PrefixedFree(c: char, s: string)
    requires c !in REMOVED && Free(s, REMOVED)
    ensures Free(Prefixed(c, s), REMOVED)
  {
  }

  lemma TailIsFree(c: Url)
    requires PrintableApart(c)
    ensures Free(Tail(c), REMOVED)
  {
    var hierarchy := c.path + Prefixed(';', c.params);
    FreeConcat(c.path, c.params, REMOVED);
    PrefixedFree(';', c.params);
    PrefixedFree('?', c.query);
    PrefixedFree('#', c.fragment);
    FreeConcat(c.path, Prefixed(';', c.params), REMOVED);
    FreeConcat(hierarchy, Prefixed('?', c.query), REMOVED);
    FreeConcat(hierarchy + Prefixed('?', c.query), Prefixed('#', c.fragment), REMOVED);
  }

  lemma SchemeIsClean(scheme: string)
    requires IsScheme(scheme)
    ensures Free(scheme, REMOVED) && scheme[0] > ' '
  {
  }

  lemma {:induction false} WithoutConcat(a: string, b: string, cs: set<char>)
    ensures Without(a + b, cs) == Without(a, cs) + Without(b, cs)
    decreases |a|
  {
    if a == "" {
      assert a + b == b;
    } else {
      assert (a + b)[1..] == a[1..] + b;
      WithoutConcat(a[1..], b, cs);
    }
  }

  lemma {:induction false} WithoutKeepsOthers(s: string, cs: set<char>, ds: set<char>)
    requires cs !! ds
    ensures Free(Without(s, cs), ds) <==> Free(s, ds)
    decreases |s|
  {
    if s != "" {
      var rest := s[1..];
      WithoutKeepsOthers(rest, cs, ds);
      var head := if s[0] in cs then "" else [s[0]];
      FreeConcat([s[0]], rest, ds);
      assert [s[0]] + rest == s;
      FreeConcat(head, Without(rest, cs), ds);
      assert Free(head, ds) <==> s[0] !in ds;
    }
  }

  /** Text without removed characters around an authority stays as it is. */
  lemma CleanAround(before: string, netloc: string, after: string)
    requires Free(before, REMOVED) && Free(after, REMOVED)
    ensures Without(before + (netloc + after), REMOVED) == before + (Without(netloc, REMOVED) + after)
  {
    WithoutConcat(before, netloc + after, REMOVED);
    WithoutConcat(netloc, after, REMOVED);
    WithoutFree(before, REMOVED);
    WithoutFree(after, REMOVED);
  }

  /** Of a printed URL only its authority may lose characters when it is read. */
  lemma PrintedIsCleaned(c: Url)
    requires PrintableApart(c) && c.netloc != ""
    ensures Clean(Unparse(c)) == c.scheme + (":" + ("//" + (Without(c.netloc, REMOVED) + Tail(c))))
  {
    UnparsedShape(c);
    SchemeIsClean(c.scheme);
    TailIsFree(c);
    CleanedParts(c.scheme, c.netloc, Tail(c));
  }

  lemma CleanedParts(scheme: string, netloc: string, tail: string)
    requires scheme != "" && scheme[0] > ' ' && Free(scheme, REMOVED) && Free(tail, REMOVED)
    ensures Clean(scheme + (":" + ("//" + (netloc + tail)))) == scheme + (":" + ("//" + (Without(netloc, REMOVED) + tail)))
  {
    var before := scheme + "://";
    SchemeInFront(scheme, before, netloc + tail);
    SchemeInFront(scheme, before, Without(netloc, REMOVED) + tail);
    FreeConcat(scheme, "://", REMOVED);
    CleanAround(before, netloc, tail);
    NothingToStrip(before + (netloc + tail), scheme);
  }

  lemma SchemeInFront(scheme: string, before: string, rest: string)
    requires before == scheme + "://"
    ensures before + rest == scheme + (":" + ("//" + rest))
  {
  }

  lemma NothingToStrip(u: string, scheme: string)
    requires scheme != "" && scheme[0] > ' ' && scheme <= u
    ensures LStrip(u) == u
  {
  }

  /** The authority of a printed URL, and the rest, as they are read: up to the first delimiter. */
  function Reread(c: Url): (string, string) {
    Cut(Without(c.netloc, REMOVED) + Tail(c), DELIMITERS)
  }

  /** Reading a printed URL, whatever its authority. */
  lemma PrintedIsRead(accepts: Accepts, c: Url)
    requires PrintableApart(c) && c.netloc != ""
    ensures var (netloc, tail) := Reread(c);
            Parse(accepts, Unparse(c)) == if netloc != "" && !accepts(netloc) then None else Some(Located(c.scheme, netloc, tail))
  {
    PrintedIsCleaned(c);
    var rest := "//" + (Without(c.netloc, REMOVED) + Tail(c));
    SplitSchemePrinted(c.scheme, rest);
    assert rest[2..] == Without(c.netloc, REMOVED) + Tail(c);
  }

  lemma TailRead(c: Url)
    requires PrintableApart(c)
    ensures Located(c.scheme, c.netloc, Tail(c)) == c
  {
    var hierarchy := c.path + Prefixed(';', c.params);
    var beforeFragment := hierarchy + Prefixed('?', c.query);
    FreeConcat(c.path, c.params, {'?', '#'});
    FreeConcat(c.path, Prefixed(';', c.params), {'?', '#'});
    FreeConcat(hierarchy, Prefixed('?', c.query), {'#'});
    PartitionPrinted(beforeFragment, '#', c.fragment);
    PartitionPrinted(hierarchy, '?', c.query);
    if UsesParams(c.scheme) {
      SplitParamsPrinted(c.path, c.params);
    } else {
      assert hierarchy == c.path;
    }
  }

  /** A URL whose authority has no delimiter is read as it was printed, but for the characters
      urlparse removes from the authority. */
  lemma DelimitedRead(c: Url)
    requires PrintableApart(c) && c.netloc != "" && Free(Without(c.netloc, REMOVED), DELIMITERS)
    ensures Reread(c) == (Without(c.netloc, REMOVED), Tail(c))
  {
    UnparsedShape(c);
    CutConcat(Without(c.netloc, REMOVED), Tail(c), DELIMITERS);
  }

  /** Printing components and reading them back is the identity (section 5.3 of RFC 3986), and
      raises exactly when the authority is not accepted. */
  lemma ParsePrinted(accepts: Accepts, c: Url)
    requires Printable(c)
    ensures Parse(accepts, Unparse(c)) == if accepts(c.netloc) then Some(c) else None
  {
    WithoutFree(c.netloc, REMOVED);
    DelimitedRead(c);
    PrintedIsRead(accepts, c);
    TailRead(c);
  }

  // ------------------------------------------------------------------ colons are never lost

  /** The colons after the authority. */
  function Colons(c: Url): nat {
    Count(c.path, ':') + Count(c.params, ':') + Count(c.query, ':') + Count(c.fragment, ':')
  }

  lemma PrefixedColons(c: char, s: string)
    requires c != ':'
    ensures Count(Prefixed(c, s), ':') == Count(s, ':')
  {
    CountConcat([c], s, ':');
  }

  lemma PartitionColons(s: string, c: char)
    requires c != ':'
    ensures var r := Partition(s, c); Count(s, ':') == Count(r.0, ':') + Count(r.1, ':')
  {
    var r := Partition(s, c);
    CountConcat(r.0, [c] + r.1, ':');
    CountConcat([c], r.1, ':');
    CountConcat(r.0, r.1, ':');
    assert r.1 == "" ==> r.0 + r.1 == r.0;
  }

  lemma SplitParamsColons(p: string)
    ensures var (path, params) := SplitParams(p); Count(p, ':') == Count(path, ':') + Count(params, ':')
  {
    var (front, segment) := CutLast(p, '/');
    CountConcat(front, segment, ':');
    PartitionColons(segment, ';');
    CountConcat(front, Partition(segment, ';').0, ':');
  }

  /** Reading the rest of a URL loses no colon. */
  lemma LocatedColons(scheme: string, netloc: string, tail: string)
    ensures Colons(Located(scheme, netloc, tail)) == Count(tail, ':')
  {
    var (beforeFragment, fragment) := Partition(tail, '#');
    var (hierarchy, query) := Partition(beforeFragment, '?');
    PartitionColons(tail, '#');
    PartitionColons(beforeFragment, '?');
    HierarchyColons(scheme, hierarchy);
  }

  lemma HierarchyColons(scheme: string, hierarchy: string)
    ensures var (path, params) := if UsesParams(scheme) then SplitParams(hierarchy) else (hierarchy, "");
            Count(hierarchy, ':') == Count(path, ':') + Count(params, ':')
  {
    SplitParamsColons(hierarchy);
    assert Count("", ':') == 0;
  }

  lemma TailColons(c: Url)
    ensures Count(Tail(c), ':') == Colons(c)
  {
    PrefixedColons(';', c.params);
    PrefixedColons('?', c.query);
    PrefixedColons('#', c.fragment);
    CountConcat(c.path, Prefixed(';', c.params), ':');
    CountConcat(c.path + Prefixed(';', c.params), Prefixed('?', c.query), ':');
    CountConcat(c.path + Prefixed(';', c.params) + Prefixed('?', c.query), Prefixed('#', c.fragment), ':');
  }

  /** The path as it is printed after an authority. */
  function Rooted(c: Url): string {
    var hierarchy := c.path + Prefixed(';', c.params);
    if hierarchy != "" && hierarchy[0] != '/' then "/" + hierarchy else hierarchy
  }

  lemma RootedColons(c: Url)
    ensures Count(Rooted(c), ':') == Count(c.path, ':') + Count(c.params, ':')
  {
    var hierarchy := c.path + Prefixed(';', c.params);
    PrefixedColons(';', c.params);
    CountConcat(c.path, Prefixed(';', c.params), ':');
    CountConcat("/", hierarchy, ':');
  }

  /** Printing a URL with a scheme and an authority adds the one after the scheme. */
  lemma PrintedColons(c: Url)
    requires IsScheme(c.scheme) && c.netloc != ""
    ensures Count(Unparse(c), ':') == 1 + Count(c.netloc, ':') + Colons(c)
  {
    var rooted := Rooted(c);
    var query, fragment := Prefixed('?', c.query), Prefixed('#', c.fragment);
    RootedColons(c);
    PrefixedColons('?', c.query);
    PrefixedColons('#', c.fragment);
    assert Unparse(c) == c.scheme + ":" + ("//" + c.netloc + rooted) + query + fragment;
    SumColons(c.scheme, c.netloc, rooted, query, fragment);
    assert ':' !in c.scheme;
    CountZero(c.scheme, ':');
  }

  lemma SumColons(scheme: string, netloc: string, rooted: string, query: string, fragment: string)
    ensures Count(scheme + ":" + ("//" + netloc + rooted) + query + fragment, ':')
         == Count(scheme, ':') + 1 + Count(netloc, ':') + Count(rooted, ':') + Count(query, ':') + Count(fragment, ':')
  {
    CountConcat("//", netloc, ':');
    CountConcat("//" + netloc, rooted, ':');
    CountConcat(scheme, ":", ':');
    CountConcat(scheme + ":", "//" + netloc + rooted, ':');
    CountConcat(scheme + ":" + ("//" + netloc + rooted), query, ':');
    CountConcat(scheme + ":" + ("//" + netloc + rooted) + query, fragment, ':');
    assert Count(":", ':') == 1;
    assert Count("//", ':') == 0;
  }

  lemma {:induction false} WithoutColons(s: string, cs: set<char>)
    requires ':' !in cs
    ensures Count(Without(s, cs), ':') == Count(s, ':')
    decreases |s|
  {
    if s != "" {
      var rest := Without(s[1..], cs);
      WithoutColons(s[1..], cs);
      CountConcat([s[0]], rest, ':');
      CountConcat("", rest, ':');
      assert Count([s[0]], ':') == if s[0] == ':' then 1 else 0;
    }
  }

  /** Reading a printed URL again loses no colon, wherever its authority ends. */
  lemma RereadColons(c: Url)
    ensures var (netloc, tail) := Reread(c); Count(netloc, ':') + Count(tail, ':') == Count(c.netloc, ':') + Colons(c)
  {
    var (netloc, tail) := Reread(c);
    CountConcat(netloc, tail, ':');
    CountConcat(Without(c.netloc, REMOVED), Tail(c), ':');
    WithoutColons(c.netloc, REMOVED);
    TailColons(c);
  }

  /** A URL in the generic syntax (section 3 of RFC 3986), with or without parameters, query and
      fragment, is read as it is written. */
  lemma ReadAsWritten(accepts: Accepts, c: Url, params: string, query: string, fragment: string)
    requires Canonical(accepts, c)
    requires params == if c.params == "" then "" else ";" + c.params
    requires query == if c.query == "" then "" else "?" + c.query
    requires fragment == if c.fragment == "" then "" else "#" + c.fragment
    ensures Parse(accepts, c.scheme + "://" + c.netloc + c.path + params + query + fragment) == Some(c)
  {
    ParsePrinted(accepts, c);
    UnparsedShape(c);
    assert Tail(c) == c.path + params + query + fragment;
    WrittenOut(c.scheme, c.netloc, c.path, params, query, fragment);
  }

  lemma WrittenOut(scheme: string, netloc: string, path: string, params: string, query: string, fragment: string)
    ensures scheme + "://" + netloc + path + params + query + fragment
         == scheme + (":" + ("//" + (netloc + (path + params + query + fragment))))
  {
  }

  /** A letter keeps its place in the alphabet, and everything else stays as it is. */
  lemma LowerLetter(c: char)
    ensures IsAlpha(c) ==> 'a' <= LowerChar(c) <= 'z' && (LowerChar(c) as int - c as int) % 32 == 0
    ensures !IsAlpha(c) ==> LowerChar(c) == c
  {
  }

  lemma LowerTwice(s: string)
    requires IsScheme(s)
    ensures IsScheme(Lower(s)) && Lower(Lower(s)) == Lower(s)
  {
  }

  /** A control character or space in front of a URL makes no difference. */
  lemma LeadingSpaceIsIgnored(accepts: Accepts, c: char, u: string)
    requires c <= ' '
    ensures Parse(accepts, [c] + u) == Parse(accepts, u)
  {
    assert ([c] + u)[1..] == u;
    assert LStrip([c] + u) == LStrip(u);
  }

  /** Nor does a tab or a line end anywhere in it. */
  lemma RemovedAnywhere(accepts: Accepts, a: string, c: char, b: string)
    requires c in REMOVED
    ensures Parse(accepts, a + [c] + b) == Parse(accepts, a + b)
  {
    CleanedOf(a, c, b);
  }

  lemma {:induction false} CleanedOf(a: string, c: char, b: string)
    requires c in REMOVED
    ensures Clean(a + [c] + b) == Clean(a + b)
    decreases |a|
  {
    if a == "" {
      assert (a + [c] + b)[1..] == b && a + b == b;
    } else if a[0] <= ' ' {
      assert (a + [c] + b)[1..] == a[1..] + [c] + b && (a + b)[1..] == a[1..] + b;
      CleanedOf(a[1..], c, b);
    } else {
      WithoutConcat(a + [c], b, REMOVED);
      WithoutConcat(a, [c], REMOVED);
      WithoutConcat(a, b, REMOVED);
      assert Without([c], REMOVED) == "";
      assert Without(a, REMOVED) + "" == Without(a, REMOVED);
    }
  }

  /** Scheme and authority as urlparse reads them. */
  lemma AuthorityRead(u: string)
    requires SplitScheme(Clean(u)).0 != "" && SplitNetloc(SplitScheme(Clean(u)).1).0 != ""
    ensures var (scheme, rest) := SplitScheme(Clean(u));
            var (netloc, tail) := SplitNetloc(rest);
            && IsScheme(scheme) && Lower(scheme) == scheme
            && Free(netloc, DELIMITERS + REMOVED) && Free(tail, REMOVED) && (tail == "" || tail[0] in DELIMITERS)
  {
    var v := Clean(u);
    WithoutFree(LStrip(u), REMOVED);
    var i := First(v, {':'});
    LowerTwice(v[..i]);
    var rest := v[i + 1..];
    FreeConcat(v[..i + 1], rest, REMOVED);
    assert v == v[..i + 1] + rest;
    var (netloc, tail) := SplitNetloc(rest);
    FreeConcat(rest[..2], rest[2..], REMOVED);
    assert rest == rest[..2] + rest[2..];
    FreeConcat(netloc, tail, REMOVED);
  }

  /** What urlparse reads from a URL with a scheme and an authority is canonical. */
  lemma ParsedIsCanonical(accepts: Accepts, u: string)
    requires Parse(accepts, u).Some? && Parse(accepts, u).value.scheme != "" && Parse(accepts, u).value.netloc != ""
    ensures Canonical(accepts, Parse(accepts, u).value)
  {
    AuthorityRead(u);
    var (scheme, rest) := SplitScheme(Clean(u));
    var (netloc, tail) := SplitNetloc(rest);
    var (beforeFragment, fragment) := Partition(tail, '#');
    PartitionFree(tail, '#', REMOVED);
    var (hierarchy, query) := Partition(beforeFragment, '?');
    PartitionFree(beforeFragment, '?', REMOVED + {'#'});
    var c := Parse(accepts, u).value;
    assert hierarchy == "" || hierarchy[0] == '/';
    assert Free(hierarchy, {'?', '#'} + REMOVED);
    if UsesParams(scheme) {
      SplitParamsFree(hierarchy, {'?', '#'} + REMOVED);
      if hierarchy == "" {
        assert c.path == "" && c.params == "";
      } else {
        SplitParamsShape(hierarchy);
      }
    }
    FreeConcat(c.path, c.params, {'?', '#'} + REMOVED);
  }
}
