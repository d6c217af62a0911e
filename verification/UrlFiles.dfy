/** The parts of a `file` URL and the places where the parser will find them. */
module UrlFilePlaces {
  import opened UrlParser
  import opened UrlTexts
  import opened UrlPlaces

  /** The parts of a `file` URL: any host, also none, that does not look like a drive letter. */
  predicate FileFormed(u: Parts)
  {
    && IsScheme(u.scheme) && u.port == Absent && TailFormed(u)
    && !IsDriveLetter(u.host) && forall k :: 0 <= k < |u.host| ==> !EndsAuth(u.host[k])
  }

  /** Where the segment of `t` that begins at `k` ends. */
  function SegmentEnd(t: Text, k: nat): nat
    requires k <= |t|
    decreases |t| - k
  {
    if k == |t| || EndsAuth(t[k]) then k else SegmentEnd(t, k + 1)
  }

  lemma {:induction false} SegmentEnds(t: Text, k: nat)
    requires k <= |t|
    ensures var n := SegmentEnd(t, k);
            k <= n <= |t| && (forall i :: k <= i < n ==> !EndsAuth(t[i])) && (n < |t| ==> EndsAuth(t[n]))
    decreases |t| - k
  {
    if k < |t| && !EndsAuth(t[k]) {
      SegmentEnds(t, k + 1);
    }
  }

  /** The length of the first segment of a path. */
  function FirstSegment(t: Text): (n: nat)
    ensures n <= |t|
  {
    SegmentEnds(t, 0);
    SegmentEnd(t, 0)
  }

  /** The written form of a path, with the colon of a drive letter that opens it. */
  function FilePath(t: Text): Text
  {
    var n := FirstSegment(t);
    Mended(true, EmitAll(Escaped(PathSet), t[..n]), 0) + EmitAll(Escaped(PathSet), t[n..])
  }

  /** The host stands at `b`, and the authority ends behind it. */
  ghost predicate FileHostAt(input: Text, host: Text, b: nat, end: nat)
  {
    && 0 < b && end == b + |host| && AuthorityEnds(input, end) && (end < |input| ==> input[end] != '\\')
    && !IsDriveLetter(host) && Spells(Verbatim, input, b, end, host) && forall i :: b <= i < end ==> !EndsAuth(input[i])
  }

  /** The scheme stands before `a`, and its colon and two slashes behind it. */
  ghost predicate FileSchemeAt(input: Text, scheme: Text, a: nat)
  {
    && 0 < a && a + 2 < |input| && IsAlpha(input[0]) && (forall i :: 0 <= i < a ==> IsSchemeChar(input[i]))
    && input[a] == ':' && input[a + 1] == '/' && input[a + 2] == '/' && Spells(Lowered, input, 0, a, scheme)
  }

  /** The first segment of the path up to `e` and the rest up to `end` are read one after the other. */
  predicate SegmentsAt(input: Text, pos: int, e: nat, end: nat)
  {
    && 0 <= pos < e <= end <= |input| && (forall i :: pos < i < end ==> input[i] != '?' && input[i] != '#')
    && (forall i :: pos < i < e ==> !EndsAuth(input[i])) && (e < end ==> EndsAuth(input[e]))
  }

  /** The written forms of the two halves of a path. */
  datatype Halves = Halves(seg: Text, rest: Text)

  function Joined(h: Halves): Text { Mended(true, h.seg, 0) + h.rest }

  /** The first segment and the rest of the path stand behind `pos`, split at `e`. */
  ghost predicate HalvesAt(input: Text, pos: int, e: nat, end: nat, h: Halves)
  {
    && SegmentsAt(input, pos, e, end)
    && Spells(Escaped(PathSet), input, pos + 1, e, h.seg) && Spells(Escaped(PathSet), input, e, end, h.rest)
  }

  /** The halves are the written forms of the first segment of `t`, of length `n`, and the rest. */
  ghost predicate FormsHalves(t: Text, n: nat, h: Halves)
  {
    n <= |t| && Forms(Escaped(PathSet), t[..n], h.seg) && Forms(Escaped(PathSet), t[n..], h.rest)
  }

  /** The forms found are those of the parts. */
  ghost predicate FileFormsOf(u: Parts, n: nat, h: Halves, f: Found)
  {
    && Forms(Lowered, u.scheme, f.scheme) && n == FirstSegment(Behind(u.path, true))
       && FormsHalves(Behind(u.path, true), n, h)
    && f.path == Joined(h)
    && FormsOpt(Escaped(SpecQuerySet), u.query, f.query) && FormsOpt(Escaped(FragmentSet), u.fragment, f.fragment)
    && Measures(u, f)
  }
}

/** What the URL parser makes of a `file` URL put together from its parts. */
module UrlFiles {
  import opened UrlParser
  import opened UrlTexts
  import opened UrlPlaces
  import opened UrlLayout
  import opened UrlLoop
  import opened UrlParts
  import opened UrlFilePlaces

  // ---------- up to the path ----------

  /** The parser about to read the host of a `file` URL. */
  function AtFileHost(scheme: Text, pos: int): Parser
  {
    Parser(NO_URL.(scheme := Region(0, |scheme|), hostNull := false), scheme, |scheme|, pos,
           FileHost, false, false, false, true)
  }

  /** The parser about to read the path of a `file` URL. */
  function AtFilePath(scheme: Text, host: Text, pos: int): Parser
  {
    var place := if host == [] then Nowhere else Region(|scheme|, |host|);
    Parser(NO_URL.(scheme := Region(0, |scheme|), hostNull := false, host := place), scheme + host, |scheme| + |host|,
           pos, Path, false, false, false, true)
  }

  /** The same with the scheme written out. */
  const FILE_URL := NO_URL.(scheme := Region(0, 4))

  function ReadFile(pos: int): Parser { Parser(FILE_URL, "file", 4, pos, File, false, false, false, true) }

  lemma FileColonTurn(input: Text, a: nat)
    requires 0 < a < |input| && input[a] == ':'
    ensures Leads(input, START.(mode := Scheme, buf := "file", pos := a - 1), ReadFile(a))
  {
    var p, p' := START.(mode := Scheme, buf := "file", pos := a - 1), ReadFile(a);
    assert TextAt(p', p'.url.scheme) == "file";
    assert RecordScheme(p.(pos := a)) == p'.(mode := Scheme);
    OneTurn(input, p, p');
  }

  lemma FileTurn(input: Text, a: nat)
    requires a + 1 < |input| && input[a + 1] == '/'
    ensures Leads(input, ReadFile(a), ReadFile(a + 1).(url := WithHost(FILE_URL, Nowhere), mode := FileSlash))
  {
    var p := ReadFile(a);
    assert TextAt(p, p.url.scheme) == "file";
    OneTurn(input, p, ReadFile(a + 1).(url := WithHost(FILE_URL, Nowhere), mode := FileSlash));
  }

  lemma FileSlashTurn(input: Text, scheme: Text, a: nat)
    requires a + 2 < |input| && input[a + 2] == '/'
    ensures Leads(input, AtFileHost(scheme, a + 1).(mode := FileSlash), AtFileHost(scheme, a + 2))
  {
    OneTurn(input, AtFileHost(scheme, a + 1).(mode := FileSlash), AtFileHost(scheme, a + 2));
  }

  lemma FileHostEndTurn(input: Text, scheme: Text, host: Text, pos: nat)
    requires pos < |input| && AuthorityEnds(input, pos + 1) && !IsDriveLetter(host)
    ensures Leads(input, AtFileHost(scheme, pos).(buf := scheme + host),
            AtFilePath(scheme, host, pos).(mode := PathStart))
  {
    var p := AtFileHost(scheme, pos).(buf := scheme + host);
    assert Pending(p) == host;
    OneTurn(input, p, AtFilePath(scheme, host, pos).(mode := PathStart));
  }

  lemma FileHostToPath(input: Text, scheme: Text, host: Text, b: nat, end: nat)
    requires FileHostAt(input, host, b, end)
    ensures Leads(input, AtFileHost(scheme, b - 1), AtFilePath(scheme, host, PathFrom(input, true, end) - 1))
  {
    AbsorbPart(input, AtFileHost(scheme, b - 1), end, Verbatim, host);
    FileHostEndTurn(input, scheme, host, end - 1);
    var p, p1 := AtFileHost(scheme, end - 1).(buf := scheme + host),
      AtFilePath(scheme, host, end - 1).(mode := PathStart);
    Then(input, AtFileHost(scheme, b - 1), p, p1);
    PathStartTurn(input, p1);
    Then(input, AtFileHost(scheme, b - 1), p1, AtFilePath(scheme, host, PathFrom(input, true, end) - 1));
  }

  lemma ToFileHost(input: Text, scheme: Text, a: nat)
    requires FileSchemeAt(input, scheme, a) && scheme == "file"
    ensures Leads(input, START, AtFileHost(scheme, a + 2))
  {
    var p, p1 := ReadFile(a), ReadFile(a + 1).(url := WithHost(FILE_URL, Nowhere), mode := FileSlash);
    SchemePart(input, a, "file");
    FileColonTurn(input, a);
    Then(input, START, START.(mode := Scheme, buf := "file", pos := a - 1), p);
    FileTurn(input, a);
    Then(input, START, p, p1);
    assert p1 == AtFileHost(scheme, a + 1).(mode := FileSlash);
    FileSlashTurn(input, scheme, a);
    Then(input, START, p1, AtFileHost(scheme, a + 2));
  }

  lemma ToFilePath(input: Text, scheme: Text, host: Text, a: nat, end: nat)
    requires FileSchemeAt(input, scheme, a) && scheme == "file" && FileHostAt(input, host, a + 3, end)
    ensures Leads(input, START, AtFilePath(scheme, host, PathFrom(input, true, end) - 1))
  {
    ToFileHost(input, scheme, a);
    FileHostToPath(input, scheme, host, a + 3, end);
    Then(input, START, AtFileHost(scheme, a + 2), AtFilePath(scheme, host, PathFrom(input, true, end) - 1));
  }

  // ---------- the path ----------

  lemma SlashIsItself(c: char)
    requires c == '/' || c == '\\'
    ensures Emit(Escaped(PathSet), c) == [c]
  {
  }

  lemma FirstSegmentRead(input: Text, p: Parser, e: nat, end: nat, t: Text)
    requires BeginsPath(p, true) && SegmentsAt(input, p.pos, e, end) && Spells(Escaped(PathSet), input, p.pos + 1, e, t)
    ensures Leads(input, p, PathRead(p, t, 0, e - 1))
  {
    NothingRead(p, true);
    assert [] + t == t;
    var k := PathPart(input, p, true, [], 0, p.pos, e, t, t);
  }

  lemma FileRestRead(input: Text, p: Parser, e: nat, end: nat, t: Text, more: Text) returns (k: nat)
    requires BeginsPath(p, true) && SegmentsAt(input, p.pos, e, end) && e < end
    requires Spells(Escaped(PathSet), input, e, end, more)
    ensures var t' := Mended(true, t, 0) + more;
            0 < k <= |t'| && Leads(input, PathRead(p, t, 0, e - 1), PathRead(p, t', k, end - 1))
  {
    var c, m := input[e], Mended(true, t, 0);
    SlashTurn(input, p, true, t, 0, e - 1);
    SlashIsItself(c);
    var rest := SpellsOne(Escaped(PathSet), input, e, end, more);
    Regroup(m, [c], rest);
    k := PathPart(input, p, true, m + [c], |t| + 1, e, end, rest, m + more);
    Then(input, PathRead(p, t, 0, e - 1), PathRead(p, m + [c], |t| + 1, e), PathRead(p, m + more, k, end - 1));
  }

  lemma FilePathReady(input: Text, p: Parser, e: nat, end: nat, t: Text, more: Text)
    requires BeginsPath(p, true) && SegmentsAt(input, p.pos, e, end)
    requires Spells(Escaped(PathSet), input, p.pos + 1, e, t) && Spells(Escaped(PathSet), input, e, end, more)
    ensures PathReady(input, p, true, end, Mended(true, t, 0) + more)
  {
    FirstSegmentRead(input, p, e, end, t);
    var t' := Mended(true, t, 0) + more;
    if e == end {
      SpellsNone(Escaped(PathSet), input, e, more);
      assert t' == Mended(true, t, 0);
      assert PathReadAs(input, p, true, end, t', t, 0);
    } else {
      var k := FileRestRead(input, p, e, end, t, more);
      Then(input, p, PathRead(p, t, 0, e - 1), PathRead(p, t', k, end - 1));
      assert PathReadAs(input, p, true, end, t', t', k);
    }
  }

  // ---------- the whole URL ----------

  lemma FilePathCanBegin(scheme: Text, host: Text, pos: int)
    requires scheme == "file"
    ensures BeginsPath(AtFilePath(scheme, host, pos), true)
  {
    var p := AtFilePath(scheme, host, pos);
    assert TextAt(p, p.url.scheme) == scheme;
    StaysFileOrNot(p);
  }

  lemma FilePathBegun(scheme: Text, host: Text, pos: int)
    ensures Begun(AtFilePath(scheme, host, pos), scheme, host)
  {
    var p := AtFilePath(scheme, host, pos);
    assert TextAt(p, p.url.scheme) == scheme;
    assert TextAt(p, p.url.host) == host;
  }

  lemma FilePathOpened(scheme: Text, host: Text, pos: int) returns (p: Parser)
    requires scheme == "file"
    ensures p == AtFilePath(scheme, host, pos) && BeginsPath(p, true)
    ensures Begun(p, scheme, host) && ShowsPort(p, Absent)
  {
    p := AtFilePath(scheme, host, pos);
    FilePathCanBegin(scheme, host, pos);
    FilePathBegun(scheme, host, pos);
  }

  /** The parser gets to the path with the scheme and the host recorded. */
  lemma ReachFilePath(input: Text, scheme: Text, host: Text, a: nat, e: nat, pos: int) returns (p: Parser)
    requires FileSchemeAt(input, scheme, a) && scheme == "file" && FileHostAt(input, host, a + 3, e)
    requires pos == PathFrom(input, true, e) - 1
    ensures Leads(input, START, p) && p.pos == pos && BeginsPath(p, true)
    ensures Begun(p, scheme, host) && ShowsPort(p, Absent)
  {
    ToFilePath(input, scheme, host, a, e);
    p := FilePathOpened(scheme, host, pos);
  }

  // ---------- from the parts to the input ----------

  lemma FileSchemeStands(input: Text, scheme: Text, form: Text)
    requires IsScheme(scheme) && StandsAt(input, 0, scheme) && StandsAt(input, |scheme|, "://")
             && Forms(Lowered, scheme, form)
    ensures FileSchemeAt(input, form, |scheme|)
  {
    SpelledAs(Lowered, input, 0, scheme, form);
    SchemeReads(input, scheme);
  }

  lemma FileHostStands(input: Text, b: nat, host: Text)
    requires 0 < b && StandsAt(input, b, host) && !IsDriveLetter(host) && AuthorityEnds(input, b + |host|)
    requires (forall k :: 0 <= k < |host| ==> !EndsAuth(host[k]))
             && (b + |host| < |input| ==> input[b + |host|] != '\\')
    ensures FileHostAt(input, host, b, b + |host|)
  {
    SpelledVerbatim(input, b, host);
    forall i | b <= i < b + |host|
      ensures !EndsAuth(input[i])
    {
      Reads(input, b, host, i);
    }
  }

  lemma SegmentsPlain(input: Text, lo: nat, t: Text, n: nat)
    requires 0 < lo && StandsAt(input, lo, t) && Lacks(t, '?') && Lacks(t, '#') && n == FirstSegment(t)
    ensures SegmentsAt(input, lo - 1, lo + n, lo + |t|)
  {
    SegmentEnds(t, 0);
    forall i | lo <= i < lo + |t|
      ensures input[i] == t[i - lo]
    {
      Reads(input, lo, t, i);
    }
  }

  lemma HalvesSpelled(input: Text, lo: nat, t: Text, n: nat, h: Halves)
    requires StandsAt(input, lo, t) && FormsHalves(t, n, h)
    ensures Spells(Escaped(PathSet), input, lo, lo + n, h.seg)
            && Spells(Escaped(PathSet), input, lo + n, lo + |t|, h.rest)
  {
    assert t == t[..n] + t[n..];
    StandsTwo(input, lo, t[..n], t[n..]);
    SpelledAs(Escaped(PathSet), input, lo, t[..n], h.seg);
    SpelledAs(Escaped(PathSet), input, lo + n, t[n..], h.rest);
  }

  lemma HalvesStand(input: Text, e: nat, path: Text, n: nat, h: Halves)
    requires 0 < e && StandsAt(input, e, path) && Lacks(path, '?') && Lacks(path, '#') && Follows(input, e, path)
    requires n == FirstSegment(Behind(path, true)) && FormsHalves(Behind(path, true), n, h)
    ensures var from := PathFrom(input, true, e); HalvesAt(input, from - 1, from + n, e + |path|, h)
  {
    var from, t := PathFrom(input, true, e), Behind(path, true);
    PathStandsFrom(input, e, path, true);
    SegmentsPlain(input, from, t, n);
    HalvesSpelled(input, from, t, n, h);
  }

  lemma FileFrontIsAt(u: Parts, input: Text, f: Found)
    requires FileFormed(u) && LaidOut(u, input, f) && Forms(Lowered, u.scheme, f.scheme)
    ensures FileSchemeAt(input, f.scheme, f.a) && FileHostAt(input, u.host, f.a + 3, f.e)
  {
    AuthorityStops(input, u.path, u.query, u.fragment, f.e, f.end, f.end');
    FileSchemeStands(input, u.scheme, f.scheme);
    FileHostStands(input, f.a + 3, u.host);
  }

  lemma HalvesAreRead(input: Text, p: Parser, e: nat, end: nat, h: Halves)
    requires BeginsPath(p, true) && HalvesAt(input, p.pos, e, end, h)
    ensures PathReady(input, p, true, end, Joined(h))
  {
    FilePathReady(input, p, e, end, h.seg, h.rest);
  }

  lemma PathIsRead(input: Text, e: nat, end: nat, path: Text, n: nat, h: Halves, p: Parser)
    requires 0 < e && StandsAt(input, e, path) && Lacks(path, '?') && Lacks(path, '#') && Follows(input, e, path)
    requires n == FirstSegment(Behind(path, true)) && FormsHalves(Behind(path, true), n, h)
    requires end == e + |path| && BeginsPath(p, true) && p.pos == PathFrom(input, true, e) - 1
    ensures PathReady(input, p, true, end, Joined(h))
  {
    HalvesStand(input, e, path, n, h);
    HalvesAreRead(input, p, PathFrom(input, true, e) + n, end, h);
  }

  lemma FilePathIsRead(u: Parts, input: Text, n: nat, h: Halves, f: Found, p: Parser)
    requires TailFormed(u) && LaidOut(u, input, f) && BeginsPath(p, true) && p.pos == PathFrom(input, true, f.e) - 1
    requires n == FirstSegment(Behind(u.path, true)) && FormsHalves(Behind(u.path, true), n, h)
    ensures PathReady(input, p, true, f.end, Joined(h))
  {
    AuthorityStops(input, u.path, u.query, u.fragment, f.e, f.end, f.end');
    PathIsRead(input, f.e, f.end, u.path, n, h, p);
  }

  lemma FileTailEnds(u: Parts, input: Text, f: Found, p: Parser)
    requires TailFormed(u) && LaidOut(u, input, f) && BeginsPath(p, true) && PathReady(input, p, true, f.end, f.path)
    requires FormsOpt(Escaped(SpecQuerySet), u.query, f.query) && FormsOpt(Escaped(FragmentSet), u.fragment, f.fragment)
    ensures Ends(input, p, Final(p, f, |input|))
  {
    TailStands(u, input, f);
    PathTail(input, p, true, f.end, f.end', f.path, f.query, f.fragment);
  }

  lemma FileFrontLeads(u: Parts, input: Text, f: Found, pos: int) returns (p: Parser)
    requires FileFormed(u) && LaidOut(u, input, f) && Forms(Lowered, u.scheme, f.scheme) && f.scheme == "file"
    requires pos == PathFrom(input, true, f.e) - 1
    ensures Leads(input, START, p) && p.pos == pos && BeginsPath(p, true)
    ensures Begun(p, f.scheme, u.host) && ShowsPort(p, Absent)
  {
    FileFrontIsAt(u, input, f);
    p := ReachFilePath(input, f.scheme, u.host, f.a, f.e, pos);
  }

  lemma LaidOutFileEnds(u: Parts, input: Text, n: nat, h: Halves, f: Found) returns (p: Parser)
    requires FileFormed(u) && LaidOut(u, input, f) && FileFormsOf(u, n, h, f) && f.scheme == "file"
    ensures Ends(input, START, Final(p, f, |input|)) && Begun(p, f.scheme, u.host) && ShowsPort(p, Absent)
  {
    p := FileFrontLeads(u, input, f, PathFrom(input, true, f.e) - 1);
    FilePathIsRead(u, input, n, h, f, p);
    FileTailEnds(u, input, f, p);
    ThenEnds(input, START, p, Final(p, f, |input|));
  }

  /** The round trip, with the written forms of the parts given. */
  lemma FilePartsComeBackAs(u: Parts, n: nat, h: Halves, f: Found) returns (p: Parser)
    requires FileFormed(u) && FileFormsOf(u, n, h, f) && f.scheme == "file"
    ensures Ends(Written(u), START, Final(p, f, |Written(u)|)) && Begun(p, f.scheme, u.host) && ShowsPort(p, Absent)
  {
    WrittenIsLaidOut(u, f);
    p := LaidOutFileEnds(u, Written(u), n, h, f);
  }

  lemma AllFileForms(u: Parts) returns (n: nat, h: Halves, f: Found)
    ensures FileFormsOf(u, n, h, f) && f.scheme == EmitAll(Lowered, u.scheme)
            && f.path == FilePath(Behind(u.path, true))
    ensures f.query == EmitOpt(Escaped(SpecQuerySet), u.query)
            && f.fragment == EmitOpt(Escaped(FragmentSet), u.fragment)
  {
    var t := Behind(u.path, true);
    var a := |u.scheme|;
    var e := a + 3 + |u.host| + |Tail(':', u.port)|;
    var end := e + |u.path|;
    n := FirstSegment(t);
    h := Halves(EmitAll(Escaped(PathSet), t[..n]), EmitAll(Escaped(PathSet), t[n..]));
    f := Found(EmitAll(Lowered, u.scheme), FilePath(t), EmitOpt(Escaped(SpecQuerySet), u.query),
               EmitOpt(Escaped(FragmentSet), u.fragment), a, e, end, end + |Tail('?', u.query)|);
  }

  /** A `file` URL put together from its parts is accepted and its parts come back: the host, or an
      empty one that is not null, and the path without the slash that opens it; a drive letter that
      opens the path ends in a colon. */
  lemma FilePartsComeBack(u: Parts)
    requires FileFormed(u) && EmitAll(Lowered, u.scheme) == "file"
    ensures var r := Run(Written(u), START).parser;
            && !Run(Written(u), START).fatal
            && Shows(r, "file", u.host, FilePath(Behind(u.path, true)),
                     EmitOpt(Escaped(SpecQuerySet), u.query), EmitOpt(Escaped(FragmentSet), u.fragment))
            && r.url.portNull
  {
    var n, h, f := AllFileForms(u);
    var p := FilePartsComeBackAs(u, n, h, f);
    EndsOutcome(Written(u), START, Final(p, f, |Written(u)|));
    FinalShows(p, f.scheme, u.host, Absent, f, |Written(u)|);
  }
}
