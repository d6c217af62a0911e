/** The parts of a URL, the URL written from them, and the places where the parser will find them. */
module UrlPlaces {
  import opened UrlParser
  import opened UrlTexts

  /** The parts of an absolute URL as they are written. */
  datatype Parts = Parts(scheme: Text, host: Text, port: Opt, path: Text, query: Opt, fragment: Opt)

  function AfterPathText(u: Parts): Text { Tail('?', u.query) + Tail('#', u.fragment) }

  function AfterAuthority(u: Parts): Text { u.path + AfterPathText(u) }

  function Authority(u: Parts): Text { u.host + Tail(':', u.port) }

  function Written(u: Parts): Text { u.scheme + ("://" + (Authority(u) + AfterAuthority(u))) }

  predicate WellFormed(u: Parts)
  {
    && IsScheme(u.scheme) && IsHost(u.host) && TailFormed(u)
    && (u.port.Given? ==> IsPort(u.port.text) && !Bracketed(u.host))
  }

  /** The path begins with a slash if it is not empty, and the marks that end a part stand behind it. */
  predicate TailFormed(u: Parts)
  {
    && (u.path != [] ==> u.path[0] == '/') && Lacks(u.path, '?') && Lacks(u.path, '#')
    && (u.query.Given? ==> Lacks(u.query.text, '#'))
  }

  /** The path, without the slash that opens it if that is swallowed. */
  function Behind(path: Text, swallowed: bool): Text
  {
    if swallowed && path != [] then path[1..] else path
  }

  /** After a port the slash that opens the path is swallowed; after a host it is kept. */
  function PathFound(u: Parts): Text { Behind(u.path, u.port.Given?) }

  /** The authority ends at `end`. */
  predicate AuthorityEnds(input: Text, end: nat) { end == |input| || (end < |input| && EndsAuth(input[end])) }

  /** Where the path begins for the parser: behind the opening slash if there was a port. */
  function PathFrom(input: Text, swallowed: bool, end: nat): nat
  {
    if swallowed && end < |input| && input[end] == '/' then end + 1 else end
  }

  /** From `end` on the input holds the fragment, if there is one, and nothing else. */
  ghost predicate FragmentAt(input: Text, end: nat, fragment: Opt)
  {
    if fragment.Absent? then end == |input|
    else end < |input| && input[end] == '#' && Spells(Escaped(FragmentSet), input, end + 1, |input|, fragment.text)
  }

  /** The path is what stands between the cursor and `end`, and `t` is its escaped form. */
  ghost predicate PathAt(input: Text, pos: int, end: nat, t: Text)
  {
    && 0 <= pos < end <= |input| && Spells(Escaped(PathSet), input, pos + 1, end, t)
    && forall i :: pos < i < end ==> input[i] != '?' && input[i] != '#'
  }

  /** From `end` to `end'` the input holds the query, if there is one. */
  ghost predicate QueryAt(input: Text, end: nat, end': nat, query: Opt)
  {
    if query.Absent? then end == end'
    else
      && end < end' <= |input| && input[end] == '?' && Spells(Escaped(SpecQuerySet), input, end + 1, end', query.text)
      && forall i :: end < i < end' ==> input[i] != '#'
  }

  /** The scheme stands before `a`, and two slashes and no third stand behind its colon. */
  predicate SchemeAt(input: Text, a: nat)
  {
    && 0 < a && a + 3 < |input| && IsAlpha(input[0]) && (forall i :: 0 <= i < a ==> IsSchemeChar(input[i]))
    && input[a] == ':' && input[a + 1] == '/' && input[a + 2] == '/' && !EndsAuth(input[a + 3])
  }

  /** The host stands at `b` in an authority that goes on to `end`. */
  predicate HostAt(input: Text, host: Text, b: nat, end: nat)
  {
    && 0 < b < b + |host| <= end && AuthorityEnds(input, end) && IsHost(host) && input[b..b + |host|] == host
    && forall i :: b <= i < end ==> !EndsAuth(input[i]) && input[i] != '@'
  }

  /** A colon at `h` and the digits of the port from there to `end`, where the authority ends. */
  ghost predicate PortAt(input: Text, h: nat, end: nat, port: Text)
  {
    && end == h + 1 + |port| && AuthorityEnds(input, end) && input[h] == ':' && (end < |input| ==> input[end] != '\\')
    && IsPort(port) && Spells(Verbatim, input, h + 1, end, port) && forall i :: h < i < end ==> IsDigit(input[i])
  }

  /** Behind the host, at `h`, comes the port or the end of the authority. */
  ghost predicate HostEndsAt(input: Text, host: Text, port: Opt, h: nat, end: nat)
  {
    match port
    case Absent => end == h && AuthorityEnds(input, h)
    case Given(digits) => !Bracketed(host) && PortAt(input, h, end, digits)
  }

  /** The scheme, the host and the port stand where the parser will look for them. */
  ghost predicate FrontAt(input: Text, host: Text, port: Opt, a: nat, end: nat)
  {
    SchemeAt(input, a) && HostAt(input, host, a + 3, end) && HostEndsAt(input, host, port, a + 3 + |host|, end)
  }

  /** The written forms of the parts of a URL, and the places where they end in it. */
  datatype Found = Found(scheme: Text, path: Text, query: Opt, fragment: Opt, a: nat, e: nat, end: nat, end': nat)

  /** All parts stand in `input` where the parser will look for them. */
  ghost predicate WholeAt(input: Text, host: Text, port: Opt, f: Found)
  {
    && FrontAt(input, host, port, f.a, f.e) && Spells(Lowered, input, 0, f.a, f.scheme)
    && PathAt(input, PathFrom(input, port.Given?, f.e) - 1, f.end, f.path)
    && QueryAt(input, f.end, f.end', f.query) && FragmentAt(input, f.end', f.fragment)
  }

  /** The forms found are those of the parts. */
  ghost predicate FormsOf(u: Parts, f: Found)
  {
    && Forms(Lowered, u.scheme, f.scheme) && Forms(Escaped(PathSet), PathFound(u), f.path)
    && FormsOpt(Escaped(SpecQuerySet), u.query, f.query) && FormsOpt(Escaped(FragmentSet), u.fragment, f.fragment)
    && Measures(u, f)
  }

  /** The places at which the parts of `u` end. */
  predicate Measures(u: Parts, f: Found)
  {
    && f.a == |u.scheme| && f.e == f.a + 3 + |u.host| + |Tail(':', u.port)|
    && f.end == f.e + |u.path| && f.end' == f.end + |Tail('?', u.query)|
  }

  /** Where the path, the query and the fragment stand in the written URL. */
  ghost predicate TailLaidOut(input: Text, path: Text, query: Opt, fragment: Opt, e: nat, end: nat, end': nat)
  {
    && StandsAt(input, e, path) && end == e + |path|
    && StandsAt(input, end, Tail('?', query)) && end' == end + |Tail('?', query)|
    && StandsAt(input, end', Tail('#', fragment)) && |input| == end' + |Tail('#', fragment)|
  }

  /** Where the scheme, the host and the port stand in the written URL. */
  ghost predicate FrontLaidOut(input: Text, scheme: Text, host: Text, port: Opt, a: nat, e: nat)
  {
    && StandsAt(input, 0, scheme) && a == |scheme| && StandsAt(input, a, "://")
    && StandsAt(input, a + 3, host) && StandsAt(input, a + 3 + |host|, Tail(':', port))
    && e == a + 3 + |host| + |Tail(':', port)|
  }

  ghost predicate LaidOut(u: Parts, input: Text, f: Found)
  {
    && FrontLaidOut(input, u.scheme, u.host, u.port, f.a, f.e)
    && TailLaidOut(input, u.path, u.query, u.fragment, f.e, f.end, f.end')
  }
}
