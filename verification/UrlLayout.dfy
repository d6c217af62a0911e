/** In the URL written from its parts everything stands where the parser will look for it. */
module UrlLayout {
  import opened UrlParser
  import opened UrlTexts
  import opened UrlPlaces

  // ---------- texts that stand one after the other ----------

  lemma StandThree(input: Text, lo: nat, a: Text, b: Text, c: Text)
    requires StandsAt(input, lo, a + (b + c))
    ensures StandsAt(input, lo, a) && StandsAt(input, lo + |a|, b) && StandsAt(input, lo + |a| + |b|, c)
  {
    StandsTwo(input, lo, a, b + c);
    StandsTwo(input, lo + |a|, b, c);
  }

  lemma StandFour(input: Text, a: Text, b: Text, c: Text, d: Text, rest: Text)
    requires StandsAt(input, 0, a + (b + ((c + d) + rest)))
    ensures StandsAt(input, 0, a) && StandsAt(input, |a|, b) && StandsAt(input, |a| + |b|, c)
    ensures StandsAt(input, |a| + |b| + |c|, d) && StandsAt(input, |a| + |b| + |c + d|, rest)
  {
    StandThree(input, 0, a, b, (c + d) + rest);
    StandThreeLeft(input, |a| + |b|, c, d, rest);
  }

  lemma StandThreeLeft(input: Text, lo: nat, c: Text, d: Text, rest: Text)
    requires StandsAt(input, lo, (c + d) + rest)
    ensures StandsAt(input, lo, c) && StandsAt(input, lo + |c|, d) && StandsAt(input, lo + |c + d|, rest)
  {
    StandsTwo(input, lo, c + d, rest);
    StandsTwo(input, lo, c, d);
  }

  lemma WrittenTail(input: Text, path: Text, query: Opt, fragment: Opt, e: nat, end: nat, end': nat)
    requires StandsAt(input, e, path + (Tail('?', query) + Tail('#', fragment)))
    requires end == e + |path| && end' == end + |Tail('?', query)| && |input| == end' + |Tail('#', fragment)|
    ensures TailLaidOut(input, path, query, fragment, e, end, end')
  {
    StandThree(input, e, path, Tail('?', query), Tail('#', fragment));
  }

  lemma WrittenFront(input: Text, scheme: Text, host: Text, port: Opt, rest: Text, a: nat, e: nat)
    requires StandsAt(input, 0, scheme + ("://" + ((host + Tail(':', port)) + rest)))
    requires a == |scheme| && e == a + 3 + |host| + |Tail(':', port)|
    ensures FrontLaidOut(input, scheme, host, port, a, e) && StandsAt(input, e, rest)
  {
    StandFour(input, scheme, "://", host, Tail(':', port), rest);
  }

  lemma WrittenIsLaidOut(u: Parts, f: Found)
    requires Measures(u, f)
    ensures LaidOut(u, Written(u), f)
  {
    StandsItself(Written(u));
    WrittenFront(Written(u), u.scheme, u.host, u.port, AfterAuthority(u), f.a, f.e);
    WrittenTail(Written(u), u.path, u.query, u.fragment, f.e, f.end, f.end');
  }

  // ---------- the path, the query and the fragment ----------

  lemma QueryStands(input: Text, lo: nat, query: Opt, form: Opt)
    requires FormsOpt(Escaped(SpecQuerySet), query, form)
    requires StandsAt(input, lo, Tail('?', query)) && (query.Given? ==> Lacks(query.text, '#'))
    ensures QueryAt(input, lo, lo + |Tail('?', query)|, form)
  {
    if query.Given? {
      MarkedTail(input, lo, '?', query);
      SpelledAs(Escaped(SpecQuerySet), input, lo + 1, query.text, form.text);
      forall i | lo < i < lo + 1 + |query.text|
        ensures input[i] != '#'
      {
        Reads(input, lo + 1, query.text, i);
      }
    }
  }

  lemma FragmentStands(input: Text, lo: nat, fragment: Opt, form: Opt)
    requires FormsOpt(Escaped(FragmentSet), fragment, form)
    requires StandsAt(input, lo, Tail('#', fragment)) && |input| == lo + |Tail('#', fragment)|
    ensures FragmentAt(input, lo, form)
  {
    if fragment.Given? {
      MarkedTail(input, lo, '#', fragment);
      SpelledAs(Escaped(FragmentSet), input, lo + 1, fragment.text, form.text);
    }
  }

  /** What follows an authority that ends at `e`: the path, the query, the fragment or nothing. */
  predicate Follows(input: Text, e: nat, path: Text)
  {
    && AuthorityEnds(input, e) && (e < |input| ==> input[e] != '\\')
    && (path != [] ==> e < |input| && input[e] == '/') && (path == [] && e < |input| ==> input[e] != '/')
  }

  /** The authority ends where it is meant to. */
  lemma AuthorityStops(input: Text, path: Text, query: Opt, fragment: Opt, e: nat, end: nat, end': nat)
    requires TailLaidOut(input, path, query, fragment, e, end, end') && (path != [] ==> path[0] == '/')
    ensures Follows(input, e, path)
  {
    if path != [] {
      Reads(input, e, path, e);
    } else if query.Given? {
      MarkedTail(input, end, '?', query);
    } else if fragment.Given? {
      MarkedTail(input, end', '#', fragment);
    }
  }

  /** The path as the parser reads it stands at the cursor. */
  lemma PathStandsFrom(input: Text, e: nat, path: Text, swallowed: bool)
    requires StandsAt(input, e, path) && Lacks(path, '?') && Lacks(path, '#') && Follows(input, e, path)
    ensures var from, t := PathFrom(input, swallowed, e), Behind(path, swallowed);
            from + |t| == e + |path| && StandsAt(input, from, t) && Lacks(t, '?') && Lacks(t, '#')
  {
    if swallowed && path != [] {
      assert path == path[..1] + path[1..];
      StandsTwo(input, e, path[..1], path[1..]);
    }
  }

  lemma PathReadsAt(input: Text, from: nat, t: Text, form: Text)
    requires 0 < from && StandsAt(input, from, t) && Lacks(t, '?') && Lacks(t, '#') && Forms(Escaped(PathSet), t, form)
    ensures PathAt(input, from - 1, from + |t|, form)
  {
    SpelledAs(Escaped(PathSet), input, from, t, form);
    forall i | from <= i < from + |t|
      ensures input[i] != '?' && input[i] != '#'
    {
      Reads(input, from, t, i);
    }
  }

  lemma PathStands(input: Text, e: nat, path: Text, swallowed: bool, form: Text)
    requires 0 < e && StandsAt(input, e, path) && Lacks(path, '?') && Lacks(path, '#') && Follows(input, e, path)
    requires Forms(Escaped(PathSet), Behind(path, swallowed), form)
    ensures PathAt(input, PathFrom(input, swallowed, e) - 1, e + |path|, form)
  {
    PathStandsFrom(input, e, path, swallowed);
    PathReadsAt(input, PathFrom(input, swallowed, e), Behind(path, swallowed), form);
  }

  // ---------- the scheme, the host and the port ----------

  lemma SchemeStands(input: Text, scheme: Text, host: Text)
    requires IsScheme(scheme) && StandsAt(input, 0, scheme) && StandsAt(input, |scheme|, "://")
    requires StandsAt(input, |scheme| + 3, host) && IsHost(host)
    ensures SchemeAt(input, |scheme|)
  {
    SchemeReads(input, scheme);
    Reads(input, |scheme| + 3, host, |scheme| + 3);
  }

  lemma HostStands(input: Text, b: nat, host: Text, port: Opt)
    requires 0 < b && StandsAt(input, b, host) && IsHost(host) && StandsAt(input, b + |host|, Tail(':', port))
    requires (port.Given? ==> IsPort(port.text)) && AuthorityEnds(input, b + |host| + |Tail(':', port)|)
    ensures HostAt(input, host, b, b + |host| + |Tail(':', port)|)
  {
    HostIsPlain(input, b, host);
    PortIsPlain(input, b + |host|, port);
    Excerpt(input, b, host);
  }

  lemma PortStands(input: Text, h: nat, port: Text)
    requires StandsAt(input, h, Tail(':', Given(port))) && IsPort(port) && AuthorityEnds(input, h + 1 + |port|)
    requires h + 1 + |port| < |input| ==> input[h + 1 + |port|] != '\\'
    ensures PortAt(input, h, h + 1 + |port|, port)
  {
    MarkedTail(input, h, ':', Given(port));
    SpelledVerbatim(input, h + 1, port);
    DigitsRead(input, h + 1, port);
  }

  lemma HostEndStands(input: Text, host: Text, port: Opt, h: nat)
    requires StandsAt(input, h, Tail(':', port)) && (port.Given? ==> IsPort(port.text) && !Bracketed(host))
    requires var e := h + |Tail(':', port)|; AuthorityEnds(input, e) && (e < |input| ==> input[e] != '\\')
    ensures HostEndsAt(input, host, port, h, h + |Tail(':', port)|)
  {
    match port {
      case Absent =>
      case Given(digits) => PortStands(input, h, digits);
    }
  }

  lemma SchemeIsAt(input: Text, scheme: Text, host: Text, port: Opt, a: nat, e: nat)
    requires FrontLaidOut(input, scheme, host, port, a, e) && IsScheme(scheme) && IsHost(host)
    ensures SchemeAt(input, a)
  {
    SchemeStands(input, scheme, host);
  }

  lemma HostIsAt(input: Text, host: Text, port: Opt, b: nat, h: nat, e: nat)
    requires 0 < b && h == b + |host| && e == h + |Tail(':', port)|
    requires StandsAt(input, b, host) && IsHost(host) && StandsAt(input, h, Tail(':', port))
    requires (port.Given? ==> IsPort(port.text)) && AuthorityEnds(input, e)
    ensures HostAt(input, host, b, e)
  {
    HostStands(input, b, host, port);
  }

  lemma HostEndIsAt(input: Text, host: Text, port: Opt, h: nat, e: nat)
    requires StandsAt(input, h, Tail(':', port)) && e == h + |Tail(':', port)|
    requires port.Given? ==> IsPort(port.text) && !Bracketed(host)
    requires AuthorityEnds(input, e) && (e < |input| ==> input[e] != '\\')
    ensures HostEndsAt(input, host, port, h, e)
  {
    HostEndStands(input, host, port, h);
  }

  lemma FrontStands(input: Text, scheme: Text, host: Text, port: Opt, a: nat, b: nat, h: nat, e: nat)
    requires b == a + 3 && h == b + |host| && FrontLaidOut(input, scheme, host, port, a, e) && IsScheme(scheme)
             && IsHost(host)
    requires port.Given? ==> IsPort(port.text) && !Bracketed(host)
    requires AuthorityEnds(input, e) && (e < |input| ==> input[e] != '\\')
    ensures SchemeAt(input, a) && HostAt(input, host, b, e) && HostEndsAt(input, host, port, h, e)
  {
    SchemeIsAt(input, scheme, host, port, a, e);
    HostIsAt(input, host, port, b, h, e);
    HostEndIsAt(input, host, port, h, e);
  }

  // ---------- the whole URL ----------

  lemma FrontIsAt(u: Parts, input: Text, f: Found)
    requires WellFormed(u) && LaidOut(u, input, f)
    ensures FrontAt(input, u.host, u.port, f.a, f.e)
  {
    AuthorityStops(input, u.path, u.query, u.fragment, f.e, f.end, f.end');
    FrontStands(input, u.scheme, u.host, u.port, f.a, f.a + 3, f.a + 3 + |u.host|, f.e);
  }

  lemma SchemeIsSpelled(u: Parts, input: Text, f: Found)
    requires LaidOut(u, input, f) && Forms(Lowered, u.scheme, f.scheme)
    ensures Spells(Lowered, input, 0, f.a, f.scheme)
  {
    SpelledAs(Lowered, input, 0, u.scheme, f.scheme);
  }

  lemma PathIsAt(u: Parts, input: Text, f: Found)
    requires TailFormed(u) && LaidOut(u, input, f) && FormsOf(u, f)
    ensures PathAt(input, PathFrom(input, u.port.Given?, f.e) - 1, f.end, f.path)
  {
    AuthorityStops(input, u.path, u.query, u.fragment, f.e, f.end, f.end');
    PathStands(input, f.e, u.path, u.port.Given?, f.path);
  }

  /** The query and the fragment stand where the parser will look for them. */
  lemma TailStands(u: Parts, input: Text, f: Found)
    requires TailFormed(u) && LaidOut(u, input, f)
    requires FormsOpt(Escaped(SpecQuerySet), u.query, f.query) && FormsOpt(Escaped(FragmentSet), u.fragment, f.fragment)
    ensures QueryAt(input, f.end, f.end', f.query) && FragmentAt(input, f.end', f.fragment)
  {
    QueryStands(input, f.end, u.query, f.query);
    FragmentStands(input, f.end', u.fragment, f.fragment);
  }

  lemma WholeStands(u: Parts, input: Text, f: Found)
    requires WellFormed(u) && LaidOut(u, input, f) && FormsOf(u, f)
    ensures WholeAt(input, u.host, u.port, f)
  {
    FrontIsAt(u, input, f);
    SchemeIsSpelled(u, input, f);
    PathIsAt(u, input, f);
    TailStands(u, input, f);
  }

  lemma AllForms(u: Parts) returns (f: Found)
    ensures FormsOf(u, f) && f.scheme == EmitAll(Lowered, u.scheme) && f.path == EmitAll(Escaped(PathSet), PathFound(u))
    ensures f.query == EmitOpt(Escaped(SpecQuerySet), u.query)
            && f.fragment == EmitOpt(Escaped(FragmentSet), u.fragment)
  {
    var a := |u.scheme|;
    var e := a + 3 + |u.host| + |Tail(':', u.port)|;
    var end := e + |u.path|;
    f := Found(EmitAll(Lowered, u.scheme), EmitAll(Escaped(PathSet), PathFound(u)),
               EmitOpt(Escaped(SpecQuerySet), u.query), EmitOpt(Escaped(FragmentSet), u.fragment),
               a, e, end, end + |Tail('?', u.query)|);
  }
}
