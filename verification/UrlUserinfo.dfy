/** What the URL parser makes of user information: the regions it counts, and a host that does not
    come back. */
module UrlUserinfo {
  import opened UrlParser
  import opened UrlTexts
  import opened UrlPlaces
  import opened UrlLayout
  import opened UrlLoop
  import opened UrlParts
  import opened UrlVerdict

  // ---------- what is counted ----------

  /** `n` more characters for the region. */
  function Longer(r: Region, n: nat): Region { if n == 0 then r else Region(Start(r), Len(r) + n) }

  /** Once the password has begun every character is counted for it. */
  lemma {:induction false} PasswordIsCounted(p: Parser, info: Text)
    requires p.passwordTokenSeen
    ensures EncodeUserinfo(p, info).url == p.url.(password := Longer(p.url.password, |info|))
    decreases |info|
  {
    if info != [] {
      var p1 := p.(buf := p.buf + Encoded(info[0], UserinfoSet), url := p.url.(password := Longer(p.url.password, 1)));
      assert EncodeUserinfo(p, info) == EncodeUserinfo(p1, info[1..]);
      PasswordIsCounted(p1, info[1..]);
    }
  }

  /** Before the first colon every character is counted for the user name. */
  lemma {:induction false} NameIsCounted(p: Parser, info: Text)
    requires !p.passwordTokenSeen && ':' !in info
    ensures EncodeUserinfo(p, info).url == p.url.(username := Longer(p.url.username, |info|))
    decreases |info|
  {
    if info != [] {
      var p1 := p.(buf := p.buf + Encoded(info[0], UserinfoSet), url := p.url.(username := Longer(p.url.username, 1)));
      assert EncodeUserinfo(p, info) == EncodeUserinfo(p1, info[1..]);
      NameIsCounted(p1, info[1..]);
    }
  }

  /** User information may be cut anywhere and encoded piece by piece. */
  lemma {:induction false} EncodeInTwo(p: Parser, a: Text, b: Text)
    ensures EncodeUserinfo(p, a + b) == EncodeUserinfo(EncodeUserinfo(p, a), b)
    decreases |a|
  {
    if a == [] {
      assert a + b == b;
      return;
    }
    assert (a + b)[1..] == a[1..] + b;
    if a[0] == ':' && !p.passwordTokenSeen {
      var p1 := p.(passwordTokenSeen := true, url := p.url.(password := Region(|p.buf|, Len(p.url.password))));
      assert EncodeUserinfo(p, a) == EncodeUserinfo(p1, a[1..]);
      EncodeInTwo(p1, a[1..], b);
      return;
    }
    var url := if p.passwordTokenSeen then p.url.(password := Region(Start(p.url.password), Len(p.url.password) + 1))
               else p.url.(username := Region(Start(p.url.username), Len(p.url.username) + 1));
    var p1 := p.(buf := p.buf + Encoded(a[0], UserinfoSet), url := url);
    assert EncodeUserinfo(p, a) == EncodeUserinfo(p1, a[1..]);
    EncodeInTwo(p1, a[1..], b);
  }

  /** The first colon is dropped and opens the password where the buffer ends. */
  lemma ColonOpensPassword(p: Parser, password: Text)
    requires !p.passwordTokenSeen
    ensures EncodeUserinfo(p, [':'] + password).url
            == p.url.(password := Longer(Region(|p.buf|, Len(p.url.password)), |password|))
  {
    assert ([':'] + password)[1..] == password;
    var p1 := p.(passwordTokenSeen := true, url := p.url.(password := Region(|p.buf|, Len(p.url.password))));
    assert EncodeUserinfo(p, [':'] + password) == EncodeUserinfo(p1, password);
    PasswordIsCounted(p1, password);
  }

  // ---------- user information without a colon ----------

  /** A user name that needs no encoding. */
  predicate PlainUser(t: Text) { t != [] && forall k :: 0 <= k < |t| ==> !Contains(UserinfoSet, t[k]) }

  lemma {:induction false} PlainIsKept(t: Text, token: bool)
    requires forall k :: 0 <= k < |t| ==> !Contains(UserinfoSet, t[k])
    ensures Userinfo(t, token) == t
  {
    if t != [] {
      PlainIsKept(t[1..], token);
    }
  }

  /** The parser behind the `@`: the user name stands in the buffer twice, once before the slice
      cursor and once pending. */
  function Named(scheme: Text, user: Text, pos: int): Parser
  {
    Parser(NO_URL.(scheme := Region(0, |scheme|), username := Region(|user|, |user|)),
           scheme + user + user, |scheme + user|, pos, Auth, true, false, false, true)
  }

  lemma UserIsPutBack(p: Parser, scheme: Text, user: Text)
    requires PlainUser(user)
    requires p == Named(scheme, user, p.pos).(
               buf := scheme + user, url := NO_URL.(scheme := Region(0, |scheme|), username := Region(|user|, 0)))
    ensures EncodeUserinfo(p, user) == Named(scheme, user, p.pos)
  {
    assert ':' !in user;
    UserinfoOnlyAppends(p, user);
    UserinfoIsPending(p, user);
    NameIsCounted(p, user);
    PlainIsKept(user, false);
  }

  lemma AtSignStep(input: Text, q: Parser, scheme: Text, user: Text)
    requires q == AtHost(scheme, q.pos).(mode := Auth, buf := scheme + user) && PlainUser(user)
    requires 0 <= q.pos < |input| && input[q.pos] == '@'
    ensures Step(input, q) == Named(scheme, user, q.pos)
  {
    var p := Sliced(q).(atSignSeen := true, url := q.url.(username := Region(|user|, Len(q.url.username))));
    assert Pending(q) == user;
    assert Step(input, q) == EncodeUserinfo(p, user);
    UserIsPutBack(p, scheme, user);
  }

  /** The user name is read up to the `@` and put back behind itself. */
  lemma UserIsRead(input: Text, scheme: Text, user: Text, b: nat)
    requires 0 < b && StandsAt(input, b, user) && PlainUser(user) && b + |user| < |input| && input[b + |user|] == '@'
    ensures Leads(input, AtHost(scheme, b - 1).(mode := Auth), Named(scheme, user, b + |user|))
  {
    var p, at := AtHost(scheme, b - 1).(mode := Auth), b + |user|;
    SpelledVerbatim(input, b, user);
    forall i | b <= i < at
      ensures Absorbs(Auth, input[i])
    {
      Reads(input, b, user, i);
      assert !Contains(UserinfoSet, user[i - b]);
    }
    AbsorbPart(input, p, at, Verbatim, user);
    var p1 := p.(buf := p.buf + user, pos := at - 1);
    AtSignStep(input, p1.(pos := at), scheme, user);
    OneTurn(input, p1, Named(scheme, user, at));
    Then(input, p, p1, Named(scheme, user, at));
  }

  /** What stands behind the `@` is read and becomes pending too. */
  lemma RestIsRead(input: Text, scheme: Text, user: Text, host: Text, at: nat)
    requires StandsAt(input, at + 1, host) && forall k :: 0 <= k < |host| ==> !EndsAuth(host[k]) && host[k] != '@'
    ensures var p := Named(scheme, user, at);
            Leads(input, p, p.(buf := p.buf + host, pos := at + |host|))
  {
    SpelledVerbatim(input, at + 1, host);
    forall i | at < i < at + 1 + |host|
      ensures Absorbs(Auth, input[i])
    {
      Reads(input, at + 1, host, i);
    }
    AbsorbPart(input, Named(scheme, user, at), at + 1 + |host|, Verbatim, host);
  }

  /** The parser that has gone back by the length of what was pending. That is the user name again
      and the host, but not the `@`, so it starts over at the second character of the user name. */
  function Back(scheme: Text, user: Text, pos: int): Parser
  {
    Parser(NO_URL.(scheme := Region(0, |scheme|), username := Region(|user|, |user|)),
           scheme + user, |scheme + user|, pos, Host, true, false, false, true)
  }

  lemma BackTurn(input: Text, scheme: Text, user: Text, host: Text, b: nat)
    requires 0 < b && user != [] && AuthorityEnds(input, b + |user| + 1 + |host|)
    ensures var p := Named(scheme, user, b + |user| + |host|);
            Leads(input, p.(buf := p.buf + host), Back(scheme, user, b))
  {
    var p := Named(scheme, user, b + |user| + |host|);
    var p1 := p.(buf := p.buf + host);
    assert p1.buf[..p1.sliceStart] == scheme + user;
    OneTurn(input, p1, Back(scheme, user, b));
  }

  /** The parser about to read the path, with `found` recorded as the host. */
  function Misled(scheme: Text, user: Text, found: Text, pos: int): Parser
  {
    var url := NO_URL.(scheme := Region(0, |scheme|), username := Region(|user|, |user|));
    Parser(WithHost(url, Region(|scheme + user|, |found|)), scheme + user + found, |scheme + user + found|, pos,
           Path, true, OpenAt(found, |found|), false, true)
  }

  lemma HostIsMistaken(input: Text, scheme: Text, user: Text, found: Text, b: nat)
    requires 0 < b && HostText(found) && StandsAt(input, b + 1, found) && AuthorityEnds(input, b + 1 + |found|)
    ensures Leads(input, Back(scheme, user, b),
                  Misled(scheme, user, found, b + |found|))
  {
    var p := Back(scheme, user, b);
    Excerpt(input, b + 1, found);
    HostPart(input, p, found, |found|);
    var p1 := HostRead(p, found, |found|);
    assert found[..|found|] == found;
    HostEndTurn(input, p1);
    assert RecordHost(p1).(mode := Path) == Misled(scheme, user, found, b + |found|);
    Then(input, p, p1, Misled(scheme, user, found, b + |found|));
  }

  /** `user` and `host` stand behind the slashes at `b`, with an `@` between them, and nothing else. */
  ghost predicate UserAt(input: Text, user: Text, host: Text, b: nat)
  {
    && StandsAt(input, b, user) && |input| == b + |user| + 1 + |host| && input[b + |user|] == '@'
    && StandsAt(input, b + |user| + 1, host)
  }

  predicate PlainHost(host: Text)
  {
    forall k :: 0 <= k < |host| ==> !EndsAuth(host[k]) && host[k] != '@'
  }

  /** What the parser takes for the host. */
  function Mistaken(user: Text, host: Text): Text
    requires user != []
  {
    user[1..] + "@" + host
  }

  lemma FoundStands(input: Text, user: Text, host: Text, b: nat)
    requires user != [] && UserAt(input, user, host, b)
    ensures StandsAt(input, b + 1, Mistaken(user, host))
  {
    var t := Mistaken(user, host);
    forall j | Place(j) && b + 1 <= j < b + 1 + |t|
      ensures input[j] == t[j - b - 1]
    {
      if j < b + |user| {
        Reads(input, b, user, j);
      } else if j > b + |user| {
        Reads(input, b + |user| + 1, host, j);
      }
    }
  }

  lemma UserToHost(input: Text, scheme: Text, user: Text, host: Text, b: nat)
    requires 0 < b && PlainUser(user) && PlainHost(host) && UserAt(input, user, host, b)
    ensures Leads(input, AtHost(scheme, b - 1).(mode := Auth), Back(scheme, user, b))
  {
    UserIsRead(input, scheme, user, b);
    var p := Named(scheme, user, b + |user|);
    RestIsRead(input, scheme, user, host, b + |user|);
    BackTurn(input, scheme, user, host, b);
    var p1 := p.(buf := p.buf + host, pos := b + |user| + |host|);
    Then(input, AtHost(scheme, b - 1).(mode := Auth), p, p1);
    Then(input, AtHost(scheme, b - 1).(mode := Auth), p1, Back(scheme, user, b));
  }

  lemma MisledFromStart(input: Text, scheme: Text, user: Text, host: Text, a: nat)
     
    requires SchemeAt(input, a) && Spells(Lowered, input, 0, a, scheme) && scheme != "file"
    requires PlainUser(user) && PlainHost(host) && UserAt(input, user, host, a + 3) && HostText(Mistaken(user, host))
    ensures Leads(input, START, Misled(scheme, user, Mistaken(user, host), |input| - 1))
  {
    var b, found := a + 3, Mistaken(user, host);
    ToAuthority(input, a, scheme);
    UserToHost(input, scheme, user, host, b);
    Then(input, START, AtHost(scheme, a + 2).(mode := Auth), Back(scheme, user, b));
    FoundStands(input, user, host, b);
    HostIsMistaken(input, scheme, user, found, b);
    Then(input, START, Back(scheme, user, b), Misled(scheme, user, found, b + |found|));
  }

  lemma MisledBegins(scheme: Text, user: Text, found: Text, pos: int)
    requires scheme != "file"
    ensures BeginsPath(Misled(scheme, user, found, pos), false)
  {
    var p := Misled(scheme, user, found, pos);
    assert TextAt(p, p.url.scheme) == scheme;
    StaysFileOrNot(p);
  }

  /** With nothing behind the host the run ends there. */
  lemma NoPathEnds(input: Text, p: Parser)
    requires BeginsPath(p, false) && input != [] && p.pos == |input| - 1
    ensures Ends(input, p, PathDone(p, [], |input|))
  {
    NothingRead(p, false);
    NoTurn(input, p);
    assert Mended(false, [], 0) == [];
    assert PathReadAs(input, p, false, |input|, [], [], 0);
    PathAlone(input, p, false, []);
  }

  /** `found` has been recorded as the host. */
  predicate ShowsHost(p: Parser, found: Text)
  {
    TextAt(p, p.url.host) == found && End(p.url.host) <= |p.buf| && !p.url.hostNull
  }

  lemma MisledShows(scheme: Text, user: Text, found: Text, pos: int)
    ensures ShowsHost(Misled(scheme, user, found, pos), found)
  {
  }

  lemma HostStays(p: Parser, found: Text, n: int)
    requires ShowsHost(p, found)
    ensures ShowsHost(PathDone(p, [], n), found)
  {
    assert p.buf + [] == p.buf;
  }

  lemma MisledOpened(scheme: Text, user: Text, found: Text, pos: int)
      returns (p: Parser)
    requires scheme != "file"
    ensures p == Misled(scheme, user, found, pos) && BeginsPath(p, false) && ShowsHost(p, found)
  {
    p := Misled(scheme, user, found, pos);
    MisledBegins(scheme, user, found, pos);
    MisledShows(scheme, user, found, pos);
  }

  lemma MisledToPath(input: Text, form: Text, user: Text, host: Text, found: Text, a: nat) returns (p: Parser)
    requires SchemeAt(input, a) && Spells(Lowered, input, 0, a, form) && form != "file"
    requires PlainUser(user) && PlainHost(host) && UserAt(input, user, host, a + 3)
    requires found == Mistaken(user, host) && HostText(found)
    ensures Leads(input, START, p) && BeginsPath(p, false) && p.pos == |input| - 1
    ensures ShowsHost(p, found) && p.url.username == Region(|user|, |user|)
  {
    MisledFromStart(input, form, user, host, a);
    p := MisledOpened(form, user, found, |input| - 1);
  }

  lemma MisledEnds(input: Text, form: Text, user: Text, host: Text, a: nat) returns (r: Parser)
    requires SchemeAt(input, a) && Spells(Lowered, input, 0, a, form) && form != "file"
    requires PlainUser(user) && PlainHost(host) && UserAt(input, user, host, a + 3) && HostText(Mistaken(user, host))
    ensures Ends(input, START, r) && ShowsHost(r, Mistaken(user, host)) && r.url.username == Region(|user|, |user|)
  {
    var p := MisledToPath(input, form, user, host, Mistaken(user, host), a);
    NoPathEnds(input, p);
    r := PathDone(p, [], |input|);
    ThenEnds(input, START, p, r);
    HostStays(p, Mistaken(user, host), |input|);
  }

  lemma UserStands(input: Text, scheme: Text, user: Text, host: Text)
    requires IsScheme(scheme) && PlainUser(user) && StandsAt(input, 0, scheme + ("://" + (user + ("@" + host))))
    requires |input| == |scheme| + 4 + |user| + |host|
    ensures StandsAt(input, 0, scheme) && SchemeAt(input, |scheme|) && UserAt(input, user, host, |scheme| + 3)
  {
    var a := |scheme|;
    StandsTwo(input, 0, scheme, "://" + (user + ("@" + host)));
    StandThree(input, a, "://", user, "@" + host);
    StandsTwo(input, a + 3 + |user|, "@", host);
    Reads(input, a + 3 + |user|, "@", a + 3 + |user|);
    SchemeReads(input, scheme);
    Reads(input, a + 3, user, a + 3);
    assert !Contains(UserinfoSet, user[0]);
  }

  lemma MisledOutcome(input: Text, scheme: Text, form: Text, user: Text, host: Text)
    requires IsScheme(scheme) && Forms(Lowered, scheme, form) && form != "file"
    requires PlainUser(user) && PlainHost(host) && HostText(Mistaken(user, host))
    requires StandsAt(input, 0, scheme + ("://" + (user + ("@" + host))))
    requires |input| == |scheme| + 4 + |user| + |host|
    ensures !Run(input, START).fatal && ShowsHost(Run(input, START).parser, Mistaken(user, host))
    ensures Run(input, START).parser.url.username == Region(|user|, |user|)
  {
    UserStands(input, scheme, user, host);
    SpelledAs(Lowered, input, 0, scheme, form);
    var r := MisledEnds(input, form, user, host, |scheme|);
    EndsOutcome(input, START, r);
  }

  /** The URL written from a scheme, a user name and a host. */
  function WithUser(scheme: Text, user: Text, host: Text): Text { scheme + ("://" + (user + ("@" + host))) }

  /** A URL with a user name is accepted, and its host does not come back: the parser takes the user
      name without its first character, the `@` and the host for the host. The region of the user
      name begins at the length of the name, wherever the name stands in the buffer: that is behind
      the scheme, so the region is the right one only for a name as long as the scheme. */
  lemma UserinfoSpoilsHost(scheme: Text, user: Text, host: Text)
    requires IsScheme(scheme) && EmitAll(Lowered, scheme) != "file"
    requires PlainUser(user) && PlainHost(host) && HostText(Mistaken(user, host))
    ensures var o := Run(WithUser(scheme, user, host), START);
            && !o.fatal && !o.parser.url.hostNull && o.parser.url.username == Region(|user|, |user|)
            && TextAt(o.parser, o.parser.url.host) == Mistaken(user, host) != host
  {
    StandsItself(WithUser(scheme, user, host));
    MisledOutcome(WithUser(scheme, user, host), scheme, EmitAll(Lowered, scheme), user, host);
    assert |Mistaken(user, host)| != |host|;
  }
}
