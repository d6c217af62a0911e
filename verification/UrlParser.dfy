/** The URL parser of a.yanin/waxy, a partial implementation of section 4.4 of the WHATWG URL
    Standard: a state machine over the cleaned input that grows one buffer and records components
    as regions of it. Validation errors that do not stop the parser are not kept. */
module UrlParser {

  /** Bytes, one character each. */
  type Text = string

  /** The result of `url_parser_c`: a byte of the input or `EOF`. */
  datatype Cur = Eof | Ch(c: char)

  /** A stretch of the buffer; `Nowhere` is the region of length 0 at 0. */
  datatype Region = Nowhere | Region(start: nat, len: nat)

  function Start(r: Region): nat { if r.Nowhere? then 0 else r.start }

  function Len(r: Region): nat { if r.Nowhere? then 0 else r.len }

  function End(r: Region): nat { Start(r) + Len(r) }

  datatype Url = Url(
    scheme: Region, username: Region, password: Region, host: Region, path: Region, query: Region, fragment: Region,
    port: nat, hostNull: bool, portNull: bool, queryNull: bool, fragmentNull: bool)

  datatype Mode =
    | SchemeStart | Scheme | NoScheme | PathOrAuth | SpecAuthSlash | SpecAuthIgnoreSlash | Auth | Host | Port
    | File | FileSlash | FileHost | PathStart | Path | OpaquePath | Query | Fragment | Fail

  /** `pos` is the unsigned cursor; a value that has wrapped below zero is kept negative here. */
  datatype Parser = Parser(
    url: Url, buf: Text, sliceStart: nat, pos: int, mode: Mode,
    atSignSeen: bool, insideBrackets: bool, passwordTokenSeen: bool, special: bool)

  // ---------- characters ----------

  predicate IsAlpha(c: char) { 'A' <= c <= 'Z' || 'a' <= c <= 'z' }

  predicate IsDigit(c: char) { '0' <= c <= '9' }

  predicate IsSchemeChar(c: char) { IsAlpha(c) || IsDigit(c) || c == '+' || c == '-' || c == '.' }

  function Lower(c: char): char { if 'A' <= c <= 'Z' then (c as int + 32) as char else c }

  predicate InC0(c: char) { c < ' ' || c > '~' }

  predicate InQuery(c: char) { c == ' ' || c == '"' || c == '#' || c == '<' || c == '>' || InC0(c) }

  predicate InPath(c: char) { c == '?' || c == '`' || c == '{' || c == '}' || InQuery(c) }

  datatype EncodeSet = C0 | FragmentSet | QuerySet | SpecQuerySet | PathSet | UserinfoSet

  /** `percenc_contains`. */
  predicate Contains(set_: EncodeSet, c: char)
  {
    match set_
    case C0 => InC0(c)
    case FragmentSet => c == ' ' || c == '"' || c == '<' || c == '>' || c == '`' || InC0(c)
    case QuerySet => InQuery(c)
    case SpecQuerySet => c == '\'' || InQuery(c)
    case PathSet => InPath(c)
    case UserinfoSet =>
      c == '/' || c == ':' || c == ';' || c == '=' || c == '@' || '[' <= c <= '^' || c == '|' || InPath(c)
  }

  function HexDigit(n: nat): (c: char)
    requires n < 16
    ensures '0' <= c <= '9' || 'a' <= c <= 'f'
  {
    if n < 10 then ('0' as int + n) as char else ('a' as int + n - 10) as char
  }

  /** `percent_encode`: the character itself, or a percent sign and two hexadecimal digits. */
  function Encoded(c: char, set_: EncodeSet): Text
  {
    if Contains(set_, c) then ['%', HexDigit(c as int / 16 % 16), HexDigit(c as int % 16)] else [c]
  }

  /** Nothing that comes out of the encoder belongs to the set. */
  lemma EncodedIsClean(c: char, set_: EncodeSet)
    ensures forall k :: 0 <= k < |Encoded(c, set_)| ==> !Contains(set_, Encoded(c, set_)[k])
  {
  }

  // ---------- the parser's own vocabulary ----------

  predicate IsEof(input: Text, pos: int) { pos < 0 || pos >= |input| }

  function Current(input: Text, p: Parser): Cur
  {
    if IsEof(input, p.pos) then Eof else Ch(input[p.pos])
  }

  predicate RestStartsWithSlash(input: Text, p: Parser)
  {
    0 <= p.pos && p.pos + 1 < |input| && input[p.pos + 1] == '/'
  }

  function Pending(p: Parser): Text
    requires p.sliceStart <= |p.buf|
  {
    p.buf[p.sliceStart..]
  }

  function PendingRegion(p: Parser): Region
    requires p.sliceStart <= |p.buf|
  {
    Region(p.sliceStart, |p.buf| - p.sliceStart)
  }

  function PendingLen(p: Parser): nat
    requires p.sliceStart <= |p.buf|
  {
    |p.buf| - p.sliceStart
  }

  function WithHost(u: Url, r: Region): Url { u.(host := r, hostNull := false) }

  function WithQuery(u: Url, r: Region): Url { u.(query := r, queryNull := false) }

  function WithFragment(u: Url, r: Region): Url { u.(fragment := r, fragmentNull := false) }

  function Sliced(p: Parser): Parser { p.(sliceStart := |p.buf|) }

  function Push(p: Parser, c: char): Parser { p.(buf := p.buf + [c]) }

  function TextAt(p: Parser, r: Region): Text
  {
    if End(r) <= |p.buf| then p.buf[Start(r)..End(r)] else []
  }

  predicate IsFile(p: Parser) { TextAt(p, p.url.scheme) == "file" }

  /** The value `url_parser_is_special` returns; every one of them converts to `true`. */
  function SpecialPort(scheme: Text): (port: nat)
    ensures port != 0
  {
    if scheme == "ftp" then 21
    else if scheme == "file" then 0xffff_ffff
    else if scheme == "http" then 80
    else if scheme == "https" then 443
    else if scheme == "ws" then 80
    else if scheme == "wss" then 443
    else 0xffff_fffe
  }

  predicate IsDriveLetter(t: Text)
  {
    |t| == 2 && IsAlpha(t[0]) && (t[1] == ':' || t[1] == '|')
  }

  predicate EndsAuthority(p: Parser, c: Cur)
  {
    c == Eof || c == Ch('/') || c == Ch('?') || c == Ch('#') || (p.special && c == Ch('\\'))
  }

  /** The number written in the first `k` characters of `t`. */
  function Decimal(t: Text, k: nat): nat
    requires k <= |t|
  {
    if k == 0 then 0 else Decimal(t, k - 1) * 10 + (if IsDigit(t[k - 1]) then t[k - 1] as int - '0' as int else 0)
  }

  function PortNumber(t: Text): nat { Decimal(t, |t|) }

  // ---------- the state functions ----------

  function DoSchemeStart(input: Text, p: Parser): Parser
  {
    var c := Current(input, p);
    if c.Ch? && IsAlpha(c.c) then Push(p, Lower(c.c)).(mode := Scheme)
    else p.(mode := NoScheme, pos := p.pos - 1)
  }

  /** What is pending becomes the scheme. */
  function RecordScheme(p: Parser): Parser
    requires p.sliceStart <= |p.buf|
  {
    var p1 := Sliced(p).(url := p.url.(scheme := PendingRegion(p)));
    p1.(special := SpecialPort(TextAt(p1, p1.url.scheme)) != 0)
  }

  function AfterScheme(input: Text, p: Parser): Parser
  {
    if IsFile(p) then p.(mode := File)
    else if p.special then p.(mode := SpecAuthSlash)
    else if RestStartsWithSlash(input, p) then p.(mode := PathOrAuth, pos := p.pos + 1)
    else p.(mode := OpaquePath)
  }

  function DoScheme(input: Text, p: Parser): Parser
    requires p.sliceStart <= |p.buf|
  {
    var c := Current(input, p);
    if c.Ch? && IsSchemeChar(c.c) then Push(p, Lower(c.c))
    else if c == Ch(':') then AfterScheme(input, RecordScheme(p))
    else p.(buf := [], mode := NoScheme, pos := 0)
  }

  function DoNoScheme(p: Parser): Parser { p.(mode := Fail) }

  function DoPathOrAuth(input: Text, p: Parser): Parser
  {
    if Current(input, p) == Ch('/') then p.(mode := Auth) else p.(mode := Path, pos := p.pos - 1)
  }

  function DoSpecAuthSlash(input: Text, p: Parser): Parser
  {
    if Current(input, p) == Ch('/') && RestStartsWithSlash(input, p)
    then p.(mode := SpecAuthIgnoreSlash, pos := p.pos + 1)
    else p.(mode := SpecAuthIgnoreSlash, pos := p.pos - 1)
  }

  function DoSpecAuthIgnoreSlash(input: Text, p: Parser): Parser
  {
    var c := Current(input, p);
    if c != Ch('/') && c != Ch('\\') then p.(mode := Auth, pos := p.pos - 1) else p
  }

  /** The loop over the user information in `url_parser_auth`. */
  function EncodeUserinfo(p: Parser, info: Text): Parser
    decreases |info|
  {
    if info == [] then p
    else if info[0] == ':' && !p.passwordTokenSeen then
      EncodeUserinfo(p.(passwordTokenSeen := true, url := p.url.(password := Region(|p.buf|, Len(p.url.password)))),
        info[1..])
    else
      var p1 := p.(buf := p.buf + Encoded(info[0], UserinfoSet));
      var url := if p.passwordTokenSeen then p.url.(password := Region(Start(p.url.password), Len(p.url.password) + 1))
                 else p.url.(username := Region(Start(p.url.username), Len(p.url.username) + 1));
      EncodeUserinfo(p1.(url := url), info[1..])
  }

  function DoAuth(input: Text, p: Parser): Parser
    requires p.sliceStart <= |p.buf|
  {
    var c := Current(input, p);
    if c == Ch('@') then
      var p1 := if p.atSignSeen then p.(buf := p.buf + "%40") else p;
      var info := Pending(p1);
      var p2 := Sliced(p1).(atSignSeen := true, url := p.url.(username := Region(|info|, Len(p.url.username))));
      EncodeUserinfo(p2, info)
    else if EndsAuthority(p, c) then
      if p.atSignSeen && PendingLen(p) == 0 then p.(mode := Fail)
      else p.(buf := p.buf[..p.sliceStart], pos := p.pos - (PendingLen(p) + 1), mode := Host)
    else Push(p, c.c)
  }

  /** What is pending becomes the host. */
  function RecordHost(p: Parser): Parser
    requires p.sliceStart <= |p.buf|
  {
    Sliced(p).(url := WithHost(p.url, PendingRegion(p)))
  }

  function DoHost(input: Text, p: Parser): Parser
    requires p.sliceStart <= |p.buf|
  {
    var c := Current(input, p);
    if c == Ch(':') && !p.insideBrackets then
      if PendingLen(p) == 0 then p.(mode := Fail)
      else RecordHost(p).(mode := Port)
    else if EndsAuthority(p, c) then
      if p.special && PendingLen(p) == 0 then p.(mode := Fail, pos := p.pos - 1)
      else RecordHost(p).(mode := Path, pos := p.pos - 1)
    else
      Push(p, c.c).(insideBrackets := if c == Ch('[') then true else if c == Ch(']') then false else p.insideBrackets)
  }

  function DoPort(input: Text, p: Parser): Parser
    requires p.sliceStart <= |p.buf|
  {
    var c := Current(input, p);
    if c.Ch? && IsDigit(c.c) then Push(p, c.c)
    else if EndsAuthority(p, c) then
      if PendingLen(p) == 0 then p.(mode := PathStart, pos := p.pos - 1)
      else if PortNumber(Pending(p)) > 65535 then Sliced(p).(mode := Fail)
      else Sliced(p).(url := p.url.(port := PortNumber(Pending(p)), portNull := false), mode := PathStart,
        pos := p.pos - 1)
    else p.(mode := Fail)
  }

  /** `url_parser_file` makes sure that the scheme is `file`. */
  function WithFileScheme(p: Parser): (p': Parser)
    requires p.sliceStart <= |p.buf|
    ensures p'.pos == p.pos && p'.mode == p.mode && p'.sliceStart <= |p'.buf|
  {
    if IsFile(p) then p
    else var q := p.(buf := p.buf + "file"); Sliced(q).(url := q.url.(scheme := PendingRegion(q)))
  }

  function DoFile(input: Text, p: Parser): Parser
    requires p.sliceStart <= |p.buf|
  {
    AfterFileScheme(input, WithFileScheme(p))
  }

  function AfterFileScheme(input: Text, p: Parser): Parser
  {
    var p1 := p.(url := WithHost(p.url, Nowhere));
    var c := Current(input, p1);
    if c == Ch('\\') then p1.(mode := Fail)
    else if c == Ch('/') then p1.(mode := FileSlash)
    else p1.(mode := Path, pos := p1.pos - 1)
  }

  function DoFileSlash(input: Text, p: Parser): Parser
  {
    var c := Current(input, p);
    if c == Ch('\\') then p.(mode := Fail)
    else if c == Ch('/') then p.(mode := FileHost)
    else p.(mode := Path, pos := p.pos - 1)
  }

  function AfterFileHost(p: Parser): Parser
    requires p.sliceStart <= |p.buf|
  {
    if IsDriveLetter(Pending(p)) then p.(mode := Path)
    else if PendingLen(p) == 0 then p.(url := WithHost(p.url, Nowhere), mode := PathStart)
    else RecordHost(p).(mode := PathStart)
  }

  function DoFileHost(input: Text, p: Parser): Parser
    requires p.sliceStart <= |p.buf|
  {
    var c := Current(input, p);
    if c == Eof || c == Ch('/') || c == Ch('\\') || c == Ch('?') || c == Ch('#') then
      AfterFileHost(p.(pos := p.pos - 1))
    else Push(p, c.c)
  }

  function DoPathStart(input: Text, p: Parser): Parser
  {
    var c := Current(input, p);
    if p.special then
      if c == Ch('/') || c == Ch('\\') then p.(mode := Path) else p.(mode := Path, pos := p.pos - 1)
    else if c == Ch('?') then p.(url := WithQuery(p.url, Nowhere), mode := Query)
    else if c == Ch('#') then p.(url := WithFragment(p.url, Nowhere), mode := Fragment)
    else if c == Eof then p
    else if c == Ch('/') then p.(mode := Path)
    else p.(mode := Path, pos := p.pos - 1)
  }

  /** After a path: the query, the fragment, or more path. */
  function AfterPath(p: Parser, c: Cur): Parser
  {
    if c == Ch('?') then p.(url := WithQuery(p.url, Nowhere), mode := Query)
    else if c == Ch('#') then p.(url := WithFragment(p.url, Nowhere), mode := Fragment)
    else p
  }

  predicate EndsSegment(p: Parser, c: Cur)
  {
    c == Eof || c == Ch('/') || (p.special && c == Ch('\\')) || c == Ch('?') || c == Ch('#')
  }

  /** A drive letter at the start of a file path ends in a colon. */
  function FixDriveLetter(p: Parser): Parser
    requires p.sliceStart <= |p.buf|
  {
    if IsFile(p) && Len(p.url.path) == 0 && IsDriveLetter(Pending(p)) then p.(buf := p.buf[|p.buf| - 1 := ':']) else p
  }

  /** What is pending becomes the path or is added to it. */
  function WithSegment(p: Parser): Parser
    requires p.sliceStart <= |p.buf|
  {
    var path := if Len(p.url.path) == 0 then PendingRegion(p)
      else Region(Start(p.url.path), Len(p.url.path) + PendingLen(p));
    Sliced(p).(url := p.url.(path := path))
  }

  function DoPath(input: Text, p: Parser): Parser
    requires p.sliceStart <= |p.buf|
  {
    var c := Current(input, p);
    if EndsSegment(p, c) then
      var p1 := FixDriveLetter(p);
      var p2 := if c == Ch('/') || (p.special && c == Ch('\\')) then Push(p1, c.c) else p1;
      AfterPath(WithSegment(p2), c)
    else p.(buf := p.buf + Encoded(c.c, PathSet))
  }

  function DoOpaquePath(input: Text, p: Parser): Parser
    requires p.sliceStart <= |p.buf|
  {
    var c := Current(input, p);
    if c == Ch('?') || c == Ch('#') then
      AfterPath(Sliced(p).(url := p.url.(path := PendingRegion(p))), c)
    else if c == Eof then p
    else p.(buf := p.buf + Encoded(c.c, C0))
  }

  function DoQuery(input: Text, p: Parser): Parser
    requires p.sliceStart <= |p.buf|
  {
    var c := Current(input, p);
    if c == Ch('#') || c == Eof then
      var p1 := Sliced(p).(url := WithQuery(p.url, PendingRegion(p)));
      if c == Ch('#') then p1.(url := WithFragment(p1.url, Nowhere), mode := Fragment) else p1
    else p.(buf := p.buf + Encoded(c.c, if p.special then SpecQuerySet else QuerySet))
  }

  function DoFragment(input: Text, p: Parser): Parser
    requires p.sliceStart <= |p.buf|
  {
    var c := Current(input, p);
    if c == Eof then Sliced(p).(url := WithFragment(p.url, PendingRegion(p)))
    else p.(buf := p.buf + Encoded(c.c, FragmentSet))
  }

  /** One turn of the driver loop, with the cursor already advanced. */
  function Step(input: Text, p: Parser): Parser
    requires p.sliceStart <= |p.buf| && p.mode != Fail
  {
    match p.mode
    case SchemeStart => DoSchemeStart(input, p)
    case Scheme => DoScheme(input, p)
    case NoScheme => DoNoScheme(p)
    case PathOrAuth => DoPathOrAuth(input, p)
    case SpecAuthSlash => DoSpecAuthSlash(input, p)
    case SpecAuthIgnoreSlash => DoSpecAuthIgnoreSlash(input, p)
    case Auth => DoAuth(input, p)
    case Host => DoHost(input, p)
    case Port => DoPort(input, p)
    case File => DoFile(input, p)
    case FileSlash => DoFileSlash(input, p)
    case FileHost => DoFileHost(input, p)
    case PathStart => DoPathStart(input, p)
    case Path => DoPath(input, p)
    case OpaquePath => DoOpaquePath(input, p)
    case Query => DoQuery(input, p)
    case Fragment => DoFragment(input, p)
  }

  const NO_URL := Url(Nowhere, Nowhere, Nowhere, Nowhere, Nowhere, Nowhere, Nowhere, 0, true, true, true, true)

  const START := Parser(NO_URL, [], 0, -1, SchemeStart, false, false, false, false)

  // ---------- the driver loop ----------

  /** The cursor of the current slice never passes the end of the buffer. */
  predicate Sane(p: Parser)
  {
    && p.sliceStart <= |p.buf|
    && (p.mode.SchemeStart? || p.mode.Scheme? ==> p.sliceStart == 0)
  }

  /** One turn of the loop: advance the cursor, then run the state function. */
  function Turn(input: Text, p: Parser): Parser
    requires Sane(p) && p.mode != Fail
  {
    Step(input, p.(pos := p.pos + 1))
  }

  function Rank(mode: Mode): nat
  {
    match mode
    case SchemeStart => 11 case Scheme => 10 case SpecAuthSlash => 9
    case SpecAuthIgnoreSlash => 8 case PathOrAuth => 8 case Auth => 7
    case File => 7 case FileSlash => 6 case FileHost => 5
    case Host => 6 case Port => 5 case PathStart => 4
    case Path => 3 case OpaquePath => 3 case Query => 2 case Fragment => 1
    case NoScheme => 1 case Fail => 0
  }

  /** Modes from which the jump back to the start of the authority is still to come. */
  predicate BeforeJump(mode: Mode)
  {
    mode.SchemeStart? || mode.Scheme? || mode.SpecAuthSlash? || mode.SpecAuthIgnoreSlash? || mode.PathOrAuth?
      || mode.Auth?
  }

  /** An upper bound on the turns that are left. */
  function Fuel(input: Text, p: Parser): int
  {
    Rank(p.mode) + (|input| - p.pos) + if BeforeJump(p.mode) then |input| + 2 else 0
  }

  predicate InLoop(input: Text, p: Parser) { p.pos == -1 || !IsEof(input, p.pos) }

  lemma {:induction false} UserinfoOnlyAppends(p: Parser, info: Text)
    ensures var p' := EncodeUserinfo(p, info);
            && p' == p.(buf := p'.buf, url := p'.url, passwordTokenSeen := p'.passwordTokenSeen)
            && p.buf <= p'.buf
    decreases |info|
  {
    if info == [] {
      return;
    } else if info[0] == ':' && !p.passwordTokenSeen {
      UserinfoOnlyAppends(p.(passwordTokenSeen := true,
        url := p.url.(password := Region(|p.buf|, Len(p.url.password)))), info[1..]);
    } else {
      var p1 := p.(buf := p.buf + Encoded(info[0], UserinfoSet));
      var url := if p.passwordTokenSeen then p.url.(password := Region(Start(p.url.password), Len(p.url.password) + 1))
                 else p.url.(username := Region(Start(p.url.username), Len(p.url.username) + 1));
      UserinfoOnlyAppends(p1.(url := url), info[1..]);
    }
  }

  /** A parser whose cursor has just been advanced. */
  predicate AtTurn(input: Text, q: Parser) { Sane(q) && 0 <= q.pos <= |input| }

  /** The turn from `q` to `p'` keeps the buffer cursor sane and uses up fuel, unless it leaves the loop. */
  predicate UsesFuel(input: Text, q: Parser, p': Parser)
  {
    Sane(p') && (!IsEof(input, p'.pos) ==> 0 <= Fuel(input, p') <= Fuel(input, q))
  }

  lemma SchemeStartUsesFuel(input: Text, q: Parser)
    requires AtTurn(input, q) && q.mode == SchemeStart
    ensures UsesFuel(input, q, DoSchemeStart(input, q))
  {
  }

  lemma SchemeUsesFuel(input: Text, q: Parser)
    requires AtTurn(input, q) && q.mode == Scheme
    ensures UsesFuel(input, q, DoScheme(input, q))
  {
    var c := Current(input, q);
    if c.Ch? && IsSchemeChar(c.c) {
      return;
    } else if c == Ch(':') {
      return;
    }
  }

  lemma PathOrAuthUsesFuel(input: Text, q: Parser)
    requires AtTurn(input, q) && q.mode == PathOrAuth
    ensures UsesFuel(input, q, DoPathOrAuth(input, q))
  {
  }

  lemma SpecAuthSlashUsesFuel(input: Text, q: Parser)
    requires AtTurn(input, q) && q.mode == SpecAuthSlash
    ensures UsesFuel(input, q, DoSpecAuthSlash(input, q))
  {
  }

  lemma SpecAuthIgnoreSlashUsesFuel(input: Text, q: Parser)
    requires AtTurn(input, q) && q.mode == SpecAuthIgnoreSlash
    ensures UsesFuel(input, q, DoSpecAuthIgnoreSlash(input, q))
  {
  }

  lemma AuthUsesFuel(input: Text, q: Parser)
    requires AtTurn(input, q) && q.mode == Auth
    ensures UsesFuel(input, q, DoAuth(input, q))
  {
    if Current(input, q) != Ch('@') {
      return;
    }
    var p1 := if q.atSignSeen then q.(buf := q.buf + "%40") else q;
    var info := Pending(p1);
    UserinfoOnlyAppends(Sliced(p1).(atSignSeen := true,
      url := q.url.(username := Region(|info|, Len(q.url.username)))), info);
  }

  lemma HostUsesFuel(input: Text, q: Parser)
    requires AtTurn(input, q) && q.mode == Host
    ensures UsesFuel(input, q, DoHost(input, q))
  {
  }

  lemma PortUsesFuel(input: Text, q: Parser)
    requires AtTurn(input, q) && q.mode == Port
    ensures UsesFuel(input, q, DoPort(input, q))
  {
    var c := Current(input, q);
    if c.Ch? && IsDigit(c.c) {
      return;
    } else if EndsAuthority(q, c) {
      return;
    }
  }

  lemma FileUsesFuel(input: Text, q: Parser)
    requires AtTurn(input, q) && q.mode == File
    ensures UsesFuel(input, q, DoFile(input, q))
  {
    var p0 := WithFileScheme(q);
    assert AtTurn(input, p0) && Fuel(input, p0) == Fuel(input, q);
    AfterFileSchemeUsesFuel(input, p0);
  }

  lemma AfterFileSchemeUsesFuel(input: Text, q: Parser)
    requires AtTurn(input, q) && q.mode == File
    ensures UsesFuel(input, q, AfterFileScheme(input, q))
  {
  }

  lemma FileSlashUsesFuel(input: Text, q: Parser)
    requires AtTurn(input, q) && q.mode == FileSlash
    ensures UsesFuel(input, q, DoFileSlash(input, q))
  {
  }

  lemma FileHostUsesFuel(input: Text, q: Parser)
    requires AtTurn(input, q) && q.mode == FileHost
    ensures UsesFuel(input, q, DoFileHost(input, q))
  {
    var c := Current(input, q);
    if c == Eof || c == Ch('/') || c == Ch('\\') || c == Ch('?') || c == Ch('#') {
      return;
    }
  }

  lemma PathStartUsesFuel(input: Text, q: Parser)
    requires AtTurn(input, q) && q.mode == PathStart
    ensures UsesFuel(input, q, DoPathStart(input, q))
  {
  }

  lemma PathUsesFuel(input: Text, q: Parser)
    requires AtTurn(input, q) && q.mode == Path
    ensures UsesFuel(input, q, DoPath(input, q))
  {
    var c := Current(input, q);
    if EndsSegment(q, c) {
      var p1 := FixDriveLetter(q);
      var p2 := if c == Ch('/') || (q.special && c == Ch('\\')) then Push(p1, c.c) else p1;
      assert p2.sliceStart <= |p2.buf| && p2.mode == Path && p2.pos == q.pos;
      AfterSegmentUsesFuel(input, q, p2, c);
      return;
    }
  }

  lemma AfterSegmentUsesFuel(input: Text, q: Parser, p: Parser, c: Cur)
    requires AtTurn(input, q) && p.sliceStart <= |p.buf| && p.mode == q.mode == Path && p.pos == q.pos
    ensures UsesFuel(input, q, AfterPath(WithSegment(p), c))
  {
  }

  lemma OpaquePathUsesFuel(input: Text, q: Parser)
    requires AtTurn(input, q) && q.mode == OpaquePath
    ensures UsesFuel(input, q, DoOpaquePath(input, q))
  {
    var c := Current(input, q);
    if c == Ch('?') || c == Ch('#') {
      return;
    }
  }

  lemma QueryUsesFuel(input: Text, q: Parser)
    requires AtTurn(input, q) && q.mode == Query
    ensures UsesFuel(input, q, DoQuery(input, q))
  {
  }

  lemma FragmentUsesFuel(input: Text, q: Parser)
    requires AtTurn(input, q) && q.mode == Fragment
    ensures UsesFuel(input, q, DoFragment(input, q))
  {
  }

  lemma EarlyTurn(input: Text, q: Parser)
    requires AtTurn(input, q)
             && (q.mode.SchemeStart? || q.mode.Scheme? || q.mode.PathOrAuth? || q.mode.SpecAuthSlash?
                || q.mode.SpecAuthIgnoreSlash?)
    ensures UsesFuel(input, q, Step(input, q))
  {
    match q.mode {
      case SchemeStart => SchemeStartUsesFuel(input, q);
      case Scheme => SchemeUsesFuel(input, q);
      case PathOrAuth => PathOrAuthUsesFuel(input, q);
      case SpecAuthSlash => SpecAuthSlashUsesFuel(input, q);
      case SpecAuthIgnoreSlash => SpecAuthIgnoreSlashUsesFuel(input, q);
      case _ =>
    }
  }

  lemma AuthorityTurn(input: Text, q: Parser)
    requires AtTurn(input, q) && (q.mode.Auth? || q.mode.Host? || q.mode.Port?)
    ensures UsesFuel(input, q, Step(input, q))
  {
    match q.mode {
      case Auth => AuthUsesFuel(input, q);
      case Host => HostUsesFuel(input, q);
      case Port => PortUsesFuel(input, q);
      case _ =>
    }
  }

  lemma FileTurn(input: Text, q: Parser)
    requires AtTurn(input, q) && (q.mode.File? || q.mode.FileSlash? || q.mode.FileHost?)
    ensures UsesFuel(input, q, Step(input, q))
  {
    match q.mode {
      case File => FileUsesFuel(input, q);
      case FileSlash => FileSlashUsesFuel(input, q);
      case FileHost => FileHostUsesFuel(input, q);
      case _ =>
    }
  }

  lemma TailTurn(input: Text, q: Parser)
    requires AtTurn(input, q)
             && (q.mode.PathStart? || q.mode.Path? || q.mode.OpaquePath? || q.mode.Query? || q.mode.Fragment?)
    ensures UsesFuel(input, q, Step(input, q))
  {
    match q.mode {
      case PathStart => PathStartUsesFuel(input, q);
      case Path => PathUsesFuel(input, q);
      case OpaquePath => OpaquePathUsesFuel(input, q);
      case Query => QueryUsesFuel(input, q);
      case Fragment => FragmentUsesFuel(input, q);
      case _ =>
    }
  }

  /** Every turn that stays in the loop uses up fuel, in spite of the cursor decrements, the reset
      to 0 and the jump back to the authority. */
  lemma TurnUsesFuel(input: Text, p: Parser)
    requires Sane(p) && p.mode != Fail && InLoop(input, p)
    ensures var p' := Turn(input, p);
            Sane(p') && (!IsEof(input, p'.pos) ==> 0 <= Fuel(input, p') < Fuel(input, p))
  {
    StepUsesFuel(input, p.(pos := p.pos + 1));
  }

  lemma StepUsesFuel(input: Text, q: Parser)
    requires AtTurn(input, q) && q.mode != Fail
    ensures UsesFuel(input, q, Step(input, q))
  {
    if q.mode.SchemeStart? || q.mode.Scheme? || q.mode.PathOrAuth? || q.mode.SpecAuthSlash?
       || q.mode.SpecAuthIgnoreSlash? {
      EarlyTurn(input, q);
      return;
    } else if q.mode.Auth? || q.mode.Host? || q.mode.Port? {
      AuthorityTurn(input, q);
      return;
    } else if q.mode.File? || q.mode.FileSlash? || q.mode.FileHost? {
      FileTurn(input, q);
      return;
    } else if q.mode.PathStart? || q.mode.Path? || q.mode.OpaquePath? || q.mode.Query? || q.mode.Fragment? {
      TailTurn(input, q);
      return;
    }
  }

  datatype Outcome = Outcome(parser: Parser, fatal: bool, turns: nat)

  /** The loop from `p` on, and the number of turns it takes. */
  function Run(input: Text, p: Parser): (r: Outcome)
    requires Sane(p) && InLoop(input, p)
    ensures r.turns <= Fuel(input, p) + 1
    decreases Fuel(input, p) + 1
  {
    if p.mode == Fail then Outcome(p, true, 1)
    else
      TurnUsesFuel(input, p);
      var p' := Turn(input, p);
      if IsEof(input, p'.pos) then Outcome(p', false, 1)
      else
        var r := Run(input, p');
        r.(turns := r.turns + 1)
  }

  /** `url_parse` on cleaned input. It terminates on every input within a linear number of turns. */
  method Parse(input: Text) returns (parser: Parser, fatal: bool, turns: nat)
    ensures Outcome(parser, fatal, turns) == Run(input, START)
    ensures turns <= 2 * |input| + 15
  {
    parser, fatal, turns := START, true, 0;
    var more := true;
    while more
      invariant Sane(parser)
      invariant more ==> InLoop(input, parser)
      invariant more ==> Run(input, START) == Run(input, parser).(turns := Run(input, parser).turns + turns)
      invariant !more ==> Run(input, START) == Outcome(parser, fatal, turns)
      decreases more, if more then Fuel(input, parser) + 1 else 0
    {
      turns := turns + 1;
      if parser.mode == Fail {
        return parser, true, turns;
      }
      TurnUsesFuel(input, parser);
      parser := Turn(input, parser);
      more := !IsEof(input, parser.pos);
      fatal := more;
    }
  }

  // ---------- the regions of a parsed URL ----------

  predicate Before(a: Region, b: Region) { Len(b) > 0 ==> End(a) <= Start(b) }

  /** The components in the order in which they appear in a URL. */
  function Component(u: Url, i: nat): Region
  {
    if i == 0 then u.scheme else if i == 1 then u.host else if i == 2 then u.path else if i == 3 then u.query
       else u.fragment
  }

  /** The components stand in the order scheme, host, path, query, fragment and do not overlap. */
  predicate Ordered(u: Url)
  {
    forall i, j :: 0 <= i < j < 5 ==> Before(Component(u, i), Component(u, j))
  }

  predicate Within(u: Url, n: nat)
  {
    forall i :: 0 <= i < 5 ==> End(Component(u, i)) <= n
  }

  /** No character of the buffer between `lo` and `hi` belongs to the percent-encode set. */
  predicate CleanOn(buf: Text, lo: nat, hi: nat, set_: EncodeSet)
  {
    forall k :: lo <= k < hi && k < |buf| ==> !Contains(set_, buf[k])
  }

  predicate NoPathYet(u: Url) { Len(u.path) == 0 && Len(u.query) == 0 && Len(u.fragment) == 0 }

  /** Modes in which no component after the host has been recorded. */
  predicate BeforePath(m: Mode)
  {
    BeforeJump(m) || m.Host? || m.Port? || m.File? || m.FileSlash? || m.FileHost? || m.PathStart?
  }

  /** Modes in which nothing is pending behind the slice cursor. */
  predicate NothingPending(m: Mode)
  {
    m.SpecAuthSlash? || m.SpecAuthIgnoreSlash? || m.File? || m.FileSlash? || m.PathStart?
  }

  /** What the cursor and the regions look like in each mode. Every scheme counts as special, so
      the two modes for other schemes are never entered. */
  predicate ModeShape(p: Parser)
  {
    && !p.mode.PathOrAuth? && !p.mode.OpaquePath?
    && (p.special || p.mode.SchemeStart? || p.mode.Scheme? || p.mode.NoScheme? || p.mode.Fail?)
    && (BeforePath(p.mode) ==> NoPathYet(p.url))
    && (NothingPending(p.mode) ==> |p.buf| == p.sliceStart)
    && (BeforeJump(p.mode) ==> !p.atSignSeen)
    && (BeforeJump(p.mode) || p.mode.File? ==> Len(p.url.host) == 0)
    && (p.mode.Path? ==> Len(p.url.query) == 0 && (Len(p.url.path) > 0 ==> End(p.url.path) == p.sliceStart))
    && (p.mode.Path? || p.mode.Query? ==> Len(p.url.fragment) == 0)
  }

  predicate Shape(p: Parser)
  {
    Sane(p) && Within(p.url, p.sliceStart) && Ordered(p.url) && ModeShape(p)
  }

  /** The path and the query recorded so far, and what is pending for them, are properly encoded. */
  predicate Encoding(p: Parser)
  {
    && CleanOn(p.buf, Start(p.url.path), End(p.url.path), PathSet)
    && CleanOn(p.buf, Start(p.url.query), End(p.url.query), SpecQuerySet)
    && (p.mode == Path ==> CleanOn(p.buf, p.sliceStart, |p.buf|, PathSet))
    && (p.mode == Query ==> CleanOn(p.buf, p.sliceStart, |p.buf|, SpecQuerySet))
  }

  /** No path or query is recorded, and a path that begins has only clean characters pending. */
  predicate PathOpens(p: Parser)
  {
    NoPathYet(p.url) && !p.mode.Query? && (p.mode.Path? ==> CleanOn(p.buf, p.sliceStart, |p.buf|, PathSet))
  }

  /** A component recorded from position `n` on stands behind all earlier ones. */
  lemma Placed(u: Url, u': Url, c: nat, n: nat, n': nat)
    requires Within(u, n) && Ordered(u) && c < 5 && n <= n'
    requires forall i :: 0 <= i < 5 && i != c ==> Component(u', i) == Component(u, i)
    requires forall i :: c < i < 5 ==> Len(Component(u, i)) == 0
    requires var r := Component(u', c);
             End(r) <= n' && (Start(r) == n || Len(r) == 0
               || (Start(r) == Start(Component(u, c)) && Len(Component(u, c)) > 0))
    ensures Within(u', n') && Ordered(u')
  {
    forall i, j | 0 <= i < j < 5
      ensures Before(Component(u', i), Component(u', j))
    {
      assert Before(Component(u, i), Component(u, j));
      assert End(Component(u, i)) <= n;
    }
  }

  lemma HostPlaced(u: Url, n: nat, r: Region, n': nat)
    requires Within(u, n) && Ordered(u) && NoPathYet(u) && n <= n' && End(r) <= n' && (Start(r) == n || Len(r) == 0)
    ensures Within(WithHost(u, r), n') && Ordered(WithHost(u, r)) && NoPathYet(WithHost(u, r))
  {
    Placed(u, WithHost(u, r), 1, n, n');
  }

  lemma PortPlaced(u: Url, n: nat, port: nat, n': nat)
    requires Within(u, n) && Ordered(u) && NoPathYet(u) && n <= n'
    ensures var u' := u.(port := port, portNull := false);
            Within(u, n') && Within(u', n') && Ordered(u') && NoPathYet(u')
  {
    Placed(u, u, 4, n, n');
    Placed(u, u.(port := port, portNull := false), 4, n, n');
  }

  lemma PathPlaced(u: Url, n: nat, r: Region, n': nat)
    requires Within(u, n) && Ordered(u) && Len(u.query) == 0 && Len(u.fragment) == 0 && n <= n' == End(r)
    requires Start(r) == n || (Start(r) == Start(u.path) && Len(u.path) > 0)
    ensures var u' := u.(path := r); Within(u', n') && Ordered(u')
  {
    Placed(u, u.(path := r), 2, n, n');
  }

  lemma QueryPlaced(u: Url, n: nat, r: Region, n': nat)
    requires Within(u, n) && Ordered(u) && Len(u.fragment) == 0 && n <= n' && End(r) <= n'
             && (Start(r) == n || Len(r) == 0)
    ensures Within(WithQuery(u, r), n') && Ordered(WithQuery(u, r)) && Len(WithQuery(u, r).fragment) == 0
  {
    Placed(u, WithQuery(u, r), 3, n, n');
  }

  lemma FragmentPlaced(u: Url, n: nat, r: Region, n': nat)
    requires Within(u, n) && Ordered(u) && n <= n' && End(r) <= n' && (Start(r) == n || Len(r) == 0)
    ensures Within(WithFragment(u, r), n') && Ordered(WithFragment(u, r))
  {
    Placed(u, WithFragment(u, r), 4, n, n');
  }

  lemma SchemePlaced(u: Url, n: nat, r: Region, n': nat)
    requires Within(u, n) && Ordered(u) && NoPathYet(u) && Len(u.host) == 0 && n <= n' && End(r) <= n' && Start(r) == n
    ensures Within(u.(scheme := r), n') && Ordered(u.(scheme := r))
  {
    Placed(u, u.(scheme := r), 0, n, n');
  }

  lemma SchemeStartShape(input: Text, q: Parser)
    requires Shape(q) && q.mode == SchemeStart
    ensures Shape(DoSchemeStart(input, q)) && PathOpens(DoSchemeStart(input, q))
  {
  }

  /** A scheme has been recorded and nothing else. */
  predicate SchemeOnly(p: Parser)
  {
    && p.special && p.sliceStart == |p.buf| && Within(p.url, p.sliceStart) && Ordered(p.url)
    && NoPathYet(p.url) && Len(p.url.host) == 0 && !p.atSignSeen
  }

  lemma RecordSchemeShape(q: Parser)
    requires Shape(q) && q.mode == Scheme
    ensures SchemeOnly(RecordScheme(q))
  {
    SchemePlaced(q.url, 0, PendingRegion(q), |q.buf|);
  }

  lemma AfterSchemeShape(input: Text, p: Parser)
    requires SchemeOnly(p)
    ensures Shape(AfterScheme(input, p)) && PathOpens(AfterScheme(input, p))
  {
    if IsFile(p) {
      return;
    }
  }

  lemma SchemeShape(input: Text, q: Parser)
    requires Shape(q) && q.mode == Scheme
    ensures Shape(DoScheme(input, q)) && PathOpens(DoScheme(input, q))
  {
    var c := Current(input, q);
    if c.Ch? && IsSchemeChar(c.c) {
      return;
    } else if c == Ch(':') {
      RecordSchemeShape(q);
      AfterSchemeShape(input, RecordScheme(q));
      return;
    }
  }

  lemma SpecAuthSlashShape(input: Text, q: Parser)
    requires Shape(q) && q.mode == SpecAuthSlash
    ensures Shape(DoSpecAuthSlash(input, q)) && PathOpens(DoSpecAuthSlash(input, q))
  {
  }

  lemma SpecAuthIgnoreSlashShape(input: Text, q: Parser)
    requires Shape(q) && q.mode == SpecAuthIgnoreSlash
    ensures Shape(DoSpecAuthIgnoreSlash(input, q)) && PathOpens(DoSpecAuthIgnoreSlash(input, q))
  {
  }

  lemma AuthShape(input: Text, q: Parser)
    requires Shape(q) && q.mode == Auth && '@' !in input
    ensures Shape(DoAuth(input, q)) && PathOpens(DoAuth(input, q))
  {
  }

  lemma RecordHostShape(p: Parser)
    requires p.sliceStart <= |p.buf| && Within(p.url, p.sliceStart) && Ordered(p.url) && NoPathYet(p.url)
    ensures var p' := RecordHost(p);
            && p'.sliceStart == |p'.buf| && Within(p'.url, p'.sliceStart) && Ordered(p'.url) && NoPathYet(p'.url)
            && p'.special == p.special && p'.buf == p.buf
  {
    HostPlaced(p.url, p.sliceStart, PendingRegion(p), |p.buf|);
  }

  lemma HostShape(input: Text, q: Parser)
    requires Shape(q) && q.mode == Host
    ensures Shape(DoHost(input, q)) && PathOpens(DoHost(input, q))
  {
    var c := Current(input, q);
    if c == Ch(':') && !q.insideBrackets {
      if PendingLen(q) == 0 {
        return;
      }
      RecordHostShape(q);
      return;
    } else if EndsAuthority(q, c) {
      if PendingLen(q) == 0 {
        return;
      }
      RecordHostShape(q);
      return;
    }
  }

  lemma PortShape(input: Text, q: Parser)
    requires Shape(q) && q.mode == Port
    ensures Shape(DoPort(input, q)) && PathOpens(DoPort(input, q))
  {
    var c := Current(input, q);
    if c.Ch? && IsDigit(c.c) {
      return;
    } else if EndsAuthority(q, c) {
      if PendingLen(q) == 0 {
        return;
      }
      PortPlaced(q.url, q.sliceStart, PortNumber(Pending(q)), |q.buf|);
      return;
    }
  }

  lemma FileSchemeShape(q: Parser)
    requires Shape(q) && q.mode == File
    ensures Shape(WithFileScheme(q)) && WithFileScheme(q).mode == File
  {
    var p1 := q.(buf := q.buf + "file");
    SchemePlaced(q.url, q.sliceStart, PendingRegion(p1), |p1.buf|);
  }

  lemma AfterFileSchemeShape(input: Text, q: Parser)
    requires Shape(q) && q.mode == File
    ensures Shape(AfterFileScheme(input, q)) && PathOpens(AfterFileScheme(input, q))
  {
    HostPlaced(q.url, q.sliceStart, Nowhere, q.sliceStart);
  }

  lemma FileShape(input: Text, q: Parser)
    requires Shape(q) && q.mode == File
    ensures Shape(DoFile(input, q)) && PathOpens(DoFile(input, q))
  {
    FileSchemeShape(q);
    AfterFileSchemeShape(input, WithFileScheme(q));
  }

  lemma FileSlashShape(input: Text, q: Parser)
    requires Shape(q) && q.mode == FileSlash
    ensures Shape(DoFileSlash(input, q)) && PathOpens(DoFileSlash(input, q))
  {
  }

  lemma AfterFileHostShape(q: Parser)
    requires Shape(q) && q.mode == FileHost
    ensures Shape(AfterFileHost(q)) && PathOpens(AfterFileHost(q))
  {
    if IsDriveLetter(Pending(q)) {
      return;
    } else if PendingLen(q) == 0 {
      HostPlaced(q.url, q.sliceStart, Nowhere, q.sliceStart);
      return;
    }
    RecordHostShape(q);
  }

  lemma PushShape(q: Parser, c: char)
    requires Shape(q) && q.mode == FileHost
    ensures Shape(Push(q, c)) && PathOpens(Push(q, c))
  {
  }

  lemma FileHostShape(input: Text, q: Parser)
    requires Shape(q) && q.mode == FileHost
    ensures Shape(DoFileHost(input, q)) && PathOpens(DoFileHost(input, q))
  {
    var c := Current(input, q);
    if c == Eof || c == Ch('/') || c == Ch('\\') || c == Ch('?') || c == Ch('#') {
      AfterFileHostShape(q.(pos := q.pos - 1));
      return;
    }
    PushShape(q, c.c);
  }

  lemma PathStartShape(input: Text, q: Parser)
    requires Shape(q) && q.mode == PathStart
    ensures Shape(DoPathStart(input, q)) && PathOpens(DoPathStart(input, q))
  {
  }

  lemma SegmentShape(p: Parser)
    requires Shape(p) && p.mode == Path
    ensures Shape(WithSegment(p)) && WithSegment(p).mode == Path && |WithSegment(p).buf| == WithSegment(p).sliceStart
  {
    var r := WithSegment(p).url.path;
    PathPlaced(p.url, p.sliceStart, r, |p.buf|);
  }

  lemma AfterPathShape(p: Parser, c: Cur)
    requires Shape(p) && p.mode == Path
    ensures Shape(AfterPath(p, c))
  {
    if c == Ch('?') {
      QueryPlaced(p.url, p.sliceStart, Nowhere, p.sliceStart);
      return;
    } else if c == Ch('#') {
      FragmentPlaced(p.url, p.sliceStart, Nowhere, p.sliceStart);
      return;
    }
  }

  lemma PathShape(input: Text, q: Parser)
    requires Shape(q) && q.mode == Path
    ensures Shape(DoPath(input, q))
  {
    var c := Current(input, q);
    if EndsSegment(q, c) {
      var p1 := FixDriveLetter(q);
      var p2 := if c == Ch('/') || (q.special && c == Ch('\\')) then Push(p1, c.c) else p1;
      SegmentShape(p2);
      AfterPathShape(WithSegment(p2), c);
      return;
    }
  }

  lemma QueryShape(input: Text, q: Parser)
    requires Shape(q) && q.mode == Query
    ensures Shape(DoQuery(input, q))
  {
    var c := Current(input, q);
    var u := WithQuery(q.url, PendingRegion(q));
    if c == Ch('#') || c == Eof {
      QueryPlaced(q.url, q.sliceStart, PendingRegion(q), |q.buf|);
      FragmentPlaced(u, |q.buf|, Nowhere, |q.buf|);
      return;
    }
  }

  lemma FragmentShape(input: Text, q: Parser)
    requires Shape(q) && q.mode == Fragment
    ensures Shape(DoFragment(input, q))
  {
    FragmentPlaced(q.url, q.sliceStart, PendingRegion(q), |q.buf|);
  }

  lemma OpeningEncoding(p: Parser)
    requires PathOpens(p)
    ensures Encoding(p)
  {
  }

  /** Recorded components are not touched by what happens behind the slice cursor. */
  lemma EncodingKept(p: Parser, p': Parser)
    requires Shape(p) && Encoding(p) && p'.url.path == p.url.path && p'.url.query == p.url.query
    requires p.sliceStart <= |p'.buf| && forall k :: 0 <= k < p.sliceStart ==> p'.buf[k] == p.buf[k]
    ensures CleanOn(p'.buf, Start(p.url.path), End(p.url.path), PathSet)
    ensures CleanOn(p'.buf, Start(p.url.query), End(p.url.query), SpecQuerySet)
  {
    assert End(Component(p.url, 2)) <= p.sliceStart && End(Component(p.url, 3)) <= p.sliceStart;
  }

  lemma CleanAppend(buf: Text, lo: nat, t: Text, set_: EncodeSet)
    requires CleanOn(buf, lo, |buf|, set_) && forall k :: 0 <= k < |t| ==> !Contains(set_, t[k])
    ensures CleanOn(buf + t, lo, |buf + t|, set_)
  {
  }

  /** Adding the pending segment to the path keeps it encoded. */
  lemma SegmentEncoding(p: Parser)
    requires Shape(p) && Encoding(p) && p.mode == Path
    ensures Encoding(WithSegment(p))
  {
    EncodingKept(p, WithSegment(p).(url := p.url));
  }

  lemma DriveLetterEncoding(p: Parser)
    requires Shape(p) && Encoding(p) && p.mode == Path
    ensures Shape(FixDriveLetter(p)) && Encoding(FixDriveLetter(p)) && FixDriveLetter(p).mode == Path
  {
    EncodingKept(p, FixDriveLetter(p));
  }

  lemma SeparatorEncoding(p: Parser, c: char)
    requires Shape(p) && Encoding(p) && p.mode == Path && (c == '/' || c == '\\')
    ensures Shape(Push(p, c)) && Encoding(Push(p, c))
  {
    CleanAppend(p.buf, p.sliceStart, [c], PathSet);
    EncodingKept(p, Push(p, c));
  }

  lemma AfterPathEncoding(p: Parser, c: Cur)
    requires Shape(p) && Encoding(p) && p.mode == Path && |p.buf| == p.sliceStart
    ensures Encoding(AfterPath(p, c))
  {
  }

  lemma PathEncoding(input: Text, q: Parser)
    requires Shape(q) && Encoding(q) && q.mode == Path
    ensures Encoding(DoPath(input, q))
  {
    var c := Current(input, q);
    if EndsSegment(q, c) {
      DriveLetterEncoding(q);
      var p1 := FixDriveLetter(q);
      var p2 := if c == Ch('/') || (q.special && c == Ch('\\')) then Push(p1, c.c) else p1;
      if c == Ch('/') || (q.special && c == Ch('\\')) {
        SeparatorEncoding(p1, c.c);
      }
      SegmentShape(p2);
      SegmentEncoding(p2);
      AfterPathEncoding(WithSegment(p2), c);
      return;
    } else {
      EncodedIsClean(c.c, PathSet);
      CleanAppend(q.buf, q.sliceStart, Encoded(c.c, PathSet), PathSet);
      EncodingKept(q, DoPath(input, q));
      return;
    }
  }

  lemma QueryEncoding(input: Text, q: Parser)
    requires Shape(q) && Encoding(q) && q.mode == Query
    ensures Encoding(DoQuery(input, q))
  {
    var c := Current(input, q);
    EncodingKept(q, DoQuery(input, q).(url := q.url));
    if !(c == Ch('#') || c == Eof) {
      EncodedIsClean(c.c, SpecQuerySet);
      CleanAppend(q.buf, q.sliceStart, Encoded(c.c, SpecQuerySet), SpecQuerySet);
      return;
    }
  }

  lemma FragmentEncoding(input: Text, q: Parser)
    requires Shape(q) && Encoding(q) && q.mode == Fragment
    ensures Encoding(DoFragment(input, q))
  {
    EncodingKept(q, DoFragment(input, q).(url := q.url));
  }

  lemma EarlyKeeps(input: Text, q: Parser)
    requires Shape(q) && Encoding(q) && '@' !in input
             && (q.mode.SchemeStart? || q.mode.Scheme? || q.mode.SpecAuthSlash? || q.mode.SpecAuthIgnoreSlash?)
    ensures Shape(Step(input, q)) && Encoding(Step(input, q))
  {
    match q.mode {
      case SchemeStart => SchemeStartShape(input, q); OpeningEncoding(DoSchemeStart(input, q));
      case Scheme => SchemeShape(input, q); OpeningEncoding(DoScheme(input, q));
      case SpecAuthSlash => SpecAuthSlashShape(input, q); OpeningEncoding(DoSpecAuthSlash(input, q));
      case SpecAuthIgnoreSlash => SpecAuthIgnoreSlashShape(input, q); OpeningEncoding(DoSpecAuthIgnoreSlash(input, q));
      case _ =>
    }
  }

  lemma AuthorityKeeps(input: Text, q: Parser)
    requires Shape(q) && Encoding(q) && '@' !in input && (q.mode.Auth? || q.mode.Host? || q.mode.Port?)
    ensures Shape(Step(input, q)) && Encoding(Step(input, q))
  {
    match q.mode {
      case Auth => AuthShape(input, q); OpeningEncoding(DoAuth(input, q));
      case Host => HostShape(input, q); OpeningEncoding(DoHost(input, q));
      case Port => PortShape(input, q); OpeningEncoding(DoPort(input, q));
      case _ =>
    }
  }

  lemma FileKeeps(input: Text, q: Parser)
    requires Shape(q) && Encoding(q) && '@' !in input && (q.mode.File? || q.mode.FileSlash? || q.mode.FileHost?)
    ensures Shape(Step(input, q)) && Encoding(Step(input, q))
  {
    match q.mode {
      case File => FileShape(input, q); OpeningEncoding(DoFile(input, q));
      case FileSlash => FileSlashShape(input, q); OpeningEncoding(DoFileSlash(input, q));
      case FileHost => FileHostShape(input, q); OpeningEncoding(DoFileHost(input, q));
      case _ =>
    }
  }

  lemma LateKeeps(input: Text, q: Parser)
    requires Shape(q) && Encoding(q) && '@' !in input
             && (q.mode.PathStart? || q.mode.Path? || q.mode.Query? || q.mode.Fragment?)
    ensures Shape(Step(input, q)) && Encoding(Step(input, q))
  {
    match q.mode {
      case PathStart => PathStartShape(input, q); OpeningEncoding(DoPathStart(input, q));
      case Path => PathShape(input, q); PathEncoding(input, q);
      case Query => QueryShape(input, q); QueryEncoding(input, q);
      case Fragment => FragmentShape(input, q); FragmentEncoding(input, q);
      case _ =>
    }
  }

  /** Every turn keeps the regions in order and the path and query encoded. */
  lemma TurnKeeps(input: Text, p: Parser)
    requires Shape(p) && Encoding(p) && '@' !in input && p.mode != Fail
    ensures Shape(Turn(input, p)) && Encoding(Turn(input, p))
  {
    StepKeeps(input, p.(pos := p.pos + 1));
  }

  lemma StepKeeps(input: Text, q: Parser)
    requires Shape(q) && Encoding(q) && '@' !in input && q.mode != Fail
    ensures Shape(Step(input, q)) && Encoding(Step(input, q))
  {
    if q.mode.SchemeStart? || q.mode.Scheme? || q.mode.SpecAuthSlash? || q.mode.SpecAuthIgnoreSlash? {
      EarlyKeeps(input, q);
      return;
    } else if q.mode.Auth? || q.mode.Host? || q.mode.Port? {
      AuthorityKeeps(input, q);
      return;
    } else if q.mode.File? || q.mode.FileSlash? || q.mode.FileHost? {
      FileKeeps(input, q);
      return;
    } else if q.mode.PathStart? || q.mode.Path? || q.mode.Query? || q.mode.Fragment? {
      LateKeeps(input, q);
      return;
    }
  }

  lemma {:induction false} RunKeeps(input: Text, p: Parser)
    requires Shape(p) && Encoding(p) && '@' !in input && InLoop(input, p)
    ensures Shape(Run(input, p).parser) && Encoding(Run(input, p).parser)
    decreases Fuel(input, p) + 1
  {
    if p.mode != Fail {
      TurnUsesFuel(input, p);
      TurnKeeps(input, p);
      var p' := Turn(input, p);
      if !IsEof(input, p'.pos) {
        RunKeeps(input, p');
      }
    }
  }

  /** For input without `@`, the components of the result lie in the buffer, in the order scheme,
      host, path, query, fragment and without overlap, and neither the path nor the query contains a
      character of its percent-encode set. */
  lemma RegionsAreSound(input: Text)
    requires '@' !in input
    ensures var p := Run(input, START).parser;
            && Within(p.url, |p.buf|) && Ordered(p.url)
            && CleanOn(p.buf, Start(p.url.path), End(p.url.path), PathSet)
            && CleanOn(p.buf, Start(p.url.query), End(p.url.query), SpecQuerySet)
  {
    RunKeeps(input, START);
  }
}
