/** Exactly which inputs drive the URL parser into `Fail` without `url_parse` reporting it: the loop
    looks at the end of the input before it looks at the mode, so a failure on the last turn is lost. */
module UrlVerdict {
  import opened UrlParser
  import opened UrlTexts

  /** The parser has failed and the caller is not told. */
  predicate Swallowed(o: Outcome) { o.parser.mode == Fail && !o.fatal }

  // ---------- the inputs, read once from left to right ----------

  /** From `k` on there are only digits, and with those in `t` before them they are too large a port. */
  predicate PortTooHigh(input: Text, k: nat, t: Text)
  {
    k <= |input| && (forall j :: k <= j < |input| ==> IsDigit(input[j])) && PortNumber(t + input[k..]) > 65535
  }

  predicate Opens(c: char, open: bool) { c == '[' || (c != ']' && open) }

  /** From `k` on there is the rest of a host, a colon outside brackets and too large a port. `some`
      says whether the host has begun, `open` whether a bracket is open. */
  predicate HostThenPort(input: Text, k: nat, some: bool, open: bool)
    decreases |input| - k
  {
    k < |input|
    && if input[k] == ':' && !open then some && PortTooHigh(input, k + 1, [])
       else !EndsAuth(input[k]) && HostThenPort(input, k + 1, true, Opens(input[k], open))
  }

  /** The user information in `t` as it is put back into the buffer at an `@`: percent-encoded, and
      without the first colon if `token` says that it is still to come. */
  function Userinfo(t: Text, token: bool): Text
  {
    if t == [] then []
    else if t[0] == ':' && !token then Userinfo(t[1..], true)
    else Encoded(t[0], UserinfoSet) + Userinfo(t[1..], token)
  }

  /** The authority from `k` on loses a failure. What is pending before `k` is `t`. At the end of the
      authority the parser goes back by the length of what is pending, which is not the number of
      characters read if there was an `@`. */
  predicate AuthorityLoses(input: Text, k: nat, t: Text, seen: bool, token: bool)
    requires k <= |input|
    decreases |input| - k
  {
    if k == |input| || EndsAuth(input[k]) then
      if seen && t == [] then k == |input| else |t| < k && HostThenPort(input, k - |t|, false, false)
    else if input[k] == '@' then
      var info := if seen then t + "%40" else t;
      AuthorityLoses(input, k + 1, Userinfo(info, token), true, token || ':' in info)
    else AuthorityLoses(input, k + 1, t + [input[k]], seen, token)
  }

  /** The first place from `k` on without a slash or backslash. */
  function SkipSlashes(input: Text, k: nat): (r: nat)
    requires k <= |input|
    ensures k <= r <= |input|
    decreases |input| - k
  {
    if k < |input| && (input[k] == '/' || input[k] == '\\') then SkipSlashes(input, k + 1) else k
  }

  predicate SlashesThenLoses(input: Text, k: nat)
    requires k <= |input|
  {
    AuthorityLoses(input, SkipSlashes(input, k), [], false, false)
  }

  /** From `k` on there are the rest of a scheme, of which `t` has been read, and an authority that
      loses a failure; or there is no scheme and the input is a single letter. */
  predicate SchemeLoses(input: Text, k: nat, t: Text)
    requires k <= |input|
    decreases |input| - k
  {
    if k < |input| && IsSchemeChar(input[k]) then SchemeLoses(input, k + 1, t + [Lower(input[k])])
    else if k < |input| && input[k] == ':' then t != "file" && SlashesThenLoses(input, k + 1)
    else |input| == 1
  }

  /** The inputs on which the failure is lost. */
  predicate Loses(input: Text)
  {
    input != [] && IsAlpha(input[0]) && SchemeLoses(input, 1, [Lower(input[0])])
  }

  // ---------- the same question about a parser inside the loop ----------

  /** What is known about the parser in each mode. */
  predicate Expected(p: Parser)
  {
    && Sane(p) && !p.mode.PathOrAuth? && !p.mode.SchemeStart?
    && (BeforeJump(p.mode) ==> !p.insideBrackets)
    && (BeforeJump(p.mode) && !p.mode.Auth? ==> !p.atSignSeen && !p.passwordTokenSeen)
    && (p.mode.SpecAuthSlash? || p.mode.SpecAuthIgnoreSlash? ==> p.special && p.sliceStart == |p.buf|)
    && (p.mode.Auth? || p.mode.Host? || p.mode.Port? ==> p.special)
  }

  /** The run from `p`, whose next character is at `k`, will lose a failure. */
  predicate Doomed(input: Text, p: Parser, k: nat)
    requires Sane(p) && k <= |input|
  {
    match p.mode
    case SchemeStart => Loses(input)
    case Scheme => SchemeLoses(input, k, p.buf)
    case NoScheme => k == |input|
    case SpecAuthSlash => SlashesThenLoses(input, k)
    case SpecAuthIgnoreSlash => SlashesThenLoses(input, k)
    case Auth => AuthorityLoses(input, k, Pending(p), p.atSignSeen, p.passwordTokenSeen)
    case Host => HostThenPort(input, k, PendingLen(p) > 0, p.insideBrackets)
    case Port => PortTooHigh(input, k, Pending(p))
    case _ => false
  }

  /** `q` is about to make its turn, which leaves `p'`: the loop is left there or goes on. */
  predicate KeepsDoom(input: Text, q: Parser, p': Parser)
    requires Sane(q) && 0 <= q.pos <= |input|
  {
    && Expected(p')
    && (Doomed(input, q, q.pos) <==> if IsEof(input, p'.pos) then p'.mode == Fail else Doomed(input, p', p'.pos + 1))
  }

  lemma SchemeStartDoom(input: Text, q: Parser)
    requires q == START.(pos := 0)
    ensures KeepsDoom(input, q, DoSchemeStart(input, q))
  {
    if input != [] {
      assert [] + [Lower(input[0])] == [Lower(input[0])];
    }
  }

  lemma ColonTurn(input: Text, q: Parser) returns (p: Parser)
    requires Expected(q) && q.mode == Scheme
    ensures p == AfterScheme(input, RecordScheme(q)) && Expected(p) && p.pos == q.pos
    ensures p.mode == if q.buf == "file" then File else SpecAuthSlash
  {
    p := RecordScheme(q);
    assert TextAt(p, p.url.scheme) == q.buf;
    p := AfterScheme(input, p);
  }

  lemma ColonDoom(input: Text, q: Parser, p: Parser)
    requires Expected(q) && 0 < q.pos < |input| && q.mode == Scheme && input[q.pos] == ':'
    requires Expected(p) && p.pos == q.pos && p.mode == if q.buf == "file" then File else SpecAuthSlash
    ensures KeepsDoom(input, q, p)
  {
  }

  lemma SchemeDoom(input: Text, q: Parser)
    requires Expected(q) && 0 < q.pos <= |input| && q.mode == Scheme
    ensures KeepsDoom(input, q, DoScheme(input, q))
  {
    var c := Current(input, q);
    if c.Ch? && IsSchemeChar(c.c) {
      return;
    } else if c == Ch(':') {
      var p := ColonTurn(input, q);
      ColonDoom(input, q, p);
      return;
    }
  }

  lemma SkipTwo(input: Text, k: nat)
    requires k + 1 < |input| && input[k] == '/' && input[k + 1] == '/'
    ensures SkipSlashes(input, k) == SkipSlashes(input, k + 2)
  {
    assert SkipSlashes(input, k) == SkipSlashes(input, k + 1);
  }

  lemma SlashDoom(input: Text, q: Parser)
    requires Expected(q) && 0 < q.pos <= |input| && q.mode == SpecAuthSlash
    ensures KeepsDoom(input, q, DoSpecAuthSlash(input, q))
  {
    if Current(input, q) == Ch('/') && RestStartsWithSlash(input, q) {
      SkipTwo(input, q.pos);
      return;
    }
  }

  lemma IgnoreSlashDoom(input: Text, q: Parser)
    requires Expected(q) && 0 < q.pos <= |input| && q.mode == SpecAuthIgnoreSlash
    ensures KeepsDoom(input, q, DoSpecAuthIgnoreSlash(input, q))
  {
    assert Pending(q) == [];
  }

  lemma {:induction false} UserinfoIsPending(p: Parser, info: Text)
    ensures var p' := EncodeUserinfo(p, info);
            && p'.buf == p.buf + Userinfo(info, p.passwordTokenSeen)
            && p'.passwordTokenSeen == (p.passwordTokenSeen || ':' in info)
    decreases |info|
  {
    if info == [] {
      return;
    }
    assert info == [info[0]] + info[1..];
    if info[0] == ':' && !p.passwordTokenSeen {
      UserinfoIsPending(p.(passwordTokenSeen := true,
        url := p.url.(password := Region(|p.buf|, Len(p.url.password)))), info[1..]);
    } else {
      var p1 := p.(buf := p.buf + Encoded(info[0], UserinfoSet));
      var url := if p.passwordTokenSeen then p.url.(password := Region(Start(p.url.password), Len(p.url.password) + 1))
                 else p.url.(username := Region(Start(p.url.username), Len(p.url.username) + 1));
      UserinfoIsPending(p1.(url := url), info[1..]);
    }
  }

  lemma AtSignTurn(input: Text, q: Parser) returns (info: Text)
    requires Expected(q) && 0 < q.pos < |input| && q.mode == Auth && input[q.pos] == '@'
    ensures info == if q.atSignSeen then Pending(q) + "%40" else Pending(q)
    ensures var p := DoAuth(input, q);
            && Expected(p) && p.mode == Auth && p.pos == q.pos && p.atSignSeen
            && Pending(p) == Userinfo(info, q.passwordTokenSeen)
            && p.passwordTokenSeen == (q.passwordTokenSeen || ':' in info)
  {
    var p1 := if q.atSignSeen then q.(buf := q.buf + "%40") else q;
    info := Pending(p1);
    var p2 := Sliced(p1).(atSignSeen := true, url := q.url.(username := Region(|info|, Len(q.url.username))));
    UserinfoOnlyAppends(p2, info);
    UserinfoIsPending(p2, info);
    assert Pending(DoAuth(input, q)) == Userinfo(info, q.passwordTokenSeen);
  }

  lemma AtSignDoom(input: Text, q: Parser, p: Parser, info: Text)
    requires Expected(q) && 0 < q.pos < |input| && q.mode == Auth && input[q.pos] == '@'
    requires info == if q.atSignSeen then Pending(q) + "%40" else Pending(q)
    requires Expected(p) && p.mode == Auth && p.pos == q.pos && p.atSignSeen
    requires Pending(p) == Userinfo(info, q.passwordTokenSeen)
    requires p.passwordTokenSeen == (q.passwordTokenSeen || ':' in info)
    ensures KeepsDoom(input, q, p)
  {
  }

  lemma AuthEndDoom(input: Text, q: Parser)
    requires Expected(q) && 0 < q.pos <= |input| && q.mode == Auth && EndsAuthority(q, Current(input, q))
    ensures KeepsDoom(input, q, DoAuth(input, q))
  {
  }

  lemma AuthDoom(input: Text, q: Parser)
    requires Expected(q) && 0 < q.pos <= |input| && q.mode == Auth
    ensures KeepsDoom(input, q, DoAuth(input, q))
  {
    var c := Current(input, q);
    if c == Ch('@') {
      var info := AtSignTurn(input, q);
      AtSignDoom(input, q, DoAuth(input, q), info);
      return;
    } else if EndsAuthority(q, c) {
      AuthEndDoom(input, q);
      return;
    }
    assert Pending(Push(q, c.c)) == Pending(q) + [c.c];
  }

  lemma HostDoom(input: Text, q: Parser)
    requires Expected(q) && 0 < q.pos <= |input| && q.mode == Host
    ensures KeepsDoom(input, q, DoHost(input, q))
  {
    var c := Current(input, q);
    if c == Ch(':') && !q.insideBrackets {
      assert PendingLen(q) > 0 ==> Pending(RecordHost(q)) == [];
      return;
    } else if EndsAuthority(q, c) {
      return;
    }
  }

  lemma DigitDoom(input: Text, k: nat, t: Text)
    requires k < |input| && IsDigit(input[k])
    ensures PortTooHigh(input, k, t) == PortTooHigh(input, k + 1, t + [input[k]])
  {
    assert t + [input[k]] + input[k + 1..] == t + input[k..];
  }

  lemma PortDoom(input: Text, q: Parser)
    requires Expected(q) && 0 < q.pos <= |input| && q.mode == Port
    ensures KeepsDoom(input, q, DoPort(input, q))
  {
    var c := Current(input, q);
    if c.Ch? && IsDigit(c.c) {
      DigitDoom(input, q.pos, Pending(q));
      assert Pending(Push(q, c.c)) == Pending(q) + [c.c];
      return;
    } else if c == Eof {
      assert Pending(q) + input[q.pos..] == Pending(q);
      return;
    }
    assert !PortTooHigh(input, q.pos, Pending(q));
    if EndsAuthority(q, c) {
      return;
    }
  }

  /** Modes in which a failure is always seen. */
  predicate Late(mode: Mode)
  {
    || mode.File? || mode.FileSlash? || mode.FileHost? || mode.PathStart? || mode.Path? || mode.OpaquePath?
    || mode.Query? || mode.Fragment?
  }

  predicate StaysLate(input: Text, p: Parser) { Late(p.mode) || (p.mode.Fail? && !IsEof(input, p.pos)) }

  lemma FileStaysLate(input: Text, q: Parser)
    requires Sane(q) && 0 < q.pos <= |input| && (q.mode.File? || q.mode.FileSlash? || q.mode.FileHost?)
    ensures StaysLate(input, Step(input, q))
  {
  }

  lemma PathStaysLate(input: Text, q: Parser)
    requires Sane(q) && 0 < q.pos <= |input| && (q.mode.PathStart? || q.mode.Path?)
    ensures StaysLate(input, Step(input, q))
  {
  }

  lemma TailStaysLate(input: Text, q: Parser)
    requires Sane(q) && 0 < q.pos <= |input| && (q.mode.OpaquePath? || q.mode.Query? || q.mode.Fragment?)
    ensures StaysLate(input, Step(input, q))
  {
  }

  lemma LateDoom(input: Text, q: Parser)
    requires Expected(q) && 0 < q.pos <= |input| && Late(q.mode)
    ensures KeepsDoom(input, q, Step(input, q))
  {
    StepUsesFuel(input, q);
    if q.mode.File? || q.mode.FileSlash? || q.mode.FileHost? {
      FileStaysLate(input, q);
    } else if q.mode.PathStart? || q.mode.Path? {
      PathStaysLate(input, q);
    } else {
      TailStaysLate(input, q);
    }
  }

  /** A parser whose cursor has just been advanced, at the start of the loop or inside it. */
  predicate Poised(input: Text, q: Parser)
  {
    if q.mode.SchemeStart? then q == START.(pos := 0) else Expected(q) && 0 < q.pos <= |input|
  }

  lemma EarlyDoom(input: Text, q: Parser)
    requires Poised(input, q) && (q.mode.SchemeStart? || q.mode.Scheme? || q.mode.NoScheme?)
    ensures KeepsDoom(input, q, Step(input, q))
  {
    match q.mode {
      case SchemeStart => SchemeStartDoom(input, q);
      case Scheme => SchemeDoom(input, q);
      case _ =>
    }
  }

  lemma AuthorityDoom(input: Text, q: Parser)
    requires Expected(q) && 0 < q.pos <= |input|
    requires q.mode.SpecAuthSlash? || q.mode.SpecAuthIgnoreSlash? || q.mode.Auth? || q.mode.Host? || q.mode.Port?
    ensures KeepsDoom(input, q, Step(input, q))
  {
    match q.mode {
      case SpecAuthSlash => SlashDoom(input, q);
      case SpecAuthIgnoreSlash => IgnoreSlashDoom(input, q);
      case Auth => AuthDoom(input, q);
      case Host => HostDoom(input, q);
      case Port => PortDoom(input, q);
      case _ =>
    }
  }

  /** Every turn keeps the answer. */
  lemma StepKeepsDoom(input: Text, q: Parser)
    requires Poised(input, q) && q.mode != Fail
    ensures KeepsDoom(input, q, Step(input, q))
  {
    if q.mode.SchemeStart? || q.mode.Scheme? || q.mode.NoScheme? {
      EarlyDoom(input, q);
      return;
    } else if Late(q.mode) {
      LateDoom(input, q);
      return;
    }
    AuthorityDoom(input, q);
  }

  lemma Advance(input: Text, p: Parser, q: Parser)
    requires Expected(p) && 0 <= p.pos < |input| && q == p.(pos := p.pos + 1)
    ensures Poised(input, q) && Doomed(input, q, q.pos) == Doomed(input, p, p.pos + 1)
  {
  }

  lemma RunOneTurn(input: Text, p: Parser, p': Parser)
    requires Sane(p) && InLoop(input, p) && p.mode != Fail && p' == Turn(input, p)
    ensures Sane(p') && (!IsEof(input, p'.pos) ==> Fuel(input, p') < Fuel(input, p))
    ensures Swallowed(Run(input, p)) == if IsEof(input, p'.pos) then p'.mode == Fail else Swallowed(Run(input, p'))
  {
    TurnUsesFuel(input, p);
  }

  lemma TurnKeepsDoom(input: Text, p: Parser, q: Parser) returns (p': Parser)
    requires q == p.(pos := p.pos + 1) && Sane(p) && InLoop(input, p) && p.mode != Fail && Poised(input, q)
    ensures KeepsDoom(input, q, p') && (!IsEof(input, p'.pos) ==> Fuel(input, p') < Fuel(input, p))
    ensures Swallowed(Run(input, p)) == if IsEof(input, p'.pos) then p'.mode == Fail else Swallowed(Run(input, p'))
  {
    p' := Step(input, q);
    RunOneTurn(input, p, p');
    StepKeepsDoom(input, q);
  }

  lemma {:induction false} RunKeepsDoom(input: Text, p: Parser, q: Parser)
    requires q == p.(pos := p.pos + 1) && Sane(p) && InLoop(input, p) && Poised(input, q)
    ensures Swallowed(Run(input, p)) <==> Doomed(input, q, q.pos)
    decreases Fuel(input, p) + 1
  {
    if p.mode == Fail {
      return;
    }
    var p' := TurnKeepsDoom(input, p, q);
    if !IsEof(input, p'.pos) {
      Advance(input, p', p'.(pos := p'.pos + 1));
      RunKeepsDoom(input, p', p'.(pos := p'.pos + 1));
    }
  }

  /** The failures that `url_parse` does not report, for every input. */
  lemma SwallowedExactlyWhen(input: Text)
    ensures Swallowed(Run(input, START)) <==> Loses(input)
  {
    RunKeepsDoom(input, START, START.(pos := 0));
  }

  // ---------- inputs without an at sign ----------

  /** `t` is a host of `n` characters, a colon and too large a port. */
  predicate HostAndHighPort(t: Text, n: nat)
  {
    && n < |t| && IsHost(t[..n]) && !Bracketed(t[..n]) && t[n] == ':'
    && (forall j :: n < j < |t| ==> IsDigit(t[j])) && PortNumber(t[n + 1..]) > 65535
  }

  /** `input` is a scheme of `a` characters other than `file`, a colon, any slashes and backslashes, a
      host of `n` characters, a colon and too large a port. */
  predicate HasHighPort(input: Text, a: nat, n: nat)
  {
    && a < |input| && IsScheme(input[..a]) && input[a] == ':' && EmitAll(Lowered, input[..a]) != "file"
    && HostAndHighPort(input[SkipSlashes(input, a + 1)..], n)
  }

  lemma {:induction false} HostShifted(input: Text, b: nat, k: nat, some: bool, open: bool)
    requires b <= |input| && k <= |input| - b
    ensures HostThenPort(input, b + k, some, open) == HostThenPort(input[b..], k, some, open)
    decreases |input| - k
  {
    if b + k < |input| {
      assert input[b..][k] == input[b + k];
      if input[b + k] == ':' && !open {
        assert input[b..][k + 1..] == input[b + k + 1..];
        assert forall j :: b + k < j < |input| ==> input[j] == input[b..][j - b];
        assert forall j :: k < j < |input[b..]| ==> input[b..][j] == input[b + j];
      } else {
        HostShifted(input, b, k + 1, true, Opens(input[b + k], open));
      }
    }
  }

  lemma {:induction false} OpenPrefix(t: Text, n: nat, k: nat)
    requires k <= n <= |t|
    ensures OpenAt(t[..n], k) == OpenAt(t, k)
  {
    if k > 0 {
      OpenPrefix(t, n, k - 1);
    }
  }

  /** The first `k` characters belong to the host. */
  predicate InHost(t: Text, k: nat)
  {
    && k <= |t| && (forall j :: 0 <= j < k ==> !EndsAuth(t[j]) && t[j] != '@')
    && (forall j {:trigger OpenAt(t, j)} :: 0 <= j < k && t[j] == ':' ==> OpenAt(t, j))
  }

  lemma HostIsInHost(t: Text, n: nat)
    requires 0 < n <= |t|
    ensures IsHost(t[..n]) <==> InHost(t, n)
  {
    forall j | 0 <= j < n
      ensures t[..n][j] == t[j] && OpenAt(t[..n], j) == OpenAt(t, j)
    {
      OpenPrefix(t, n, j);
    }
  }

  lemma {:induction false} HostIsFound(t: Text, k: nat) returns (n: nat)
    requires '@' !in t && InHost(t, k) && HostThenPort(t, k, k > 0, OpenAt(t, k))
    ensures HostAndHighPort(t, n)
    decreases |t| - k
  {
    if t[k] == ':' && !OpenAt(t, k) {
      HostIsInHost(t, k);
      OpenPrefix(t, k, k);
      assert [] + t[k + 1..] == t[k + 1..];
      return k;
    }
    assert OpenAt(t, k + 1) == Opens(t[k], OpenAt(t, k));
    n := HostIsFound(t, k + 1);
  }

  lemma {:induction false} HostIsScanned(t: Text, n: nat, k: nat)
    requires HostAndHighPort(t, n) && k <= n
    ensures HostThenPort(t, k, k > 0, OpenAt(t, k))
    decreases n - k
  {
    HostIsInHost(t, n);
    OpenPrefix(t, n, n);
    if k == n {
      assert [] + t[k + 1..] == t[k + 1..];
    } else {
      assert OpenAt(t, k + 1) == Opens(t[k], OpenAt(t, k));
      HostIsScanned(t, n, k + 1);
    }
  }

  lemma {:induction false} PlainAuthority(input: Text, b: nat, k: nat)
    requires '@' !in input && 0 < b <= k <= |input|
    ensures AuthorityLoses(input, k, input[b..k], false, false) == HostThenPort(input, b, false, false)
    decreases |input| - k
  {
    if k < |input| && !EndsAuth(input[k]) {
      assert input[b..k] + [input[k]] == input[b..k + 1];
      PlainAuthority(input, b, k + 1);
    }
  }

  lemma {:induction false} SchemeIsScanned(input: Text, a: nat, k: nat, t: Text)
    requires 0 < k <= a < |input| && IsScheme(input[..a]) && input[a] == ':'
    ensures SchemeLoses(input, k, t) <==> t + Emitted(Lowered, input, k, a) != "file" && SlashesThenLoses(input, a + 1)
    decreases a - k
  {
    if k == a {
      assert t + [] == t;
    } else {
      assert input[..a][k] == input[k];
      SchemeIsScanned(input, a, k + 1, t + [Lower(input[k])]);
      Regroup(t, [Lower(input[k])], Emitted(Lowered, input, k + 1, a));
    }
  }

  lemma {:induction false} SchemeIsMissing(input: Text, k: nat, t: Text)
    requires 0 < k <= |input| && IsScheme(input[..k]) && !HasScheme(input)
    ensures SchemeLoses(input, k, t) <==> |input| == 1
    decreases |input| - k
  {
    if k < |input| && IsSchemeChar(input[k]) {
      assert input[..k + 1] == input[..k] + [input[k]];
      SchemeIsMissing(input, k + 1, t + [Lower(input[k])]);
    }
  }

  lemma LosesWithScheme(input: Text, a: nat)
    requires 0 < a < |input| && IsScheme(input[..a]) && input[a] == ':'
    ensures Loses(input) <==> EmitAll(Lowered, input[..a]) != "file" && SlashesThenLoses(input, a + 1)
  {
    assert input[..a][0] == input[0];
    SchemeIsScanned(input, a, 1, [Lower(input[0])]);
    MappedAlike(Emitter(Lowered), input[..a], 0, a, input, 0);
  }

  lemma PlainHost(input: Text, b: nat) returns (n: nat)
    requires '@' !in input && 0 < b <= |input| && AuthorityLoses(input, b, [], false, false)
    ensures HostAndHighPort(input[b..], n)
  {
    assert input[b..b] == [];
    PlainAuthority(input, b, b);
    HostShifted(input, b, 0, false, false);
    n := HostIsFound(input[b..], 0);
  }

  lemma PlainHostLoses(input: Text, b: nat, n: nat)
    requires '@' !in input && 0 < b <= |input| && HostAndHighPort(input[b..], n)
    ensures AuthorityLoses(input, b, [], false, false)
  {
    assert input[b..b] == [];
    PlainAuthority(input, b, b);
    HostShifted(input, b, 0, false, false);
    HostIsScanned(input[b..], n, 0);
  }

  lemma HighPortLoses(input: Text, a: nat, n: nat)
    requires '@' !in input && HasHighPort(input, a, n)
    ensures Loses(input)
  {
    LosesWithScheme(input, a);
    PlainHostLoses(input, SkipSlashes(input, a + 1), n);
  }

  lemma LosesByHighPort(input: Text) returns (a: nat, n: nat)
    requires '@' !in input && HasScheme(input) && Loses(input)
    ensures HasHighPort(input, a, n)
  {
    a :| 0 < a < |input| && input[a] == ':' && IsScheme(input[..a]);
    LosesWithScheme(input, a);
    n := PlainHost(input, SkipSlashes(input, a + 1));
  }

  lemma LosesWithoutScheme(input: Text)
    requires !HasScheme(input)
    ensures Loses(input) <==> |input| == 1 && IsAlpha(input[0])
  {
    if input != [] && IsAlpha(input[0]) {
      assert input[..1] == [input[0]];
      SchemeIsMissing(input, 1, [Lower(input[0])]);
    }
  }

  /** Without an `@` the failures that are not reported are those on a single letter and on a port
      above 65535 at the very end. */
  lemma PlainSwallowedExactlyWhen(input: Text)
    requires '@' !in input
    ensures Swallowed(Run(input, START)) <==>
            (|input| == 1 && IsAlpha(input[0])) || exists a, n :: HasHighPort(input, a, n)
  {
    SwallowedExactlyWhen(input);
    if a, n :| HasHighPort(input, a, n) {
      HighPortLoses(input, a, n);
    } else if HasScheme(input) {
      if Loses(input) {
        var a, n := LosesByHighPort(input);
      }
    } else {
      LosesWithoutScheme(input);
    }
  }

  /** An `@` with nothing but a colon before it and nothing behind it is accepted without a host. */
  lemma NothingBehindAtSign(input: Text, b: nat)
    requires 0 < b <= |input| && (input[b..] == "@" || input[b..] == ":@")
    ensures AuthorityLoses(input, b, [], false, false)
  {
    assert input[b] == input[b..][0];
    if input[b] == ':' {
      assert input[b + 1] == input[b..][1];
      assert [] + [':'] == ":";
      assert AuthorityLoses(input, b + 1, ":", false, false);
    }
  }

  lemma LetterIsSwallowed()
    ensures Swallowed(Run("a", START))
  {
    PlainSwallowedExactlyWhen("a");
  }

  lemma HighPortIsSwallowed()
    ensures Swallowed(Run("h:x:65536", START))
  {
    var input, port := "h:x:65536", "65536";
    assert Decimal(port, 1) == 6 && Decimal(port, 2) == 65 && Decimal(port, 3) == 655 && Decimal(port, 4) == 6553;
    assert input[..1] == "h" && input[2..] == "x:65536" && "x:65536"[..1] == "x" && "x:65536"[2..] == port;
    assert HasHighPort(input, 1, 1);
    PlainSwallowedExactlyWhen(input);
  }

  lemma EmptyHostIsSwallowed()
    ensures Swallowed(Run("h:@", START))
  {
    assert "h:@"[2..] == "@" && "h:@"[..1] == "h";
    NothingBehindAtSign("h:@", 2);
    LosesWithScheme("h:@", 1);
    SwallowedExactlyWhen("h:@");
  }

  lemma UserIsPending(input: Text)
    requires input == "h:a@"
    ensures !AuthorityLoses(input, 2, [], false, false)
  {
    assert [] + ['a'] == "a" && "a"[1..] == [] && Userinfo("a", false) == "a";
    assert !HostThenPort(input, 4, true, false);
    assert !AuthorityLoses(input, 4, "a", true, false);
    assert !AuthorityLoses(input, 3, "a", false, false);
  }

  /** With a letter before the `@` the run does not end in the failure state: the letter is pending
      again, and the `@` is taken for a host without a port. */
  lemma UserIsNotSwallowed()
    ensures !Swallowed(Run("h:a@", START))
  {
    var input := "h:a@";
    assert input[..1] == "h";
    UserIsPending(input);
    LosesWithScheme(input, 1);
    SwallowedExactlyWhen(input);
  }
}
