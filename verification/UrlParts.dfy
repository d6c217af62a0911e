/** What the URL parser makes of a URL put together from its parts, and which inputs it refuses
    for want of a scheme. */
module UrlParts {
  import opened UrlParser
  import opened UrlTexts
  import opened UrlPlaces
  import opened UrlLayout
  import opened UrlLoop

  // ---------- modes that absorb their part character by character ----------

  function How(mode: Mode): Emission
  {
    if mode.Scheme? then Lowered
    else if mode.Query? then Escaped(SpecQuerySet)
    else if mode.Fragment? then Escaped(FragmentSet)
    else Verbatim
  }

  predicate Absorbs(mode: Mode, c: char)
  {
    || (mode.Scheme? && IsSchemeChar(c))
    || (mode.Auth? && !EndsAuth(c) && c != '@')
    || (mode.FileHost? && !EndsAuth(c))
    || (mode.Port? && IsDigit(c))
    || (mode.Query? && c != '#')
    || mode.Fragment?
  }

  lemma AbsorbTurn(input: Text, p: Parser)
    requires Sane(p) && -1 <= p.pos < |input| - 1 && Absorbs(p.mode, input[p.pos + 1])
    requires p.mode.Query? ==> p.special
    ensures Leads(input, p, p.(buf := p.buf + Emit(How(p.mode), input[p.pos + 1]), pos := p.pos + 1))
  {
    var p' := p.(buf := p.buf + Emit(How(p.mode), input[p.pos + 1]), pos := p.pos + 1);
    OneTurn(input, p, p');
  }

  lemma AbsorbOne(input: Text, p: Parser, end: nat, how: Emission, t: Text) returns (one: Text, rest: Text)
    requires Sane(p) && -1 <= p.pos < end - 1 < |input| && how == How(p.mode) && Absorbs(p.mode, input[p.pos + 1])
    requires p.mode.Query? ==> p.special
    requires Spells(how, input, p.pos + 1, end, t)
    ensures t == one + rest && Spells(how, input, p.pos + 2, end, rest)
    ensures Leads(input, p, p.(buf := p.buf + one, pos := p.pos + 1))
  {
    AbsorbTurn(input, p);
    one := Emit(how, input[p.pos + 1]);
    rest := SpellsOne(how, input, p.pos + 1, end, t);
  }

  lemma {:induction false} AbsorbInto(input: Text, p: Parser, end: nat, how: Emission, t: Text, buf: Text)
    requires Sane(p) && -1 <= p.pos < end <= |input| && how == How(p.mode)
    requires forall i :: p.pos < i < end ==> Absorbs(p.mode, input[i])
    requires p.mode.Query? ==> p.special
    requires Spells(how, input, p.pos + 1, end, t) && buf == p.buf + t
    ensures Leads(input, p, p.(buf := buf, pos := end - 1))
    decreases end - p.pos
  {
    if p.pos + 1 == end {
      SpellsNone(how, input, end, t);
      assert buf == p.buf;
      NoTurn(input, p);
      return;
    }
    var one, rest := AbsorbOne(input, p, end, how, t);
    Regroup(p.buf, one, rest);
    var p1 := p.(buf := p.buf + one, pos := p.pos + 1);
    AbsorbInto(input, p1, end, how, rest, buf);
    Then(input, p, p1, p.(buf := buf, pos := end - 1));
  }

  /** The mode absorbs its part up to `end`. */
  lemma AbsorbPart(input: Text, p: Parser, end: nat, how: Emission, t: Text)
    requires Sane(p) && -1 <= p.pos < end <= |input| && how == How(p.mode)
    requires forall i :: p.pos < i < end ==> Absorbs(p.mode, input[i])
    requires p.mode.Query? ==> p.special
    requires Spells(how, input, p.pos + 1, end, t)
    ensures Leads(input, p, p.(buf := p.buf + t, pos := end - 1))
  {
    AbsorbInto(input, p, end, how, t, p.buf + t);
  }

  // ---------- scheme and authority ----------

  lemma FirstLetterTurn(input: Text)
    requires input != [] && IsAlpha(input[0])
    ensures Leads(input, START, START.(mode := Scheme, buf := [Lower(input[0])], pos := 0))
  {
    assert [] + [Lower(input[0])] == [Lower(input[0])];
    OneTurn(input, START, START.(mode := Scheme, buf := [Lower(input[0])], pos := 0));
  }

  /** The turn on the first letter does what `Scheme` mode does with any later one. */
  lemma SchemePart(input: Text, end: nat, t: Text)
    requires 0 < end <= |input| && IsAlpha(input[0]) && forall i :: 0 <= i < end ==> IsSchemeChar(input[i])
    requires Spells(Lowered, input, 0, end, t)
    ensures Leads(input, START, START.(mode := Scheme, buf := t, pos := end - 1))
  {
    var p1 := START.(mode := Scheme, buf := [Lower(input[0])], pos := 0);
    FirstLetterTurn(input);
    var rest := SpellsOne(Lowered, input, 0, end, t);
    AbsorbPart(input, p1, end, Lowered, rest);
    Then(input, START, p1, START.(mode := Scheme, buf := t, pos := end - 1));
  }

  lemma ColonTurn(input: Text, p: Parser)
    requires Sane(p) && p.mode == Scheme && -1 <= p.pos < |input| - 1 && input[p.pos + 1] == ':' && p.buf != "file"
    ensures Leads(input, p, RecordScheme(p).(mode := SpecAuthSlash, pos := p.pos + 1))
  {
    var p' := RecordScheme(p).(mode := SpecAuthSlash, pos := p.pos + 1);
    assert TextAt(p', p'.url.scheme) == p.buf;
    OneTurn(input, p, p');
  }

  lemma SlashesTurns(input: Text, p: Parser)
    requires Sane(p) && p.mode == SpecAuthSlash && -1 <= p.pos && p.pos + 3 < |input|
    requires input[p.pos + 1] == '/' && input[p.pos + 2] == '/' && !EndsAuth(input[p.pos + 3])
    ensures Leads(input, p, p.(mode := Auth, pos := p.pos + 2))
  {
    var p1 := p.(mode := SpecAuthIgnoreSlash, pos := p.pos + 2);
    OneTurn(input, p, p1);
    var p2 := p.(mode := Auth, pos := p.pos + 2);
    OneTurn(input, p1, p2);
    Then(input, p, p1, p2);
  }

  /** Nothing is pending and no `@` was seen. */
  predicate Fresh(p: Parser) { Settled(p) && !p.atSignSeen }

  /** Nothing is pending and no bracket is open. */
  predicate Settled(p: Parser) { p.sliceStart == |p.buf| && p.special && !p.insideBrackets }

  lemma JumpTurn(input: Text, p: Parser, t: Text)
    requires Fresh(p) && p.mode == Auth && 0 <= p.pos && p.pos + |t| < |input| && AuthorityEnds(input, p.pos + |t| + 1)
    ensures Leads(input, p.(buf := p.buf + t, pos := p.pos + |t|), p.(mode := Host))
  {
    var p1, p2 := p.(buf := p.buf + t, pos := p.pos + |t|), p.(mode := Host);
    assert p1.buf[..p1.sliceStart] == p.buf;
    OneTurn(input, p1, p2);
  }

  /** The parser reads the authority once without keeping it, and jumps back to read the host. */
  lemma AuthorityIsReread(input: Text, p: Parser, end: nat)
    requires Fresh(p) && p.mode == Auth && 0 <= p.pos < end && AuthorityEnds(input, end)
    requires forall i :: p.pos < i < end ==> !EndsAuth(input[i]) && input[i] != '@'
    ensures Leads(input, p, p.(mode := Host))
  {
    var t := Emitted(Verbatim, input, p.pos + 1, end);
    VerbatimLength(input, p.pos + 1, end);
    AbsorbPart(input, p, end, Verbatim, t);
    JumpTurn(input, p, t);
    Then(input, p, p.(buf := p.buf + t, pos := end - 1), p.(mode := Host));
  }

  lemma HostTurn(input: Text, p: Parser)
    requires Sane(p) && p.mode == Host && -1 <= p.pos < |input| - 1
    requires var c := input[p.pos + 1]; !EndsAuth(c) && (c == ':' ==> p.insideBrackets)
    ensures var c := input[p.pos + 1];
            Leads(input, p, p.(buf := p.buf + [c], pos := p.pos + 1,
                               insideBrackets := if c == '[' then true else if c == ']' then false
                                 else p.insideBrackets))
  {
    var c := input[p.pos + 1];
    var p' := p.(buf := p.buf + [c], pos := p.pos + 1,
                 insideBrackets := if c == '[' then true else if c == ']' then false else p.insideBrackets);
    OneTurn(input, p, p');
  }

  /** `p` with the first `k` characters of the host pending. */
  function HostRead(p: Parser, t: Text, k: nat): Parser
    requires k <= |t|
  {
    p.(buf := p.buf + t[..k], pos := p.pos + k, insideBrackets := OpenAt(t, k))
  }

  lemma {:induction false} HostPart(input: Text, p: Parser, t: Text, k: nat)
    requires Settled(p) && p.mode == Host && 0 <= p.pos && p.pos + 1 + |t| <= |input| && HostText(t) && k <= |t|
    requires input[p.pos + 1..p.pos + 1 + |t|] == t
    ensures Leads(input, p, HostRead(p, t, k))
    decreases k
  {
    if k == 0 {
      assert HostRead(p, t, 0) == p;
      NoTurn(input, p);
    } else {
      HostPart(input, p, t, k - 1);
      var p1 := HostRead(p, t, k - 1);
      assert input[p1.pos + 1] == t[k - 1];
      HostTurn(input, p1);
      assert p1.buf + [t[k - 1]] == p.buf + t[..k];
      Then(input, p, p1, HostRead(p, t, k));
    }
  }

  lemma HostEndTurn(input: Text, p: Parser)
    requires Sane(p) && p.mode == Host && p.special && PendingLen(p) > 0 && 0 <= p.pos < |input|
             && AuthorityEnds(input, p.pos + 1)
    ensures Leads(input, p, RecordHost(p).(mode := Path))
  {
    var p' := RecordHost(p).(mode := Path);
    OneTurn(input, p, p');
  }

  lemma HostColonTurn(input: Text, p: Parser)
    requires Sane(p) && p.mode == Host && PendingLen(p) > 0 && !p.insideBrackets && 0 <= p.pos < |input| - 1
             && input[p.pos + 1] == ':'
    ensures Leads(input, p, RecordHost(p).(mode := Port, pos := p.pos + 1))
  {
    var p' := RecordHost(p).(mode := Port, pos := p.pos + 1);
    OneTurn(input, p, p');
  }

  // ---------- port ----------

  lemma PortEndTurn(input: Text, p: Parser, t: Text)
    requires Fresh(p) && p.mode == Port && 0 <= p.pos < |input| && AuthorityEnds(input, p.pos + 1)
    requires p.pos >= |t| && IsPort(t)
    ensures Leads(input, p.(buf := p.buf + t), PortRead(p, t))
  {
    var p1 := p.(buf := p.buf + t);
    assert Pending(p1) == t;
    OneTurn(input, p1, PortRead(p, t));
  }

  /** The port's digits stay in the buffer, outside every component. */
  function PortRead(p: Parser, t: Text): Parser
  {
    if t == [] then p.(buf := p.buf + t, mode := PathStart)
    else p.(buf := p.buf + t, sliceStart := |p.buf + t|, url := p.url.(port := PortNumber(t), portNull := false),
      mode := PathStart)
  }

  lemma PathStartTurn(input: Text, p: Parser)
    requires Sane(p) && p.mode == PathStart && p.special && 0 <= p.pos < |input| && AuthorityEnds(input, p.pos + 1)
    requires p.pos + 1 < |input| ==> input[p.pos + 1] != '\\'
    ensures var slash := if p.pos + 1 < |input| && input[p.pos + 1] == '/' then 1 else 0;
            Leads(input, p, p.(mode := Path, pos := p.pos + slash))
  {
    var slash := if p.pos + 1 < |input| && input[p.pos + 1] == '/' then 1 else 0;
    var p' := p.(mode := Path, pos := p.pos + slash);
    OneTurn(input, p, p');
  }

  // ---------- path ----------

  /** The buffer of `q` extends that of `p`, which holds the scheme. */
  predicate Extends(p: Parser, q: Parser)
  {
    End(p.url.scheme) <= |p.buf| <= |q.buf| && q.url.scheme == p.url.scheme && q.buf[..|p.buf|] == p.buf
  }

  /** The scheme is `file` or not, however much is read after it. */
  ghost predicate FileOrNot(p: Parser, file: bool)
  {
    forall q {:trigger Extends(p, q)} :: Extends(p, q) ==> (IsFile(q) <==> file)
  }

  lemma StaysFileOrNot(p: Parser)
    requires End(p.url.scheme) <= |p.buf|
    ensures FileOrNot(p, IsFile(p))
  {
    forall q | Extends(p, q)
      ensures IsFile(q) <==> IsFile(p)
    {
      var lo, hi := Start(p.url.scheme), End(p.url.scheme);
      assert forall i :: lo <= i < hi ==> q.buf[i] == q.buf[..|p.buf|][i];
      assert TextAt(q, q.url.scheme) == TextAt(p, p.url.scheme);
    }
  }

  /** Nothing of the path has been read. */
  ghost predicate BeginsPath(p: Parser, file: bool)
  {
    && p.mode == Path && p.special && p.sliceStart == |p.buf| && Len(p.url.path) == 0 && End(p.url.scheme) <= |p.buf|
    && FileOrNot(p, file)
  }

  /** `p` with `t` read of the path and the first `k` characters of it recorded. */
  function PathRead(p: Parser, t: Text, k: nat, pos: int): Parser
  {
    p.(buf := p.buf + t, sliceStart := |p.buf| + k, pos := pos,
       url := p.url.(path := if k == 0 then p.url.path else Region(|p.buf|, k)))
  }

  lemma Mends(p: Parser, file: bool, t: Text, k: nat, pos: int)
    requires BeginsPath(p, file) && k <= |t|
    ensures FixDriveLetter(PathRead(p, t, k, pos)) == PathRead(p, Mended(file, t, k), k, pos)
  {
    var q := PathRead(p, t, k, pos);
    assert Extends(p, q);
    if k == 0 {
      assert Pending(q) == t;
      if file && IsDriveLetter(t) {
        assert q.buf[|q.buf| - 1 := ':'] == p.buf + [t[0], ':'];
      }
    }
  }

  lemma SlashTurn(input: Text, p: Parser, file: bool, t: Text, k: nat, pos: nat)
    requires BeginsPath(p, file) && k <= |t| && pos + 1 < |input| && (input[pos + 1] == '/' || input[pos + 1] == '\\')
    ensures Leads(input, PathRead(p, t, k, pos), PathRead(p, Mended(file, t, k) + [input[pos + 1]], |t| + 1, pos + 1))
  {
    var c, t' := input[pos + 1], Mended(file, t, k);
    Mends(p, file, t, k, pos + 1);
    SlashAdded(p, file, t', k, pos + 1, c);
    SlashStep(input, PathRead(p, t, k, pos + 1), c);
    OneTurn(input, PathRead(p, t, k, pos), PathRead(p, t' + [c], |t| + 1, pos + 1));
  }

  lemma SlashAdded(p: Parser, file: bool, t: Text, k: nat, pos: int, c: char)
    requires BeginsPath(p, file) && k <= |t|
    ensures WithSegment(Push(PathRead(p, t, k, pos), c)) == PathRead(p, t + [c], |t| + 1, pos)
  {
    Regroup(p.buf, t, [c]);
  }

  lemma SlashStep(input: Text, q: Parser, c: char)
    requires Sane(q) && q.mode == Path && q.special && Current(input, q) == Ch(c) && (c == '/' || c == '\\')
    ensures Step(input, q) == WithSegment(Push(FixDriveLetter(q), c))
  {
  }

  lemma SegmentTurn(input: Text, p: Parser, file: bool, t: Text, k: nat, pos: nat)
    requires BeginsPath(p, file) && k <= |t| && pos + 1 < |input| && !EndsAuth(input[pos + 1])
    ensures Leads(input, PathRead(p, t, k, pos), PathRead(p, t + Encoded(input[pos + 1], PathSet), k, pos + 1))
  {
    var c := input[pos + 1];
    var p1, p2 := PathRead(p, t, k, pos), PathRead(p, t + Encoded(c, PathSet), k, pos + 1);
    Regroup(p.buf, t, Encoded(c, PathSet));
    OneTurn(input, p1, p2);
  }

  /** Nothing is mended on the way: the scheme is not `file`, or a segment has been recorded, or none
      ends here. */
  predicate Smooth(file: bool, k: nat, c: char) { file && k == 0 ==> !EndsAuth(c) }

  lemma PathTurn(input: Text, p: Parser, file: bool, t: Text, k: nat, pos: nat, t': Text) returns (k': nat)
    requires BeginsPath(p, file) && k <= |t| && pos + 1 < |input| && input[pos + 1] != '?' && input[pos + 1] != '#'
    requires t' == t + Emit(Escaped(PathSet), input[pos + 1]) && Smooth(file, k, input[pos + 1])
    ensures k' <= |t'| && (k > 0 ==> k' > 0) && (file && k == 0 ==> k' == 0)
    ensures Leads(input, PathRead(p, t, k, pos), PathRead(p, t', k', pos + 1))
  {
    if EndsAuth(input[pos + 1]) {
      SlashTurn(input, p, file, t, k, pos);
      return |t| + 1;
    }
    SegmentTurn(input, p, file, t, k, pos);
    return k;
  }

  lemma PathOne(input: Text, p: Parser, file: bool, t: Text, k: nat, pos: nat, end: nat, more: Text)
      returns (k': nat, one: Text, rest: Text)
    requires BeginsPath(p, file) && k <= |t| && pos + 1 < end <= |input| && input[pos + 1] != '?'
             && input[pos + 1] != '#'
    requires Spells(Escaped(PathSet), input, pos + 1, end, more) && Smooth(file, k, input[pos + 1])
    ensures more == one + rest && Spells(Escaped(PathSet), input, pos + 2, end, rest)
    ensures k' <= |t + one| && (k > 0 ==> k' > 0) && (file && k == 0 ==> k' == 0)
    ensures Leads(input, PathRead(p, t, k, pos), PathRead(p, t + one, k', pos + 1))
  {
    one := Emit(Escaped(PathSet), input[pos + 1]);
    rest := SpellsOne(Escaped(PathSet), input, pos + 1, end, more);
    k' := PathTurn(input, p, file, t, k, pos, t + one);
  }

  /** From `pos` to `end` there is only path, and nothing is mended. */
  predicate OnlyPath(input: Text, file: bool, k: nat, pos: int, end: int)
  {
    && -1 <= pos < end <= |input|
    && forall i :: pos < i < end ==> input[i] != '?' && input[i] != '#' && Smooth(file, k, input[i])
  }

  lemma StillOnlyPath(input: Text, file: bool, k: nat, k': nat, pos: int, end: int)
    requires OnlyPath(input, file, k, pos, end) && pos + 1 < end && (k > 0 ==> k' > 0)
    ensures OnlyPath(input, file, k', pos + 1, end)
  {
    assert forall i :: pos < i < end ==> Smooth(file, k, input[i]) ==> Smooth(file, k', input[i]);
  }

  lemma {:induction false} PathPart(input: Text, p: Parser, file: bool, t: Text, k: nat, pos: nat, end: nat,
      more: Text, t': Text)
      returns (k': nat)
    requires BeginsPath(p, file) && k <= |t| && OnlyPath(input, file, k, pos, end)
    requires Spells(Escaped(PathSet), input, pos + 1, end, more) && t' == t + more
    ensures k' <= |t'| && (k > 0 ==> k' > 0) && (file && k == 0 ==> k' == 0)
    ensures Leads(input, PathRead(p, t, k, pos), PathRead(p, t', k', end - 1))
    decreases end - pos
  {
    if pos + 1 == end {
      SpellsNone(Escaped(PathSet), input, end, more);
      assert t' == t;
      NoTurn(input, PathRead(p, t, k, pos));
      return k;
    }
    assert input[pos + 1] != '?';
    var k1, one, rest := PathOne(input, p, file, t, k, pos, end, more);
    Regroup(t, one, rest);
    StillOnlyPath(input, file, k, k1, pos, end);
    k' := PathPart(input, p, file, t + one, k1, pos + 1, end, rest, t');
    Then(input, PathRead(p, t, k, pos), PathRead(p, t + one, k1, pos + 1), PathRead(p, t', k', end - 1));
  }

  lemma NothingRead(p: Parser, file: bool)
    requires BeginsPath(p, file)
    ensures PathRead(p, [], 0, p.pos) == p
  {
    assert p.buf + [] == p.buf;
  }

  /** The path up to `end` has been read, and will be recorded as `t` when it ends there. */
  ghost predicate PathReady(input: Text, p: Parser, file: bool, end: nat, t: Text)
  {
    exists t0, k :: PathReadAs(input, p, file, end, t, t0, k)
  }

  ghost predicate PathReadAs(input: Text, p: Parser, file: bool, end: nat, t: Text, t0: Text, k: nat)
  {
    k <= |t0| && Mended(file, t0, k) == t && Leads(input, p, PathRead(p, t0, k, end - 1))
  }

  lemma PathText(input: Text, p: Parser, end: nat, t: Text)
    requires BeginsPath(p, false) && PathAt(input, p.pos, end, t)
    ensures PathReady(input, p, false, end, t)
  {
    NothingRead(p, false);
    assert [] + t == t;
    var k := PathPart(input, p, false, [], 0, p.pos, end, t, t);
    assert PathReadAs(input, p, false, end, t, t, k);
  }

  // ---------- after the path ----------

  function PathDone(p: Parser, t: Text, pos: int): Parser
  {
    p.(buf := p.buf + t, sliceStart := |p.buf| + |t|, pos := pos, url := p.url.(path := Region(|p.buf|, |t|)))
  }

  function QueryDone(p: Parser, t: Text, pos: int): Parser
  {
    p.(buf := p.buf + t, sliceStart := |p.buf| + |t|, pos := pos, url := WithQuery(p.url, Region(|p.buf|, |t|)))
  }

  function FragmentDone(p: Parser, t: Text, pos: int): Parser
  {
    p.(buf := p.buf + t, sliceStart := |p.buf| + |t|, pos := pos, url := WithFragment(p.url, Region(|p.buf|, |t|)))
  }

  function OpenQuery(p: Parser): Parser { p.(url := WithQuery(p.url, Nowhere), mode := Query) }

  function OpenFragment(p: Parser): Parser { p.(url := WithFragment(p.url, Nowhere), mode := Fragment) }

  lemma FragmentLast(input: Text, p: Parser, t: Text)
    requires p.mode == Fragment && p.sliceStart == |p.buf| && input != []
    ensures Ends(input, p.(buf := p.buf + t, pos := |input| - 1), FragmentDone(p, t, |input|))
  {
    LastTurn(input, p.(buf := p.buf + t, pos := |input| - 1), FragmentDone(p, t, |input|));
  }

  lemma FragmentTail(input: Text, p: Parser, t: Text)
    requires p.mode == Fragment && p.sliceStart == |p.buf| && 0 <= p.pos < |input|
    requires Spells(Escaped(FragmentSet), input, p.pos + 1, |input|, t)
    ensures Ends(input, p, FragmentDone(p, t, |input|))
  {
    AbsorbPart(input, p, |input|, Escaped(FragmentSet), t);
    FragmentLast(input, p, t);
    ThenEnds(input, p, p.(buf := p.buf + t, pos := |input| - 1), FragmentDone(p, t, |input|));
  }

  lemma QueryMarkTurn(input: Text, p: Parser, t: Text, pos: nat)
    requires p.mode == Query && p.sliceStart == |p.buf| && pos + 1 < |input| && input[pos + 1] == '#'
    ensures Leads(input, p.(buf := p.buf + t, pos := pos), OpenFragment(QueryDone(p, t, pos + 1)))
  {
    var p1, p2 := p.(buf := p.buf + t, pos := pos), OpenFragment(QueryDone(p, t, pos + 1));
    OneTurn(input, p1, p2);
  }

  /** What a query and a fragment, already escaped, leave behind. */
  function QueryResult(p: Parser, t: Text, fragment: Opt, end: int, n: int): Parser
  {
    if fragment.Absent? then QueryDone(p, t, n) else FragmentDone(OpenFragment(QueryDone(p, t, end)), fragment.text, n)
  }

  lemma QueryLast(input: Text, p: Parser, t: Text)
    requires p.mode == Query && p.sliceStart == |p.buf| && input != []
    ensures Ends(input, p.(buf := p.buf + t, pos := |input| - 1), QueryDone(p, t, |input|))
  {
    LastTurn(input, p.(buf := p.buf + t, pos := |input| - 1), QueryDone(p, t, |input|));
  }

  lemma QueryThenFragment(input: Text, p: Parser, t: Text, pos: nat, fragment: Text)
    requires p.mode == Query && p.sliceStart == |p.buf| && pos + 1 < |input| && input[pos + 1] == '#'
    requires Spells(Escaped(FragmentSet), input, pos + 2, |input|, fragment)
    ensures Ends(input, p.(buf := p.buf + t, pos := pos),
            FragmentDone(OpenFragment(QueryDone(p, t, pos + 1)), fragment, |input|))
  {
    QueryMarkTurn(input, p, t, pos);
    var p1 := OpenFragment(QueryDone(p, t, pos + 1));
    FragmentTail(input, p1, fragment);
    ThenEnds(input, p.(buf := p.buf + t, pos := pos), p1, FragmentDone(p1, fragment, |input|));
  }

  lemma QueryTail(input: Text, p: Parser, end: nat, t: Text, fragment: Opt)
    requires p.mode == Query && p.special && p.sliceStart == |p.buf| && 0 <= p.pos < end <= |input|
             && FragmentAt(input, end, fragment)
    requires forall i :: p.pos < i < end ==> input[i] != '#'
    requires Spells(Escaped(SpecQuerySet), input, p.pos + 1, end, t)
    ensures Ends(input, p, QueryResult(p, t, fragment, end, |input|))
  {
    AbsorbPart(input, p, end, Escaped(SpecQuerySet), t);
    var q := p.(buf := p.buf + t, pos := end - 1);
    if fragment.Absent? {
      QueryLast(input, p, t);
      ThenEnds(input, p, q, QueryDone(p, t, |input|));
      return;
    }
    QueryThenFragment(input, p, t, end - 1, fragment.text);
    ThenEnds(input, p, q, FragmentDone(OpenFragment(QueryDone(p, t, end)), fragment.text, |input|));
  }

  lemma SegmentDone(p: Parser, file: bool, t: Text, k: nat, pos: int)
    requires BeginsPath(p, file) && k <= |t|
    ensures WithSegment(PathRead(p, t, k, pos)) == PathDone(p, t, pos)
  {
  }

  lemma MarkStep(input: Text, q: Parser, c: char)
    requires Sane(q) && q.mode == Path && Current(input, q) == Ch(c) && (c == '?' || c == '#')
    ensures var p := WithSegment(FixDriveLetter(q));
            Step(input, q) == if c == '?' then OpenQuery(p) else OpenFragment(p)
  {
  }

  lemma EofStep(input: Text, q: Parser)
    requires Sane(q) && q.mode == Path && Current(input, q) == Eof
    ensures Step(input, q) == WithSegment(FixDriveLetter(q))
  {
  }

  lemma PathEnded(p: Parser, file: bool, t: Text, k: nat, pos: int, t': Text)
    requires BeginsPath(p, file) && k <= |t| && t' == Mended(file, t, k)
    ensures WithSegment(FixDriveLetter(PathRead(p, t, k, pos))) == PathDone(p, t', pos)
  {
    Mends(p, file, t, k, pos);
    SegmentDone(p, file, t', k, pos);
  }

  lemma PathLast(input: Text, p: Parser, file: bool, t: Text, k: nat, t': Text)
    requires BeginsPath(p, file) && k <= |t| && input != [] && t' == Mended(file, t, k)
    ensures Ends(input, PathRead(p, t, k, |input| - 1), PathDone(p, t', |input|))
  {
    PathEnded(p, file, t, k, |input|, t');
    EofStep(input, PathRead(p, t, k, |input|));
    LastTurn(input, PathRead(p, t, k, |input| - 1), PathDone(p, t', |input|));
  }

  lemma MarkTurn(input: Text, q: Parser, c: char, p: Parser)
    requires Sane(q) && q.mode == Path && 0 <= q.pos < |input| - 1 && input[q.pos + 1] == c && (c == '?' || c == '#')
    requires p == WithSegment(FixDriveLetter(q.(pos := q.pos + 1)))
    ensures Leads(input, q, if c == '?' then OpenQuery(p) else OpenFragment(p))
  {
    MarkStep(input, q.(pos := q.pos + 1), c);
    OneTurn(input, q, if c == '?' then OpenQuery(p) else OpenFragment(p));
  }

  lemma PathMarkTurn(input: Text, p: Parser, file: bool, t: Text, k: nat, pos: nat, t': Text, c: char)
    requires BeginsPath(p, file) && k <= |t| && t' == Mended(file, t, k)
    requires pos + 1 < |input| && input[pos + 1] == c && (c == '?' || c == '#')
    ensures var q := PathDone(p, t', pos + 1);
            Leads(input, PathRead(p, t, k, pos), if c == '?' then OpenQuery(q) else OpenFragment(q))
  {
    PathEnded(p, file, t, k, pos + 1, t');
    MarkTurn(input, PathRead(p, t, k, pos), c, PathDone(p, t', pos + 1));
  }

  /** What a path, a query and a fragment, already escaped, leave behind. */
  function PathResult(p: Parser, t: Text, query: Opt, fragment: Opt, end: int, end': int, n: int): Parser
  {
    if query.Given? then QueryResult(OpenQuery(PathDone(p, t, end)), query.text, fragment, end', n)
    else if fragment.Given? then FragmentDone(OpenFragment(PathDone(p, t, end)), fragment.text, n)
    else PathDone(p, t, n)
  }

  lemma PathToQuery(input: Text, p: Parser, file: bool, end: nat, t: Text)
    requires BeginsPath(p, file) && PathReady(input, p, file, end, t) && 0 < end < |input| && input[end] == '?'
    ensures Leads(input, p, OpenQuery(PathDone(p, t, end)))
  {
    var t0, k :| PathReadAs(input, p, file, end, t, t0, k);
    PathMarkTurn(input, p, file, t0, k, end - 1, t, '?');
    Then(input, p, PathRead(p, t0, k, end - 1), OpenQuery(PathDone(p, t, end)));
  }

  lemma PathToFragment(input: Text, p: Parser, file: bool, end: nat, t: Text)
    requires BeginsPath(p, file) && PathReady(input, p, file, end, t) && 0 < end < |input| && input[end] == '#'
    ensures Leads(input, p, OpenFragment(PathDone(p, t, end)))
  {
    var t0, k :| PathReadAs(input, p, file, end, t, t0, k);
    PathMarkTurn(input, p, file, t0, k, end - 1, t, '#');
    Then(input, p, PathRead(p, t0, k, end - 1), OpenFragment(PathDone(p, t, end)));
  }

  lemma PathThenQuery(input: Text, p: Parser, file: bool, end: nat, end': nat, t: Text, query: Text, fragment: Opt)
    requires BeginsPath(p, file) && 0 < end && PathReady(input, p, file, end, t)
    requires QueryAt(input, end, end', Given(query)) && FragmentAt(input, end', fragment)
    ensures Ends(input, p, PathResult(p, t, Given(query), fragment, end, end', |input|))
  {
    PathToQuery(input, p, file, end, t);
    var p1 := OpenQuery(PathDone(p, t, end));
    QueryTail(input, p1, end', query, fragment);
    ThenEnds(input, p, p1, QueryResult(p1, query, fragment, end', |input|));
  }

  lemma PathThenFragment(input: Text, p: Parser, file: bool, end: nat, t: Text, fragment: Text)
    requires BeginsPath(p, file) && 0 < end && PathReady(input, p, file, end, t)
             && FragmentAt(input, end, Given(fragment))
    ensures Ends(input, p, PathResult(p, t, Absent, Given(fragment), end, end, |input|))
  {
    PathToFragment(input, p, file, end, t);
    var p1 := OpenFragment(PathDone(p, t, end));
    FragmentTail(input, p1, fragment);
    ThenEnds(input, p, p1, FragmentDone(p1, fragment, |input|));
  }

  lemma PathAlone(input: Text, p: Parser, file: bool, t: Text)
    requires BeginsPath(p, file) && input != [] && PathReady(input, p, file, |input|, t)
    ensures Ends(input, p, PathDone(p, t, |input|))
  {
    var t0, k :| PathReadAs(input, p, file, |input|, t, t0, k);
    PathLast(input, p, file, t0, k, t);
    ThenEnds(input, p, PathRead(p, t0, k, |input| - 1), PathDone(p, t, |input|));
  }

  lemma PathTail(input: Text, p: Parser, file: bool, end: nat, end': nat, t: Text, query: Opt, fragment: Opt)
    requires BeginsPath(p, file) && 0 < end && PathReady(input, p, file, end, t)
    requires QueryAt(input, end, end', query) && FragmentAt(input, end', fragment)
    ensures Ends(input, p, PathResult(p, t, query, fragment, end, end', |input|))
  {
    if query.Given? {
      PathThenQuery(input, p, file, end, end', t, query.text, fragment);
    } else if fragment.Given? {
      PathThenFragment(input, p, file, end, t, fragment.text);
    } else {
      PathAlone(input, p, file, t);
    }
  }

  // ---------- from the start to the path ----------

  /** The parser about to read the host, after a scheme written as `scheme`. */
  function AtHost(scheme: Text, pos: int): Parser
  {
    Parser(NO_URL.(scheme := Region(0, |scheme|)), scheme, |scheme|, pos, Host, false, false, false, true)
  }

  /** The parser about to read the path. */
  function AtPath(scheme: Text, host: Text, port: Opt, pos: int): Parser
  {
    var buf := scheme + host + (if port.Given? then port.text else []);
    var url := NO_URL.(scheme := Region(0, |scheme|), host := Region(|scheme|, |host|), hostNull := false);
    Parser(if HasPort(port) then url.(port := PortNumber(port.text), portNull := false) else url,
           buf, |buf|, pos, Path, false, Bracketed(host), false, true)
  }

  predicate HasPort(port: Opt) { port.Given? && port.text != [] }

  lemma ColonToSlashes(input: Text, a: nat, scheme: Text)
    requires 0 < a < |input| && input[a] == ':' && scheme != "file"
    ensures Leads(input, START.(mode := Scheme, buf := scheme, pos := a - 1), AtHost(scheme, a).(mode := SpecAuthSlash))
  {
    var p := START.(mode := Scheme, buf := scheme, pos := a - 1);
    ColonTurn(input, p);
    assert RecordScheme(p).(mode := SpecAuthSlash, pos := a) == AtHost(scheme, a).(mode := SpecAuthSlash);
  }

  lemma ToAuthority(input: Text, a: nat, scheme: Text)
    requires SchemeAt(input, a) && Spells(Lowered, input, 0, a, scheme) && scheme != "file"
    ensures Leads(input, START, AtHost(scheme, a + 2).(mode := Auth))
  {
    SchemePart(input, a, scheme);
    ColonToSlashes(input, a, scheme);
    var p1 := AtHost(scheme, a).(mode := SpecAuthSlash);
    Then(input, START, START.(mode := Scheme, buf := scheme, pos := a - 1), p1);
    SlashesTurns(input, p1);
    Then(input, START, p1, AtHost(scheme, a + 2).(mode := Auth));
  }

  lemma ThroughHost(input: Text, scheme: Text, host: Text, b: nat, end: nat)
    requires HostAt(input, host, b, end)
    ensures Leads(input, AtHost(scheme, b - 1).(mode := Auth), HostRead(AtHost(scheme, b - 1), host, |host|))
  {
    var p := AtHost(scheme, b - 1).(mode := Auth);
    AuthorityIsReread(input, p, end);
    HostPart(input, AtHost(scheme, b - 1), host, |host|);
    Then(input, p, AtHost(scheme, b - 1), HostRead(AtHost(scheme, b - 1), host, |host|));
  }

  lemma HostToPath(input: Text, scheme: Text, host: Text, b: nat)
    requires 0 < b && host != [] && AuthorityEnds(input, b + |host|)
    ensures Leads(input, HostRead(AtHost(scheme, b - 1), host, |host|), AtPath(scheme, host, Absent, b + |host| - 1))
  {
    var p := HostRead(AtHost(scheme, b - 1), host, |host|);
    assert host[..|host|] == host && scheme + host + [] == scheme + host;
    HostEndTurn(input, p);
    assert RecordHost(p).(mode := Path) == AtPath(scheme, host, Absent, b + |host| - 1);
  }

  lemma HostToPort(input: Text, scheme: Text, host: Text, b: nat)
    requires 0 < b && host != [] && b + |host| < |input| && input[b + |host|] == ':' && !Bracketed(host)
    ensures Leads(input, HostRead(AtHost(scheme, b - 1), host, |host|),
            AtPath(scheme, host, Absent, b + |host|).(mode := Port))
  {
    var p := HostRead(AtHost(scheme, b - 1), host, |host|);
    assert host[..|host|] == host && scheme + host + [] == scheme + host;
    HostColonTurn(input, p);
    assert RecordHost(p).(mode := Port, pos := p.pos + 1) == AtPath(scheme, host, Absent, b + |host|).(mode := Port);
  }

  lemma PortToPath(input: Text, scheme: Text, host: Text, port: Text, pos: nat, end: nat)
    requires 0 < pos && pos + 1 + |port| == end && AuthorityEnds(input, end) && IsPort(port) && !Bracketed(host)
    requires end < |input| ==> input[end] != '\\'
    ensures var p := AtPath(scheme, host, Absent, end - 1).(mode := Port);
            Leads(input, p.(buf := p.buf + port), AtPath(scheme, host, Given(port), PathFrom(input, true, end) - 1))
  {
    var p := AtPath(scheme, host, Absent, end - 1).(mode := Port);
    PortEndTurn(input, p, port);
    assert scheme + host + [] == scheme + host;
    assert PortRead(p, port) == AtPath(scheme, host, Given(port), end - 1).(mode := PathStart);
    PathStartTurn(input, PortRead(p, port));
    Then(input, p.(buf := p.buf + port), PortRead(p, port),
         AtPath(scheme, host, Given(port), PathFrom(input, true, end) - 1));
  }

  lemma ThroughPort(input: Text, scheme: Text, host: Text, port: Text, pos: nat, end: nat)
    requires 0 < pos && !Bracketed(host) && PortAt(input, pos, end, port)
    ensures Leads(input, AtPath(scheme, host, Absent, pos).(mode := Port),
                  AtPath(scheme, host, Given(port), PathFrom(input, true, end) - 1))
  {
    var p := AtPath(scheme, host, Absent, pos).(mode := Port);
    AbsorbPart(input, p, end, Verbatim, port);
    PortToPath(input, scheme, host, port, pos, end);
    Then(input, p, p.(buf := p.buf + port, pos := end - 1),
         AtPath(scheme, host, Given(port), PathFrom(input, true, end) - 1));
  }

  // ---------- the whole URL ----------

  /** From the start to the host that has just been read. */
  lemma ReachHost(input: Text, scheme: Text, host: Text, a: nat, end: nat)
    requires SchemeAt(input, a) && Spells(Lowered, input, 0, a, scheme) && scheme != "file"
             && HostAt(input, host, a + 3, end)
    ensures Leads(input, START, HostRead(AtHost(scheme, a + 2), host, |host|))
  {
    ToAuthority(input, a, scheme);
    ThroughHost(input, scheme, host, a + 3, end);
    Then(input, START, AtHost(scheme, a + 2).(mode := Auth), HostRead(AtHost(scheme, a + 2), host, |host|));
  }

  lemma HostThroughPort(input: Text, scheme: Text, host: Text, port: Text, b: nat, end: nat)
    requires 0 < b && host != [] && !Bracketed(host) && PortAt(input, b + |host|, end, port)
    ensures Leads(input, HostRead(AtHost(scheme, b - 1), host, |host|),
                  AtPath(scheme, host, Given(port), PathFrom(input, true, end) - 1))
  {
    HostToPort(input, scheme, host, b);
    ThroughPort(input, scheme, host, port, b + |host|, end);
    Then(input, HostRead(AtHost(scheme, b - 1), host, |host|), AtPath(scheme, host, Absent, b + |host|).(mode := Port),
         AtPath(scheme, host, Given(port), PathFrom(input, true, end) - 1));
  }

  /** From the host to the path. */
  lemma HostReachesPath(input: Text, scheme: Text, host: Text, port: Opt, b: nat, end: nat)
    requires 0 < b && host != [] && HostEndsAt(input, host, port, b + |host|, end)
    ensures Leads(input, HostRead(AtHost(scheme, b - 1), host, |host|),
            AtPath(scheme, host, port, PathFrom(input, port.Given?, end) - 1))
  {
    match port {
      case Absent => HostToPath(input, scheme, host, b);
      case Given(digits) => HostThroughPort(input, scheme, host, digits, b, end);
    }
  }

  lemma PathCanBegin(scheme: Text, host: Text, port: Opt, pos: int)
    requires scheme != "file"
    ensures BeginsPath(AtPath(scheme, host, port, pos), false)
  {
    var p := AtPath(scheme, host, port, pos);
    assert TextAt(p, p.url.scheme) == scheme;
    StaysFileOrNot(p);
  }

  /** Text behind the old buffer is the last region; regions of the old buffer keep their text. */
  lemma Appended(p: Parser, t: Text, q: Parser)
    requires q.buf == p.buf + t
    ensures TextAt(q, Region(|p.buf|, |t|)) == t
    ensures forall r {:trigger TextAt(q, r)} :: End(r) <= |p.buf| ==> TextAt(q, r) == TextAt(p, r)
  {
  }

  /** The scheme and the host have been recorded, and nothing behind them. */
  predicate Begun(p: Parser, scheme: Text, host: Text)
  {
    && TextAt(p, p.url.scheme) == scheme && TextAt(p, p.url.host) == host && !p.url.hostNull
    && End(p.url.scheme) <= |p.buf| && End(p.url.host) <= |p.buf|
    && p.url.query == Nowhere && p.url.queryNull && p.url.fragment == Nowhere && p.url.fragmentNull
  }

  lemma AtPathBegun(scheme: Text, host: Text, port: Opt, pos: int)
    ensures Begun(AtPath(scheme, host, port, pos), scheme, host)
  {
    var p := AtPath(scheme, host, port, pos);
    assert TextAt(p, p.url.scheme) == scheme;
    assert TextAt(p, p.url.host) == host;
  }

  /** The components of `r`, with absent ones empty. */
  predicate Shows(r: Parser, scheme: Text, host: Text, path: Text, query: Opt, fragment: Opt)
  {
    && TextAt(r, r.url.scheme) == scheme && TextAt(r, r.url.host) == host && !r.url.hostNull
    && TextAt(r, r.url.path) == path
    && Holds(r, r.url.query, r.url.queryNull, query) && Holds(r, r.url.fragment, r.url.fragmentNull, fragment)
  }

  /** A component that may be absent: it is null and empty then. */
  predicate Holds(r: Parser, where: Region, null_: bool, part: Opt)
  {
    match part
    case Absent => null_ && TextAt(r, where) == []
    case Given(t) => !null_ && TextAt(r, where) == t
  }

  lemma PathShows(p: Parser, scheme: Text, host: Text, t: Text, pos: int)
    requires Begun(p, scheme, host)
    ensures Shows(PathDone(p, t, pos), scheme, host, t, Absent, Absent)
  {
    Appended(p, t, PathDone(p, t, pos));
  }

  lemma QueryShows(p: Parser, scheme: Text, host: Text, t: Text, query: Text, pos: int, pos': int)
    requires Begun(p, scheme, host)
    ensures Shows(QueryDone(OpenQuery(PathDone(p, t, pos)), query, pos'), scheme, host, t, Given(query), Absent)
  {
    var p1 := OpenQuery(PathDone(p, t, pos));
    PathShows(p, scheme, host, t, pos);
    Appended(p1, query, QueryDone(p1, query, pos'));
  }

  lemma FragmentShows(p: Parser, scheme: Text, host: Text, path: Text, query: Opt, fragment: Text, pos: int)
    requires Shows(p, scheme, host, path, query, Absent)
    requires forall i :: 0 <= i < 4 ==> End(Component(p.url, i)) <= |p.buf|
    ensures Shows(FragmentDone(OpenFragment(p), fragment, pos), scheme, host, path, query, Given(fragment))
  {
    var p1 := OpenFragment(p);
    Appended(p1, fragment, FragmentDone(p1, fragment, pos));
    assert End(Component(p.url, 0)) <= |p.buf| && End(Component(p.url, 1)) <= |p.buf|;
    assert End(Component(p.url, 2)) <= |p.buf| && End(Component(p.url, 3)) <= |p.buf|;
  }

  /** What the parser has recorded when it is done. */
  lemma Recorded(p: Parser, scheme: Text, host: Text, t: Text, query: Opt, fragment: Opt, end: int, end': int, n: int)
    requires Begun(p, scheme, host)
    ensures Shows(PathResult(p, t, query, fragment, end, end', n), scheme, host, t, query, fragment)
  {
    PathShows(p, scheme, host, t, n);
    PathShows(p, scheme, host, t, end);
    if query.Given? {
      QueryShows(p, scheme, host, t, query.text, end, n);
      QueryShows(p, scheme, host, t, query.text, end, end');
      if fragment.Given? {
        FragmentShows(QueryDone(OpenQuery(PathDone(p, t, end)), query.text, end'), scheme, host, t, query,
          fragment.text, n);
      }
    } else if fragment.Given? {
      FragmentShows(PathDone(p, t, end), scheme, host, t, query, fragment.text, n);
    }
  }

  predicate SamePort(p: Parser, r: Parser) { r.url.port == p.url.port && r.url.portNull == p.url.portNull }

  lemma PathKeepsPort(p: Parser, t: Text, pos: int)
    ensures SamePort(p, PathDone(p, t, pos)) && SamePort(p, OpenQuery(p)) && SamePort(p, OpenFragment(p))
  {
  }

  lemma QueryKeepsPort(p: Parser, t: Text, pos: int)
    ensures SamePort(p, QueryDone(p, t, pos))
  {
  }

  lemma FragmentKeepsPort(p: Parser, t: Text, pos: int)
    ensures SamePort(p, FragmentDone(OpenFragment(p), t, pos))
  {
  }

  lemma QueryResultKeepsPort(p: Parser, t: Text, fragment: Opt, end: int, n: int)
    ensures SamePort(p, QueryResult(p, t, fragment, end, n))
  {
    if fragment.Absent? {
      QueryKeepsPort(p, t, n);
      return;
    }
    QueryKeepsPort(p, t, end);
    FragmentKeepsPort(QueryDone(p, t, end), fragment.text, n);
  }

  lemma PortIsKept(p: Parser, t: Text, query: Opt, fragment: Opt, end: int, end': int, n: int)
    ensures SamePort(p, PathResult(p, t, query, fragment, end, end', n))
  {
    PathKeepsPort(p, t, end);
    PathKeepsPort(p, t, n);
    PathKeepsPort(PathDone(p, t, end), t, end);
    if query.Given? {
      QueryResultKeepsPort(OpenQuery(PathDone(p, t, end)), query.text, fragment, end', n);
      return;
    } else if fragment.Given? {
      FragmentKeepsPort(PathDone(p, t, end), fragment.text, n);
      return;
    }
  }

  lemma AuthorityToPath(input: Text, scheme: Text, host: Text, port: Opt, a: nat, end: nat)
    requires FrontAt(input, host, port, a, end) && Spells(Lowered, input, 0, a, scheme) && scheme != "file"
    ensures Leads(input, START, AtPath(scheme, host, port, PathFrom(input, port.Given?, end) - 1))
  {
    ReachHost(input, scheme, host, a, end);
    HostReachesPath(input, scheme, host, port, a + 3, end);
    Then(input, START, HostRead(AtHost(scheme, a + 2), host, |host|),
         AtPath(scheme, host, port, PathFrom(input, port.Given?, end) - 1));
  }

  /** The parser at the end, when the path began at `p` and the input has `n` characters. */
  function Final(p: Parser, f: Found, n: nat): Parser
  {
    PathResult(p, f.path, f.query, f.fragment, f.end, f.end', n)
  }

  /** The port of `p`: null and zero, or the number given. */
  predicate ShowsPort(p: Parser, port: Opt)
  {
    p.url.portNull == !HasPort(port) && p.url.port == (if HasPort(port) then PortNumber(port.text) else 0)
  }

  lemma AtPathPort(scheme: Text, host: Text, port: Opt, pos: int)
    ensures ShowsPort(AtPath(scheme, host, port, pos), port)
  {
  }

  lemma PathOpened(scheme: Text, host: Text, port: Opt, pos: int) returns (p: Parser)
    requires scheme != "file"
    ensures p == AtPath(scheme, host, port, pos) && BeginsPath(p, false)
    ensures Begun(p, scheme, host) && ShowsPort(p, port)
  {
    p := AtPath(scheme, host, port, pos);
    PathCanBegin(scheme, host, port, pos);
    AtPathBegun(scheme, host, port, pos);
    AtPathPort(scheme, host, port, pos);
  }

  /** The parser gets to the path with the scheme, the host and the port recorded. */
  lemma ReachPath(input: Text, scheme: Text, host: Text, port: Opt, a: nat, e: nat, pos: int)
      returns (p: Parser)
    requires FrontAt(input, host, port, a, e) && Spells(Lowered, input, 0, a, scheme) && scheme != "file"
    requires pos == PathFrom(input, port.Given?, e) - 1
    ensures Leads(input, START, p) && p.pos == pos && BeginsPath(p, false)
    ensures Begun(p, scheme, host) && ShowsPort(p, port)
  {
    AuthorityToPath(input, scheme, host, port, a, e);
    p := PathOpened(scheme, host, port, pos);
  }

  lemma WholeTail(input: Text, p: Parser, f: Found)
    requires BeginsPath(p, false) && PathAt(input, p.pos, f.end, f.path)
    requires QueryAt(input, f.end, f.end', f.query) && FragmentAt(input, f.end', f.fragment)
    ensures Ends(input, p, Final(p, f, |input|))
  {
    PathText(input, p, f.end, f.path);
    PathTail(input, p, false, f.end, f.end', f.path, f.query, f.fragment);
  }

  lemma WholeEnds(input: Text, host: Text, port: Opt, f: Found) returns (p: Parser)
    requires WholeAt(input, host, port, f) && f.scheme != "file"
    ensures Ends(input, START, Final(p, f, |input|)) && Begun(p, f.scheme, host) && ShowsPort(p, port)
  {
    p := ReachPath(input, f.scheme, host, port, f.a, f.e, PathFrom(input, port.Given?, f.e) - 1);
    WholeTail(input, p, f);
    ThenEnds(input, START, p, Final(p, f, |input|));
  }

  /** The round trip, with the written forms of the parts given. */
  lemma PartsComeBackAs(u: Parts, f: Found) returns (p: Parser)
    requires WellFormed(u) && FormsOf(u, f) && f.scheme != "file"
    ensures Ends(Written(u), START, Final(p, f, |Written(u)|)) && Begun(p, f.scheme, u.host) && ShowsPort(p, u.port)
  {
    WrittenIsLaidOut(u, f);
    WholeStands(u, Written(u), f);
    p := WholeEnds(Written(u), u.host, u.port, f);
  }

  lemma FinalShows(p: Parser, scheme: Text, host: Text, port: Opt, f: Found, n: nat)
    requires Begun(p, scheme, host) && ShowsPort(p, port)
    ensures Shows(Final(p, f, n), scheme, host, f.path, f.query, f.fragment) && ShowsPort(Final(p, f, n), port)
  {
    Recorded(p, scheme, host, f.path, f.query, f.fragment, f.end, f.end', n);
    PortIsKept(p, f.path, f.query, f.fragment, f.end, f.end', n);
  }

  /** A URL put together from well-formed parts is accepted and its parts come back: the scheme in
      lower case, the host as it is, the port as a number, the path, the query and the fragment
      percent-encoded. */
  lemma PartsComeBack(u: Parts)
    requires WellFormed(u) && EmitAll(Lowered, u.scheme) != "file"
    ensures var r := Run(Written(u), START).parser;
            && !Run(Written(u), START).fatal
            && Shows(r, EmitAll(Lowered, u.scheme), u.host, EmitAll(Escaped(PathSet), PathFound(u)),
                     EmitOpt(Escaped(SpecQuerySet), u.query), EmitOpt(Escaped(FragmentSet), u.fragment))
            && ShowsPort(r, u.port)
  {
    var f := AllForms(u);
    var p := PartsComeBackAs(u, f);
    EndsOutcome(Written(u), START, Final(p, f, |Written(u)|));
    FinalShows(p, f.scheme, u.host, u.port, f, |Written(u)|);
  }

  // ---------- inputs without a scheme ----------

  /** Where the leading scheme characters end. */
  function SchemeRun(input: Text, k: nat): (r: nat)
    requires k <= |input|
    ensures k <= r <= |input| && (forall i :: k <= i < r ==> IsSchemeChar(input[i]))
            && (r < |input| ==> !IsSchemeChar(input[r]))
    decreases |input| - k
  {
    if k < |input| && IsSchemeChar(input[k]) then SchemeRun(input, k + 1) else k
  }

  lemma BadSchemeTurn(input: Text, p: Parser)
    requires Sane(p) && p.mode == Scheme && 0 <= p.pos < |input|
    requires p.pos + 1 < |input| ==> !IsSchemeChar(input[p.pos + 1]) && input[p.pos + 1] != ':'
    ensures Leads(input, p, p.(mode := NoScheme, buf := [], pos := 0))
  {
    OneTurn(input, p, p.(mode := NoScheme, buf := [], pos := 0));
  }

  /** A letter and no scheme: the parser gets to `NoScheme` at the second character. */
  lemma LetterWithoutScheme(input: Text)
    requires input != [] && IsAlpha(input[0]) && !HasScheme(input)
    ensures Leads(input, START, START.(mode := NoScheme, pos := 0))
  {
    var k := SchemeRun(input, 0);
    assert IsScheme(input[..k]);
    var t := Emitted(Lowered, input, 0, k);
    SchemePart(input, k, t);
    var p := START.(mode := Scheme, buf := t, pos := k - 1);
    BadSchemeTurn(input, p);
    Then(input, START, p, START.(mode := NoScheme, pos := 0));
  }

  lemma NoLetterTurn(input: Text)
    requires input == [] || !IsAlpha(input[0])
    ensures Ends(input, START, START.(mode := NoScheme))
  {
    LastTurn(input, START, START.(mode := NoScheme));
  }

  /** An input without a scheme is meant to be refused. It is refused exactly when it has at least
      two characters and the first of them is a letter: in the other cases the loop leaves at the
      end of the input, or with a cursor that has wrapped below zero, before it looks at `Fail`. */
  lemma RefusedExactlyWhen(input: Text)
    requires !HasScheme(input)
    ensures Run(input, START).fatal <==> |input| >= 2 && IsAlpha(input[0])
  {
    if input == [] || !IsAlpha(input[0]) {
      NoLetterTurn(input);
      EndsOutcome(input, START, START.(mode := NoScheme));
      return;
    }
    LetterWithoutScheme(input);
    var p := START.(mode := NoScheme, pos := 0);
    var q := START.(mode := Fail, pos := 1);
    if |input| == 1 {
      LastTurn(input, p, q);
      ThenEnds(input, START, p, q);
      EndsOutcome(input, START, q);
      return;
    }
    OneTurn(input, p, q);
    Then(input, START, p, q);
    LeadsToFailure(input, START, q);
  }

  /** Three inputs without a scheme that are accepted all the same. */
  lemma SchemelessAccepted()
    ensures !Run("", START).fatal && !Run("1a", START).fatal && !Run("a", START).fatal
  {
    RefusedExactlyWhen("");
    RefusedExactlyWhen("1a");
    RefusedExactlyWhen("a");
  }
}
