/** Texts of a URL: what its parts may consist of, how they are written to the buffer, and where a
    text stands in another. */
module UrlTexts {
  import opened UrlParser

  datatype Opt = Absent | Given(text: Text)

  function Tail(mark: char, part: Opt): Text { if part.Absent? then [] else [mark] + part.text }

  predicate EndsAuth(c: char) { c == '/' || c == '\\' || c == '?' || c == '#' }

  /** Whether a bracket is open after the first `k` characters of `t`. */
  predicate OpenAt(t: Text, k: nat)
    requires k <= |t|
  {
    k > 0 && (t[k - 1] == '[' || (t[k - 1] != ']' && OpenAt(t, k - 1)))
  }

  /** Colons stand only inside brackets. */
  predicate IsHost(t: Text)
  {
    && t != []
    && (forall k :: 0 <= k < |t| ==> !EndsAuth(t[k]) && t[k] != '@')
    && (forall k {:trigger OpenAt(t, k)} :: 0 <= k < |t| && t[k] == ':' ==> OpenAt(t, k))
  }

  /** A text that is read as a host, an `@` in it included. */
  predicate HostText(t: Text)
  {
    && t != [] && (forall k :: 0 <= k < |t| ==> !EndsAuth(t[k]))
    && (forall k {:trigger OpenAt(t, k)} :: 0 <= k < |t| && t[k] == ':' ==> OpenAt(t, k))
  }

  predicate Bracketed(t: Text) { OpenAt(t, |t|) }

  predicate IsScheme(t: Text)
  {
    t != [] && IsAlpha(t[0]) && forall k :: 0 <= k < |t| ==> IsSchemeChar(t[k])
  }

  predicate IsPort(t: Text)
  {
    (forall k :: 0 <= k < |t| ==> IsDigit(t[k])) && PortNumber(t) <= 65535
  }

  predicate Lacks(t: Text, c: char) { forall k :: 0 <= k < |t| ==> t[k] != c }

  /** How a character of a part is written to the buffer. */
  datatype Emission = Lowered | Verbatim | Escaped(set_: EncodeSet)

  function Emit(how: Emission, c: char): Text
  {
    match how
    case Lowered => [Lower(c)]
    case Verbatim => [c]
    case Escaped(set_) => Encoded(c, set_)
  }

  function Emitter(how: Emission): char -> Text { c => Emit(how, c) }

  /** What `e` makes of the characters of `t` from `lo` to `hi`, one after the other. */
  function Mapped(e: char -> Text, t: Text, lo: nat, hi: nat): Text
    requires lo <= hi <= |t|
    decreases hi - lo
  {
    if lo == hi then [] else e(t[lo]) + Mapped(e, t, lo + 1, hi)
  }

  /** What the characters of `t` from `lo` to `hi` are written as. */
  function Emitted(how: Emission, t: Text, lo: nat, hi: nat): Text
    requires lo <= hi <= |t|
  {
    Mapped(Emitter(how), t, lo, hi)
  }

  function EmitAll(how: Emission, t: Text): Text { Emitted(how, t, 0, |t|) }

  /** Equal stretches of text are mapped alike. */
  lemma {:induction false} MappedAlike(e: char -> Text, t: Text, lo: nat, hi: nat, t': Text, lo': nat)
    requires lo <= hi <= |t| && lo' + hi - lo <= |t'|
    requires forall i :: lo <= i < hi ==> t[i] == t'[lo' + i - lo]
    ensures Mapped(e, t, lo, hi) == Mapped(e, t', lo', lo' + hi - lo)
    decreases hi - lo
  {
    if lo < hi {
      MappedAlike(e, t, lo + 1, hi, t', lo' + 1);
    }
  }

  lemma {:induction false} VerbatimLength(t: Text, lo: nat, hi: nat)
    requires lo <= hi <= |t|
    ensures |Emitted(Verbatim, t, lo, hi)| == hi - lo
    decreases hi - lo
  {
    if lo < hi {
      VerbatimLength(t, lo + 1, hi);
    }
  }

  predicate Wanted(how: Emission) { true }

  /** `t` is what the characters from `lo` to `hi` are written as. The definition of `Emitted` comes
      into a proof only where `Wanted(how)` is mentioned. */
  ghost predicate Spells(how: Emission, input: Text, lo: nat, hi: nat, t: Text)
  {
    lo <= hi <= |input| && forall h {:trigger Wanted(h)} :: Wanted(h) && h == how ==> t == Emitted(h, input, lo, hi)
  }

  lemma SpelledOut(how: Emission, input: Text, lo: nat, hi: nat, t: Text)
    requires Spells(how, input, lo, hi, t)
    ensures t == Emitted(how, input, lo, hi)
  {
    assert Wanted(how);
  }

  /** The first character's written form, and the rest. */
  lemma SpellsOne(how: Emission, input: Text, lo: nat, hi: nat, t: Text) returns (rest: Text)
    requires Spells(how, input, lo, hi, t) && lo < hi
    ensures t == Emit(how, input[lo]) + rest && Spells(how, input, lo + 1, hi, rest)
  {
    SpelledOut(how, input, lo, hi, t);
    rest := Emitted(how, input, lo + 1, hi);
  }

  lemma SpellsNone(how: Emission, input: Text, lo: nat, t: Text)
    requires Spells(how, input, lo, lo, t)
    ensures t == []
  {
    SpelledOut(how, input, lo, lo, t);
  }

  lemma Regroup(a: Text, b: Text, c: Text)
    ensures a + (b + c) == a + b + c
  {
  }

  predicate Place(j: int) { true }

  /** `t` stands in `input` from `lo` on. The characters come into a proof only where a `Place` is
      mentioned. */
  ghost predicate StandsAt(input: Text, lo: nat, t: Text)
  {
    lo + |t| <= |input| && forall j {:trigger Place(j)} :: Place(j) && lo <= j < lo + |t| ==> input[j] == t[j - lo]
  }

  lemma Reads(input: Text, lo: nat, t: Text, j: nat)
    requires StandsAt(input, lo, t) && lo <= j < lo + |t|
    ensures input[j] == t[j - lo]
  {
    assert Place(j);
  }

  lemma StandsTwo(input: Text, lo: nat, a: Text, b: Text)
    requires StandsAt(input, lo, a + b)
    ensures StandsAt(input, lo, a) && StandsAt(input, lo + |a|, b)
  {
    forall j | Place(j) && lo <= j < lo + |a|
      ensures input[j] == a[j - lo]
    {
      Reads(input, lo, a + b, j);
    }
    forall j | Place(j) && lo + |a| <= j < lo + |a| + |b|
      ensures input[j] == b[j - lo - |a|]
    {
      Reads(input, lo, a + b, j);
    }
  }

  lemma StandsItself(t: Text)
    ensures StandsAt(t, 0, t)
  {
  }

  /** `form` is the written form of `t`. */
  ghost predicate Forms(how: Emission, t: Text, form: Text) { Spells(how, t, 0, |t|, form) }

  ghost predicate FormsOpt(how: Emission, part: Opt, form: Opt)
  {
    part.Absent? == form.Absent? && (part.Given? ==> Forms(how, part.text, form.text))
  }

  lemma SpelledAs(how: Emission, input: Text, lo: nat, t: Text, form: Text)
    requires StandsAt(input, lo, t) && Forms(how, t, form)
    ensures Spells(how, input, lo, lo + |t|, form)
  {
    SpelledOut(how, t, 0, |t|, form);
    forall i | 0 <= i < |t|
      ensures t[i] == input[lo + i]
    {
      Reads(input, lo, t, lo + i);
    }
    MappedAlike(Emitter(how), t, 0, |t|, input, lo);
  }

  lemma {:induction false} VerbatimFrom(t: Text, lo: nat)
    requires lo <= |t|
    ensures Emitted(Verbatim, t, lo, |t|) == t[lo..]
    decreases |t| - lo
  {
    if lo < |t| {
      VerbatimFrom(t, lo + 1);
    }
  }

  lemma SpelledVerbatim(input: Text, lo: nat, t: Text)
    requires StandsAt(input, lo, t)
    ensures Spells(Verbatim, input, lo, lo + |t|, t)
  {
    VerbatimFrom(t, 0);
    SpelledAs(Verbatim, input, lo, t, t);
  }

  lemma MarkedTail(input: Text, lo: nat, mark: char, part: Opt)
    requires StandsAt(input, lo, Tail(mark, part)) && part.Given?
    ensures lo < |input| && input[lo] == mark && StandsAt(input, lo + 1, part.text)
            && |Tail(mark, part)| == 1 + |part.text|
  {
    StandsTwo(input, lo, [mark], part.text);
    Reads(input, lo, [mark], lo);
  }

  lemma Excerpt(input: Text, lo: nat, t: Text)
    requires StandsAt(input, lo, t)
    ensures input[lo..lo + |t|] == t
  {
    forall i | 0 <= i < |t|
      ensures input[lo..lo + |t|][i] == t[i]
    {
      Reads(input, lo, t, lo + i);
    }
  }

  function EmitOpt(how: Emission, part: Opt): Opt
  {
    if part.Absent? then Absent else Given(EmitAll(how, part.text))
  }

  /** What is pending for the path when a segment ends: in a `file` URL a drive letter that opens the
      path gets its colon. */
  function Mended(file: bool, t: Text, k: nat): (t': Text)
    ensures |t'| == |t|
  {
    if file && k == 0 && IsDriveLetter(t) then [t[0], ':'] else t
  }

  /** The input opens with a letter, further scheme characters and a colon. */
  predicate HasScheme(input: Text)
  {
    exists k :: 0 < k < |input| && input[k] == ':' && IsScheme(input[..k])
  }

  lemma DigitsRead(input: Text, lo: nat, port: Text)
    requires StandsAt(input, lo, port) && forall k :: 0 <= k < |port| ==> IsDigit(port[k])
    ensures forall i :: lo <= i < lo + |port| ==> IsDigit(input[i])
  {
    forall i | lo <= i < lo + |port|
      ensures IsDigit(input[i])
    {
      Reads(input, lo, port, i);
    }
  }

  lemma HostIsPlain(input: Text, b: nat, host: Text)
    requires StandsAt(input, b, host) && IsHost(host)
    ensures forall i :: b <= i < b + |host| ==> !EndsAuth(input[i]) && input[i] != '@'
  {
    forall i | b <= i < b + |host|
      ensures !EndsAuth(input[i]) && input[i] != '@'
    {
      Reads(input, b, host, i);
    }
  }

  lemma PortIsPlain(input: Text, h: nat, port: Opt)
    requires StandsAt(input, h, Tail(':', port)) && (port.Given? ==> IsPort(port.text))
    ensures forall i :: h <= i < h + |Tail(':', port)| ==> !EndsAuth(input[i]) && input[i] != '@'
  {
    if port.Given? {
      MarkedTail(input, h, ':', port);
      DigitsRead(input, h + 1, port.text);
    }
  }

  lemma SchemeReads(input: Text, scheme: Text)
    requires IsScheme(scheme) && StandsAt(input, 0, scheme) && StandsAt(input, |scheme|, "://")
    ensures var a := |scheme|;
            && 0 < a && a + 2 < |input| && IsAlpha(input[0]) && (forall i :: 0 <= i < a ==> IsSchemeChar(input[i]))
            && input[a] == ':' && input[a + 1] == '/' && input[a + 2] == '/'
  {
    var a := |scheme|;
    forall i | 0 <= i < a
      ensures input[i] == scheme[i]
    {
      Reads(input, 0, scheme, i);
    }
    Reads(input, a, "://", a);
    Reads(input, a, "://", a + 1);
    Reads(input, a, "://", a + 2);
  }
}
