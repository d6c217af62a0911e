/** The clean-up of the input before the URL parser of a.yanin/waxy sees it: blanks are to go from
    both ends, tabs and line breaks from everywhere. */
module UrlCleaning {
  import opened UrlParser
  import opened UrlLoop
  import opened UrlParts

  predicate IsBlank(c: char) { c <= ' ' }

  predicate IsBreak(c: char) { c == '\r' || c == '\n' || c == '\t' }

  // ---------- blanks at both ends ----------

  /** The first place from `k` on without a blank. */
  function Head(t: Text, k: nat): nat
    requires k <= |t|
    decreases |t| - k
  {
    if k < |t| && IsBlank(t[k]) then Head(t, k + 1) else k
  }

  /** Where the blanks at the end begin, looking back from `hi` to `lo`. */
  function Foot(t: Text, lo: nat, hi: nat): nat
    requires lo <= hi <= |t|
  {
    if lo < hi && IsBlank(t[hi - 1]) then Foot(t, lo, hi - 1) else hi
  }

  lemma {:induction false} HeadStands(t: Text, k: nat)
    requires k <= |t|
    ensures var h := Head(t, k); k <= h <= |t| && Blank(t[k..h]) && (h < |t| ==> !IsBlank(t[h]))
    decreases |t| - k
  {
    if k < |t| && IsBlank(t[k]) {
      HeadStands(t, k + 1);
      assert t[k..Head(t, k)] == [t[k]] + t[k + 1..Head(t, k)];
    }
  }

  lemma {:induction false} FootStands(t: Text, lo: nat, hi: nat)
    requires lo <= hi <= |t|
    ensures var f := Foot(t, lo, hi); lo <= f <= hi && Blank(t[f..hi]) && (lo < f ==> !IsBlank(t[f - 1]))
  {
    if lo < hi && IsBlank(t[hi - 1]) {
      FootStands(t, lo, hi - 1);
      assert t[Foot(t, lo, hi)..hi] == t[Foot(t, lo, hi)..hi - 1] + [t[hi - 1]];
    }
  }

  /** The blanks at both ends go and nothing else does: `lo` and `hi` are where the rest stands. */
  predicate Trims(t: Text, lo: nat, hi: nat)
  {
    && lo <= hi <= |t| && Blank(t[..lo]) && Blank(t[hi..])
    && (lo < hi ==> !IsBlank(t[lo]) && !IsBlank(t[hi - 1])) && (lo == hi ==> lo == |t|)
  }

  lemma TrimsThere(t: Text)
    ensures Trims(t, HeadOf(t), FootOf(t))
  {
    HeadStands(t, 0);
    FootStands(t, HeadOf(t), |t|);
    assert t[..HeadOf(t)] == t[0..HeadOf(t)];
    var f := Foot(t, HeadOf(t), |t|);
    assert t[f..] == t[f..|t|];
    if f < |t| {
      assert t[f..][0] == t[f];
    }
  }

  function HeadOf(t: Text): (h: nat)
    ensures h <= |t|
  {
    HeadStands(t, 0);
    Head(t, 0)
  }

  function FootOf(t: Text): (f: nat)
    ensures HeadOf(t) <= f <= |t|
  {
    FootStands(t, HeadOf(t), |t|);
    Foot(t, HeadOf(t), |t|)
  }

  /** What the clean-up is meant to leave. */
  function Trimmed(t: Text): Text { t[HeadOf(t)..FootOf(t)] }

  /** What it leaves: as many characters, but moved away from the front instead of to it, so that the
      first ones are the blanks themselves. */
  function Shifted(t: Text): Text { (t[..HeadOf(t)] + t)[..FootOf(t) - HeadOf(t)] }

  predicate Blank(t: Text) { forall k :: 0 <= k < |t| ==> IsBlank(t[k]) }

  /** `memmove` of `len` bytes from the front to `start`. */
  method MoveUp(a: array<char>, start: nat, len: nat)
    requires start + len <= a.Length
    modifies a
    ensures a[..start + len] == old(a[..start] + a[..len])
  {
    forall i | 0 <= i < len {
      a[start + i] := a[i];
    }
  }

  /** `url_remove_trailing`, on the bytes of the string; its new length is `len`. */
  method RemoveTrailing(a: array<char>) returns (len: nat)
    modifies a
    ensures len <= a.Length && a[..len] == Shifted(old(a[..]))
  {
    ghost var t := a[..];
    var start, end := 0, a.Length;
    while start < a.Length && IsBlank(a[start])
      invariant start <= a.Length && a[..] == t && Head(t, start) == Head(t, 0)
    {
      start := start + 1;
    }
    while end > start && IsBlank(a[end - 1])
      invariant start <= end <= a.Length && a[..] == t && Foot(t, start, end) == Foot(t, start, |t|)
    {
      end := end - 1;
    }
    len := end - start;
    MoveUp(a, start, len);
    assert a[..len] == a[..start + len][..len] == (t[..start] + t[..len])[..len] == (t[..start] + t)[..len];
  }

  /** The clean-up leaves what it is meant to leave exactly when there is no blank at the head, or
      nothing but blanks: the move goes the wrong way otherwise. */
  lemma TrimsExactlyWhen(t: Text)
    ensures Shifted(t) == Trimmed(t) <==> t == [] || !IsBlank(t[0]) || Blank(t)
  {
    var lo, hi := HeadOf(t), FootOf(t);
    TrimsThere(t);
    if lo == 0 {
      assert t[..0] + t == t;
    } else if lo < hi {
      assert IsBlank(t[..lo][0]) && !IsBlank(t[lo]);
      assert Shifted(t)[0] == t[0] && Trimmed(t)[0] == t[lo];
    } else {
      assert t[..lo] == t;
    }
  }

  // ---------- tabs and line breaks ----------

  /** `t` without its tabs and line breaks. */
  function WithoutBreaks(t: Text): Text
  {
    if t == [] then [] else (if IsBreak(t[0]) then [] else [t[0]]) + WithoutBreaks(t[1..])
  }

  lemma {:induction false} BreaksGo(t: Text)
    ensures forall c :: c in WithoutBreaks(t) <==> c in t && !IsBreak(c)
    ensures (forall k :: 0 <= k < |t| ==> !IsBreak(t[k])) ==> WithoutBreaks(t) == t
  {
    if t != [] {
      BreaksGo(t[1..]);
      assert t == [t[0]] + t[1..];
    }
  }

  /** The order of what remains is that of the input: the two halves of a text are cleaned apart. */
  lemma {:induction false} HalvesAreCleaned(a: Text, b: Text)
    ensures WithoutBreaks(a + b) == WithoutBreaks(a) + WithoutBreaks(b)
  {
    if a == [] {
      assert a + b == b;
    } else {
      HalvesAreCleaned(a[1..], b);
      assert (a + b)[1..] == a[1..] + b;
    }
  }

  /** `url_remove_tab_nl`, from the end to the front. */
  method RemoveBreaks(t: Text) returns (r: Text)
    ensures r == WithoutBreaks(t)
  {
    r := t;
    var i := |t|;
    while i > 0
      invariant 0 <= i <= |t| && i <= |r| && r == t[..i] + WithoutBreaks(t[i..])
    {
      i := i - 1;
      HalvesAreCleaned([t[i]], t[i + 1..]);
      assert t[i..] == [t[i]] + t[i + 1..];
      if IsBreak(r[i]) {
        r := r[..i] + r[i + 1..];
      }
    }
  }

  // ---------- what the parser then sees ----------

  /** The input of the parser. */
  function Cleaned(t: Text): Text { WithoutBreaks(Shifted(t)) }

  /** A space before a URL makes it an empty one: whatever follows, the parser sees the space first,
      finds no scheme, and `url_parse` still reports success. */
  lemma LeadingSpaceIsAccepted(t: Text)
    requires t != [] && IsBlank(t[0]) && !IsBreak(t[0]) && !Blank(t)
    ensures var o := Run(Cleaned(t), START); !o.fatal && o.parser == START.(mode := NoScheme)
  {
    TrimsThere(t);
    assert t[..|t|] == t;
    assert Shifted(t)[0] == t[0];
    assert Cleaned(t)[0] == t[0];
    NoLetterTurn(Cleaned(t));
    EndsOutcome(Cleaned(t), START, START.(mode := NoScheme));
  }
}
