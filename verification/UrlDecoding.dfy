/** What the percent-encoder, the lower-casing and the port number of the URL parser mean: a decoder,
    the letters and the numerals, each written on its own, and the round trip read through them. */
module UrlDecoding {
  import opened UrlParser
  import opened UrlTexts
  import opened UrlPlaces
  import opened UrlParts
  import opened UrlFilePlaces
  import opened UrlFiles

  // ---------- percent-decoding ----------

  /** Bytes are written as characters below 256. */
  predicate AllBytes(t: Text) { forall i :: 0 <= i < |t| ==> t[i] as int < 256 }

  /** The value of a hexadecimal digit, 16 for anything else. */
  function DigitValue(c: char): nat
  {
    if '0' <= c <= '9' then c as int - 48
    else if 'a' <= c <= 'f' then c as int - 87
    else if 'A' <= c <= 'F' then c as int - 55
    else 16
  }

  predicate IsHex(c: char) { DigitValue(c) < 16 }

  /** A percent sign and two hexadecimal digits stand at the head of `t`. */
  predicate Escape(t: Text) { |t| >= 3 && t[0] == '%' && IsHex(t[1]) && IsHex(t[2]) }

  /** Percent-decoding: an escape becomes the byte it stands for, anything else stays. */
  function Decoded(t: Text): Text
  {
    if t == [] then []
    else if Escape(t) then [(16 * DigitValue(t[1]) + DigitValue(t[2])) as char] + Decoded(t[3..])
    else [t[0]] + Decoded(t[1..])
  }

  /** The percent sign and the digits after it are never encoded themselves. */
  lemma EscapesArePlain(c: char, set_: EncodeSet)
    requires c == '%' || IsHex(c)
    ensures !Contains(set_, c) && Encoded(c, set_) == [c]
  {
  }

  lemma HexDigitHasValue(n: nat)
    requires n < 16
    ensures DigitValue(HexDigit(n)) == n
  {
  }

  lemma TwoDigits(n: nat)
    requires n < 256
    ensures 16 * (n / 16 % 16) + n % 16 == n
  {
  }

  /** A character of the set is written as an escape for it, any other as itself. */
  lemma EncodedIsEscape(c: char, set_: EncodeSet)
    requires c as int < 256
    ensures !Contains(set_, c) ==> Encoded(c, set_) == [c]
    ensures Contains(set_, c) ==>
              var t := Encoded(c, set_);
              |t| == 3 && Escape(t) && 16 * DigitValue(t[1]) + DigitValue(t[2]) == c as int
  {
    HexDigitHasValue(c as int / 16 % 16);
    HexDigitHasValue(c as int % 16);
    TwoDigits(c as int);
  }

  lemma EscapeDecodes(c: char, set_: EncodeSet, rest: Text)
    requires c as int < 256 && Contains(set_, c)
    ensures Decoded(Encoded(c, set_) + rest) == [c] + Decoded(rest)
  {
    EncodedIsEscape(c, set_);
    var t := Encoded(c, set_) + rest;
    assert t[3..] == rest;
  }

  /** What the encoder writes for a byte is decoded to that byte. */
  lemma EncodedDecodes(c: char, set_: EncodeSet)
    requires c as int < 256
    ensures Decoded(Encoded(c, set_)) == [c] && (!Contains(set_, c) ==> Encoded(c, set_) == [c])
  {
    if Contains(set_, c) {
      EscapeDecodes(c, set_, []);
      assert Encoded(c, set_) + [] == Encoded(c, set_);
    }
  }

  /** The encoded text goes on with a hexadecimal digit exactly where the text does. */
  lemma HexGoesOn(set_: EncodeSet, t: Text, lo: nat)
    requires AllBytes(t) && lo < |t|
    ensures var e := Emitted(Escaped(set_), t, lo, |t|);
            && e != [] && (IsHex(e[0]) <==> IsHex(t[lo]))
            && (IsHex(t[lo]) ==> e == [t[lo]] + Emitted(Escaped(set_), t, lo + 1, |t|))
  {
    EncodedIsEscape(t[lo], set_);
    if IsHex(t[lo]) {
      EscapesArePlain(t[lo], set_);
    }
  }

  /** The encoded text has an escape of its own exactly where the text has one. */
  lemma EscapeGoesOn(set_: EncodeSet, t: Text, lo: nat)
    requires AllBytes(t) && lo < |t| && t[lo] == '%'
    ensures var e := Emitted(Escaped(set_), t, lo, |t|);
            && e == ['%'] + Emitted(Escaped(set_), t, lo + 1, |t|)
            && (Escape(e) <==> Escape(t[lo..]))
            && (Escape(t[lo..]) ==> e == [t[lo], t[lo + 1], t[lo + 2]] + Emitted(Escaped(set_), t, lo + 3, |t|))
  {
    EscapesArePlain('%', set_);
    if lo + 1 < |t| {
      HexGoesOn(set_, t, lo + 1);
      if lo + 2 < |t| && IsHex(t[lo + 1]) {
        HexGoesOn(set_, t, lo + 2);
      }
    }
  }

  /** Encoding is invisible to whoever decodes, for every text of bytes. */
  lemma {:induction false} DecodeAfterEncode(set_: EncodeSet, t: Text, lo: nat)
    requires AllBytes(t) && lo <= |t|
    ensures Decoded(Emitted(Escaped(set_), t, lo, |t|)) == Decoded(t[lo..])
    decreases |t| - lo
  {
    if lo == |t| {
      return;
    }
    var e, rest := Emitted(Escaped(set_), t, lo, |t|), Emitted(Escaped(set_), t, lo + 1, |t|);
    assert t[lo..][1..] == t[lo + 1..];
    if Contains(set_, t[lo]) {
      if t[lo] == '%' {
        EscapesArePlain('%', set_);
      }
      EscapeDecodes(t[lo], set_, rest);
      DecodeAfterEncode(set_, t, lo + 1);
    } else if t[lo] == '%' {
      EscapeGoesOn(set_, t, lo);
      if Escape(t[lo..]) {
        assert t[lo..][3..] == t[lo + 3..];
        assert e[3..] == Emitted(Escaped(set_), t, lo + 3, |t|);
        DecodeAfterEncode(set_, t, lo + 3);
      } else {
        assert e[1..] == rest;
        DecodeAfterEncode(set_, t, lo + 1);
      }
    } else {
      assert e == [t[lo]] + rest && e[1..] == rest;
      DecodeAfterEncode(set_, t, lo + 1);
    }
  }

  lemma {:induction false} NothingToDecode(t: Text)
    requires '%' !in t
    ensures Decoded(t) == t
  {
    if t != [] {
      NothingToDecode(t[1..]);
    }
  }

  /** An encoded part decodes to what the part itself decodes to: to the part itself if that has no
      percent sign. */
  lemma PartDecodes(set_: EncodeSet, t: Text)
    requires AllBytes(t)
    ensures Decoded(EmitAll(Escaped(set_), t)) == Decoded(t)
    ensures '%' !in t ==> Decoded(EmitAll(Escaped(set_), t)) == t
  {
    DecodeAfterEncode(set_, t, 0);
    assert t[0..] == t;
    if '%' !in t {
      NothingToDecode(t);
    }
  }

  // ---------- the percent-encode sets, listed ----------

  /** The printable characters of each percent-encode set, one by one. */
  function Listing(set_: EncodeSet): Text
  {
    match set_
    case C0 => ""
    case FragmentSet => " \"<>`"
    case QuerySet => " \"#<>"
    case SpecQuerySet => " \"#<>'"
    case PathSet => " \"#<>?`{}"
    case UserinfoSet => " \"#<>?`{}/:;=@[\\]^|"
  }

  lemma SetsAreAsListed(set_: EncodeSet, c: char)
    ensures Contains(set_, c) <==> c as int < 0x20 || c as int > 0x7e || c in Listing(set_)
  {
    match set_ {
      case C0 =>
      case FragmentSet => assert Listing(set_) == [' ', '"', '<', '>', '`'];
      case QuerySet => assert Listing(set_) == [' ', '"', '#', '<', '>'];
      case SpecQuerySet => assert Listing(set_) == [' ', '"', '#', '<', '>', '\''];
      case PathSet => assert Listing(set_) == [' ', '"', '#', '<', '>', '?', '`', '{', '}'];
      case UserinfoSet =>
        assert Listing(set_) == Listing(PathSet) + ['/', ':', ';', '=', '@', '[', '\\', ']', '^', '|'];
        assert Listing(PathSet) == [' ', '"', '#', '<', '>', '?', '`', '{', '}'];
    }
  }

  /** The characters a scheme may have, by their codes. */
  lemma SchemeCharsAreAsListed(c: char)
    ensures IsAlpha(c) <==> 65 <= c as int <= 90 || 97 <= c as int <= 122
    ensures IsSchemeChar(c) <==> IsAlpha(c) || 48 <= c as int <= 57 || c in "+-."
  {
    assert "+-." == ['+', '-', '.'];
  }

  // ---------- letters ----------

  /** Lower-casing gives a small letter for a letter, the same one, since the two cases of a letter
      agree in their low five bits; it leaves everything else alone. */
  lemma LowerIsSmall(c: char)
    ensures IsAlpha(c) ==> 'a' <= Lower(c) <= 'z' && Lower(c) as int % 32 == c as int % 32
    ensures !IsAlpha(c) ==> Lower(c) == c
  {
  }

  /** `t'` is `t` in small letters. */
  predicate InSmall(t: Text, t': Text)
  {
    |t'| == |t| && forall i :: 0 <= i < |t| ==>
      if IsAlpha(t[i]) then 'a' <= t'[i] <= 'z' && t'[i] as int % 32 == t[i] as int % 32 else t'[i] == t[i]
  }

  lemma {:induction false} LoweredText(t: Text, lo: nat)
    requires lo <= |t|
    ensures var e := Emitted(Lowered, t, lo, |t|);
            |e| == |t| - lo && forall i :: lo <= i < |t| ==> e[i - lo] == Lower(t[i])
    decreases |t| - lo
  {
    if lo < |t| {
      LoweredText(t, lo + 1);
    }
  }

  lemma SchemeIsInSmall(t: Text)
    ensures InSmall(t, EmitAll(Lowered, t))
  {
    LoweredText(t, 0);
    forall i | 0 <= i < |t|
      ensures EmitAll(Lowered, t)[i] == Lower(t[i])
    {
      assert EmitAll(Lowered, t)[i - 0] == Lower(t[i]);
    }
  }

  // ---------- numerals ----------

  const DIGITS := "0123456789"

  /** The decimal numeral for `n`. */
  function Numeral(n: nat): Text
  {
    (if n < 10 then [] else Numeral(n / 10)) + [DIGITS[n % 10]]
  }

  function Zeros(k: nat): Text { seq(k, _ => '0') }

  lemma {:induction false} DecimalPrefix(t: Text, t': Text, k: nat)
    requires k <= |t| && k <= |t'| && forall i :: 0 <= i < k ==> t[i] == t'[i]
    ensures Decimal(t, k) == Decimal(t', k)
  {
    if k > 0 {
      DecimalPrefix(t, t', k - 1);
    }
  }

  lemma OneMoreDigit(t: Text, d: nat)
    requires d < 10
    ensures IsDigit(DIGITS[d]) && PortNumber(t + [DIGITS[d]]) == 10 * PortNumber(t) + d
  {
    DecimalPrefix(t + [DIGITS[d]], t, |t|);
  }

  lemma {:induction false} ZerosAreNothing(k: nat)
    ensures PortNumber(Zeros(k)) == 0
  {
    if k > 0 {
      ZerosAreNothing(k - 1);
      assert Zeros(k) == Zeros(k - 1) + [DIGITS[0]];
      OneMoreDigit(Zeros(k - 1), 0);
    }
  }

  /** A numeral is read as its number, with leading zeros or without. */
  lemma {:induction false} NumeralIsRead(n: nat, k: nat)
    ensures PortNumber(Zeros(k) + Numeral(n)) == n
    ensures forall i :: 0 <= i < |Zeros(k) + Numeral(n)| ==> IsDigit((Zeros(k) + Numeral(n))[i])
  {
    var t := Zeros(k) + if n < 10 then [] else Numeral(n / 10);
    if n < 10 {
      assert t == Zeros(k);
      ZerosAreNothing(k);
    } else {
      NumeralIsRead(n / 10, k);
    }
    assert Zeros(k) + Numeral(n) == t + [DIGITS[n % 10]];
    OneMoreDigit(t, n % 10);
  }

  // ---------- drive letters ----------

  /** The first segment of the path is a letter and a vertical bar or a colon. */
  predicate OpensWithDrive(t: Text)
  {
    |t| >= 2 && IsAlpha(t[0]) && (t[1] == '|' || t[1] == ':') && (|t| > 2 ==> EndsAuth(t[2]))
  }

  /** The path, with the colon in its drive letter if it opens with one. */
  function WithColon(t: Text): Text { if OpensWithDrive(t) then [t[0], ':'] + t[2..] else t }

  lemma DriveIsFirstSegment(t: Text)
    ensures OpensWithDrive(t) <==> IsDriveLetter(t[..FirstSegment(t)])
  {
    SegmentEnds(t, 0);
  }

  lemma {:induction false} EmittedSplit(how: Emission, t: Text, lo: nat, mid: nat, hi: nat)
    requires lo <= mid <= hi <= |t|
    ensures Emitted(how, t, lo, hi) == Emitted(how, t, lo, mid) + Emitted(how, t, mid, hi)
    decreases mid - lo
  {
    if lo < mid {
      EmittedSplit(how, t, lo + 1, mid, hi);
    }
  }

  /** A text is written as its two halves are, one after the other. */
  lemma HalvesJoin(how: Emission, t: Text, n: nat)
    requires n <= |t|
    ensures EmitAll(how, t) == EmitAll(how, t[..n]) + EmitAll(how, t[n..])
  {
    EmittedSplit(how, t, 0, n, |t|);
    MappedAlike(Emitter(how), t[..n], 0, n, t, 0);
    MappedAlike(Emitter(how), t[n..], 0, |t| - n, t, n);
  }

  lemma {:induction false} NothingShrinks(set_: EncodeSet, t: Text, lo: nat)
    requires lo <= |t|
    ensures |Emitted(Escaped(set_), t, lo, |t|)| >= |t| - lo
    decreases |t| - lo
  {
    if lo < |t| {
      NothingShrinks(set_, t, lo + 1);
    }
  }

  /** A drive letter is written as itself, and nothing else is written as one. */
  lemma DriveLetterIsPlain(t: Text)
    ensures IsDriveLetter(EmitAll(Escaped(PathSet), t)) <==> IsDriveLetter(t)
    ensures IsDriveLetter(t) ==> EmitAll(Escaped(PathSet), t) == t
  {
    NothingShrinks(PathSet, t, 0);
    if |t| == 1 {
      assert EmitAll(Escaped(PathSet), t) == Encoded(t[0], PathSet) + [];
    } else if |t| == 2 {
      assert Emitted(Escaped(PathSet), t, 1, 2) == Encoded(t[1], PathSet) + [];
      assert EmitAll(Escaped(PathSet), t) == Encoded(t[0], PathSet) + Encoded(t[1], PathSet);
    }
  }

  /** The path of a `file` URL is written as the path with the colon is. */
  lemma FilePathHasColon(t: Text)
    ensures FilePath(t) == EmitAll(Escaped(PathSet), WithColon(t))
  {
    var n := FirstSegment(t);
    DriveIsFirstSegment(t);
    DriveLetterIsPlain(t[..n]);
    HalvesJoin(Escaped(PathSet), t, n);
    if IsDriveLetter(t[..n]) {
      var t' := WithColon(t);
      assert t'[..2] == [t[0], ':'] && t'[2..] == t[2..];
      HalvesJoin(Escaped(PathSet), t', 2);
      DriveLetterIsPlain(t'[..2]);
    }
  }

  // ---------- the round trip, decoded ----------

  /** A component that may be absent decodes to what the part does. */
  predicate DecodesTo(r: Parser, where: Region, null_: bool, part: Opt)
  {
    match part
    case Absent => null_ && TextAt(r, where) == []
    case Given(t) => !null_ && Decoded(TextAt(r, where)) == Decoded(t) && ('%' !in t ==> Decoded(TextAt(r, where)) == t)
  }

  predicate OptBytes(part: Opt) { part.Given? ==> AllBytes(part.text) }

  /** What a caller who decodes the components finds in `r`. */
  predicate Means(r: Parser, scheme: Text, host: Text, path: Text, query: Opt, fragment: Opt)
  {
    && InSmall(scheme, TextAt(r, r.url.scheme)) && TextAt(r, r.url.host) == host && !r.url.hostNull
    && Decoded(TextAt(r, r.url.path)) == Decoded(path) && ('%' !in path ==> Decoded(TextAt(r, r.url.path)) == path)
    && DecodesTo(r, r.url.query, r.url.queryNull, query) && DecodesTo(r, r.url.fragment, r.url.fragmentNull, fragment)
  }

  lemma HeldIsDecoded(r: Parser, where: Region, null_: bool, set_: EncodeSet, part: Opt)
    requires OptBytes(part) && Holds(r, where, null_, EmitOpt(Escaped(set_), part))
    ensures DecodesTo(r, where, null_, part)
  {
    if part.Given? {
      PartDecodes(set_, part.text);
    }
  }

  lemma ShownIsMeant(r: Parser, scheme: Text, host: Text, path: Text, query: Opt, fragment: Opt)
    requires AllBytes(path) && OptBytes(query) && OptBytes(fragment)
    requires Shows(r, EmitAll(Lowered, scheme), host, EmitAll(Escaped(PathSet), path),
                   EmitOpt(Escaped(SpecQuerySet), query), EmitOpt(Escaped(FragmentSet), fragment))
    ensures Means(r, scheme, host, path, query, fragment)
  {
    SchemeIsInSmall(scheme);
    PartDecodes(PathSet, path);
    HeldIsDecoded(r, r.url.query, r.url.queryNull, SpecQuerySet, query);
    HeldIsDecoded(r, r.url.fragment, r.url.fragmentNull, FragmentSet, fragment);
  }

  /** The parts of a URL keep their meaning: percent-decoded, the path, the query and the fragment
      are those that were written, and are the written ones themselves if they have no percent
      sign; the scheme comes back in small letters and the host as it is. */
  lemma MeaningComesBack(u: Parts)
    requires WellFormed(u) && EmitAll(Lowered, u.scheme) != "file"
    requires AllBytes(u.path) && OptBytes(u.query) && OptBytes(u.fragment)
    ensures !Run(Written(u), START).fatal
    ensures Means(Run(Written(u), START).parser, u.scheme, u.host, PathFound(u), u.query, u.fragment)
  {
    PartsComeBack(u);
    ShownIsMeant(Run(Written(u), START).parser, u.scheme, u.host, PathFound(u), u.query, u.fragment);
  }

  lemma FileShownIsMeant(r: Parser, scheme: Text, host: Text, path: Text, query: Opt, fragment: Opt)
    requires AllBytes(path) && OptBytes(query) && OptBytes(fragment)
    requires Shows(r, EmitAll(Lowered, scheme), host, FilePath(path),
                   EmitOpt(Escaped(SpecQuerySet), query), EmitOpt(Escaped(FragmentSet), fragment))
    ensures Means(r, scheme, host, WithColon(path), query, fragment)
  {
    FilePathHasColon(path);
    ShownIsMeant(r, scheme, host, WithColon(path), query, fragment);
  }

  /** The same for a `file` URL, whose path has the colon of a drive letter that opens it. */
  lemma FileMeaningComesBack(u: Parts)
    requires FileFormed(u) && EmitAll(Lowered, u.scheme) == "file"
    requires AllBytes(u.path) && OptBytes(u.query) && OptBytes(u.fragment)
    ensures !Run(Written(u), START).fatal
    ensures Means(Run(Written(u), START).parser, u.scheme, u.host, WithColon(Behind(u.path, true)), u.query, u.fragment)
  {
    FilePartsComeBack(u);
    FileShownIsMeant(Run(Written(u), START).parser, u.scheme, u.host, Behind(u.path, true), u.query, u.fragment);
  }

  /** The port comes back as the number whose numeral was written, with leading zeros or without. */
  lemma PortComesBack(u: Parts, n: nat, zeros: nat)
    requires WellFormed(u) && EmitAll(Lowered, u.scheme) != "file" && u.port == Given(Zeros(zeros) + Numeral(n))
    ensures var r := Run(Written(u), START).parser; !r.url.portNull && r.url.port == n
  {
    PartsComeBack(u);
    NumeralIsRead(n, zeros);
  }
}
