/** What a string of a text is, spelled out character by character, and what
    reading it does: where it closes, what becomes of its escapes, and which error
    ends one that is not a string. */
module JsonEscapes {
  import opened Options
  import opened JsonLexing
  import opened JsonRoundTrip
  import opened JsonRoundTripText
  import opened JsonResume

  /** A hexadecimal digit, in either case. */
  datatype Digit = Digit(value: nat, upper: bool)

  predicate IsDigit(d: Digit) {
    d.value < 16
  }

  function Spelled(d: Digit): char {
    if d.upper then "0123456789ABCDEF"[d.value % 16] else "0123456789abcdef"[d.value % 16]
  }

  /** A piece of a string: a character for itself, a simple escape, or `\u` and
      four digits. */
  datatype Piece =
    | Itself(c: char)
    | Simple(c: char)
    | Unicode(d0: Digit, d1: Digit, d2: Digit, d3: Digit)

  predicate Legal(x: Piece) {
    match x
    case Itself(c) => c != '\"' && c != '\\' && c != '\0'
    case Simple(c) => c in ESCAPED
    case Unicode(a, b, c, d) => IsDigit(a) && IsDigit(b) && IsDigit(c) && IsDigit(d)
  }

  function CodePoint(x: Piece): nat
    requires x.Unicode?
  {
    4096 * x.d0.value + 256 * x.d1.value + 16 * x.d2.value + x.d3.value
  }

  /** It is accepted: an escaped code point must be ASCII. */
  predicate Accepted(x: Piece) {
    Legal(x) && (x.Unicode? ==> CodePoint(x) < 128)
  }

  function Written(x: Piece): string {
    match x
    case Itself(c) => [c]
    case Simple(c) => ['\\', c]
    case Unicode(a, b, c, d) => ['\\', 'u', Spelled(a), Spelled(b), Spelled(c), Spelled(d)]
  }

  /** What is left of it: the character takes the place of the last digit. */
  function Left(x: Piece): (s: string)
    ensures |s| == |Written(x)|
  {
    if x.Unicode? && CodePoint(x) < 128 then Written(x)[5 := CodePoint(x) as char] else Written(x)
  }

  function WrittenAll(xs: seq<Piece>): string {
    if xs == [] then "" else Written(xs[0]) + WrittenAll(xs[1..])
  }

  function LeftAll(xs: seq<Piece>): (s: string)
    ensures |s| == |WrittenAll(xs)|
  {
    if xs == [] then "" else Left(xs[0]) + LeftAll(xs[1..])
  }

  function Put(js: string, p: nat, s: string): (r: string)
    requires p + |s| <= |js|
    ensures |r| == |js| && At(r, p, s)
  {
    js[..p] + s + js[p + |s|..]
  }

  lemma LowDigit(v: nat)
    requires v < 16
    ensures "0123456789abcdef"[v] == if v < 10 then (v + 48) as char else (v + 87) as char
  {
    if v < 4 {
      assert v == 0 || v == 1 || v == 2 || v == 3;
    } else if v < 8 {
      assert v == 4 || v == 5 || v == 6 || v == 7;
    } else if v < 12 {
      assert v == 8 || v == 9 || v == 10 || v == 11;
    } else {
      assert v == 12 || v == 13 || v == 14 || v == 15;
    }
  }

  lemma HighDigit(v: nat)
    requires v < 16
    ensures "0123456789ABCDEF"[v] == if v < 10 then (v + 48) as char else (v + 55) as char
  {
    if v < 4 {
      assert v == 0 || v == 1 || v == 2 || v == 3;
    } else if v < 8 {
      assert v == 4 || v == 5 || v == 6 || v == 7;
    } else if v < 12 {
      assert v == 8 || v == 9 || v == 10 || v == 11;
    } else {
      assert v == 12 || v == 13 || v == 14 || v == 15;
    }
  }

  lemma DigitReads(d: Digit)
    requires IsDigit(d)
    ensures IsHex(Spelled(d)) && HexDigit(Spelled(d)) == d.value
  {
    LowDigit(d.value);
    HighDigit(d.value);
  }

  /* ---- one piece ---- */

  lemma EscapeStands(js: string, p: nat, x: Piece)
    requires x.Unicode? && Legal(x) && At(js, p, Written(x))
    ensures EscapeAt(js, p) && IsHex(js[p + 5]) && FourthOf(js, p, js[p + 5]) == CodePoint(x)
  {
    hide Spelled, IsHex, HexDigit, At;
    AtIndex(js, p, Written(x), 0);
    AtIndex(js, p, Written(x), 1);
    AtIndex(js, p, Written(x), 2);
    AtIndex(js, p, Written(x), 3);
    AtIndex(js, p, Written(x), 4);
    AtIndex(js, p, Written(x), 5);
    DigitReads(x.d0);
    DigitReads(x.d1);
    DigitReads(x.d2);
    DigitReads(x.d3);
  }

  lemma EscapeReads(b: Buffer, p: nat, x: Piece)
    requires x.Unicode? && Accepted(x) && At(b.js, p, Written(x))
    ensures p + 6 <= |b.js| && Put(b.js, p, Left(x)) == b.js[p + 5 := CodePoint(x) as char]
    ensures ScanString(b, p) == ScanString(b.(js := Put(b.js, p, Left(x))), p + 6)
  {
    hide ScanString, Spelled;
    EscapeStands(b.js, p, x);
    EscapeScan(b, p);
    assert b.js[p..p + 6] == Written(x);
  }

  lemma PutSame(js: string, p: nat, s: string)
    requires At(js, p, s)
    ensures Put(js, p, s) == js
  {
  }

  /** Reading an accepted piece goes on behind it, with what is left of it in its place. */
  lemma PieceReads(b: Buffer, p: nat, x: Piece)
    requires Accepted(x) && At(b.js, p, Written(x))
    ensures p + |Written(x)| <= |b.js|
    ensures ScanString(b, p) == ScanString(b.(js := Put(b.js, p, Left(x))), p + |Written(x)|)
  {
    hide ScanString, At, Put, Spelled, CodePoint, Steady;
    AtFits(b.js, p, Written(x));
    if x.Unicode? {
      EscapeReads(b, p, x);
    } else {
      PutSame(b.js, p, Left(x));
      AtIndex(b.js, p, Written(x), 0);
      if x.Simple? { AtIndex(b.js, p, Written(x), 1); }
      PlainStep(b, p);
    }
  }

  /** And so for any number of pieces. */
  lemma {:induction false} PiecesRead(b: Buffer, p: nat, xs: seq<Piece>)
    requires (forall i :: 0 <= i < |xs| ==> Accepted(xs[i])) && At(b.js, p, WrittenAll(xs))
    ensures p + |WrittenAll(xs)| <= |b.js|
    ensures ScanString(b, p) == ScanString(b.(js := Put(b.js, p, LeftAll(xs))), p + |WrittenAll(xs)|)
    decreases |xs|
  {
    hide ScanString, Written, Left, Accepted, At, Put;
    if xs == [] {
      AtFits(b.js, p, WrittenAll(xs));
      PutNothing(b.js, p);
    } else {
      var w, rest := Written(xs[0]), xs[1..];
      AtConcat(b.js, p, w, WrittenAll(rest));
      PieceReads(b, p, xs[0]);
      AtBehind(b.js, p, Left(xs[0]), p + |w|, WrittenAll(rest));
      PiecesRead(b.(js := Put(b.js, p, Left(xs[0]))), p + |w|, rest);
      PutTwice(b.js, p, Left(xs[0]), LeftAll(rest));
    }
  }

  lemma PutNothing(js: string, p: nat)
    requires p <= |js|
    ensures Put(js, p, "") == js
  {
  }

  lemma AtBehind(js: string, p: nat, s: string, q: nat, t: string)
    requires p + |s| <= q && At(js, q, t)
    ensures At(Put(js, p, s), q, t)
  {
    forall i | 0 <= i < |t| ensures Put(js, p, s)[q + i] == t[i] { AtIndex(js, q, t, i); }
  }

  lemma PutTwice(js: string, p: nat, s: string, t: string)
    requires p + |s| + |t| <= |js|
    ensures Put(Put(js, p, s), p + |s|, t) == Put(js, p, s + t)
  {
  }

  /* ---- the end ---- */

  const DIGITS := "0123456789abcdefABCDEF"

  lemma DigitsAreHex(c: char)
    ensures IsHex(c) == (c in DIGITS)
  {
    if IsHex(c) {
      var i := if c <= '9' then c as int - '0' as int
      else if c <= 'F' then c as int - 'A' as int + 16 else c as int - 'a' as int + 10;
      assert DIGITS[i] == c;
    }
  }

  /** The first character behind `n` hexadecimal digits, if it is there and no digit. */
  predicate BreaksAt(js: string, p: nat, n: nat) {
    && n < 4 && p + n < |js| && js[p + n] != '\0' && js[p + n] !in DIGITS
    && forall i :: p <= i < p + n ==> js[i] in DIGITS
  }

  lemma {:induction false} DigitsEnd(js: string, p: nat, n: nat, k: nat)
    requires p + n < |js| && n < k && !IsHex(js[p + n]) && forall i :: p <= i < p + n ==> IsHex(js[i])
    ensures HexEnd(js, p, k) == p + n
    decreases n
  {
    if n > 0 {
      assert IsHex(js[p]);
      DigitsEnd(js, p + 1, n - 1, k - 1);
    }
  }

  /** The text behind the pieces is as it was. */
  lemma BehindPieces(js: string, p: nat, s: string, i: nat)
    requires p + |s| <= i < |js|
    ensures Put(js, p, s)[i] == js[i]
  {
  }

  /** How reading a string ends, by what stands behind its pieces: the closing
      quote, the end of the text, or an escape of another letter. */
  lemma StringEnds(b: Buffer, p: nat, xs: seq<Piece>)
    requires (forall i :: 0 <= i < |xs| ==> Accepted(xs[i])) && At(b.js, p, WrittenAll(xs))
    ensures p + |LeftAll(xs)| <= |b.js|
    ensures var q := p + |WrittenAll(xs)|;
      var b' := b.(js := Put(b.js, p, LeftAll(xs)));
      var s := ScanString(b, p);
      && (q == |b.js| || b.js[q] == '\0' ==> s == Broken(Part, b'))
      && (q < |b.js| && b.js[q] == '\"' ==> s == Closed(q, b'))
      && (q + 1 < |b.js| && b.js[q] == '\\' && b.js[q + 1] != 'u' && b.js[q + 1] !in ESCAPED ==>
            s == Broken(Inval, b'))
  {
    hide ScanString, WrittenAll, LeftAll, Accepted, Put;
    PiecesRead(b, p, xs);
    var q := p + |WrittenAll(xs)|;
    var b' := b.(js := Put(b.js, p, LeftAll(xs)));
    if q < |b.js| { BehindPieces(b.js, p, LeftAll(xs), q); }
    if q + 1 < |b.js| { BehindPieces(b.js, p, LeftAll(xs), q + 1); }
    EndsHere(b', q);
  }

  /** An escape above ASCII behind them. */
  lemma StringTooLarge(b: Buffer, p: nat, xs: seq<Piece>, x: Piece)
    requires (forall i :: 0 <= i < |xs| ==> Accepted(xs[i])) && At(b.js, p, WrittenAll(xs))
    requires Legal(x) && x.Unicode? && CodePoint(x) > 127 && At(b.js, p + |WrittenAll(xs)|, Written(x))
    ensures p + |LeftAll(xs)| <= |b.js|
    ensures ScanString(b, p) == Broken(Inval, b.(js := Put(b.js, p, LeftAll(xs))))
  {
    hide ScanString, WrittenAll, LeftAll, Accepted, Put, At, Written, Legal, CodePoint;
    PiecesRead(b, p, xs);
    var q := p + |WrittenAll(xs)|;
    AtBehind(b.js, p, LeftAll(xs), q, Written(x));
    TooLarge(b.(js := Put(b.js, p, LeftAll(xs))), q, x);
  }

  /** A `\u` with another character than a digit behind them. */
  lemma StringBadDigit(b: Buffer, p: nat, xs: seq<Piece>, n: nat)
    requires (forall i :: 0 <= i < |xs| ==> Accepted(xs[i])) && At(b.js, p, WrittenAll(xs))
    requires var q := p + |WrittenAll(xs)|;
      q + 2 <= |b.js| && b.js[q] == '\\' && b.js[q + 1] == 'u' && BreaksAt(b.js, q + 2, n)
    ensures p + |LeftAll(xs)| <= |b.js|
    ensures ScanString(b, p) == Broken(Inval, b.(js := Put(b.js, p, LeftAll(xs))))
  {
    hide ScanString, WrittenAll, LeftAll, Accepted, Put;
    PiecesRead(b, p, xs);
    var q := p + |WrittenAll(xs)|;
    forall i | q <= i < |b.js| ensures Put(b.js, p, LeftAll(xs))[i] == b.js[i] {
      BehindPieces(b.js, p, LeftAll(xs), i);
    }
    BrokenEscape(b.(js := Put(b.js, p, LeftAll(xs))), q, n);
  }

  lemma EndsHere(b: Buffer, q: nat)
    requires q <= |b.js|
    ensures q == |b.js| || b.js[q] == '\0' ==> ScanString(b, q) == Broken(Part, b)
    ensures q < |b.js| && b.js[q] == '\"' ==> ScanString(b, q) == Closed(q, b)
    ensures q + 1 < |b.js| && b.js[q] == '\\' && b.js[q + 1] != 'u' && b.js[q + 1] !in ESCAPED ==>
              ScanString(b, q) == Broken(Inval, b)
  {
  }

  lemma TooLarge(b: Buffer, q: nat, x: Piece)
    requires Legal(x) && x.Unicode? && CodePoint(x) > 127 && At(b.js, q, Written(x))
    ensures ScanString(b, q) == Broken(Inval, b)
  {
    hide ScanString, Written, At;
    EscapeStands(b.js, q, x);
    EscapeScan(b, q);
  }

  lemma BrokenEscape(b: Buffer, q: nat, n: nat)
    requires q + 2 <= |b.js| && b.js[q] == '\\' && b.js[q + 1] == 'u' && BreaksAt(b.js, q + 2, n)
    ensures ScanString(b, q) == Broken(Inval, b)
  {
    hide HexEnd, IsHex, HexValue, BreaksAt;
    BreaksHex(b.js, q + 2, n);
    DigitsEnd(b.js, q + 2, n, 4);
  }

  lemma BreaksHex(js: string, p: nat, n: nat)
    requires BreaksAt(js, p, n)
    ensures n < 4 && p + n < |js| && js[p + n] != '\0' && !IsHex(js[p + n])
    ensures forall i :: p <= i < p + n ==> IsHex(js[i])
  {
    hide IsHex;
    DigitsAreHex(js[p + n]);
    forall i | p <= i < p + n ensures IsHex(js[i]) { DigitsAreHex(js[i]); }
  }
}
