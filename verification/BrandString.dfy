/**
 * The CPU brand string: twelve 32-bit registers seen as forty-eight bytes, the search for the
 * frequency in it, and the string a guest is given.
 */
module BrandString {
  import opened Options
  import opened LittleEndian

  const REGISTERS: nat := 12
  const BYTES: nat := 48
  const MAX_LEN: nat := 47

  function Ascii(s: string): (b: seq<nat>)
    ensures |b| == |s| && forall i :: 0 <= i < |s| ==> b[i] == s[i] as nat
  {
    seq(|s|, i requires 0 <= i < |s| => s[i] as nat)
  }

  // What is searched for.

  predicate Digit(ch: nat) {
    '0' as nat <= ch <= '9' as nat
  }

  predicate Digits(b: seq<nat>, from: nat, to: nat) {
    from < to <= |b| && forall i :: from <= i < to ==> Digit(b[i])
  }

  predicate Unit(ch: nat) {
    ch == 'M' as nat || ch == 'G' as nat || ch == 'T' as nat
  }

  /** Digits from `s`, a point at `p`, digits up to `q`, a unit letter at `q`, then "Hz". */
  predicate Match(b: seq<nat>, s: nat, p: nat, q: nat) {
    && Digits(b, s, p) && p < |b| && b[p] == '.' as nat
    && Digits(b, p + 1, q) && q + 3 <= |b|
    && Unit(b[q]) && b[q + 1] == 'H' as nat && b[q + 2] == 'z' as nat
  }

  ghost predicate Matches(b: seq<nat>, s: nat, e: nat) {
    exists p: nat, q: nat :: e == q + 3 && Match(b, s, p, q)
  }

  /** The match that starts first and ends first. */
  ghost predicate First(b: seq<nat>, s: nat, e: nat) {
    && Matches(b, s, e)
    && forall t: nat, p: nat, q: nat :: Match(b, t, p, q) ==> s <= t && e <= q + 3
  }

  // The search.

  datatype Stage = Initial | IntPart | DecimalPoint | DecimalPart | UnitSize | FoundH

  /** What the bytes just before `i` look like in each stage. */
  predicate Holds(b: seq<nat>, stage: Stage, freqStart: nat, decimalStart: nat, i: nat)
    requires i <= |b|
  {
    match stage
    case Initial => true
    case IntPart => Digits(b, freqStart, i)
    case DecimalPoint => 1 <= i && Digits(b, freqStart, i - 1) && b[i - 1] == '.' as nat
    case DecimalPart => Halves(b, freqStart, decimalStart, i)
    case UnitSize => 1 <= i && Halves(b, freqStart, decimalStart, i - 1) && Unit(b[i - 1])
    case FoundH =>
      && 2 <= i && Halves(b, freqStart, decimalStart, i - 2)
      && Unit(b[i - 2]) && b[i - 1] == 'H' as nat
  }

  predicate Halves(b: seq<nat>, freqStart: nat, decimalStart: nat, i: nat) {
    && 1 <= decimalStart && Digits(b, freqStart, decimalStart - 1)
    && decimalStart <= |b| && b[decimalStart - 1] == '.' as nat
    && Digits(b, decimalStart, i)
  }

  /** No match starts before the candidate under way. */
  ghost predicate NoneBefore(b: seq<nat>, start: nat) {
    forall t: nat, p: nat, q: nat :: Match(b, t, p, q) ==> start <= t
  }

  function Candidate(stage: Stage, freqStart: nat, i: nat): nat {
    if stage.Initial? then i else freqStart
  }

  lemma StuckInIntPart(b: seq<nat>, freqStart: nat, i: nat)
    requires Digits(b, freqStart, i) && i < |b| && !Digit(b[i]) && b[i] != '.' as nat
    requires NoneBefore(b, freqStart)
    ensures NoneBefore(b, i + 1)
  {
  }

  lemma StuckAtPoint(b: seq<nat>, freqStart: nat, i: nat)
    requires 0 < i < |b| && Digits(b, freqStart, i - 1) && b[i - 1] == '.' as nat
    requires !Digit(b[i]) && NoneBefore(b, freqStart)
    ensures NoneBefore(b, i + 1)
  {
  }

  /** A fraction that no unit follows: only the fraction's own digits can still be a start. */
  lemma StuckInFraction(b: seq<nat>, freqStart: nat, decimalStart: nat, i: nat)
    requires Halves(b, freqStart, decimalStart, i) && i < |b| && !Digit(b[i]) && !Unit(b[i])
    requires NoneBefore(b, freqStart)
    ensures NoneBefore(b, if b[i] == '.' as nat then decimalStart else i + 1)
  {
  }

  /** Of a finished candidate, only the unit at its end can make a match. */
  lemma FractionStart(b: seq<nat>, freqStart: nat, decimalStart: nat, i: nat, t: nat, p: nat, q: nat)
    requires Halves(b, freqStart, decimalStart, i) && i < |b| && !Digit(b[i])
    requires Match(b, t, p, q) && freqStart <= t
    ensures t < decimalStart ==> p == decimalStart - 1 && q == i
    ensures decimalStart <= t < i ==> p == i
    ensures t != i
  {
  }

  lemma StuckAfterUnit(b: seq<nat>, freqStart: nat, decimalStart: nat, i: nat)
    requires 0 < i < |b| && Halves(b, freqStart, decimalStart, i - 1) && Unit(b[i - 1])
    requires b[i] != 'H' as nat && NoneBefore(b, freqStart)
    ensures NoneBefore(b, if Digit(b[i]) then i else i + 1)
  {
  }

  lemma StuckAfterH(b: seq<nat>, freqStart: nat, decimalStart: nat, i: nat)
    requires 1 < i < |b| && Halves(b, freqStart, decimalStart, i - 2) && Unit(b[i - 2])
    requires b[i - 1] == 'H' as nat
    requires b[i] != 'z' as nat && NoneBefore(b, freqStart)
    ensures NoneBefore(b, if Digit(b[i]) then i else i + 1)
  {
  }

  lemma NotADigit(b: seq<nat>, i: nat)
    requires i < |b| && !Digit(b[i]) && NoneBefore(b, i)
    ensures NoneBefore(b, i + 1)
  {
  }

  /** The candidate that reaches its "Hz" is the first match. */
  lemma CandidateIsFirst(b: seq<nat>, freqStart: nat, decimalStart: nat, i: nat)
    requires 1 < i < |b| && Halves(b, freqStart, decimalStart, i - 2) && Unit(b[i - 2])
    requires b[i - 1] == 'H' as nat && b[i] == 'z' as nat
    requires NoneBefore(b, freqStart)
    ensures First(b, freqStart, i + 1)
  {
    assert Match(b, freqStart, decimalStart - 1, i - 2);
    forall t: nat, p: nat, q: nat | Match(b, t, p, q)
      ensures i + 1 <= q + 3
    {
      FractionStart(b, freqStart, decimalStart, i - 2, t, p, q);
    }
  }

  lemma NoneAtAll(b: seq<nat>, stage: Stage, freqStart: nat, decimalStart: nat)
    requires Holds(b, stage, freqStart, decimalStart, |b|)
    requires NoneBefore(b, Candidate(stage, freqStart, |b|))
    ensures forall t: nat, p: nat, q: nat :: !Match(b, t, p, q)
  {
  }

  lemma NoneBeforeStart(b: seq<nat>)
    ensures NoneBefore(b, 0)
  {
  }

  method FindFreq(b: seq<nat>) returns (found: Option<(nat, nat)>)
    ensures found.Some? ==> First(b, found.value.0, found.value.1)
    ensures found.None? ==> forall s: nat, e: nat :: !Matches(b, s, e)
  {
    hide Match, First, NoneBefore;
    NoneBeforeStart(b);
    var freqStart, decimalStart, stage := 0, 0, Initial;
    for i := 0 to |b|
      invariant Holds(b, stage, freqStart, decimalStart, i)
      invariant NoneBefore(b, Candidate(stage, freqStart, i))
    {
      var ch := b[i];
      match stage {
        case Initial =>
          if Digit(ch) {
            freqStart := i;
            stage := IntPart;
          } else {
            NotADigit(b, i);
          }
        case IntPart =>
          if !Digit(ch) {
            if ch == '.' as nat {
              stage := DecimalPoint;
            } else {
              StuckInIntPart(b, freqStart, i);
              stage := Initial;
            }
          }
        case DecimalPoint =>
          if Digit(ch) {
            stage := DecimalPart;
            decimalStart := i;
          } else {
            StuckAtPoint(b, freqStart, i);
            stage := Initial;
          }
        case DecimalPart =>
          if !Digit(ch) {
            if ch == '.' as nat {
              StuckInFraction(b, freqStart, decimalStart, i);
              stage := DecimalPoint;
              freqStart := decimalStart;
            } else if Unit(ch) {
              stage := UnitSize;
            } else {
              StuckInFraction(b, freqStart, decimalStart, i);
              stage := Initial;
            }
          }
        case UnitSize =>
          if ch == 'H' as nat {
            stage := FoundH;
          } else if Digit(ch) {
            StuckAfterUnit(b, freqStart, decimalStart, i);
            stage := IntPart;
            freqStart := i;
          } else {
            StuckAfterUnit(b, freqStart, decimalStart, i);
            stage := Initial;
          }
        case FoundH =>
          if ch == 'z' as nat {
            CandidateIsFirst(b, freqStart, decimalStart, i);
            return Some((freqStart, i + 1));
          } else if Digit(ch) {
            StuckAfterH(b, freqStart, decimalStart, i);
            stage := IntPart;
            freqStart := i;
          } else {
            StuckAfterH(b, freqStart, decimalStart, i);
            stage := Initial;
          }
      }
    }
    NoneAtAll(b, stage, freqStart, decimalStart);
    found := None;
  }

  // The buffer.

  predicate Words(ws: seq<nat>) {
    forall i :: 0 <= i < |ws| ==> ws[i] < Power256(4)
  }

  /** The bytes of a register buffer on a little-endian machine. */
  function View(ws: seq<nat>): (b: seq<nat>)
    ensures |b| == 4 * |ws|
    ensures forall i :: 0 <= i < |b| ==> b[i] == LeBytes(ws[i / 4], 4)[i % 4]
  {
    seq(4 * |ws|, i requires 0 <= i < 4 * |ws| => LeBytes(ws[i / 4], 4)[i % 4])
  }

  function Zeros(n: nat): (z: seq<nat>)
    ensures |z| == n && forall i :: 0 <= i < n ==> z[i] == 0
  {
    seq(n, _ => 0)
  }

  function Padded(text: seq<nat>): (b: seq<nat>)
    requires |text| <= BYTES
    ensures |b| == BYTES
  {
    text + Zeros(BYTES - |text|)
  }

  lemma ViewOctets(ws: seq<nat>)
    ensures Octets(View(ws))
  {
    forall i | 0 <= i < 4 * |ws|
      ensures View(ws)[i] < 256
    {
      BytesOfValue(ws[i / 4], 4);
    }
  }

  /** A register is the little-endian value of its four bytes of the view. */
  lemma WordOfView(ws: seq<nat>, k: nat)
    requires k < |ws| && ws[k] < Power256(4)
    ensures LeValue(View(ws)[4 * k..4 * k + 4]) == ws[k]
  {
    hide LeBytes, LeValue, Power256;
    BytesOfValue(ws[k], 4);
    assert View(ws)[4 * k..4 * k + 4] == LeBytes(ws[k], 4);
  }

  /** Two register buffers with the same bytes are the same. */
  lemma ViewInjective(a: seq<nat>, b: seq<nat>)
    requires |a| == |b| && Words(a) && Words(b) && View(a) == View(b)
    ensures a == b
  {
    forall k | 0 <= k < |a|
      ensures a[k] == b[k]
    {
      WordOfView(a, k);
      WordOfView(b, k);
    }
  }

  /** Storing one byte through the view. */
  lemma ByteStored(ws: seq<nat>, i: nat, v: nat)
    requires i < 4 * |ws| && v < 256
    ensures var bytes := LeBytes(ws[i / 4], 4)[i % 4 := v];
      && LeValue(bytes) < Power256(4)
      && View(ws[i / 4 := LeValue(bytes)]) == View(ws)[i := v]
  {
    hide LeValue, LeBytes, Power256;
    var bytes := LeBytes(ws[i / 4], 4)[i % 4 := v];
    BytesOfValue(ws[i / 4], 4);
    ValueOfBytes(bytes);
    var after := View(ws[i / 4 := LeValue(bytes)]);
    forall j | 0 <= j < |after|
      ensures after[j] == View(ws)[i := v][j]
    {
      if j / 4 == i / 4 && j % 4 == i % 4 {
        assert j == i;
      }
    }
  }

  lemma ViewOfZeros(n: nat)
    ensures View(Zeros(n)) == Zeros(4 * n)
  {
  }

  /** The first `i` bytes of `src` written over `b` from `start` on. */
  function Spliced(b: seq<nat>, start: nat, src: seq<nat>, i: nat): (r: seq<nat>)
    requires i <= |src| && start + |src| <= |b|
    ensures |r| == |b|
  {
    b[..start] + src[..i] + b[start + i..]
  }

  lemma SplicedNext(b: seq<nat>, start: nat, src: seq<nat>, i: nat)
    requires i < |src| && start + |src| <= |b|
    ensures Spliced(b, start, src, i)[start + i := src[i]] == Spliced(b, start, src, i + 1)
  {
  }

  datatype Reg = EAX | EBX | ECX | EDX

  function Index(r: Reg): nat {
    match r
    case EAX => 0
    case EBX => 1
    case ECX => 2
    case EDX => 3
  }

  /** Where a register's bytes are in the sixteen of a leaf. */
  function Lane(r: Reg): (at: nat)
    ensures at <= 12
  {
    match r
    case EAX => 0
    case EBX => 4
    case ECX => 8
    case EDX => 12
  }

  lemma LaneIs(r: Reg)
    ensures Lane(r) == 4 * Index(r)
  {
  }

  const FIRST_LEAF: nat := 0x8000_0002
  const LAST_LEAF: nat := 0x8000_0004

  class Brand {
    const regBuf: array<nat>
    var len: nat

    ghost predicate Valid()
      reads this, regBuf
    {
      regBuf.Length == REGISTERS && Words(regBuf[..]) && len <= BYTES
    }

    ghost function Bytes(): (b: seq<nat>)
      requires Valid()
      reads this, regBuf
      ensures |b| == BYTES
    {
      View(regBuf[..])
    }

    ghost function Text(): seq<nat>
      requires Valid()
      reads this, regBuf
    {
      Bytes()[..len]
    }

    /** Nothing but zeros past the text. */
    ghost predicate Tidy()
      requires Valid()
      reads this, regBuf
    {
      Bytes() == Padded(Text())
    }

    constructor Empty()
      ensures Valid() && fresh(regBuf) && len == 0 && Bytes() == Zeros(BYTES)
      ensures Tidy()
    {
      regBuf := new nat[REGISTERS](_ => 0);
      len := 0;
      new;
      assert regBuf[..] == Zeros(REGISTERS);
      ViewOfZeros(REGISTERS);
    }

    method PutByte(i: nat, v: nat)
      requires Valid() && i < BYTES && v < 256
      modifies regBuf
      ensures Valid() && Bytes() == old(Bytes())[i := v]
    {
      hide LeBytes, LeValue, Power256;
      ByteStored(regBuf[..], i, v);
      var word := LeValue(LeBytes(regBuf[i / 4], 4)[i % 4 := v]);
      ghost var before := regBuf[..];
      regBuf[i / 4] := word;
      assert regBuf[..] == before[i / 4 := word];
    }

    method CopyIn(start: nat, src: seq<nat>)
      requires Valid() && start + |src| <= BYTES && Octets(src)
      modifies regBuf
      ensures Valid()
      ensures Bytes() == old(Bytes())[..start] + src + old(Bytes())[start + |src|..]
    {
      hide Words, View;
      ghost var before := Bytes();
      assert before == Spliced(before, start, src, 0);
      for i := 0 to |src|
        invariant Valid()
        invariant Bytes() == Spliced(before, start, src, i)
      {
        SplicedNext(before, start, src, i);
        PutByte(start + i, src[i]);
      }
      assert src[..|src|] == src;
    }

    constructor FromBytesUnchecked(src: seq<nat>)
      requires |src| <= BYTES && Octets(src)
      ensures Valid() && fresh(regBuf) && len == |src| && Bytes() == Padded(src)
      ensures Tidy()
    {
      regBuf := new nat[REGISTERS](_ => 0);
      len := |src|;
      new;
      assert regBuf[..] == Zeros(REGISTERS);
      ViewOfZeros(REGISTERS);
      CopyIn(0, src);
      assert Bytes() == Padded(src);
      assert Text() == src;
    }

    method PushBytes(src: seq<nat>) returns (ok: bool)
      requires Valid() && len <= MAX_LEN && Octets(src)
      modifies this, regBuf
      ensures Valid() && len <= MAX_LEN
      ensures ok == (|src| <= MAX_LEN - old(len))
      ensures ok ==> Text() == old(Text()) + src
      ensures ok ==> Bytes()[len..] == old(Bytes())[len..]
      ensures !ok ==> len == old(len) && Bytes() == old(Bytes())
      ensures old(Tidy()) ==> Tidy()
    {
      if !(|src| <= MAX_LEN - len) {
        return false;
      }
      var start := len;
      len := len + |src|;
      CopyIn(start, src);
      assert Text() == old(Text()) + src;
      assert old(Tidy()) ==> Tidy() by {
        if old(Tidy()) {
          assert old(Bytes())[len..] == Zeros(BYTES - len);
          assert Bytes() == Text() + old(Bytes())[len..];
        }
      }
      ok := true;
    }

    method GetRegForLeaf(leaf: nat, reg: Reg) returns (word: nat)
      requires Valid() && 0x8000_0002 <= leaf <= 0x8000_0004
      ensures var at := 16 * (leaf - 0x8000_0002) + Lane(reg);
        word < Power256(4) && word == LeValue(Bytes()[at..at + 4])
    {
      LaneIs(reg);
      hide Index, Lane;
      WordOfView(regBuf[..], 4 * (leaf - FIRST_LEAF) + Index(reg));
      word := regBuf[(leaf - FIRST_LEAF) * 4 + Index(reg)];
    }

    method SetRegForLeaf(leaf: nat, reg: Reg, word: nat)
      requires Valid() && FIRST_LEAF <= leaf <= LAST_LEAF && word < Power256(4)
      modifies regBuf
      ensures Valid()
      ensures regBuf[..] == old(regBuf[..])[4 * (leaf - FIRST_LEAF) + Index(reg) := word]
    {
      regBuf[(leaf - FIRST_LEAF) * 4 + Index(reg)] := word;
    }
  }
}
