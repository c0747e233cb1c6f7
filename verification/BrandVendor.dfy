/**
 * The brand string a guest is given, and what becomes of it when guests are nested.
 */
module BrandVendor {
  import opened Options
  import opened LittleEndian
  import opened BrandString

  /** What the host's CPUID instruction answers. */
  datatype Host = Host(maxLeaf: nat, leaves: seq<nat>)

  ghost predicate Answers(h: Host) {
    |h.leaves| == REGISTERS && Words(h.leaves)
  }

  predicate Supported(h: Host) {
    h.maxLeaf >= LAST_LEAF
  }

  /** A byte below the last that stops the search for trailing zeros. */
  ghost predicate HasText(b: seq<nat>) {
    exists i :: 0 <= i < MAX_LEN && i < |b| && b[i] != 0
  }

  function INTEL(): seq<nat> {
    Ascii("Intel(R) Xeon(R) Processor")
  }

  function AMD(): seq<nat> {
    Ascii("AMD EPYC")
  }

  function At(): seq<nat> {
    Ascii(" @ ")
  }

  lemma NamesAre()
    ensures INTEL() == Ascii("Intel(R) Xeon(R) Processor") && At() == Ascii(" @ ") && AMD() == Ascii("AMD EPYC")
  {
  }

  const MAX_FREQ: nat := 18

  // The frequency of a string.

  lemma FirstInside(b: seq<nat>, s: nat, e: nat)
    requires First(b, s, e)
    ensures s < e <= |b|
  {
  }

  ghost function Freq(b: seq<nat>): (f: Option<seq<nat>>)
  {
    if exists s: nat, e: nat :: First(b, s, e) then
      var s: nat, e: nat :| First(b, s, e);
      FirstInside(b, s, e);
      Some(b[s..e])
    else None
  }

  lemma FreqIs(b: seq<nat>, s: nat, e: nat)
    requires First(b, s, e)
    ensures s < e <= |b| && Freq(b) == Some(b[s..e])
  {
  }

  lemma FreqIsNot(b: seq<nat>)
    requires forall s: nat, e: nat :: !Matches(b, s, e)
    ensures Freq(b).None?
  {
  }

  /** A frequency is all match: digits, point, digits, unit, "Hz". */
  lemma FreqMatches(b: seq<nat>) returns (p: nat, q: nat)
    requires Freq(b).Some?
    ensures Match(Freq(b).value, 0, p, q) && |Freq(b).value| == q + 3
  {
    var s: nat, e: nat :| First(b, s, e);
    FreqIs(b, s, e);
    var p0: nat, q0: nat :| e == q0 + 3 && Match(b, s, p0, q0);
    p, q := p0 - s, q0 - s;
    Excerpt(b, s, p0, q0);
  }

  lemma Excerpt(b: seq<nat>, s: nat, p: nat, q: nat)
    requires Match(b, s, p, q)
    ensures Match(b[s..q + 3], 0, p - s, q - s)
  {
    var f := b[s..q + 3];
    assert forall i :: 0 <= i < |f| ==> f[i] == b[s + i];
  }

  // The emulated string.

  ghost function TextFor(vendor: string, host: Option<seq<nat>>): seq<nat> {
    if vendor == "GenuineIntel" then
      var name := Ascii("Intel(R) Xeon(R) Processor");
      if host.Some? && Freq(host.value).Some? then name + Ascii(" @ ") + Freq(host.value).value else name
    else if vendor == "AuthenticAMD" then Ascii("AMD EPYC")
    else []
  }

  /** The frequency found on the host fits behind the Intel name. */
  ghost predicate FreqFits(host: Option<seq<nat>>) {
    host.Some? && Freq(host.value).Some? ==> |Freq(host.value).value| <= MAX_FREQ
  }

  ghost function Emulated(vendor: string, host: Option<seq<nat>>): (b: seq<nat>)
    requires vendor == "GenuineIntel" ==> FreqFits(host)
    ensures |b| == BYTES
  {
    Padded(TextFor(vendor, host))
  }

  ghost function HostBytes(h: Host): Option<seq<nat>>
    requires Answers(h)
  {
    if Supported(h) then Some(View(h.leaves)) else None
  }

  method SetLeaf(b: Brand, leaf: nat, words: seq<nat>)
    requires b.Valid() && FIRST_LEAF <= leaf <= LAST_LEAF && |words| == 4 && Words(words)
    modifies b.regBuf
    ensures b.Valid()
    ensures var at := 4 * (leaf - FIRST_LEAF);
      b.regBuf[..] == old(b.regBuf[..])[..at] + words + old(b.regBuf[..])[at + 4..]
  {
    hide View, Power256;
    b.SetRegForLeaf(leaf, EAX, words[0]);
    b.SetRegForLeaf(leaf, EBX, words[1]);
    b.SetRegForLeaf(leaf, ECX, words[2]);
    b.SetRegForLeaf(leaf, EDX, words[3]);
  }

  method LoadLeaves(b: Brand, leaves: seq<nat>)
    requires b.Valid() && |leaves| == REGISTERS && Words(leaves)
    modifies b.regBuf
    ensures b.Valid() && b.regBuf[..] == leaves
  {
    hide View, Power256, Words;
    for leaf := FIRST_LEAF to LAST_LEAF + 1
      invariant b.Valid()
      invariant b.regBuf[..4 * (leaf - FIRST_LEAF)] == leaves[..4 * (leaf - FIRST_LEAF)]
    {
      var at := 4 * (leaf - FIRST_LEAF);
      WordsWithin(leaves, at);
      SetLeaf(b, leaf, leaves[at..at + 4]);
      assert b.regBuf[..at + 4] == b.regBuf[..][..at] + b.regBuf[..][at..at + 4];
      assert leaves[..at + 4] == leaves[..at] + leaves[at..at + 4];
    }
  }

  lemma WordsWithin(ws: seq<nat>, at: nat)
    requires Words(ws) && at + 4 <= |ws|
    ensures Words(ws[at..at + 4])
  {
  }

  /** The length of the text in a buffer, ignoring its last byte and trailing zeros. The search
      runs off the front of a buffer without text: the program stops there. */
  method TextLength(bytes: seq<nat>) returns (found: Option<nat>)
    requires |bytes| == BYTES
    ensures found.Some? <==> HasText(bytes)
    ensures found.Some? ==> 0 < found.value <= MAX_LEN && bytes[found.value - 1] != 0
    ensures found.Some? ==> forall i :: found.value <= i < MAX_LEN ==> bytes[i] == 0
  {
    var len := MAX_LEN;
    while len > 0 && bytes[len - 1] == 0
      invariant 0 <= len <= MAX_LEN
      invariant forall i :: len <= i < MAX_LEN ==> bytes[i] == 0
    {
      len := len - 1;
    }
    if len == 0 {
      return None;
    }
    found := Some(len);
  }

  /** `Stopped` is a program that panicked. */
  datatype HostBrand = NotSupported | Stopped | Ready(brand: Brand)

  method FromHostCpuid(h: Host) returns (host: HostBrand)
    requires Answers(h)
    ensures host.NotSupported? <==> !Supported(h)
    ensures host.Stopped? <==> Supported(h) && !HasText(View(h.leaves))
    ensures host.Ready? ==>
              && fresh(host.brand) && fresh(host.brand.regBuf) && host.brand.Valid()
              && host.brand.Bytes() == View(h.leaves)
              && 0 < host.brand.len <= MAX_LEN
              && host.brand.Bytes()[host.brand.len - 1] != 0
              && forall i :: host.brand.len <= i < MAX_LEN ==> host.brand.Bytes()[i] == 0
  {
    hide View, Power256, Words, HasText;
    if h.maxLeaf < LAST_LEAF {
      return NotSupported;
    }
    var b := new Brand.Empty();
    LoadLeaves(b, h.leaves);
    var len := TextLength(View(b.regBuf[..]));
    if len.None? {
      return Stopped;
    }
    b.len := len.value;
    host := Ready(b);
  }

  /** The string for a guest: the host's frequency behind a fixed name, if the host has one. The
      program stops only for an Intel guest, on a host that shows no text or too long a frequency. */
  method FromVendorId(vendor: string, h: Host) returns (made: Option<Brand>)
    requires Answers(h)
    ensures made.None? <==>
            vendor == "GenuineIntel" && Supported(h) && (!HasText(View(h.leaves)) || !FreqFits(HostBytes(h)))
    ensures made.Some? ==>
              && fresh(made.value) && fresh(made.value.regBuf) && made.value.Valid() && made.value.Tidy()
              && made.value.Text() == TextFor(vendor, HostBytes(h))
              && (vendor == "GenuineIntel" ==> FreqFits(HostBytes(h)))
              && made.value.Bytes() == Emulated(vendor, HostBytes(h))
  {
    hide View, Power256, Words, HasText, First, Matches, Match;
    var brand;
    if vendor == "GenuineIntel" {
      brand := new Brand.FromBytesUnchecked(INTEL());
      var host := FromHostCpuid(h);
      if host.Stopped? {
        return None;
      }
      if host.Ready? {
        var bytes := View(host.brand.regBuf[..]);
        var found := FindFreq(bytes);
        if found.Some? {
          FreqIs(bytes, found.value.0, found.value.1);
          ViewOctets(host.brand.regBuf[..]);
          var freq := bytes[found.value.0..found.value.1];
          var ok := brand.PushBytes(At());
          ok := brand.PushBytes(freq);
          if !ok {
            return None;
          }
        } else {
          FreqIsNot(bytes);
        }
      }
    } else if vendor == "AuthenticAMD" {
      brand := new Brand.FromBytesUnchecked(AMD());
    } else {
      brand := new Brand.FromBytesUnchecked([]);
    }
    made := Some(brand);
  }

  // Nesting.

  lemma NameHasNoDigits()
    ensures forall i :: 0 <= i < |INTEL() + At()| ==> !Digit((INTEL() + At())[i])
  {
    var name := "Intel(R) Xeon(R) Processor";
    assert forall i :: 0 <= i < |name| ==> name[i] < '0' || name[i] > '9';
  }

  /** The emulated string shows the frequency it was built from, and no other. */
  lemma EmulatedShowsFreq(host: Option<seq<nat>>)
    requires FreqFits(host)
    ensures Freq(Emulated("GenuineIntel", host)) ==
            if host.Some? then Freq(host.value) else None
  {
    hide First, Matches, Match, Freq, INTEL, At;
    NamesAre();
    NameHasNoDigits();
    if host.Some? && Freq(host.value).Some? {
      NameThenFreq(host.value);
    } else {
      var b := Emulated("GenuineIntel", host);
      assert forall i :: 0 <= i < |INTEL()| ==> b[i] == (INTEL() + At())[i];
      NoDigitsNoFreq(b);
    }
  }

  lemma NoDigitsNoFreq(b: seq<nat>)
    requires forall i :: 0 <= i < |b| ==> !Digit(b[i])
    ensures Freq(b).None?
  {
    forall s: nat, p: nat, q: nat
      ensures !Match(b, s, p, q)
    {
      assert s < |b| ==> !Digit(b[s]);
    }
    FreqIsNot(b);
  }

  lemma NameThenFreq(host: seq<nat>)
    requires Freq(host).Some? && |Freq(host).value| <= MAX_FREQ
    ensures Freq(Emulated("GenuineIntel", Some(host))) == Freq(host)
  {
    hide Freq, INTEL, At, Match, First, Matches, Digit;
    var b, f, name := Emulated("GenuineIntel", Some(host)), Freq(host).value, INTEL() + At();
    NamesAre();
    NameHasNoDigits();
    var p, q := FreqMatches(host);
    var n := |name|;
    assert b == name + f + Zeros(BYTES - n - |f|);
    assert b[n..n + |f|] == f;
    Shifted(b, n, f, p, q);
    LeadingIsFirst(b, n, n + p, n + q);
    FreqIs(b, n, n + q + 3);
  }

  lemma Shifted(b: seq<nat>, n: nat, f: seq<nat>, p: nat, q: nat)
    requires n + |f| <= |b| && b[n..n + |f|] == f && Match(f, 0, p, q)
    ensures Match(b, n, n + p, n + q)
  {
    assert forall i :: 0 <= i < |f| ==> b[n + i] == f[i];
    assert forall i :: n <= i < n + |f| ==> b[i] == f[i - n];
  }

  /** A match before which there are no digits is the first one. */
  lemma LeadingIsFirst(b: seq<nat>, n: nat, p: nat, q: nat)
    requires Match(b, n, p, q) && forall i :: 0 <= i < n ==> !Digit(b[i])
    ensures First(b, n, q + 3)
  {
    forall t: nat, p1: nat, q1: nat | Match(b, t, p1, q1)
      ensures n <= t && q + 3 <= q1 + 3
    {
      assert Digit(b[t]);
      FractionStart(b, n, p + 1, q, t, p1, q1);
    }
  }

  lemma OtherNamesShowNoFreq(vendor: string, host: Option<seq<nat>>)
    requires vendor != "GenuineIntel"
    ensures Freq(Emulated(vendor, host)).None?
  {
  }

  lemma NameIsText(host: Option<seq<nat>>)
    requires FreqFits(host)
    ensures HasText(Emulated("GenuineIntel", host))
  {
    hide Freq;
    assert Emulated("GenuineIntel", host)[0] == 'I' as int;
  }

  /** A guest of a guest gets the string its host got. */
  lemma EmulatedIsFixedPoint(vendor: string, host: Option<seq<nat>>)
    requires vendor == "GenuineIntel" ==> FreqFits(host)
    ensures var given := Emulated(vendor, host);
      && FreqFits(Some(given)) && (vendor == "GenuineIntel" ==> HasText(given))
      && Emulated(vendor, Some(given)) == given
  {
    hide Freq, INTEL, At, AMD;
    NamesAre();
    if vendor == "GenuineIntel" {
      EmulatedShowsFreq(host);
      NameIsText(host);
    } else {
      OtherNamesShowNoFreq(vendor, host);
    }
  }

  /** The string `n` levels further in; None if the program stops on the way. */
  ghost function Deeper(vendor: string, b: seq<nat>, n: nat): Option<seq<nat>>
    decreases n
  {
    if n == 0 then Some(b)
    else if vendor == "GenuineIntel" && (!HasText(b) || !FreqFits(Some(b))) then None
    else Deeper(vendor, Emulated(vendor, Some(b)), n - 1)
  }

  lemma {:induction false} NestingChangesNothing(vendor: string, host: Option<seq<nat>>, n: nat)
    requires vendor == "GenuineIntel" ==> FreqFits(host)
    ensures Deeper(vendor, Emulated(vendor, host), n) == Some(Emulated(vendor, host))
  {
    hide Freq, TextFor, Emulated;
    EmulatedIsFixedPoint(vendor, host);
    if n > 0 {
      NestingChangesNothing(vendor, host, n - 1);
    }
  }
}
