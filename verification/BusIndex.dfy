/**
 * The device bus: an ordered map from base addresses to ranges, searched from its end. It
 * must agree with a search for the one range that contains an address.
 */
module BusIndex {
  import opened Options

  const WORD: nat := 0x1_0000_0000_0000_0000

  /** A device, here a number, at `base` for `len` addresses. */
  datatype Entry = Entry(base: nat, len: nat, device: nat)

  predicate Contains(e: Entry, addr: nat) {
    e.base <= addr < e.base + e.len
  }

  predicate Meets(a: Entry, b: Entry) {
    a.base < b.base + b.len && b.base < a.base + a.len
  }

  /** Ordered by base, as the map keeps them. */
  predicate Sorted(es: seq<Entry>) {
    forall i, j :: 0 <= i < j < |es| ==> es[i].base < es[j].base
  }

  predicate Apart(es: seq<Entry>) {
    && (forall i :: 0 <= i < |es| ==> es[i].len > 0)
    && forall i, j :: 0 <= i < |es| && 0 <= j < |es| && i != j ==> !Meets(es[i], es[j])
  }

  /** In a sorted sequence of disjoint ranges each ends before the next begins. */
  predicate Valid(es: seq<Entry>) {
    Sorted(es) && Apart(es)
  }

  predicate Free(es: seq<Entry>, e: Entry) {
    forall i :: 0 <= i < |es| ==> !Meets(es[i], e)
  }

  // Searching.

  /** The number of entries that start at or before `addr`. */
  function UpTo(es: seq<Entry>, addr: nat): (k: nat)
    requires Sorted(es)
    ensures k <= |es|
    ensures forall i :: 0 <= i < k ==> es[i].base <= addr
    ensures forall i :: k <= i < |es| ==> es[i].base > addr
  {
    if es == [] then 0
    else if es[|es| - 1].base <= addr then |es|
    else UpTo(es[..|es| - 1], addr)
  }

  method FirstBefore(es: seq<Entry>, addr: nat) returns (found: Option<Entry>)
    requires Sorted(es)
    ensures found == if UpTo(es, addr) == 0 then None else Some(es[UpTo(es, addr) - 1])
  {
    var i := |es|;
    while i > 0
      invariant UpTo(es, addr) <= i <= |es|
    {
      if es[i - 1].base <= addr {
        return Some(es[i - 1]);
      }
      i := i - 1;
    }
    return None;
  }

  /** The search: some entry contains the address, with this offset, or none does. */
  method GetDevice(es: seq<Entry>, addr: nat) returns (found: Option<(nat, nat)>)
    requires Valid(es)
    ensures found.Some? <==> exists i :: 0 <= i < |es| && Contains(es[i], addr)
    ensures forall i :: 0 <= i < |es| && Contains(es[i], addr) ==>
                          found == Some((addr - es[i].base, es[i].device))
  {
    var before := FirstBefore(es, addr);
    if before.Some? {
      var offset := addr - before.value.base;
      assert before.value in es;
      if offset < before.value.len {
        found := Some((offset, before.value.device));
        OnlyOneContains(es, addr, UpTo(es, addr) - 1);
        return;
      }
    }
    NoneContains(es, addr);
    found := None;
  }

  lemma OnlyOneContains(es: seq<Entry>, addr: nat, k: nat)
    requires Apart(es) && k < |es| && Contains(es[k], addr)
    ensures forall i :: 0 <= i < |es| && Contains(es[i], addr) ==> i == k
  {
  }

  /** Only the last entry at or before an address can contain it. */
  lemma NoneContains(es: seq<Entry>, addr: nat)
    requires Valid(es)
    requires UpTo(es, addr) > 0 ==> !Contains(es[UpTo(es, addr) - 1], addr)
    ensures forall i :: 0 <= i < |es| ==> !Contains(es[i], addr)
  {
  }

  // Inserting.

  function Placed(es: seq<Entry>, e: Entry): seq<Entry>
    requires Sorted(es)
  {
    es[..UpTo(es, e.base)] + [e] + es[UpTo(es, e.base)..]
  }

  /** What insertion promises: the new entries, or nothing when the range is refused. */
  function Inserted(es: seq<Entry>, e: Entry): Option<seq<Entry>>
    requires Sorted(es)
  {
    if e.len > 0 && Free(es, e) then Some(Placed(es, e)) else None
  }

  lemma PlacedAt(es: seq<Entry>, e: Entry)
    requires Sorted(es)
    ensures var k, p := UpTo(es, e.base), Placed(es, e);
      && |p| == |es| + 1 && p[k] == e
      && (forall i :: 0 <= i < k ==> p[i] == es[i])
      && (forall i :: k < i < |p| ==> p[i] == es[i - 1])
    ensures multiset(Placed(es, e)) == multiset(es) + multiset{e}
  {
    hide UpTo, Sorted;
    var k := UpTo(es, e.base);
    assert es == es[..k] + es[k..];
  }

  lemma PlacedIsSorted(es: seq<Entry>, e: Entry)
    requires Sorted(es) && forall i :: 0 <= i < |es| ==> es[i].base != e.base
    ensures Sorted(Placed(es, e))
  {
  }

  lemma PlacedIsApart(es: seq<Entry>, e: Entry)
    requires Sorted(es) && Apart(es) && e.len > 0 && Free(es, e)
    ensures Apart(Placed(es, e))
  {
    hide Placed, Sorted, Meets;
    PlacedAt(es, e);
    var k, p := UpTo(es, e.base), Placed(es, e);
    forall i, j | 0 <= i < |p| && 0 <= j < |p| && i != j
      ensures !Meets(p[i], p[j])
    {
      MeetsSymmetric(p[i], p[j]);
      var a, b := if i < k then i else i - 1, if j < k then j else j - 1;
      if i != k && j != k {
        assert !Meets(es[a], es[b]);
      } else if i != k {
        assert !Meets(es[a], e);
      } else {
        assert !Meets(es[b], e);
      }
    }
    assert forall i :: 0 <= i < |p| ==> p[i].len > 0;
  }

  lemma MeetsSymmetric(a: Entry, b: Entry)
    ensures Meets(a, b) == Meets(b, a)
  {
  }

  lemma PlacedIsValid(es: seq<Entry>, e: Entry)
    requires Valid(es) && e.len > 0 && Free(es, e)
    ensures Valid(Placed(es, e)) && multiset(Placed(es, e)) == multiset(es) + multiset{e}
  {
    hide Placed, Sorted, Apart, Free;
    FreeHasNoBase(es, e);
    PlacedAt(es, e);
    PlacedIsSorted(es, e);
    PlacedIsApart(es, e);
  }

  /** The code's tests, with the end of the range computed in a wrapping machine word. */
  predicate Passes(es: seq<Entry>, e: Entry)
    requires Sorted(es)
  {
    && e.len > 0
    && (forall i :: 0 <= i < |es| ==> !Contains(es[i], e.base))
    && var k := UpTo(es, (e.base + e.len - 1) % WORD); k > 0 ==> es[k - 1].base < e.base
  }

  /** All bases are machine words. */
  predicate InWord(es: seq<Entry>) {
    forall i :: 0 <= i < |es| ==> es[i].base < 0x1_0000_0000_0000_0000
  }

  /**
   * What a caller can see before inserting: the end of the range does not wrap; or the range
   * begins inside a stored one; or no stored one begins after it.
   */
  predicate WrapsHarmlessly(es: seq<Entry>, e: Entry) {
    || e.base + e.len <= 0x1_0000_0000_0000_0000
    || (exists i :: 0 <= i < |es| && Contains(es[i], e.base))
    || (forall i :: 0 <= i < |es| ==> es[i].base <= e.base)
  }

  lemma UnwrappedPasses(es: seq<Entry>, e: Entry)
    requires Valid(es) && e.base + e.len <= WORD
    ensures Passes(es, e) <==> e.len > 0 && Free(es, e)
  {
  }

  /** A wrapped end lies before the base, so the last of the tests says nothing. */
  lemma WrappedPasses(es: seq<Entry>, e: Entry)
    requires Sorted(es) && e.base < WORD && e.len < WORD && e.base + e.len > WORD
    ensures Passes(es, e) <==> forall i :: 0 <= i < |es| ==> !Contains(es[i], e.base)
  {
    assert (e.base + e.len - 1) % WORD == e.base + e.len - 1 - WORD;
  }

  /** The tests say that the range is not empty and meets no stored one, if and only if it
      wraps harmlessly. */
  lemma PassesIffFree(es: seq<Entry>, e: Entry)
    requires Valid(es) && InWord(es) && e.base < WORD && e.len < WORD
    ensures (Passes(es, e) <==> e.len > 0 && Free(es, e)) <==> WrapsHarmlessly(es, e)
  {
    hide Passes, Sorted;
    if e.base + e.len <= WORD {
      UnwrappedPasses(es, e);
    } else {
      WrappedPasses(es, e);
      if i :| 0 <= i < |es| && Contains(es[i], e.base) {
        assert Meets(es[i], e);
      } else if i :| 0 <= i < |es| && es[i].base > e.base {
        assert Meets(es[i], e);
      } else {
        assert forall i :: 0 <= i < |es| ==> es[i].base + es[i].len <= e.base;
      }
    }
  }

  lemma RefusedHarmlessly(es: seq<Entry>, e: Entry)
    requires Valid(es) && e.base < WORD && e.len < WORD && !Passes(es, e)
    ensures WrapsHarmlessly(es, e)
  {
    hide Passes, Sorted;
    if e.base + e.len > WORD { WrappedPasses(es, e); }
  }

  lemma PlacedMeets(es: seq<Entry>, e: Entry)
    requires Sorted(es) && !Free(es, e)
    ensures !Apart(Placed(es, e))
  {
    hide Placed, Sorted, Meets;
    PlacedAt(es, e);
    var i :| 0 <= i < |es| && Meets(es[i], e);
    var k, p := UpTo(es, e.base), Placed(es, e);
    var j := if i < k then i else i + 1;
    assert p[j] == es[i] && p[k] == e;
  }

  /** Otherwise they pass a range that lies across a stored one. */
  lemma WrappedEndPasses()
    ensures var es, e := [Entry(100, 10, 0)], Entry(50, WORD - 20, 1);
      Valid(es) && InWord(es) && e.base < WORD && e.len < WORD && Passes(es, e) && !Free(es, e)
  {
    var es, e := [Entry(100, 10, 0)], Entry(50, WORD - 20, 1);
    assert (e.base + e.len - 1) % WORD == 29;
    assert Meets(es[0], e);
  }

  lemma FreeHasNoBase(es: seq<Entry>, e: Entry)
    requires Free(es, e) && e.len > 0 && Apart(es)
    ensures forall i :: 0 <= i < |es| ==> es[i].base != e.base
  {
  }

  lemma PassedHasNoBase(es: seq<Entry>, e: Entry)
    requires Valid(es) && Passes(es, e)
    ensures forall i :: 0 <= i < |es| ==> es[i].base != e.base
  {
  }

  lemma PlacedInWord(es: seq<Entry>, e: Entry)
    requires Sorted(es) && InWord(es) && e.base < WORD
    ensures InWord(Placed(es, e))
  {
  }

  class Bus {
    var devices: seq<Entry>

    constructor ()
      ensures devices == [] && Valid(devices) && InWord(devices)
    {
      devices := [];
    }

    /** The map's own insertion: it replaces the device of an entry with the same base. */
    method MapInsert(e: Entry) returns (replaced: bool)
      requires Sorted(devices)
      modifies this
      ensures replaced <==> exists i :: 0 <= i < |old(devices)| && old(devices)[i].base == e.base
      ensures !replaced ==> devices == Placed(old(devices), e)
    {
      var k := UpTo(devices, e.base);
      replaced := k > 0 && devices[k - 1].base == e.base;
      if replaced {
        devices := devices[k - 1 := devices[k - 1].(device := e.device)];
      } else {
        devices := devices[..k] + [e] + devices[k..];
      }
    }

    /**
     * Refused, a range changes nothing, and the map never replaces a device. The ranges stay
     * disjoint, and a range is accepted exactly when it is not empty and meets no stored one,
     * if and only if it wraps harmlessly.
     */
    method Insert(device: nat, base: nat, len: nat) returns (ok: bool)
      requires Valid(devices) && InWord(devices) && base < WORD && len < WORD
      modifies this
      ensures ok == Passes(old(devices), Entry(base, len, device))
      ensures devices == if ok then Placed(old(devices), Entry(base, len, device)) else old(devices)
      ensures InWord(devices)
      ensures Valid(devices) <==> WrapsHarmlessly(old(devices), Entry(base, len, device))
      ensures (if ok then Some(devices) else None) == Inserted(old(devices), Entry(base, len, device))
              <==> WrapsHarmlessly(old(devices), Entry(base, len, device))
    {
      hide Free, Placed, UpTo, Sorted, Apart, WrapsHarmlessly;
      var e := Entry(base, len, device);
      PassesIffFree(devices, e);
      PlacedInWord(devices, e);
      if !Passes(devices, e) {
        RefusedHarmlessly(devices, e);
      }
      if len > 0 && Free(devices, e) {
        PlacedIsValid(devices, e);
      } else if len > 0 {
        PlacedMeets(devices, e);
      }
      if len == 0 {
        return false;
      }
      var there := GetDevice(devices, base);
      if there.Some? {
        return false;
      }
      var last := (base + len - 1) % WORD;
      var before := FirstBefore(devices, last);
      if before.Some? && before.value.base >= base {
        return false;
      }
      PassedHasNoBase(devices, e);
      var replaced := MapInsert(e);
      ok := !replaced;
    }
  }

  // The order of insertion.

  /** Inserting one range after another; None as soon as one is refused. */
  function InsertAll(es: seq<Entry>): (r: Option<seq<Entry>>)
    ensures r.Some? ==> Valid(r.value) && multiset(r.value) == multiset(es)
  {
    if es == [] then Some([])
    else
      var n := |es| - 1;
      var before := InsertAll(es[..n]);
      assert es == es[..n] + [es[n]];
      if before.None? || Inserted(before.value, es[n]).None? then None
      else
        PlacedIsValid(before.value, es[n]);
        Inserted(before.value, es[n])
  }

  /** All ranges are accepted exactly when they are non-empty and pairwise disjoint. */
  lemma {:induction false} AllAccepted(es: seq<Entry>)
    ensures InsertAll(es).Some? <==> Apart(es)
  {
    if es != [] {
      var n := |es| - 1;
      AllAccepted(es[..n]);
      assert es == es[..n] + [es[n]];
      if InsertAll(es[..n]).Some? {
        SameFree(InsertAll(es[..n]).value, es[..n], es[n]);
        ApartLast(es, n);
      } else if Apart(es) {
        ApartPrefix(es, n);
      }
    }
  }

  /**
   * Inserting a list of ranges that end within the address space, one call after the other on an
   * empty bus, up to the first that is refused: the calls end as the specified insertions do.
   */
  method InsertEach(ranges: seq<Entry>) returns (bus: Bus, ok: bool)
    requires forall i :: 0 <= i < |ranges| ==>
               ranges[i].base < WORD && ranges[i].len < WORD && ranges[i].base + ranges[i].len <= WORD
    ensures fresh(bus) && Valid(bus.devices)
    ensures ok <==> InsertAll(ranges).Some?
    ensures ok ==> InsertAll(ranges) == Some(bus.devices)
  {
    hide Valid, Inserted, Placed, WrapsHarmlessly;
    bus := new Bus();
    ok := true;
    assert ranges[..0] == [];
    for i := 0 to |ranges|
      invariant fresh(bus) && Valid(bus.devices) && InWord(bus.devices)
      invariant InsertAll(ranges[..i]) == Some(bus.devices)
    {
      var e := ranges[i];
      InsertOne(ranges, i);
      EndsWithin(bus.devices, e);
      ok := bus.Insert(e.device, e.base, e.len);
      if !ok {
        RefusedForGood(ranges, i + 1);
        return;
      }
    }
    assert ranges[..|ranges|] == ranges;
  }

  lemma EndsWithin(es: seq<Entry>, e: Entry)
    requires e.base + e.len <= WORD
    ensures WrapsHarmlessly(es, e)
  {
  }

  lemma InsertOne(ranges: seq<Entry>, i: nat)
    requires i < |ranges| && InsertAll(ranges[..i]).Some?
    ensures Sorted(InsertAll(ranges[..i]).value)
    ensures InsertAll(ranges[..i + 1]) == Inserted(InsertAll(ranges[..i]).value, ranges[i])
  {
    hide Inserted;
    assert ranges[..i + 1][..i] == ranges[..i];
  }

  lemma {:induction false} RefusedForGood(ranges: seq<Entry>, i: nat)
    requires i <= |ranges| && InsertAll(ranges[..i]).None?
    ensures InsertAll(ranges).None?
    decreases |ranges| - i
  {
    hide Inserted;
    if i == |ranges| {
      assert ranges[..i] == ranges;
    } else {
      assert ranges[..i + 1][..i] == ranges[..i];
      RefusedForGood(ranges, i + 1);
    }
  }

  lemma ApartPrefix(es: seq<Entry>, n: nat)
    requires n < |es| && Apart(es)
    ensures Apart(es[..n])
  {
  }

  lemma ApartLast(es: seq<Entry>, n: nat)
    requires n + 1 == |es| && Apart(es[..n])
    ensures Apart(es) <==> es[n].len > 0 && Free(es[..n], es[n])
  {
  }

  lemma SameFree(a: seq<Entry>, b: seq<Entry>, e: Entry)
    requires multiset(a) == multiset(b)
    ensures Free(a, e) == Free(b, e)
  {
    assert forall x :: x in a <==> x in multiset(a);
    assert forall x :: x in b <==> x in multiset(b);
    assert Free(a, e) == forall x :: x in a ==> !Meets(x, e);
  }

  /** Disjointness, said of the ranges regardless of their order. */
  ghost predicate ApartAll(m: multiset<Entry>) {
    && (forall x :: x in m ==> x.len > 0 && m[x] == 1)
    && forall x, y :: x in m && y in m && x != y ==> !Meets(x, y)
  }

  lemma {:induction false} ApartByContents(es: seq<Entry>)
    ensures Apart(es) <==> ApartAll(multiset(es))
  {
    if es != [] {
      var n := |es| - 1;
      ApartByContents(es[..n]);
      assert es == es[..n] + [es[n]];
      assert multiset(es) == multiset(es[..n]) + multiset{es[n]};
      ApartAllMore(multiset(es[..n]), es[n]);
      FreeOfContents(es[..n], es[n]);
      if Apart(es) {
        ApartPrefix(es, n);
      }
      if Apart(es[..n]) {
        ApartLast(es, n);
      }
    }
  }

  lemma FreeOfContents(es: seq<Entry>, e: Entry)
    ensures Free(es, e) <==> forall x :: x in multiset(es) ==> !Meets(x, e)
  {
    assert forall x :: x in es <==> x in multiset(es);
  }

  lemma ApartAllMore(m: multiset<Entry>, e: Entry)
    ensures ApartAll(m + multiset{e}) <==>
            ApartAll(m) && e.len > 0 && forall x :: x in m ==> !Meets(x, e)
  {
  }

  lemma LastIsLargest(a: seq<Entry>, e: Entry)
    requires Sorted(a) && a != [] && e in multiset(a)
    ensures e.base <= a[|a| - 1].base
    ensures e.base == a[|a| - 1].base ==> e == a[|a| - 1]
  {
    var i :| 0 <= i < |a| && a[i] == e;
  }

  lemma WithoutLast(a: seq<Entry>)
    requires a != []
    ensures multiset(a[..|a| - 1]) == multiset(a) - multiset{a[|a| - 1]}
  {
    assert a == a[..|a| - 1] + [a[|a| - 1]];
  }

  lemma SortedPrefix(a: seq<Entry>, n: nat)
    requires Sorted(a) && n <= |a|
    ensures Sorted(a[..n])
  {
  }

  lemma SameLength(a: seq<Entry>, b: seq<Entry>)
    requires multiset(a) == multiset(b)
    ensures |a| == |b|
  {
    assert |a| == |multiset(a)| == |multiset(b)| == |b|;
  }

  lemma SameLast(a: seq<Entry>, b: seq<Entry>)
    requires Sorted(a) && Sorted(b) && multiset(a) == multiset(b) && a != [] && b != []
    ensures a[|a| - 1] == b[|b| - 1]
  {
    hide Sorted;
    var x, y := a[|a| - 1], b[|b| - 1];
    assert x in multiset(a) && y in multiset(b);
    LastIsLargest(a, y);
    LastIsLargest(b, x);
  }

  lemma {:induction false} SortedIsUnique(a: seq<Entry>, b: seq<Entry>)
    requires Sorted(a) && Sorted(b) && multiset(a) == multiset(b)
    ensures a == b
  {
    hide Sorted;
    SameLength(a, b);
    if a != [] {
      var n := |a| - 1;
      SameLast(a, b);
      WithoutLast(a);
      WithoutLast(b);
      SortedPrefix(a, n);
      SortedPrefix(b, n);
      SortedIsUnique(a[..n], b[..n]);
      calc {
        a;
        a[..n] + [a[n]];
        b[..n] + [b[n]];
        b;
      }
    }
  }

  /** Whatever order the ranges are inserted in, the same are accepted and the bus is the same. */
  lemma OrderDoesNotMatter(a: seq<Entry>, b: seq<Entry>)
    requires multiset(a) == multiset(b)
    ensures InsertAll(a) == InsertAll(b)
  {
    AllAccepted(a);
    AllAccepted(b);
    ApartByContents(a);
    ApartByContents(b);
    if InsertAll(a).Some? {
      SortedIsUnique(InsertAll(a).value, InsertAll(b).value);
    }
  }
}
