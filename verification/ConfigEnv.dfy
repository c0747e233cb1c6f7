/** What the entries of an environment do to it, said name by name. */
module ConfigEnv {
  import opened Options
  import opened ConfigReader

  /** The value an entry gives to a name: `NAME=value`, a name being what stands
      before the first `=`, and not empty. */
  function Given(entry: string, name: string): Option<string> {
    if name != "" && '=' !in name && |entry| > |name| && entry[..|name|] == name && entry[|name|] == '=' then
      Some(entry[|name| + 1..])
    else None
  }

  function VariableIn(env: Env, name: string): Option<string> {
    if name in env then Some(env[name]) else None
  }

  /** The value of a name after an entry, when it was `before`: what is there
      stays, except that `HOME` and `TERM` are replaced. */
  function Taken(before: Option<string>, entry: string, name: string): Option<string> {
    var given := Given(entry, name);
    if given.Some? && (before.None? || name == "HOME" || name == "TERM") then given else before
  }

  /** The value of a name after all entries. */
  function ValueAfter(before: Option<string>, entries: seq<string>, name: string): Option<string> {
    if entries == [] then before
    else
      var last := |entries| - 1;
      Taken(ValueAfter(before, entries[..last], name), entries[last], name)
  }

  /** One entry: the name it gives a value to, and no other. */
  lemma EntrySets(env: Env, entry: string, name: string)
    ensures VariableIn(AddEntry(env, entry), name) == Taken(VariableIn(env, name), entry, name)
  {
    var k := EqualsAt(entry);
    if Given(entry, name).Some? {
      NameEnds(entry, name, k);
    } else if k < |entry| && entry[..k] == name {
      assert name == "";
    }
  }

  lemma NameEnds(entry: string, name: string, k: nat)
    requires Given(entry, name).Some? && k <= |entry| && '=' !in entry[..k] && (k < |entry| ==> entry[k] == '=')
    ensures k == |name|
  {
  }

  /** All entries, name by name. */
  lemma {:induction false} EntriesSet(env: Env, entries: seq<string>, name: string)
    ensures VariableIn(AddEntries(env, entries), name) == ValueAfter(VariableIn(env, name), entries, name)
    decreases |entries|
  {
    hide AddEntry, Given;
    if entries != [] {
      var last := |entries| - 1;
      EntriesSet(env, entries[..last], name);
      EntrySets(AddEntries(env, entries[..last]), entries[last], name);
    }
  }

  /** A name that was there keeps its value. */
  lemma {:induction false} OldValueStays(before: Option<string>, entries: seq<string>, name: string)
    requires before.Some? && name != "HOME" && name != "TERM"
    ensures ValueAfter(before, entries, name) == before
    decreases |entries|
  {
    if entries != [] { OldValueStays(before, entries[..|entries| - 1], name); }
  }

  /** Of a new name the first entry counts. */
  lemma {:induction false} FirstEntryCounts(entries: seq<string>, name: string, i: nat)
    requires i < |entries| && Given(entries[i], name).Some? && name != "HOME" && name != "TERM"
    requires forall j :: 0 <= j < i ==> Given(entries[j], name).None?
    ensures ValueAfter(None, entries, name) == Given(entries[i], name)
    decreases |entries|
  {
    hide Given;
    var last := |entries| - 1;
    if i < last {
      FirstEntryCounts(entries[..last], name, i);
    } else {
      NothingGiven(None, entries[..last], name);
    }
  }

  /** Of `HOME` and `TERM` the last. */
  lemma {:induction false} LastEntryCounts(before: Option<string>, entries: seq<string>, name: string, i: nat)
    requires i < |entries| && Given(entries[i], name).Some? && (name == "HOME" || name == "TERM")
    requires forall j :: i < j < |entries| ==> Given(entries[j], name).None?
    ensures ValueAfter(before, entries, name) == Given(entries[i], name)
    decreases |entries|
  {
    hide Given;
    var last := |entries| - 1;
    if i < last { LastEntryCounts(before, entries[..last], name, i); }
  }

  lemma {:induction false} NothingGiven(before: Option<string>, entries: seq<string>, name: string)
    requires forall j :: 0 <= j < |entries| ==> Given(entries[j], name).None?
    ensures ValueAfter(before, entries, name) == before
    decreases |entries|
  {
    hide Given;
    if entries != [] { NothingGiven(before, entries[..|entries| - 1], name); }
  }

  /* ---- names ---- */

  function Small(k: nat): char
    requires k < 26
  {
    "abcdefghijklmnopqrstuvwxyz"[k]
  }

  function Large(k: nat): char
    requires k < 26
  {
    "ABCDEFGHIJKLMNOPQRSTUVWXYZ"[k]
  }

  /** The same character, or the same letter in the other case. */
  predicate SameLetter(c: char, d: char) {
    c == d || exists k :: 0 <= k < 26 && ((c == Small(k) && d == Large(k)) || (c == Large(k) && d == Small(k)))
  }

  lemma LetterCase(k: nat)
    requires k < 26
    ensures Small(k) as int == k + 97 && Large(k) as int == k + 65
  {
  }

  lemma LowerIsCase(c: char, d: char)
    ensures Lower(c) == Lower(d) <==> SameLetter(c, d)
  {
    hide Small, Large;
    if Lower(c) == Lower(d) && c != d {
      var k := if 'A' <= c <= 'Z' then c as int - 65 else d as int - 65;
      LetterCase(k);
    } else if c != d && SameLetter(c, d) {
      var k :| 0 <= k < 26 && ((c == Small(k) && d == Large(k)) || (c == Large(k) && d == Small(k)));
      LetterCase(k);
    }
  }

  /** The same letters, in either case. */
  predicate SameWord(a: string, b: string) {
    |a| == |b| && forall i :: 0 <= i < |a| ==> SameLetter(a[i], b[i])
  }

  /** Names are compared letter by letter, in either case. */
  lemma NamesIgnoreCase(a: string, b: string)
    ensures SameName(a, b) <==> SameWord(a, b)
  {
    hide Lower, SameLetter;
    if |a| == |b| {
      forall i | 0 <= i < |a| ensures Lower(a[i]) == Lower(b[i]) <==> SameLetter(a[i], b[i]) {
        LowerIsCase(a[i], b[i]);
      }
    }
  }
}
