/**
 * The pitch-class table: twelve note numbers 1..12 and their flat-spelled
 * names, `Ab` = 1 up to `G` = 12, with the reverse lookup built from it.
 */
module Notes {
  import opened Wrappers

  /** The note names in number order; the name of note `n` is at index `n - 1`. */
  const NoteNames: seq<string> :=
    ["Ab", "A", "Bb", "B", "C", "Db", "D", "Eb", "E", "F", "Gb", "G"]

  /** The size of the table, the period that transposition wraps by. */
  const NoteCount: int := 12

  type NoteNumber = n: int | 1 <= n <= 12 witness 1

  /** `name` is a key of the reverse table: some note number carries it. */
  predicate IsNoteName(name: string)
  {
    exists k :: 0 <= k < |NoteNames| && NoteNames[k] == name
  }

  /** The name of a note number (the forward table). */
  function NameOf(n: NoteNumber): (name: string)
    ensures IsNoteName(name)
    ensures 1 <= |name| <= 2
  {
    NoteNames[n - 1]
  }

  /** The first note number from `n` on whose name is `name`, if any. */
  function SearchFrom(name: string, n: NoteNumber): (r: Option<NoteNumber>)
    ensures r.Some? <==> exists m: NoteNumber :: n <= m && NameOf(m) == name
    ensures r.Some? ==> n <= r.value && NameOf(r.value) == name
    decreases 12 - n
  {
    if NameOf(n) == name then Some(n)
    else if n == 12 then None
    else SearchFrom(name, n + 1)
  }

  /** The number of a note name (the reverse table); `None` for a name the
      table does not hold, where the source's dictionary lookup would fail. */
  function NumberOf(name: string): (r: Option<NoteNumber>)
    ensures r.Some? <==> IsNoteName(name)
    ensures r.Some? ==> NameOf(r.value) == name
  {
    NameInTable(name);
    SearchFrom(name, 1)
  }

  /** A name is in the table exactly when some note number carries it. */
  lemma NameInTable(name: string)
    ensures IsNoteName(name) <==> exists m: NoteNumber :: NameOf(m) == name
  {
    if IsNoteName(name) {
      var k :| 0 <= k < |NoteNames| && NoteNames[k] == name;
      assert NameOf(k + 1) == name;
    }
  }

  /** The number of a name known to be in the table. */
  function Number(name: string): (n: NoteNumber)
    requires IsNoteName(name)
    ensures NameOf(n) == name
  {
    NumberOf(name).value
  }

  /** The twelve names are pairwise distinct and each is one or two characters. */
  lemma NamesDistinct()
    ensures |NoteNames| == NoteCount
    ensures forall i, j :: 0 <= i < j < |NoteNames| ==> NoteNames[i] != NoteNames[j]
    ensures forall i :: 0 <= i < |NoteNames| ==> 1 <= |NoteNames[i]| <= 2
  {
  }

  /** Name-of then number-of gives back the number. */
  lemma NumberOfNameOf(n: NoteNumber)
    ensures NumberOf(NameOf(n)) == Some(n)
  {
    NamesDistinct();
    var m := NumberOf(NameOf(n)).value;
    assert NoteNames[m - 1] == NoteNames[n - 1];
  }

  /** Reading one entry of the reverse table. */
  lemma NumberIs(name: string, n: NoteNumber)
    requires NameOf(n) == name
    ensures IsNoteName(name) && Number(name) == n
  {
    NumberOfNameOf(n);
  }

  /** Number-of then name-of gives back the name. */
  lemma NameOfNumberOf(name: string)
    requires IsNoteName(name)
    ensures NumberOf(name).Some? && NameOf(NumberOf(name).value) == name
  {
  }

  /** The table is a bijection between 1..12 and its twelve names. */
  lemma TableIsBijection()
    ensures forall n: NoteNumber, m: NoteNumber :: NameOf(n) == NameOf(m) ==> n == m
    ensures forall name :: IsNoteName(name) <==> exists n: NoteNumber :: NameOf(n) == name
  {
    forall n: NoteNumber, m: NoteNumber | NameOf(n) == NameOf(m)
      ensures n == m
    {
      NumberOfNameOf(n);
      NumberOfNameOf(m);
    }
    forall name
      ensures IsNoteName(name) <==> exists n: NoteNumber :: NameOf(n) == name
    {
      NameInTable(name);
    }
  }

  /** Every name is a letter A..G, optionally followed by a lower-case `b`. */
  lemma NameShape(name: string)
    requires IsNoteName(name)
    ensures 'A' <= name[0] <= 'G'
    ensures |name| == 1 || (|name| == 2 && name[1] == 'b')
    ensures ',' !in name
  {
  }
}
