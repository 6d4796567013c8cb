/**
 * How the generator and the matcher fit together: feeding the notes of a
 * generated chord back in as input, the intended matcher names the chord
 * the generator printed.
 */
module Consistency {
  import opened Wrappers
  import opened Slots
  import opened Notes
  import opened Catalogue
  import opened Intervals
  import opened Matcher
  import opened Generator

  /** Intervals that meet, one by one, the first `n` slots of a template
      whose present slots form a prefix of length `n` have as interval
      classes exactly the template's present offsets. */
  lemma OffsetClasses(iv: seq<int>, slots: seq<Slot>)
    requires PresentPrefix(slots) && |iv| == PresentCount(slots)
    requires forall k :: 0 <= k < |iv| ==>
               k < |slots| && slots[k].Some? && iv[k] % NoteCount == slots[k].value
    ensures IntervalClasses(iv) == PresentSet(slots)
  {
    PresentPrefixCount(slots);
    forall x | x in PresentSet(slots)
      ensures exists k :: 0 <= k < |iv| && iv[k] % NoteCount == x
    {
      var j :| 0 <= j < |slots| && slots[j] == Some(x);
      assert iv[j] % NoteCount == x;
    }
    ClassesAre(iv, PresentSet(slots));
  }

  /** Notes spelled from a template (the first `n` slots present, note
      `k` lying slot `k`'s offset above the root, modulo 12) have as
      interval classes exactly the template's present offsets. */
  lemma SpelledIntervalClasses(notes: seq<string>, root: string, slots: seq<Slot>)
    requires |notes| > 0 && notes[0] == root
    requires PresentPrefix(slots) && |notes| == PresentCount(slots)
    requires Spells(notes, root, slots)
    ensures IntervalClasses(InputIntervals(notes)) == PresentSet(slots)
  {
    var iv := InputIntervals(notes);
    forall k | 0 <= k < |iv|
      ensures k < |slots| && slots[k].Some? && iv[k] % NoteCount == slots[k].value
    {
      assert iv[k] == Number(notes[k]) - Number(root);
    }
    OffsetClasses(iv, slots);
  }

  /** The interval classes of a generated chord's notes, measured from its
      first note, are exactly the template's present offsets. */
  lemma GeneratedChordMatchesIntended(t: Template, i: nat, r: NoteNumber)
    requires WellFormed(t) && PresentPrefix(t.slots) && i < |t.slots| && t.slots[i].Some?
    ensures forall k :: 0 <= k < |ChordFor(t, i, r).value.notes| ==>
              IsNoteName(ChordFor(t, i, r).value.notes[k])
    ensures MatchesIntended(t, InputIntervals(ChordFor(t, i, r).value.notes))
  {
    var c := ChordFor(t, i, r).value;
    ChordSpelling(t, i, r);
    SpelledIntervalClasses(c.notes, c.root, t.slots);
  }

  /** Every chord the generator prints from the catalogue, typed back in,
      is reported by the intended matcher under its printed root and
      template name. */
  lemma GeneratedChordDetectedIntended(k: nat, i: nat, r: NoteNumber)
    requires k < |Templates| && HasSlot(Templates[k], i)
    ensures forall j :: 0 <= j < |ChordFor(Templates[k], i, r).value.notes| ==>
              IsNoteName(ChordFor(Templates[k], i, r).value.notes[j])
    ensures Detection(ChordFor(Templates[k], i, r).value.root, Templates[k].name)
              in DetectIntended(ChordFor(Templates[k], i, r).value.notes,
                                InputIntervals(ChordFor(Templates[k], i, r).value.notes))
  {
    CatalogueWellFormed();
    GeneratedChordMatchesIntended(Templates[k], i, r);
  }
}
