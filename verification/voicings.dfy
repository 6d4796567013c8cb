/**
 * Worked examples of the chord generator: the Major template voiced
 * around the note C at each of its slots.
 */
module Voicings {
  import opened Wrappers
  import opened Slots
  import opened Notes
  import opened Catalogue
  import opened Generator

  /** The Major template: offsets 0, 4, 7 and two absent slots. */
  lemma MajorShape()
    ensures Templates[1].name == "Major"
    ensures Templates[1].slots == [Some(0), Some(4), Some(7), None, None]
    ensures PresentCount(Templates[1].slots) == 3
  {
  }

  /** The names of the note numbers the examples below use. */
  lemma SpelledNames()
    ensures NameOf(1) == "Ab" && NameOf(2) == "A" && NameOf(5) == "C" && NameOf(8) == "Eb"
    ensures NameOf(9) == "E" && NameOf(10) == "F" && NameOf(12) == "G"
  {
  }

  /** A chord from a three-note template spells its three transposed
      slots. */
  lemma ThreeNoteChord(t: Template, i: nat, r: NoteNumber, a: NoteNumber, b: NoteNumber, c: NoteNumber)
    requires WellFormed(t) && PresentPrefix(t.slots) && PresentCount(t.slots) == 3
    requires i < 3 && t.slots[i].Some?
    requires Transpose(t.slots, i, r)[0] == Some(a)
    requires Transpose(t.slots, i, r)[1] == Some(b)
    requires Transpose(t.slots, i, r)[2] == Some(c)
    ensures ChordFor(t, i, r) == Some(Chord(NameOf(a), t.name, [NameOf(a), NameOf(b), NameOf(c)]))
  {
    ChordNotes(t, i, r);
    var ch := ChordFor(t, i, r).value;
    assert ch.notes == [NameOf(a), NameOf(b), NameOf(c)];
  }

  /** With C (note 5) as the root, i.e. slot 0, Major gives C Major: C, E, G. */
  lemma CAsMajorRoot()
    ensures ChordFor(Templates[1], 0, 5) == Some(Chord("C", "Major", ["C", "E", "G"]))
  {
    var r: NoteNumber := 5;
    CatalogueWellFormed();
    MajorShape();
    TransposeReference(Templates[1].slots, 0, r);
    SpelledNames();
    ThreeNoteChord(Templates[1], 0, r, 5, 9, 12);
  }

  /** With C as the third (slot 1), Major gives Ab Major: Ab, C, Eb. */
  lemma CAsMajorThird()
    ensures ChordFor(Templates[1], 1, 5) == Some(Chord("Ab", "Major", ["Ab", "C", "Eb"]))
  {
    var r: NoteNumber := 5;
    CatalogueWellFormed();
    MajorShape();
    TransposeReference(Templates[1].slots, 1, r);
    SpelledNames();
    ThreeNoteChord(Templates[1], 1, r, 1, 5, 8);
  }

  /** With C as the fifth (slot 2), the root wraps up past 0: F Major, F, A, C. */
  lemma CAsMajorFifth()
    ensures ChordFor(Templates[1], 2, 5) == Some(Chord("F", "Major", ["F", "A", "C"]))
  {
    var r: NoteNumber := 5;
    CatalogueWellFormed();
    MajorShape();
    TransposeReference(Templates[1].slots, 2, r);
    SpelledNames();
    ThreeNoteChord(Templates[1], 2, r, 10, 2, 5);
  }

  /** Major has no fourth slot, so it yields no chord with the root there. */
  lemma MajorHasNoFourth(r: NoteNumber)
    ensures ChordFor(Templates[1], 3, r) == None
  {
    MajorShape();
    CatalogueWellFormed();
  }
}
