/**
 * The chord generator (`print_all_chords`): for a root note and each of
 * the five slot positions, every catalogue template is transposed so that
 * the slot at that position sounds the root note, and the transposed
 * template is spelled with the note table.
 *
 * Transposition follows the source literally: the shift is the distance
 * between the root's number and the template's offset at the chosen slot,
 * added or subtracted depending on which is larger, and the result is
 * folded back into 1..12 by one subtraction or addition of 12. Absent
 * slots stay absent throughout, so an absent chosen slot yields no chord.
 */
module Generator {
  import opened Wrappers
  import opened Slots
  import opened Notes
  import opened Catalogue

  /** One printed chord line: its root, the template's name and the notes. */
  datatype Chord = Chord(root: string, chordName: string, notes: seq<string>)

  /** Fold a value above 12 down by one octave. */
  function WrapDown(x: Slot): (r: Slot)
    ensures r.Some? <==> x.Some?
  {
    if Gt(x, Some(NoteCount)) then Sub(x, Some(NoteCount)) else x
  }

  /** Fold a value at or below 0 up by one octave. */
  function WrapUp(x: Slot): (r: Slot)
    ensures r.Some? <==> x.Some?
  {
    if Le(x, Some(0)) then Add(x, Some(NoteCount)) else x
  }

  /** One transposed slot: `x` moved so that offset `c` lands on note
      number `r`. Either branch is taken exactly as the source chooses it:
      the first when `r > c`, which is false when `c` is NaN. */
  function ShiftSlot(x: Slot, c: Slot, r: NoteNumber): (y: Slot)
    ensures y.Some? <==> x.Some? && c.Some?
  {
    if Gt(Some(r), c) then WrapDown(Add(x, Sub(Some(r), c)))
    else WrapUp(Sub(x, Sub(c, Some(r))))
  }

  /** The template's slots transposed so that slot `i` sounds note `r`. */
  function Transpose(slots: seq<Slot>, i: nat, r: NoteNumber): (t: seq<Slot>)
    requires i < |slots|
    requires OffsetsInOctave(slots)
    ensures |t| == |slots|
    ensures forall j :: 0 <= j < |t| ==> (t[j].Some? <==> slots[j].Some? && slots[i].Some?)
    ensures forall j :: 0 <= j < |t| && t[j].Some? ==> 1 <= t[j].value <= NoteCount
  {
    seq(|slots|, j requires 0 <= j < |slots| => ShiftSlot(slots[j], slots[i], r))
  }

  /** An independent statement of transposition: offset `x` lands on the
      note number congruent to `x - c + r` modulo 12, named in 1..12. */
  function ReferenceSlot(x: Slot, c: Slot, r: NoteNumber): (y: Slot)
    ensures y.Some? ==> 1 <= y.value <= NoteCount
  {
    if x.Some? && c.Some? then Some((x.value - c.value + r - 1) % NoteCount + 1) else None
  }

  /** For offsets within one octave, the source's shift-and-fold agrees
      with the modular reference. */
  lemma ShiftSlotReference(x: Slot, c: Slot, r: NoteNumber)
    requires x.Some? ==> 0 <= x.value <= 11
    requires c.Some? ==> 0 <= c.value <= 11
    ensures ShiftSlot(x, c, r) == ReferenceSlot(x, c, r)
  {
    if x.Some? && c.Some? {
      var d := x.value - c.value + r;
      if r > c.value {
        if d > 12 {
          assert (d - 1) % 12 == d - 13;
        } else {
          assert (d - 1) % 12 == d - 1;
        }
      } else {
        if d <= 0 {
          assert (d - 1) % 12 == d + 11;
        } else {
          assert (d - 1) % 12 == d - 1;
        }
      }
    }
  }

  /** Transposition is the modular reference, slot by slot. */
  lemma TransposeReference(slots: seq<Slot>, i: nat, r: NoteNumber)
    requires i < |slots| && OffsetsInOctave(slots)
    ensures forall j :: 0 <= j < |slots| ==>
              Transpose(slots, i, r)[j] == ReferenceSlot(slots[j], slots[i], r)
  {
    forall j | 0 <= j < |slots|
      ensures Transpose(slots, i, r)[j] == ReferenceSlot(slots[j], slots[i], r)
    {
      ShiftSlotReference(slots[j], slots[i], r);
    }
  }

  /** The chosen slot lands exactly on the root note, with no folding. */
  lemma TransposeAnchor(slots: seq<Slot>, i: nat, r: NoteNumber)
    requires i < |slots| && OffsetsInOctave(slots) && slots[i].Some?
    ensures Transpose(slots, i, r)[i] == Some(r)
  {
  }

  /** Transposition keeps the template's intervals: measured from the
      transposed slot 0, slot `j` lies `slots[j]` semitones up, modulo 12. */
  lemma TransposeKeepsIntervals(t: Template, i: nat, r: NoteNumber, j: nat)
    requires WellFormed(t) && i < |t.slots| && j < |t.slots|
    requires t.slots[i].Some? && t.slots[j].Some?
    ensures (Transpose(t.slots, i, r)[j].value - Transpose(t.slots, i, r)[0].value) % NoteCount
              == t.slots[j].value
  {
    TransposeReference(t.slots, i, r);
    var c, x := t.slots[i].value, t.slots[j].value;
    var p, q := x - c + r - 1, 0 - c + r - 1;
    assert Transpose(t.slots, i, r)[j].value == p % 12 + 1;
    assert Transpose(t.slots, i, r)[0].value == q % 12 + 1;
    ModDifference(p, q);
    assert p - q == x;
  }

  /** `(p % 12 - q % 12) % 12 == (p - q) % 12` under Euclidean modulus. */
  lemma ModDifference(p: int, q: int)
    ensures (p % 12 - q % 12) % 12 == (p - q) % 12
  {
    var a, b := p % 12, q % 12;
    var m, n := p / 12, q / 12;
    assert p == 12 * m + a && q == 12 * n + b;
    assert (a - b) - (p - q) == 12 * (n - m);
    ModShift(a - b, n - m);
  }

  /** Adding a multiple of 12 does not change the remainder. */
  lemma {:induction false} ModShift(v: int, k: int)
    ensures (v - 12 * k) % 12 == v % 12
    decreases if k < 0 then -k else k
  {
    if k > 0 {
      ModShift(v, k - 1);
      assert v - 12 * k == (v - 12 * (k - 1)) - 12;
    } else if k < 0 {
      ModShift(v, k + 1);
      assert v - 12 * k == (v - 12 * (k + 1)) + 12;
    }
  }

  /** The chord printed for template `t` with the root note at slot `i`,
      or nothing when that slot is absent. */
  function ChordFor(t: Template, i: nat, r: NoteNumber): (c: Option<Chord>)
    requires WellFormed(t) && i < |t.slots|
    ensures c.Some? <==> t.slots[i].Some?
    ensures c.Some? ==>
              && c.value.chordName == t.name
              && |c.value.notes| == PresentCount(t.slots)
              && c.value.root == c.value.notes[0]
  {
    var trans := Transpose(t.slots, i, r);
    var present := StripAbsent(trans);
    assert forall k :: 0 <= k < |present| ==> Some(present[k]) in trans;
    assert t.slots[i].Some? ==> trans[i].value in present;
    if |present| > 0 then
      assert Some(present[0]) in trans;
      assert t.slots[i].Some?;
      PresentCountPattern(trans, t.slots);
      var names := seq(|present|, k requires 0 <= k < |present| => NameOf(present[k]));
      Some(Chord(names[0], t.name, names))
    else
      None
  }

  /** The notes of a generated chord are the names of the transposed
      slots, in slot order; for a template whose present slots come first,
      the root note appears at the chosen slot's position. */
  lemma ChordNotes(t: Template, i: nat, r: NoteNumber)
    requires WellFormed(t) && PresentPrefix(t.slots) && i < |t.slots| && t.slots[i].Some?
    ensures i < |ChordFor(t, i, r).value.notes|
    ensures forall k :: 0 <= k < |ChordFor(t, i, r).value.notes| ==>
              t.slots[k].Some? &&
              ChordFor(t, i, r).value.notes[k] == NameOf(Transpose(t.slots, i, r)[k].value)
    ensures ChordFor(t, i, r).value.notes[i] == NameOf(r)
  {
    var trans := Transpose(t.slots, i, r);
    var n := PresentCount(t.slots);
    PresentPrefixCount(t.slots);
    PresentCountPattern(trans, t.slots);
    StripAbsentPrefix(trans, n);
    TransposeAnchor(t.slots, i, r);
  }

  /** One note of a generated chord lies the template's offset above the
      chord's root, modulo 12. */
  lemma NoteInterval(t: Template, i: nat, r: NoteNumber, k: nat)
    requires WellFormed(t) && PresentPrefix(t.slots) && i < |t.slots| && t.slots[i].Some?
    requires k < |ChordFor(t, i, r).value.notes|
    ensures k < |t.slots| && t.slots[k].Some? && IsNoteName(ChordFor(t, i, r).value.notes[k])
    ensures (Number(ChordFor(t, i, r).value.notes[k])
             - Number(ChordFor(t, i, r).value.root)) % NoteCount == t.slots[k].value
  {
    var c := ChordFor(t, i, r).value;
    var trans := Transpose(t.slots, i, r);
    ChordNotes(t, i, r);
    NumberIs(c.notes[k], trans[k].value);
    NumberIs(c.root, trans[0].value);
    TransposeKeepsIntervals(t, i, r, k);
    calc {
      (Number(c.notes[k]) - Number(c.root)) % NoteCount;
      (trans[k].value - trans[0].value) % NoteCount;
      t.slots[k].value;
    }
  }

  /** `notes` spell the present slots of `slots` from `root`: note `k` is
      a table name lying slot `k`'s offset above `root`, modulo 12. */
  predicate Spells(notes: seq<string>, root: string, slots: seq<Slot>)
  {
    IsNoteName(root)
    && forall k :: 0 <= k < |notes| ==>
         && k < |slots| && slots[k].Some? && IsNoteName(notes[k])
         && (Number(notes[k]) - Number(root)) % NoteCount == slots[k].value
  }

  /** A generated chord is the template spelled from its root, and the
      root note given to the generator is among the notes. */
  lemma ChordSpelling(t: Template, i: nat, r: NoteNumber)
    requires WellFormed(t) && PresentPrefix(t.slots) && i < |t.slots| && t.slots[i].Some?
    ensures NameOf(r) in ChordFor(t, i, r).value.notes
    ensures Spells(ChordFor(t, i, r).value.notes, ChordFor(t, i, r).value.root, t.slots)
  {
    ChordNotes(t, i, r);
    NoteInterval(t, i, r, 0);
    forall k | 0 <= k < |ChordFor(t, i, r).value.notes|
      ensures && k < |t.slots| && t.slots[k].Some?
              && IsNoteName(ChordFor(t, i, r).value.notes[k])
              && (Number(ChordFor(t, i, r).value.notes[k])
                  - Number(ChordFor(t, i, r).value.root)) % NoteCount == t.slots[k].value
    {
      NoteInterval(t, i, r, k);
    }
  }

  /** Template `t` is well formed and has a present slot at position `i`
      (every catalogue template is well formed). */
  predicate HasSlot(t: Template, i: nat)
  {
    WellFormed(t) && i < |t.slots| && t.slots[i].Some?
  }

  /** The test "`make` yields a chord for this template". */
  function Yields(make: Template -> Option<Chord>): Template -> bool
  {
    t => make(t).Some?
  }

  /** The test "this template is well formed with slot `i` present". */
  function SlotAt(i: nat): Template -> bool
  {
    t => HasSlot(t, i)
  }

  /** The chords `make` yields for the templates of `ts`, walked in
      template order; templates for which it yields nothing are skipped.
      One chord per yielding template, in template order. */
  function Collect(ts: seq<Template>, make: Template -> Option<Chord>): (cs: seq<Chord>)
    ensures |cs| == |Selected(ts, Yields(make))|
    ensures forall j :: 0 <= j < |cs| ==> make(ts[Selected(ts, Yields(make))[j]]) == Some(cs[j])
  {
    if |ts| == 0 then []
    else
      var n := |ts| - 1;
      var front := Collect(ts[..n], make);
      assert forall k :: 0 <= k < n ==> ts[..n][k] == ts[k];
      match make(ts[n])
      case Some(c) => front + [c]
      case None => front
  }

  /** `cs` lists, once each and in the order of `ts`, the chord with the
      root note at slot `i` of every template of `ts` with slot `i`
      present. */
  predicate LaidOut(ts: seq<Template>, i: nat, r: NoteNumber, cs: seq<Chord>)
  {
    && |cs| == |Selected(ts, SlotAt(i))|
    && forall j :: 0 <= j < |cs| ==> cs[j] == ChordFor(ts[Selected(ts, SlotAt(i))[j]], i, r).value
  }

  /** `cs` holds a chord exactly when it is the chord with the root note at
      slot `i` of some template of `ts` with slot `i` present. */
  predicate HoldsExactly(ts: seq<Template>, i: nat, r: NoteNumber, cs: seq<Chord>)
  {
    && (forall c :: c in cs ==>
          exists k :: 0 <= k < |ts| && HasSlot(ts[k], i) && ChordFor(ts[k], i, r) == Some(c))
    && (forall k :: 0 <= k < |ts| && HasSlot(ts[k], i) ==> ChordFor(ts[k], i, r).value in cs)
  }

  /** The chords of one block: for every template of `ts`, in order, that
      has slot `i` present, the chord with the root note at slot `i`; once
      each, in template order. Every catalogue template is well formed,
      so the guard never skips one there. */
  function ChordsAt(ts: seq<Template>, i: nat, r: NoteNumber): (cs: seq<Chord>)
    requires i < SlotCount
    requires forall k :: 0 <= k < |ts| ==> WellFormed(ts[k])
    ensures LaidOut(ts, i, r, cs)
    ensures HoldsExactly(ts, i, r, cs)
  {
    var cs := Collect(ts, MakeAt(i, r));
    MakeAtLayout(ts, i, r, cs);
    BlockFacts(ts, i, r, cs);
    cs
  }

  /** The chord maker of block `i`: the chord with the root note at slot
      `i`, for a well-formed template. */
  function MakeAt(i: nat, r: NoteNumber): Template -> Option<Chord>
    requires i < SlotCount
  {
    t => if WellFormed(t) then ChordFor(t, i, r) else None
  }

  /** What `MakeAt(i, r)` collects from well-formed templates is laid out
      along the templates with slot `i` present. */
  lemma MakeAtLayout(ts: seq<Template>, i: nat, r: NoteNumber, cs: seq<Chord>)
    requires i < SlotCount
    requires forall k :: 0 <= k < |ts| ==> WellFormed(ts[k])
    requires |cs| == |Selected(ts, Yields(MakeAt(i, r)))|
    requires forall j :: 0 <= j < |cs| ==>
               MakeAt(i, r)(ts[Selected(ts, Yields(MakeAt(i, r)))[j]]) == Some(cs[j])
    ensures LaidOut(ts, i, r, cs)
  {
    forall k | 0 <= k < |ts|
      ensures Yields(MakeAt(i, r))(ts[k]) == SlotAt(i)(ts[k])
    {
      assert MakeAt(i, r)(ts[k]) == ChordFor(ts[k], i, r);
    }
    SelectedAgree(ts, Yields(MakeAt(i, r)), SlotAt(i));
    var ks := Selected(ts, SlotAt(i));
    forall j | 0 <= j < |cs|
      ensures cs[j] == ChordFor(ts[ks[j]], i, r).value
    {
      assert MakeAt(i, r)(ts[ks[j]]) == ChordFor(ts[ks[j]], i, r);
    }
  }

  /** A block laid out along `Selected` holds exactly the chords of the
      templates with slot `i` present. */
  lemma BlockFacts(ts: seq<Template>, i: nat, r: NoteNumber, cs: seq<Chord>)
    requires LaidOut(ts, i, r, cs)
    ensures HoldsExactly(ts, i, r, cs)
  {
    var ks := Selected(ts, SlotAt(i));
    forall c | c in cs
      ensures exists k :: 0 <= k < |ts| && HasSlot(ts[k], i) && ChordFor(ts[k], i, r) == Some(c)
    {
      var j :| 0 <= j < |cs| && cs[j] == c;
      assert HasSlot(ts[ks[j]], i);
    }
    forall k | 0 <= k < |ts| && HasSlot(ts[k], i)
      ensures ChordFor(ts[k], i, r).value in cs
    {
      assert SlotAt(i)(ts[k]);
      var j :| 0 <= j < |ks| && ks[j] == k;
      assert cs[j] == ChordFor(ts[k], i, r).value;
    }
  }

  /** The five blocks of chords that the templates `ts` give for note
      number `r`, block `i` holding, once each and in template order, the
      chords of the templates with slot `i` present. */
  function Blocks(ts: seq<Template>, r: NoteNumber): (blocks: seq<seq<Chord>>)
    requires forall k :: 0 <= k < |ts| ==> WellFormed(ts[k]) && PresentPrefix(ts[k].slots)
    ensures |blocks| == SlotCount
    ensures forall i :: 0 <= i < |blocks| ==> LaidOut(ts, i, r, blocks[i])
    ensures forall i :: 0 <= i < |blocks| ==> HoldsExactly(ts, i, r, blocks[i])
    ensures forall i, c :: 0 <= i < |blocks| && c in blocks[i] ==> NameOf(r) in c.notes
  {
    ChordsContainRoot(ts, r);
    seq(SlotCount, i requires 0 <= i < SlotCount => ChordsAt(ts, i, r))
  }

  /** `print_all_chords`: the five blocks of chords for a root note, the
      block at position `i` holding the chords in which the root note is
      note `i + 1`: one chord for each catalogue template with slot `i`
      present, in catalogue order. */
  function AllChords(rootNote: string): (blocks: seq<seq<Chord>>)
    requires IsNoteName(rootNote)
    ensures |blocks| == SlotCount
    ensures forall i :: 0 <= i < |blocks| ==> LaidOut(Templates, i, Number(rootNote), blocks[i])
    ensures forall i, c :: 0 <= i < |blocks| && c in blocks[i] ==> rootNote in c.notes
  {
    CatalogueWellFormed();
    Blocks(Templates, Number(rootNote))
  }

  /** Block `i` of `print_all_chords` holds a chord exactly when it is the
      chord of some catalogue template with slot `i` present. */
  lemma AllChordsMembership(rootNote: string)
    requires IsNoteName(rootNote)
    ensures forall i :: 0 <= i < SlotCount ==> HoldsExactly(Templates, i, Number(rootNote), AllChords(rootNote)[i])
  {
    CatalogueWellFormed();
    assert AllChords(rootNote) == Blocks(Templates, Number(rootNote));
  }

  /** Every chord of every block contains the note the blocks were built
      for. */
  lemma ChordsContainRoot(ts: seq<Template>, r: NoteNumber)
    requires forall k :: 0 <= k < |ts| ==> WellFormed(ts[k]) && PresentPrefix(ts[k].slots)
    ensures forall i, c :: 0 <= i < SlotCount && c in ChordsAt(ts, i, r) ==> NameOf(r) in c.notes
  {
    forall i, c | 0 <= i < SlotCount && c in ChordsAt(ts, i, r)
      ensures NameOf(r) in c.notes
    {
      var k :| 0 <= k < |ts| && HasSlot(ts[k], i) && ChordFor(ts[k], i, r) == Some(c);
      ChordSpelling(ts[k], i, r);
    }
  }
}
