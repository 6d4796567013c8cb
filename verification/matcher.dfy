/**
 * The chord matcher (`print_detected_input`) and the interval list it
 * reads. The source keeps that list in a module-level variable set by the
 * command-line driver; here it is an explicit parameter.
 *
 * As written, the matcher compares the set of raw differences from the
 * root (no reduction modulo 12) with the set of a template's five slots,
 * NaN included. `DetectIntended` is the evidently intended matcher:
 * intervals modulo 12 against the present offsets only.
 */
module Matcher {
  import opened Wrappers
  import opened Slots
  import opened Notes
  import opened Catalogue
  import opened Intervals

  /** One "Input Detected" report: the input's root name and a chord type. */
  datatype Detection = Detection(root: string, chordName: string)

  /** Python's `set(input_intervals)`, seen as slot values. */
  function IntervalSet(iv: seq<int>): (r: set<Slot>)
    ensures None !in r
    ensures forall x :: Some(x) in r <==> x in iv
  {
    set x | x in iv :: Some(x)
  }

  /** Python's `set(chord_ints)`: NaN stays in it as an element. */
  function SlotSet(slots: seq<Slot>): (r: set<Slot>)
    ensures forall s :: s in r <==> s in slots
  {
    set k | 0 <= k < |slots| :: slots[k]
  }

  /** The source's detection test for one template: every slot is a
      number met among the intervals, and every interval is met among the
      slots. */
  function Matches(t: Template, iv: seq<int>): (r: bool)
    ensures r <==> && (forall j :: 0 <= j < |t.slots| ==> t.slots[j].Some? && t.slots[j].value in iv)
                   && (forall k :: 0 <= k < |iv| ==> Some(iv[k]) in t.slots)
  {
    SetsMeetEachOther(t.slots, iv);
    IntervalSet(iv) == SlotSet(t.slots)
  }

  /** The interval set equals the slot set exactly when each side's
      elements are met on the other side. */
  lemma SetsMeetEachOther(slots: seq<Slot>, iv: seq<int>)
    ensures IntervalSet(iv) == SlotSet(slots) <==>
              && (forall j :: 0 <= j < |slots| ==> slots[j].Some? && slots[j].value in iv)
              && (forall k :: 0 <= k < |iv| ==> Some(iv[k]) in slots)
  {
    if IntervalSet(iv) == SlotSet(slots) {
      forall j | 0 <= j < |slots|
        ensures slots[j].Some? && slots[j].value in iv
      {
        assert slots[j] in SlotSet(slots);
      }
      forall k | 0 <= k < |iv|
        ensures Some(iv[k]) in slots
      {
        assert Some(iv[k]) in IntervalSet(iv);
      }
    }
  }

  /** Some template of `ts` named `name` is accepted by `hit`. */
  predicate Accepts(ts: seq<Template>, hit: Template -> bool, name: string)
  {
    exists k :: 0 <= k < |ts| && ts[k].name == name && hit(ts[k])
  }

  /** Walks the templates in order and reports every one `hit` accepts,
      each named after the given root: one report per accepted template,
      in template order. */
  function Report(ts: seq<Template>, root: string, hit: Template -> bool): (r: seq<Detection>)
    ensures |r| == |Selected(ts, hit)|
    ensures forall j :: 0 <= j < |r| ==> r[j] == Detection(root, ts[Selected(ts, hit)[j]].name)
    ensures forall d :: d in r ==> d.root == root && Accepts(ts, hit, d.chordName)
    ensures forall k :: 0 <= k < |ts| && hit(ts[k]) ==> Detection(root, ts[k].name) in r
    ensures r == [] <==> forall k :: 0 <= k < |ts| ==> !hit(ts[k])
  {
    if |ts| == 0 then []
    else
      var n := |ts| - 1;
      var front := Report(ts[..n], root, hit);
      var r := front + (if hit(ts[n]) then [Detection(root, ts[n].name)] else []);
      ReportExtend(ts, root, hit, front, r);
      ReportFacts(ts, root, hit, r);
      r
  }

  /** One step of the loop: a report laid out along the selection of all
      but the last template, followed by the last template's detection
      when it is accepted, is laid out along the whole selection. */
  lemma ReportExtend(ts: seq<Template>, root: string, hit: Template -> bool,
                     front: seq<Detection>, r: seq<Detection>)
    requires |ts| > 0
    requires |front| == |Selected(ts[..|ts| - 1], hit)|
    requires forall j :: 0 <= j < |front| ==>
               front[j] == Detection(root, ts[..|ts| - 1][Selected(ts[..|ts| - 1], hit)[j]].name)
    requires r == front + (if hit(ts[|ts| - 1]) then [Detection(root, ts[|ts| - 1].name)] else [])
    ensures |r| == |Selected(ts, hit)|
    ensures forall j :: 0 <= j < |r| ==> r[j] == Detection(root, ts[Selected(ts, hit)[j]].name)
  {
    var n := |ts| - 1;
    var fk := Selected(ts[..n], hit);
    var ks := Selected(ts, hit);
    assert ks == fk + (if hit(ts[n]) then [n] else []);
    forall j | 0 <= j < |r|
      ensures r[j] == Detection(root, ts[ks[j]].name)
    {
      if j < |front| {
        assert ks[j] == fk[j] && fk[j] < n;
        assert ts[..n][fk[j]] == ts[ks[j]];
      }
    }
  }

  /** A report list laid out along `Selected` names exactly the accepted
      templates, and is empty exactly when none is accepted. */
  lemma ReportFacts(ts: seq<Template>, root: string, hit: Template -> bool, r: seq<Detection>)
    requires |r| == |Selected(ts, hit)|
    requires forall j :: 0 <= j < |r| ==> r[j] == Detection(root, ts[Selected(ts, hit)[j]].name)
    ensures forall d :: d in r ==> d.root == root && Accepts(ts, hit, d.chordName)
    ensures forall k :: 0 <= k < |ts| && hit(ts[k]) ==> Detection(root, ts[k].name) in r
    ensures r == [] <==> forall k :: 0 <= k < |ts| ==> !hit(ts[k])
  {
    var ks := Selected(ts, hit);
    forall d | d in r
      ensures d.root == root && Accepts(ts, hit, d.chordName)
    {
      var j :| 0 <= j < |r| && r[j] == d;
      assert ts[ks[j]].name == d.chordName && hit(ts[ks[j]]);
    }
    forall k | 0 <= k < |ts| && hit(ts[k])
      ensures Detection(root, ts[k].name) in r
    {
      var j :| 0 <= j < |ks| && ks[j] == k;
      assert r[j] == Detection(root, ts[k].name);
    }
    if r != [] {
      assert hit(ts[ks[0]]);
    }
  }

  /** The detection test as written, as a test on templates. */
  function MatchTest(iv: seq<int>): Template -> bool
  {
    t => Matches(t, iv)
  }

  /** `print_detected_input` as written: every catalogue template whose
      slot set equals the raw interval set, reported with the first note,
      once each and in catalogue order. */
  function Detect(roots: seq<string>, iv: seq<int>): (r: seq<Detection>)
    requires |roots| > 0
    ensures |r| == |Selected(Templates, MatchTest(iv))|
    ensures forall j :: 0 <= j < |r| ==>
              r[j] == Detection(roots[0], Templates[Selected(Templates, MatchTest(iv))[j]].name)
    ensures forall d :: d in r ==>
              d.root == roots[0] && Accepts(Templates, MatchTest(iv), d.chordName)
    ensures forall k :: 0 <= k < |Templates| && Matches(Templates[k], iv) ==>
              Detection(roots[0], Templates[k].name) in r
    ensures r == [] <==> forall k :: 0 <= k < |Templates| ==> !Matches(Templates[k], iv)
  {
    Report(Templates, roots[0], MatchTest(iv))
  }

  /** A template with an absent slot is never matched: the NaN in its slot
      set has no counterpart among the integer intervals. */
  lemma MatchRequiresFull(t: Template, iv: seq<int>)
    requires Matches(t, iv)
    ensures Full(t)
  {
    forall j | 0 <= j < |t.slots|
      ensures t.slots[j].Some?
    {
      assert t.slots[j] in SlotSet(t.slots);
    }
  }

  /** For a full template, matching is plain equality of the interval set
      with the template's offsets. */
  lemma MatchFullIff(t: Template, iv: seq<int>)
    requires Full(t)
    ensures Matches(t, iv) <==> (set k | 0 <= k < |iv| :: iv[k]) == PresentSet(t.slots)
  {
    var ints := set k | 0 <= k < |iv| :: iv[k];
    if Matches(t, iv) {
      forall x | x in PresentSet(t.slots) ensures x in ints {
        assert Some(x) in SlotSet(t.slots);
      }
      forall x | x in ints ensures x in PresentSet(t.slots) {
        assert Some(x) in IntervalSet(iv);
      }
    }
    if ints == PresentSet(t.slots) {
      forall s | s in SlotSet(t.slots) ensures s in IntervalSet(iv) {
        assert s.value in PresentSet(t.slots);
      }
      forall s | s in IntervalSet(iv) ensures s in SlotSet(t.slots) {
        assert s.value in ints;
      }
    }
  }

  /** Only Major69, Major9 and Minor9 can ever be detected. */
  lemma DetectsOnlyFullTemplates(roots: seq<string>, iv: seq<int>)
    requires |roots| > 0
    ensures forall d :: d in Detect(roots, iv) ==> d.chordName in {"Major69", "Major9", "Minor9"}
  {
    forall d | d in Detect(roots, iv)
      ensures d.chordName in {"Major69", "Major9", "Minor9"}
    {
      var i :| 0 <= i < |Templates| && Templates[i].name == d.chordName && Matches(Templates[i], iv);
      var t := Templates[i];
      MatchRequiresFull(t, iv);
      FullTemplateNames(i);
    }
  }

  /** A detection requires that no input note is numbered below the root:
      every raw difference must be one of the template's offsets, and
      those are never negative. */
  lemma DetectedNotesNotBelowRoot(roots: seq<string>)
    requires |roots| > 0
    requires forall k :: 0 <= k < |roots| ==> IsNoteName(roots[k])
    requires Detect(roots, InputIntervals(roots)) != []
    ensures forall k :: 0 <= k < |roots| ==> Number(roots[k]) >= Number(roots[0])
  {
    var iv := InputIntervals(roots);
    var i :| 0 <= i < |Templates| && Matches(Templates[i], iv);
    CatalogueWellFormed();
    MatchedIntervalsInOctave(Templates[i], iv);
  }

  /** The intervals a well-formed template matches all lie in 0..11. */
  lemma MatchedIntervalsInOctave(t: Template, iv: seq<int>)
    requires WellFormed(t) && Matches(t, iv)
    ensures forall k :: 0 <= k < |iv| ==> 0 <= iv[k] < NoteCount
  {
    forall k | 0 <= k < |iv|
      ensures 0 <= iv[k] < NoteCount
    {
      assert Some(iv[k]) in SlotSet(t.slots);
      var j :| 0 <= j < |t.slots| && t.slots[j] == Some(iv[k]);
    }
  }

  /** A template whose slot set holds a value that is not among the
      intervals is not matched. */
  lemma SlotNotInIntervals(t: Template, iv: seq<int>, j: nat)
    requires j < |t.slots|
    requires t.slots[j].None? || t.slots[j].value !in iv
    ensures !Matches(t, iv)
  {
    assert t.slots[j] in SlotSet(t.slots);
    assert t.slots[j] !in IntervalSet(iv);
  }

  /** Every full template has a sixth or seventh (9, 10 or 11) in slot 3,
      and every other template has an absent slot. */
  lemma NoMatchWithoutSixthOrSeventh(k: nat, iv: seq<int>)
    requires k < |Templates|
    requires forall j :: 0 <= j < |iv| ==> iv[j] !in {9, 10, 11}
    ensures !Matches(Templates[k], iv)
  {
    var slots := Templates[k].slots;
    CatalogueWellFormed();
    if Full(Templates[k]) {
      FullTemplateSeventh(k);
      SlotNotInIntervals(Templates[k], iv, 3);
    } else {
      var j :| 0 <= j < |slots| && slots[j].None?;
      SlotNotInIntervals(Templates[k], iv, j);
    }
  }

  /** Intervals without a sixth or seventh (9, 10 or 11) detect nothing. */
  lemma DetectionNeedsSixthOrSeventh(roots: seq<string>, iv: seq<int>)
    requires |roots| > 0
    requires forall k :: 0 <= k < |iv| ==> iv[k] !in {9, 10, 11}
    ensures Detect(roots, iv) == []
  {
    forall k | 0 <= k < |Templates|
      ensures !Matches(Templates[k], iv)
    {
      NoMatchWithoutSixthOrSeventh(k, iv);
    }
  }

  /** A negative raw interval (a note numbered below the root) means
      nothing is detected: every template offset is at least 0. */
  lemma NegativeIntervalDetectsNothing(roots: seq<string>, iv: seq<int>, k: nat)
    requires |roots| > 0
    requires k < |iv| && iv[k] < 0
    ensures Detect(roots, iv) == []
  {
    CatalogueWellFormed();
    forall i | 0 <= i < |Templates|
      ensures !Matches(Templates[i], iv)
    {
      assert Some(iv[k]) in IntervalSet(iv);
      assert Some(iv[k]) !in SlotSet(Templates[i].slots);
    }
  }

  /** The driver's default input, `C, E, G` (numbers 5, 9, 12), is a
      C major triad, yet the matcher as written detects nothing: Major's
      slot set holds NaN. */
  lemma DefaultInputDetectsNothing()
    ensures forall k :: 0 <= k < |CMajorInput| ==> IsNoteName(CMajorInput[k])
    ensures InputIntervals(CMajorInput) == [0, 4, 7]
    ensures Detect(CMajorInput, InputIntervals(CMajorInput)) == []
  {
    IntervalsOfNumbers(CMajorInput, [5, 9, 12]);
    CMajorOffsets();
    DetectionNeedsSixthOrSeventh(CMajorInput, [0, 4, 7]);
  }

  /** Major69 is matched by intervals 0, 4, 7, 9, 2. */
  lemma Major69Matches()
    ensures Templates[4].name == "Major69" && Matches(Templates[4], [0, 4, 7, 9, 2])
  {
    var s: set<Slot> := {Some(0), Some(4), Some(7), Some(9), Some(2)};
    assert IntervalSet([0, 4, 7, 9, 2]) == s;
    assert SlotSet(Templates[4].slots) == s;
  }

  /** Intervals 0, 4, 7, 9, 2 are detected as Major69 and as nothing else,
      whatever the root's name. */
  lemma DetectsMajor69(roots: seq<string>)
    requires |roots| > 0
    ensures Detection(roots[0], "Major69") in Detect(roots, [0, 4, 7, 9, 2])
    ensures forall d :: d in Detect(roots, [0, 4, 7, 9, 2]) ==> d == Detection(roots[0], "Major69")
  {
    var iv := [0, 4, 7, 9, 2];
    Major69Matches();
    assert 3 !in iv && 11 !in iv;
    forall d | d in Detect(roots, iv)
      ensures d == Detection(roots[0], "Major69")
    {
      var i :| 0 <= i < |Templates| && Templates[i].name == d.chordName && Matches(Templates[i], iv);
      assert Matches(Templates[i], iv);
      OnlyMajor69(i, iv);
    }
  }

  /** The input `Ab, C, Eb, F, Bb` is reported as Ab Major69 and nothing
      else. */
  lemma DetectsAbMajor69()
    ensures forall k :: 0 <= k < |AbMajor69Input| ==> IsNoteName(AbMajor69Input[k])
    ensures Detection("Ab", "Major69") in Detect(AbMajor69Input, InputIntervals(AbMajor69Input))
    ensures forall d :: d in Detect(AbMajor69Input, InputIntervals(AbMajor69Input)) ==>
              d == Detection("Ab", "Major69")
  {
    AbMajor69Intervals();
    DetectsMajor69(AbMajor69Input);
  }

  /** With no 3 and no 11 among the intervals, only Major69 (index 4)
      can match. */
  lemma OnlyMajor69(k: nat, iv: seq<int>)
    requires k < |Templates|
    requires 3 !in iv && 11 !in iv
    ensures Matches(Templates[k], iv) ==> k == 4
  {
    var slots := Templates[k].slots;
    CatalogueWellFormed();
    if !Full(Templates[k]) {
      var j :| 0 <= j < |slots| && slots[j].None?;
      SlotNotInIntervals(Templates[k], iv, j);
    } else if k != 4 {
      FullTemplateThirdOrSeventh(k);
      var j :| 0 <= j < |slots| && (slots[j] == Some(11) || slots[j] == Some(3));
      SlotNotInIntervals(Templates[k], iv, j);
    }
  }

  /** `G, B, D, E, A` (numbers 12, 4, 7, 9, 2) is G Major69, but its raw
      differences are negative, so the matcher as written detects nothing. */
  lemma TransposedMajor69Missed()
    ensures forall k :: 0 <= k < |GMajor69Input| ==> IsNoteName(GMajor69Input[k])
    ensures InputIntervals(GMajor69Input) == [0, -8, -5, -3, -10]
    ensures Detect(GMajor69Input, InputIntervals(GMajor69Input)) == []
  {
    IntervalsOfNumbers(GMajor69Input, [12, 4, 7, 9, 2]);
    GMajor69Offsets();
    NegativeIntervalDetectsNothing(GMajor69Input, InputIntervals(GMajor69Input), 1);
  }

  /** The interval classes of `iv`: every interval reduced modulo 12. */
  function IntervalClasses(iv: seq<int>): (r: set<int>)
    ensures forall x :: x in r ==> 0 <= x < NoteCount
    ensures forall k :: 0 <= k < |iv| ==> iv[k] % NoteCount in r
    ensures forall x :: x in r ==> exists k :: 0 <= k < |iv| && iv[k] % NoteCount == x
  {
    set k | 0 <= k < |iv| :: iv[k] % NoteCount
  }

  /** The evidently intended detection test: every interval, reduced
      modulo 12, is a present offset of the template, and every present
      offset is met by some interval. */
  function MatchesIntended(t: Template, iv: seq<int>): (r: bool)
    ensures r <==> && (forall k :: 0 <= k < |iv| ==> Some(iv[k] % NoteCount) in t.slots)
                   && (forall x :: Some(x) in t.slots ==>
                         exists k :: 0 <= k < |iv| && iv[k] % NoteCount == x)
  {
    ClassesMeetOffsets(t.slots, iv);
    IntervalClasses(iv) == PresentSet(t.slots)
  }

  /** The interval classes equal the present offsets exactly when each
      side's elements are met on the other side. */
  lemma ClassesMeetOffsets(slots: seq<Slot>, iv: seq<int>)
    ensures IntervalClasses(iv) == PresentSet(slots) <==>
              && (forall k :: 0 <= k < |iv| ==> Some(iv[k] % NoteCount) in slots)
              && (forall x :: Some(x) in slots ==> exists k :: 0 <= k < |iv| && iv[k] % NoteCount == x)
  {
    if IntervalClasses(iv) == PresentSet(slots) {
      forall x | Some(x) in slots
        ensures exists k :: 0 <= k < |iv| && iv[k] % NoteCount == x
      {
        assert x in PresentSet(slots);
      }
    }
    if && (forall k :: 0 <= k < |iv| ==> Some(iv[k] % NoteCount) in slots)
       && (forall x :: Some(x) in slots ==> exists k :: 0 <= k < |iv| && iv[k] % NoteCount == x)
    {
      forall x | x in IntervalClasses(iv)
        ensures x in PresentSet(slots)
      {
        var k :| 0 <= k < |iv| && iv[k] % NoteCount == x;
      }
    }
  }

  /** The evidently intended detection test, as a test on templates. */
  function IntendedTest(iv: seq<int>): Template -> bool
  {
    t => MatchesIntended(t, iv)
  }

  /** `print_detected_input` as evidently intended: intervals reduced
      modulo 12 and compared with the present offsets only; reports come
      once each and in catalogue order. */
  function DetectIntended(roots: seq<string>, iv: seq<int>): (r: seq<Detection>)
    requires |roots| > 0
    ensures |r| == |Selected(Templates, IntendedTest(iv))|
    ensures forall j :: 0 <= j < |r| ==>
              r[j] == Detection(roots[0], Templates[Selected(Templates, IntendedTest(iv))[j]].name)
    ensures forall d :: d in r ==>
              d.root == roots[0] && Accepts(Templates, IntendedTest(iv), d.chordName)
    ensures forall k :: 0 <= k < |Templates| && MatchesIntended(Templates[k], iv) ==>
              Detection(roots[0], Templates[k].name) in r
    ensures r == [] <==> forall k :: 0 <= k < |Templates| ==> !MatchesIntended(Templates[k], iv)
  {
    Report(Templates, roots[0], IntendedTest(iv))
  }

  /** Whatever the matcher as written detects, the intended matcher
      detects too (a match already forces every interval into 0..11). */
  lemma MatchImpliesIntended(t: Template, iv: seq<int>)
    requires WellFormed(t) && Matches(t, iv)
    ensures MatchesIntended(t, iv)
  {
    MatchedIntervalsInOctave(t, iv);
    MatchRequiresFull(t, iv);
    MatchFullIff(t, iv);
    var ints := set k | 0 <= k < |iv| :: iv[k];
    assert IntervalClasses(iv) == ints by {
      forall k | 0 <= k < |iv| ensures iv[k] % NoteCount == iv[k] { }
    }
  }

  /** The interval classes are `s` when every interval falls in `s` and
      every member of `s` is met by some interval. */
  lemma ClassesAre(iv: seq<int>, s: set<int>)
    requires forall k :: 0 <= k < |iv| ==> iv[k] % NoteCount in s
    requires forall x :: x in s ==> exists k :: 0 <= k < |iv| && iv[k] % NoteCount == x
    ensures IntervalClasses(iv) == s
  {
    forall x | x in s ensures x in IntervalClasses(iv) {
      var k :| 0 <= k < |iv| && iv[k] % NoteCount == x;
    }
  }

  /** The intended matcher recognises `C, E, G` (intervals 0, 4, 7) as a
      major triad on its first note. */
  lemma IntendedDetectsMajor(roots: seq<string>)
    requires |roots| > 0
    ensures Detection(roots[0], "Major") in DetectIntended(roots, [0, 4, 7])
  {
    var iv := [0, 4, 7];
    assert iv[0] % 12 == 0 && iv[1] % 12 == 4 && iv[2] % 12 == 7;
    ClassesAre(iv, {0, 4, 7});
    assert PresentSet(Templates[1].slots) == {0, 4, 7};
  }

  /** The intended matcher recognises `G, B, D, E, A` (intervals 0, -8, -5,
      -3, -10) as Major69 on its first note. */
  lemma IntendedDetectsTransposedMajor69(roots: seq<string>)
    requires |roots| > 0
    ensures Detection(roots[0], "Major69") in DetectIntended(roots, [0, -8, -5, -3, -10])
  {
    var iv := [0, -8, -5, -3, -10];
    assert iv[0] % 12 == 0 && iv[1] % 12 == 4 && iv[2] % 12 == 7 && iv[3] % 12 == 9 && iv[4] % 12 == 2;
    ClassesAre(iv, {0, 4, 7, 9, 2});
    assert PresentSet(Templates[4].slots) == {0, 4, 7, 9, 2};
  }
}
