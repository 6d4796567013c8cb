/**
 * The interval list the command-line driver computes before matching:
 * every input note's number minus the first note's number.
 */
module Intervals {
  import opened Notes

  /** The driver's `input_intervals`: each note's number minus the root's
      number, by plain subtraction. */
  function InputIntervals(roots: seq<string>): (iv: seq<int>)
    requires |roots| > 0
    requires forall k :: 0 <= k < |roots| ==> IsNoteName(roots[k])
    ensures |iv| == |roots| && iv[0] == 0
    ensures forall k :: 0 <= k < |roots| ==>
              -11 <= iv[k] <= 11 && Number(roots[0]) + iv[k] == Number(roots[k])
  {
    Differences(roots, Number(roots[0]))
  }

  /** Each note's number minus `root`, in note order. */
  function Differences(notes: seq<string>, root: NoteNumber): (r: seq<int>)
    requires forall k :: 0 <= k < |notes| ==> IsNoteName(notes[k])
    ensures |r| == |notes|
    ensures forall k :: 0 <= k < |notes| ==> root + r[k] == Number(notes[k])
    ensures forall k :: 0 <= k < |notes| ==> -11 <= r[k] <= 11
  {
    seq(|notes|, k requires 0 <= k < |notes| => Number(notes[k]) - root)
  }

  /** Each number minus `base`, in order. */
  function Offsets(nums: seq<int>, base: int): (r: seq<int>)
    ensures |r| == |nums|
    ensures forall k :: 0 <= k < |nums| ==> r[k] == nums[k] - base
  {
    if |nums| == 0 then [] else [nums[0] - base] + Offsets(nums[1..], base)
  }

  /** Given the number of each note, the intervals are those numbers minus
      the first one. */
  lemma IntervalsOfNumbers(roots: seq<string>, nums: seq<NoteNumber>)
    requires |roots| == |nums| > 0
    requires forall k :: 0 <= k < |nums| ==> NameOf(nums[k]) == roots[k]
    ensures forall k :: 0 <= k < |roots| ==> IsNoteName(roots[k])
    ensures InputIntervals(roots) == Offsets(nums, nums[0])
  {
    forall k | 0 <= k < |nums|
      ensures IsNoteName(roots[k]) && Number(roots[k]) == nums[k]
    {
      NumberIs(roots[k], nums[k]);
    }
    var iv, ov := InputIntervals(roots), Offsets(nums, nums[0]);
    assert |iv| == |ov|;
    forall k | 0 <= k < |iv|
      ensures iv[k] == ov[k]
    {
      assert Number(roots[0]) + iv[k] == Number(roots[k]);
    }
  }

  /** The worked example inputs: Ab Major69 in root position, the
      driver's default C major triad, and G Major69 in root position. */
  const AbMajor69Input: seq<string> := ["Ab", "C", "Eb", "F", "Bb"]
  const CMajorInput: seq<string> := ["C", "E", "G"]
  const GMajor69Input: seq<string> := ["G", "B", "D", "E", "A"]

  /** The input `Ab, C, Eb, F, Bb` (numbers 1, 5, 8, 10, 3) has intervals
      0, 4, 7, 9, 2. */
  lemma AbMajor69Intervals()
    ensures forall k :: 0 <= k < |AbMajor69Input| ==> IsNoteName(AbMajor69Input[k])
    ensures InputIntervals(AbMajor69Input) == [0, 4, 7, 9, 2]
  {
    IntervalsOfNumbers(AbMajor69Input, [1, 5, 8, 10, 3]);
    AbMajor69Offsets();
  }

  /** The offsets behind the worked examples, one lemma each: Ab Major69,
      the C major triad and G Major69, from their note numbers. */
  lemma AbMajor69Offsets()
    ensures Offsets([1, 5, 8, 10, 3], 1) == [0, 4, 7, 9, 2]
  {
  }

  lemma CMajorOffsets()
    ensures Offsets([5, 9, 12], 5) == [0, 4, 7]
  {
  }

  lemma GMajor69Offsets()
    ensures Offsets([12, 4, 7, 9, 2], 12) == [0, -8, -5, -3, -10]
  {
  }
}
