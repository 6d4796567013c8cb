/**
 * Integer arithmetic with a NaN marker, as the chord templates use it.
 * A slot is either a present integer offset or absent (numpy's `nan`).
 * Following IEEE semantics, every ordered comparison with an absent
 * value is false and every sum or difference involving one is absent.
 */
module Slots {
  import opened Wrappers

  type Slot = Option<int>

  /** `a > b`; false whenever either side is NaN. */
  function Gt(a: Slot, b: Slot): (r: bool)
    ensures r ==> a.Some? && b.Some?
  {
    a.Some? && b.Some? && a.value > b.value
  }

  /** `a <= b`; false whenever either side is NaN. On two numbers it is
      exactly the negation of `a > b`; with a NaN, both are false. */
  function Le(a: Slot, b: Slot): (r: bool)
    ensures r <==> a.Some? && b.Some? && !Gt(a, b)
  {
    a.Some? && b.Some? && a.value <= b.value
  }

  /** `a + b`; NaN when either side is NaN. Subtracting `b` back from a
      numeric sum gives `a`. */
  function Add(a: Slot, b: Slot): (r: Slot)
    ensures r.Some? <==> a.Some? && b.Some?
    ensures r.Some? ==> r.value - b.value == a.value
  {
    if a.Some? && b.Some? then Some(a.value + b.value) else None
  }

  /** `a - b`; NaN when either side is NaN. Adding `b` back to a numeric
      difference gives `a`. */
  function Sub(a: Slot, b: Slot): (r: Slot)
    ensures r.Some? <==> a.Some? && b.Some?
    ensures r.Some? ==> r.value + b.value == a.value
  {
    if a.Some? && b.Some? then Some(a.value - b.value) else None
  }

  /** The number of present slots in `s`. */
  function PresentCount(s: seq<Slot>): (n: nat)
    ensures n <= |s|
  {
    if |s| == 0 then 0
    else (if s[0].Some? then 1 else 0) + PresentCount(s[1..])
  }

  /** Two slot sequences with the same pattern of present slots have the
      same number of present slots. */
  lemma {:induction false} PresentCountPattern(a: seq<Slot>, b: seq<Slot>)
    requires |a| == |b|
    requires forall j :: 0 <= j < |a| ==> (a[j].Some? <==> b[j].Some?)
    ensures PresentCount(a) == PresentCount(b)
  {
    if |a| > 0 {
      PresentCountPattern(a[1..], b[1..]);
    }
  }

  /** The present values of `s`, in slot order (numpy's `not isnan` filter). */
  function StripAbsent(s: seq<Slot>): (r: seq<int>)
    ensures |r| == PresentCount(s)
    ensures forall x :: x in r <==> Some(x) in s
  {
    if |s| == 0 then []
    else
      var rest := StripAbsent(s[1..]);
      assert forall x :: Some(x) in s <==> s[0] == Some(x) || Some(x) in s[1..] by {
        assert s == [s[0]] + s[1..];
      }
      if s[0].Some? then [s[0].value] + rest else rest
  }

  /** When the first `n` slots are present and the rest absent, stripping
      keeps exactly those `n` values, in place. */
  lemma {:induction false} StripAbsentPrefix(s: seq<Slot>, n: nat)
    requires n <= |s|
    requires forall j :: 0 <= j < n ==> s[j].Some?
    requires forall j :: n <= j < |s| ==> s[j].None?
    ensures |StripAbsent(s)| == n
    ensures forall j :: 0 <= j < n ==> StripAbsent(s)[j] == s[j].value
  {
    if |s| > 0 {
      if n > 0 {
        StripAbsentPrefix(s[1..], n - 1);
      } else {
        StripAbsentPrefix(s[1..], 0);
      }
    }
  }

  /** The first stripped value is the first slot's when that slot is present. */
  lemma StripAbsentHead(s: seq<Slot>)
    requires |s| > 0 && s[0].Some?
    ensures |StripAbsent(s)| > 0 && StripAbsent(s)[0] == s[0].value
  {
  }

  /** The set of present values of `s` (absent slots left out). */
  function PresentSet(s: seq<Slot>): (r: set<int>)
    ensures forall x :: x in r <==> Some(x) in s
  {
    set j | 0 <= j < |s| && s[j].Some? :: s[j].value
  }
}
