/**
 * The chord catalogue: fifteen named templates, each five slots of
 * semitone offsets from an implicit root, unused slots absent.
 * The sequence keeps the source dictionary's insertion order, which is
 * the order in which the matcher and the generator visit templates.
 */
module Catalogue {
  import opened Wrappers
  import opened Slots

  /** The number of slots every template has. */
  const SlotCount: nat := 5

  datatype Template = Template(name: string, slots: seq<Slot>)

  const Templates: seq<Template> := [
    Template("Power",          [Some(0), Some(7), None,     None,      None]),
    Template("Major",          [Some(0), Some(4), Some(7),  None,      None]),
    Template("Major6",         [Some(0), Some(4), Some(7),  Some(9),   None]),
    Template("Major7",         [Some(0), Some(4), Some(7),  Some(11),  None]),
    Template("Major69",        [Some(0), Some(4), Some(7),  Some(9),   Some(2)]),
    Template("Major9",         [Some(0), Some(4), Some(7),  Some(11),  Some(2)]),
    Template("Minor",          [Some(0), Some(3), Some(7),  None,      None]),
    Template("Minor6",         [Some(0), Some(3), Some(7),  Some(9),   None]),
    Template("Minor7",         [Some(0), Some(3), Some(7),  Some(10),  None]),
    Template("Minor9",         [Some(0), Some(3), Some(7),  Some(10),  Some(2)]),
    Template("Diminished",     [Some(0), Some(3), Some(6),  None,      None]),
    Template("HalfDiminished", [Some(0), Some(3), Some(6),  Some(10),  None]),
    Template("Diminished7",    [Some(0), Some(3), Some(6),  Some(9),   None]),
    Template("DiminishedMaj7", [Some(0), Some(3), Some(6),  Some(11),  None]),
    Template("Aug",            [Some(0), Some(4), Some(8),  None,      None])
  ]

  /** The offsets a template may hold: within one octave above the root. */
  predicate OffsetsInOctave(slots: seq<Slot>)
  {
    forall j :: 0 <= j < |slots| && slots[j].Some? ==> 0 <= slots[j].value <= 11
  }

  /** The shape every catalogue template has: five slots, slot 0 present
      and equal to 0, every present offset in 0..11. */
  predicate WellFormed(t: Template)
  {
    && |t.slots| == SlotCount
    && t.slots[0] == Some(0)
    && OffsetsInOctave(t.slots)
  }

  /** The present slots of a template come first, the absent ones last. */
  predicate PresentPrefix(slots: seq<Slot>)
  {
    forall j, k :: 0 <= j < k < |slots| && slots[k].Some? ==> slots[j].Some?
  }

  /** Under `PresentPrefix`, the present slots are exactly the first
      `PresentCount` ones. */
  lemma {:induction false} PresentPrefixCount(s: seq<Slot>)
    requires PresentPrefix(s)
    ensures forall j :: 0 <= j < |s| ==> (s[j].Some? <==> j < PresentCount(s))
  {
    if |s| > 0 {
      var tail := s[1..];
      assert PresentPrefix(tail) by {
        forall j, k | 0 <= j < k < |tail| && tail[k].Some?
          ensures tail[j].Some?
        {
          assert s[k + 1].Some?;
        }
      }
      PresentPrefixCount(tail);
      forall j | 0 <= j < |s|
        ensures s[j].Some? <==> j < PresentCount(s)
      {
        if j > 0 {
          assert s[j] == tail[j - 1];
        }
      }
    }
  }

  /** A template with every slot present. */
  predicate Full(t: Template)
  {
    forall j :: 0 <= j < |t.slots| ==> t.slots[j].Some?
  }

  /** Every catalogue template is well formed with its present slots first. */
  lemma CatalogueWellFormed()
    ensures |Templates| == 15
    ensures forall k :: 0 <= k < |Templates| ==>
              WellFormed(Templates[k]) && PresentPrefix(Templates[k].slots)
  {
    forall k | 0 <= k < |Templates|
      ensures WellFormed(Templates[k]) && PresentPrefix(Templates[k].slots)
    {
      TemplateWellFormed(k);
    }
  }

  lemma TemplateWellFormed(k: nat)
    requires k < |Templates|
    ensures WellFormed(Templates[k]) && PresentPrefix(Templates[k].slots)
  {
    var s := Templates[k].slots;
    assert |s| == 5;
    assert s[0] == Some(0);
  }

  /** No two catalogue templates share a name. */
  lemma CatalogueNamesDistinct()
    ensures forall a, b :: 0 <= a < b < |Templates| ==> Templates[a].name != Templates[b].name
  {
  }

  /** Only three templates use all five slots: Major69, Major9 and Minor9. */
  lemma FullTemplates()
    ensures forall k :: 0 <= k < |Templates| ==> (Full(Templates[k]) <==> k in {4, 5, 9})
  {
    forall k | 0 <= k < |Templates|
      ensures Full(Templates[k]) <==> k in {4, 5, 9}
    {
      var s := Templates[k].slots;
      if k in {4, 5, 9} {
        assert s[1].Some? && s[2].Some? && s[3].Some? && s[4].Some?;
      } else if k in {0, 1, 6, 10, 14} {
        assert s[3].None?;
      } else {
        assert s[4].None?;
      }
    }
  }

  /** By name: the full templates are Major69, Major9 and Minor9. */
  lemma FullTemplateNames(k: nat)
    requires k < |Templates| && Full(Templates[k])
    ensures Templates[k].name in {"Major69", "Major9", "Minor9"}
  {
    FullTemplates();
  }

  /** Slot 3 of every full template is a sixth or a seventh. */
  lemma FullTemplateSeventh(k: nat)
    requires k < |Templates| && Full(Templates[k])
    ensures Templates[k].slots[3].value in {9, 10, 11}
  {
    FullTemplates();
  }

  /** Major69 (index 4) is the only full template with neither a major
      seventh (11) nor a minor third (3). */
  lemma FullTemplateThirdOrSeventh(k: nat)
    requires k < |Templates| && Full(Templates[k])
    ensures k == 4 || Some(11) in Templates[k].slots || Some(3) in Templates[k].slots
  {
    FullTemplates();
    if k == 5 {
      assert Templates[k].slots[3] == Some(11);
    } else if k == 9 {
      assert Templates[k].slots[1] == Some(3);
    }
  }

  /** The indices of the templates of `ts` that `p` accepts, in template
      order: strictly increasing, each accepted, and none left out. This
      is the order in which a loop over the catalogue meets them. */
  function Selected(ts: seq<Template>, p: Template -> bool): (ks: seq<nat>)
    ensures |ks| <= |ts|
    ensures forall j :: 0 <= j < |ks| ==> ks[j] < |ts| && p(ts[ks[j]])
    ensures forall j, j' :: 0 <= j < j' < |ks| ==> ks[j] < ks[j']
    ensures forall k :: 0 <= k < |ts| && p(ts[k]) ==> k in ks
  {
    if |ts| == 0 then []
    else
      var n := |ts| - 1;
      var front := Selected(ts[..n], p);
      assert forall k :: 0 <= k < n ==> ts[..n][k] == ts[k];
      front + (if p(ts[n]) then [n] else [])
  }

  /** Two tests that agree on every template of `ts` select the same
      indices. */
  lemma {:induction false} SelectedAgree(ts: seq<Template>, p: Template -> bool, q: Template -> bool)
    requires forall k :: 0 <= k < |ts| ==> p(ts[k]) == q(ts[k])
    ensures Selected(ts, p) == Selected(ts, q)
  {
    if |ts| > 0 {
      var n := |ts| - 1;
      assert forall k :: 0 <= k < n ==> ts[..n][k] == ts[k];
      SelectedAgree(ts[..n], p, q);
    }
  }
}
