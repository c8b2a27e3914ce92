/**
 * Prompt assembly in `AIFeedbackGenerator.generate_feedback`: the sentence
 * that points at a state's fluoridation guidelines (or at the CDC when the
 * state has none) and the fixed template the request facts are filled into.
 * The two fluoride values arrive already formatted with two decimals.
 */
module Prompt {
  import opened Wrappers
  import opened Strings

  const LinkLead := "For specific state guidelines, refer to: "
  /** The apostrophe in "CDC’s" is U+2019, the right single quotation mark. */
  const CdcSentence := "For general " + CdcHead + "\U{2019}" + CdcTail
  const CdcHead := "information on fluoride levels, refer to the CDC"
  const CdcTail := "s WFRS (Water Fluoridation Reporting System) or the 'My Water Fluoride' tool available through the CDC website."

  /** `state_guidelines.get(state_name, None)` is truthy: present and not the empty string. */
  predicate HasGuideline(guidelines: map<string, string>, stateName: string) {
    stateName in guidelines && guidelines[stateName] != ""
  }

  /** The closing sentence of the prompt (`additional_info`). */
  function AdditionalInfo(guidelines: map<string, string>, stateName: string): (r: string)
    ensures HasGuideline(guidelines, stateName) ==>
      |LinkLead| < |r| && r[..|LinkLead|] == LinkLead && r[|LinkLead|..|r| - 1] == guidelines[stateName]
  {
    if HasGuideline(guidelines, stateName) then LinkLead + guidelines[stateName] + "."
    else CdcSentence
  }

  /** Reads the link back out of a "refer to: <link>." sentence. */
  function CitedLink(info: string): Option<string> {
    if |LinkLead| < |info| && info[..|LinkLead|] == LinkLead && info[|info| - 1] == '.'
    then Some(info[|LinkLead|..|info| - 1])
    else None
  }

  /** The sentence names the state's link exactly when the state has one, and
      is the CDC sentence exactly when it has none. */
  lemma AdditionalInfoCitesGuideline(guidelines: map<string, string>, stateName: string)
    ensures CitedLink(AdditionalInfo(guidelines, stateName)) ==
      if HasGuideline(guidelines, stateName) then Some(guidelines[stateName]) else None
    ensures AdditionalInfo(guidelines, stateName) == CdcSentence <==> !HasGuideline(guidelines, stateName)
  {
    assert CdcSentence[4] == 'g' by {
      assert CdcSentence == "For general " + (CdcHead + "\U{2019}" + CdcTail);
    }
    assert LinkLead[4] == 's';
    if HasGuideline(guidelines, stateName) {
      var info := AdditionalInfo(guidelines, stateName);
      var link := guidelines[stateName];
      assert info == LinkLead + link + ".";
      assert info[..|LinkLead|] == LinkLead;
      assert info[|LinkLead|..|info| - 1] == link;
      assert info[4] == 's';
    } else {
      assert CdcSentence[..|LinkLead|] != LinkLead by {
        assert CdcSentence[..|LinkLead|][4] == 'g';
      }
    }
  }

  /** Concatenation of a list of strings, left to right. */
  function Concat(parts: seq<string>): string {
    if parts == [] then [] else Concat(parts[..|parts| - 1]) + parts[|parts| - 1]
  }

  /** Where part `k` starts in `Concat(parts)`. */
  function Offset(parts: seq<string>, k: nat): nat
    requires k <= |parts|
  {
    |Concat(parts[..k])|
  }

  lemma {:induction false} ConcatSplit(parts: seq<string>, k: nat)
    requires k <= |parts|
    ensures Concat(parts) == Concat(parts[..k]) + Concat(parts[k..])
    decreases |parts|
  {
    if k == |parts| {
      assert parts[..k] == parts;
      assert parts[k..] == [];
    } else {
      var init := parts[..|parts| - 1];
      ConcatSplit(init, k);
      assert init[..k] == parts[..k];
      assert parts[k..][..|parts[k..]| - 1] == init[k..];
    }
  }

  /** Each part sits, unchanged, at its offset, and consecutive parts follow each other. */
  lemma ConcatPart(parts: seq<string>, k: nat)
    requires k < |parts|
    ensures Offset(parts, k + 1) == Offset(parts, k) + |parts[k]| <= |Concat(parts)|
    ensures Concat(parts)[Offset(parts, k)..Offset(parts, k + 1)] == parts[k]
  {
    ConcatSplit(parts, k + 1);
    assert parts[..k + 1][..k] == parts[..k];
    assert Concat(parts[..k + 1]) == Concat(parts[..k]) + parts[k];
  }

  const Opening := "Provide a summary of the water fluoridation data for '"
  const AfterCws := "' in "
  const AfterState := " for the year "
  const AfterYear := ". This CWS had the highest monthly adjusted fluoride level, recorded at "
  const AfterMax := " mg/L, with a historical average of "
  const AfterAvg := " ppm. Please indicate if the data suggests consistency with public health guidelines or if it indicates a need for intervention. "

  /** The template's pieces with the request facts in between. */
  function PromptParts(cwsName: string, stateName: string, year: int,
                       maxFluoride: string, avgFluoride: string, info: string): (ps: seq<string>)
    ensures |ps| == 12 && ps[0] == Opening && ps[|ps| - 1] == info
  {
    [Opening, cwsName, AfterCws, stateName, AfterState, IntToString(year),
     AfterYear, maxFluoride, AfterMax, avgFluoride, AfterAvg, info]
  }

  /** The user message sent to the completion endpoint. */
  function FeedbackPrompt(cwsName: string, stateName: string, year: int,
                          maxFluoride: string, avgFluoride: string, info: string): (p: string)
    ensures |Opening| <= |p| && p[..|Opening|] == Opening
    ensures |info| <= |p| && p[|p| - |info|..] == info
  {
    var parts := PromptParts(cwsName, stateName, year, maxFluoride, avgFluoride, info);
    ConcatEnds(parts);
    Concat(parts)
  }

  /** Every part of `parts` sits unchanged at its offset in `p`, the parts in list order. */
  predicate PartsInPlace(parts: seq<string>, p: string) {
    Offset(parts, 0) == 0 && Offset(parts, |parts|) == |p| &&
    forall k {:trigger parts[k]} :: 0 <= k < |parts| ==>
      Offset(parts, k) + |parts[k]| == Offset(parts, k + 1) <= |p| &&
      p[Offset(parts, k)..Offset(parts, k + 1)] == parts[k]
  }

  lemma ConcatLayout(parts: seq<string>)
    ensures PartsInPlace(parts, Concat(parts))
  {
    assert parts[..|parts|] == parts;
    forall k {:trigger parts[k]} | 0 <= k < |parts|
      ensures Offset(parts, k) + |parts[k]| == Offset(parts, k + 1) <= |Concat(parts)|
      ensures Concat(parts)[Offset(parts, k)..Offset(parts, k + 1)] == parts[k]
    {
      ConcatPart(parts, k);
    }
  }

  /** `Concat` of a non-empty list starts with its first part and ends with its last. */
  lemma ConcatEnds(parts: seq<string>)
    requires parts != []
    ensures |parts[0]| <= |Concat(parts)| && Concat(parts)[..|parts[0]|] == parts[0]
    ensures |parts[|parts| - 1]| <= |Concat(parts)| &&
      Concat(parts)[|Concat(parts)| - |parts[|parts| - 1]|..] == parts[|parts| - 1]
  {
    ConcatSplit(parts, 1);
    assert parts[..1][..0] == [];
    assert Concat(parts[..1]) == parts[0];
  }

  /** The prompt carries every template piece and every fact unchanged and in
      template order, opens with the fixed text and ends with the closing sentence. */
  lemma PromptLayout(cwsName: string, stateName: string, year: int,
                     maxFluoride: string, avgFluoride: string, info: string)
    ensures PartsInPlace(PromptParts(cwsName, stateName, year, maxFluoride, avgFluoride, info),
                         FeedbackPrompt(cwsName, stateName, year, maxFluoride, avgFluoride, info))
    ensures var p := FeedbackPrompt(cwsName, stateName, year, maxFluoride, avgFluoride, info);
      |Opening| <= |p| && p[..|Opening|] == Opening &&
      |info| <= |p| && p[|p| - |info|..] == info
  {
    var parts := PromptParts(cwsName, stateName, year, maxFluoride, avgFluoride, info);
    ConcatLayout(parts);
    ConcatEnds(parts);
  }
}
