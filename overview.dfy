/** The classifier of filter_regulations_funcs.py that tells a general
    overview of a whole regulation from a record about one specific article
    (`is_general_overview`), and the split it drives (`separate_regulations`).
    Five signals are weighed: an id naming no article, section or chapter (1),
    more than 10 mandatory obligations (2), more than 8 individual rights (2),
    a source section that reads like an introduction (1) and more than 8 key
    definitions (1); three points make an overview. */
module Overview {
  import opened Json
  import opened Text
  import opened Seqs

  /** The records the classifier can look at without raising: `requirements`
      and `rights_granted` are dicts (or absent), and the lists it measures
      have a length. */
  predicate Classifiable(reg: Dict) {
    var requirements := GetOr(reg, "requirements", Obj([]));
    var rights := GetOr(reg, "rights_granted", Obj([]));
    requirements.Obj? && Sized(GetOr(requirements.entries, "mandatory_obligations", Arr([])))
    && rights.Obj? && Sized(GetOr(rights.entries, "individual_rights", Arr([])))
    && Sized(GetOr(reg, "key_definitions", Obj([])))
  }

  /** `str(regulation.get(key, "")).lower()`. */
  function LowerText(reg: Dict, key: string, show: Value -> string): string {
    Lower(PyStr(GetOr(reg, key, Str("")), show))
  }

  /** The id names no article, section or chapter. */
  predicate GenericId(reg: Dict, show: Value -> string) {
    var id := LowerText(reg, "regulation_id", show);
    !Contains(id, "article") && !Contains(id, "section") && !Contains(id, "chapter")
  }

  /** More than 10 mandatory obligations. */
  predicate ManyObligations(reg: Dict)
    requires Classifiable(reg)
  {
    var requirements := GetOr(reg, "requirements", Obj([]));
    PyLen(GetOr(requirements.entries, "mandatory_obligations", Arr([]))) > 10
  }

  /** More than 8 individual rights. */
  predicate ManyRights(reg: Dict)
    requires Classifiable(reg)
  {
    var rights := GetOr(reg, "rights_granted", Obj([]));
    PyLen(GetOr(rights.entries, "individual_rights", Arr([]))) > 8
  }

  /** The keywords that mark an introductory source section. */
  const OverviewKeywords: seq<string> := ["april 2016", "regulation", "chapter i", "general provisions", "preamble"]

  /** The source section contains one of the keywords. */
  predicate IntroSource(reg: Dict, show: Value -> string) {
    var source := LowerText(reg, "source_section", show);
    exists k :: 0 <= k < |OverviewKeywords| && Contains(source, OverviewKeywords[k])
  }

  /** More than 8 key definitions. */
  predicate ManyDefinitions(reg: Dict)
    requires Classifiable(reg)
  {
    PyLen(GetOr(reg, "key_definitions", Obj([]))) > 8
  }

  /** The weighted indicator sum. */
  function Indicators(reg: Dict, show: Value -> string): (n: nat)
    requires Classifiable(reg)
    ensures n <= 7
  {
    (if GenericId(reg, show) then 1 else 0)
    + (if ManyObligations(reg) then 2 else 0)
    + (if ManyRights(reg) then 2 else 0)
    + (if IntroSource(reg, show) then 1 else 0)
    + (if ManyDefinitions(reg) then 1 else 0)
  }

  /** `is_general_overview`. */
  predicate IsGeneralOverview(reg: Dict, show: Value -> string)
    requires Classifiable(reg)
  {
    Indicators(reg, show) >= 3
  }

  /** The rule read off the weights: both strong signals decide alone; one
      strong signal needs one weak one; without a strong signal all three
      weak ones are needed. */
  lemma OverviewRule(reg: Dict, show: Value -> string)
    requires Classifiable(reg)
    ensures ManyObligations(reg) && ManyRights(reg) ==> IsGeneralOverview(reg, show)
    ensures ManyObligations(reg) != ManyRights(reg) ==>
              (IsGeneralOverview(reg, show) <==> GenericId(reg, show) || IntroSource(reg, show) || ManyDefinitions(reg))
    ensures !ManyObligations(reg) && !ManyRights(reg) ==>
              (IsGeneralOverview(reg, show) <==> GenericId(reg, show) && IntroSource(reg, show) && ManyDefinitions(reg))
  {
  }

  /** An id naming an article keeps a record without strong signals out of
      the overviews. */
  lemma ArticleIdIsSpecific(reg: Dict, show: Value -> string)
    requires Classifiable(reg)
    requires Contains(LowerText(reg, "regulation_id", show), "article")
    requires !ManyObligations(reg) && !ManyRights(reg)
    ensures !IsGeneralOverview(reg, show)
  {
    OverviewRule(reg, show);
  }

  /** The split's test, defined on every record. */
  function GeneralTest(show: Value -> string): Dict -> bool {
    reg => Classifiable(reg) && IsGeneralOverview(reg, show)
  }

  function SpecificTest(show: Value -> string): Dict -> bool {
    reg => !(Classifiable(reg) && IsGeneralOverview(reg, show))
  }

  /** `separate_regulations`: every record goes, in order, to exactly one of
      the general overviews and the specific articles. */
  method SeparateRegulations(regs: seq<Dict>, show: Value -> string) returns (general: seq<Dict>, specific: seq<Dict>)
    requires forall i :: 0 <= i < |regs| ==> Classifiable(regs[i])
    ensures general == Filter(regs, GeneralTest(show))
    ensures specific == Filter(regs, SpecificTest(show))
    ensures |general| + |specific| == |regs|
    ensures multiset(general) + multiset(specific) == multiset(regs)
  {
    general, specific := [], [];
    for i := 0 to |regs|
      invariant general == Filter(regs[..i], GeneralTest(show))
      invariant specific == Filter(regs[..i], SpecificTest(show))
    {
      var reg := regs[i];
      FilterStep(regs, i, GeneralTest(show));
      FilterStep(regs, i, SpecificTest(show));
      if IsGeneralOverview(reg, show) {
        general := general + [reg];
      } else {
        specific := specific + [reg];
      }
    }
    assert regs[..|regs|] == regs;
    PartitionTwo(regs, GeneralTest(show), SpecificTest(show));
  }
}
