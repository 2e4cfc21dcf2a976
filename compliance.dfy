/** The Compliance Classification Module of CCM.py: turning one
    language-model answer into one of four verdicts, checking a list of
    regulations in turn, and summing the verdicts up in a report. */
module Compliance {
  import opened Json
  import opened Text
  import opened Seqs

  /** The four verdicts a check can end in. */
  datatype Status = Compliant | NonCompliant | InsufficientInformation | HumanRequired

  /** The `compliance_status` text of each verdict. */
  function Label(s: Status): (r: string)
    ensures r != ""
  {
    match s
    case Compliant => "COMPLIANT"
    case NonCompliant => "NON_COMPLIANT"
    case InsufficientInformation => "INSUFFICIENT_INFORMATION"
    case HumanRequired => "HUMAN_REQUIRED"
  }

  /** Distinct verdicts have distinct labels, so a label names its verdict. */
  lemma LabelsDistinct(s: Status, t: Status)
    requires s != t
    ensures Label(s) != Label(t)
  {
    assert Label(s)[0] != Label(t)[0] || |Label(s)| != |Label(t)|;
  }

  /** `v == True`: holds for `True` and for the number 1. */
  predicate EqualsTrue(v: Value) {
    v == Bool(true) || v == Num(1.0)
  }

  /** `v == False`: holds for `False` and for the number 0. */
  predicate EqualsFalse(v: Value) {
    v == Bool(false) || v == Num(0.0)
  }

  /** The confidence threshold below which a human must decide. */
  const Threshold: real := 0.7

  /** `v < 0.7`: numbers and booleans compare (a boolean as 1 or 0);
      anything else raises a `TypeError`. */
  function BelowThreshold(v: Value): (r: Result<bool>)
    ensures r.Ok? <==> v.Num? || v.Bool?
    ensures v.Num? ==> r == Ok(v.n < Threshold)
    ensures v.Bool? ==> r == Ok(!v.b)
  {
    match v
    case Num(n) => Ok(n < Threshold)
    case Bool(b) => Ok(!b)
    case _ => Raised("'<' not supported between instances of '" + TypeName(v) + "' and 'float'")
  }

  /** The fields of an answer the verdict is read from, with the defaults
      used when the answer leaves them out. */
  function Contradiction(answer: Dict): Value { GetOr(answer, "contradiction_found", Bool(false)) }
  function HasInformation(answer: Dict): Value { GetOr(answer, "has_relevant_information", Bool(true)) }
  function Confidence(answer: Dict): Value { GetOr(answer, "confidence_score", Num(0.5)) }

  /** The verdict of an answer, by precedence: a contradiction, then missing
      information, then low confidence; otherwise compliant. */
  function Classify(answer: Dict): Result<Status> {
    if EqualsTrue(Contradiction(answer)) then Ok(NonCompliant)
    else if EqualsFalse(HasInformation(answer)) then Ok(InsufficientInformation)
    else match BelowThreshold(Confidence(answer))
      case Raised(e) => Raised(e)
      case Ok(low) => Ok(if low then HumanRequired else Compliant)
  }

  /** Each verdict, stated in terms of the answer's fields: a contradiction
      overrides everything, missing information overrides the confidence,
      and only a confident, informed, uncontradicted answer is compliant. */
  lemma ClassifyPrecedence(answer: Dict)
    ensures Classify(answer) == Ok(NonCompliant) <==> EqualsTrue(Contradiction(answer))
    ensures Classify(answer) == Ok(InsufficientInformation) <==>
              !EqualsTrue(Contradiction(answer)) && EqualsFalse(HasInformation(answer))
    ensures Classify(answer) == Ok(HumanRequired) <==>
              !EqualsTrue(Contradiction(answer)) && !EqualsFalse(HasInformation(answer)) &&
              BelowThreshold(Confidence(answer)) == Ok(true)
    ensures Classify(answer) == Ok(Compliant) <==>
              !EqualsTrue(Contradiction(answer)) && !EqualsFalse(HasInformation(answer)) &&
              BelowThreshold(Confidence(answer)) == Ok(false)
    ensures Classify(answer).Raised? <==>
              !EqualsTrue(Contradiction(answer)) && !EqualsFalse(HasInformation(answer)) &&
              !(Confidence(answer).Num? || Confidence(answer).Bool?)
  {
  }

  /** An answer without any of the three fields falls back on the default
      confidence 0.5, which is below the threshold. */
  lemma SilentAnswerNeedsHuman(answer: Dict)
    requires Get(answer, "contradiction_found").None?
    requires Get(answer, "has_relevant_information").None?
    requires Get(answer, "confidence_score").None?
    ensures Classify(answer) == Ok(HumanRequired)
  {
  }

  /** The `compliance_status` the model itself proposes plays no part in the
      verdict. */
  lemma ProposedStatusIgnored(answer: Dict, proposed: Value)
    ensures Classify(Put(answer, "compliance_status", proposed)) == Classify(answer)
  {
    PutOther(answer, "compliance_status", proposed, "contradiction_found");
    PutOther(answer, "compliance_status", proposed, "has_relevant_information");
    PutOther(answer, "compliance_status", proposed, "confidence_score");
  }

  /** The text of the `AttributeError` raised by `result.get(...)` when the
      parsed answer is not a dict. */
  function NoGetError(v: Value): string {
    "'" + TypeName(v) + "' object has no attribute 'get'"
  }

  /** The record returned when anything in the check raises: it reports the
      regulation as compliant and carries the exception text. */
  function Fallback(regulation: Dict, error: string): Dict {
    [("regulation_id", GetOr(regulation, "regulation_id", Str("N/A"))),
     ("regulation_name", GetOr(regulation, "regulation_name", Str("Unknown"))),
     ("contradiction_found", Bool(false)),
     ("compliance_status", Str(Label(Compliant))),
     ("explanation", Str("Error during analysis: " + error)),
     ("error", Str(error))]
  }

  /** What went wrong in a check, if anything: the call, the `.get` on an
      answer that is not a dict, or the confidence comparison. */
  function Failure(reply: Reply): Option<string> {
    match reply
    case CallFailed(message) => Some(message)
    case Answer(v) =>
      if !v.Obj? then Some(NoGetError(v))
      else match Classify(v.entries)
        case Raised(e) => Some(e)
        case Ok(_) => None
  }

  /** `check_regulation_compliance` after its oracle call: the answer with
      the verdict written into `compliance_status`, or the fallback record. */
  function CheckRegulationCompliance(regulation: Dict, reply: Reply): Dict {
    match Failure(reply)
    case Some(e) => Fallback(regulation, e)
    case None => Put(reply.value.entries, "compliance_status", Str(Label(Classify(reply.value.entries).value)))
  }

  /** The record's `compliance_status` is `text`. */
  predicate HasStatus(r: Dict, text: string) {
    Get(r, "compliance_status") == Some(Str(text))
  }

  /** The record carries one of the four verdict labels. */
  predicate Labelled(r: Dict) {
    HasStatus(r, Label(Compliant)) || HasStatus(r, Label(NonCompliant)) ||
    HasStatus(r, Label(InsufficientInformation)) || HasStatus(r, Label(HumanRequired))
  }

  /** The fields of the fallback record. */
  lemma FallbackFields(regulation: Dict, error: string)
    ensures var r := Fallback(regulation, error);
            Get(r, "regulation_id") == Some(GetOr(regulation, "regulation_id", Str("N/A"))) &&
            Get(r, "regulation_name") == Some(GetOr(regulation, "regulation_name", Str("Unknown"))) &&
            Get(r, "contradiction_found") == Some(Bool(false)) &&
            HasStatus(r, Label(Compliant)) &&
            Get(r, "error") == Some(Str(error))
  {
    var r := Fallback(regulation, error);
    GetAt(r, "contradiction_found", 2);
    GetAt(r, "compliance_status", 3);
    GetAt(r, "error", 5);
  }

  /** A check that fails in any way reports the regulation as compliant, with
      no contradiction, and records the error. */
  lemma FailureReportedCompliant(regulation: Dict, reply: Reply)
    requires Failure(reply).Some?
    ensures var r := CheckRegulationCompliance(regulation, reply);
            HasStatus(r, Label(Compliant)) &&
            Get(r, "contradiction_found") == Some(Bool(false)) &&
            Get(r, "error") == Some(Str(Failure(reply).value))
  {
    FallbackFields(regulation, Failure(reply).value);
  }

  /** A check that succeeds keeps the answer, overwrites only its
      `compliance_status`, and writes there the label of the answer's verdict. */
  lemma SuccessKeepsAnswer(regulation: Dict, reply: Reply)
    requires Failure(reply).None?
    ensures reply.Answer? && reply.value.Obj? && Classify(reply.value.entries).Ok?
    ensures var r := CheckRegulationCompliance(regulation, reply);
            HasStatus(r, Label(Classify(reply.value.entries).value)) &&
            forall k :: k != "compliance_status" ==> Get(r, k) == Get(reply.value.entries, k)
  {
    var status := Str(Label(Classify(reply.value.entries).value));
    PutGet(reply.value.entries, "compliance_status", status);
    PutOthers(reply.value.entries, "compliance_status", status);
  }

  /** Whatever the oracle does, the record carries one of the four labels. */
  lemma CheckAlwaysLabelled(regulation: Dict, reply: Reply)
    ensures Labelled(CheckRegulationCompliance(regulation, reply))
  {
    if Failure(reply).Some? {
      FailureReportedCompliant(regulation, reply);
    } else {
      SuccessKeepsAnswer(regulation, reply);
    }
  }

  /** A regulation is reported non-compliant exactly when the oracle answered
      a dict whose `contradiction_found` equals `True`. */
  lemma NonCompliantIffContradiction(regulation: Dict, reply: Reply)
    ensures HasStatus(CheckRegulationCompliance(regulation, reply), Label(NonCompliant)) <==>
              reply.Answer? && reply.value.Obj? && EqualsTrue(Contradiction(reply.value.entries))
  {
    var r := CheckRegulationCompliance(regulation, reply);
    if Failure(reply).Some? {
      FailureReportedCompliant(regulation, reply);
      LabelsDistinct(Compliant, NonCompliant);
    } else {
      SuccessKeepsAnswer(regulation, reply);
      var s := Classify(reply.value.entries).value;
      ClassifyPrecedence(reply.value.entries);
      if s != NonCompliant {
        LabelsDistinct(s, NonCompliant);
      }
    }
  }

  /** What slicing a value as `v[:n]` needs: a falsy value is never sliced,
      and a truthy one must be a string or a list. */
  predicate Sliceable(v: Value) {
    !Truthy(v) || v.Str? || v.Arr?
  }

  /** The detail the progress line slices for a result, if its status asks
      for one: the contradiction for a violation, the missing information
      for an undecidable case. */
  function Detail(result: Dict): Value {
    var status := GetOr(result, "compliance_status", Str("UNKNOWN"));
    if status == Str(Label(NonCompliant)) then GetOr(result, "contradiction_details", Null)
    else if status == Str(Label(InsufficientInformation)) then GetOr(result, "missing_information", Null)
    else Null
  }

  /** One turn of the loop of `check_all_regulations`: slicing the name,
      the check, and (when printing progress) slicing its detail. */
  function CheckOne(regulation: Dict, reply: Reply, verbose: bool): (r: Result<Dict>)
    ensures r.Ok? ==> r.value == CheckRegulationCompliance(regulation, reply)
    ensures r.Ok? <==> Sliceable(GetOr(regulation, "regulation_name", Null)) &&
                       (verbose ==> Sliceable(Detail(CheckRegulationCompliance(regulation, reply))))
  {
    var name := GetOr(regulation, "regulation_name", Null);
    if !Sliceable(name) then Raised(SliceError(name))
    else
      var result := CheckRegulationCompliance(regulation, reply);
      if verbose && !Sliceable(Detail(result)) then Raised(SliceError(Detail(result)))
      else Ok(result)
  }

  /** The results of checking `regulations` in order, or the first exception. */
  function CheckedAll(regulations: seq<Dict>, chunk: string, ask: (Dict, string) -> Reply, verbose: bool): Result<seq<Dict>> {
    if regulations == [] then Ok([])
    else
      var n := |regulations|;
      match CheckedAll(regulations[..n - 1], chunk, ask, verbose)
      case Raised(e) => Raised(e)
      case Ok(results) =>
        match CheckOne(regulations[n - 1], ask(regulations[n - 1], chunk), verbose)
        case Raised(e) => Raised(e)
        case Ok(r) => Ok(results + [r])
  }

  /** `check_all_regulations`: one check per regulation, in order. The oracle
      `ask` stands for the language-model call on a regulation and the
      document text. */
  method CheckAllRegulations(regulations: seq<Dict>, chunk: string, ask: (Dict, string) -> Reply, verbose: bool)
    returns (out: Result<seq<Dict>>)
    ensures out == CheckedAll(regulations, chunk, ask, verbose)
  {
    var results: seq<Dict> := [];
    for i := 0 to |regulations|
      invariant CheckedAll(regulations[..i], chunk, ask, verbose) == Ok(results)
    {
      assert regulations[..i + 1][..i] == regulations[..i];
      var reg := regulations[i];
      var name := GetOr(reg, "regulation_name", Null);
      if !Sliceable(name) {
        out := Raised(SliceError(name));
        RaisedPersists(regulations, i + 1, chunk, ask, verbose);
        return;
      }
      var result := CheckRegulationCompliance(reg, ask(reg, chunk));
      if verbose && !Sliceable(Detail(result)) {
        out := Raised(SliceError(Detail(result)));
        RaisedPersists(regulations, i + 1, chunk, ask, verbose);
        return;
      }
      results := results + [result];
    }
    assert regulations[..|regulations|] == regulations;
    out := Ok(results);
  }

  /** Once a prefix of the run raised, the whole run raises the same way. */
  lemma {:induction false} RaisedPersists(regulations: seq<Dict>, k: int, chunk: string,
                                          ask: (Dict, string) -> Reply, verbose: bool)
    requires 0 <= k <= |regulations|
    requires CheckedAll(regulations[..k], chunk, ask, verbose).Raised?
    ensures CheckedAll(regulations, chunk, ask, verbose) == CheckedAll(regulations[..k], chunk, ask, verbose)
    decreases |regulations| - k
  {
    if k < |regulations| {
      var n := |regulations|;
      assert regulations[..n - 1][..k] == regulations[..k];
      RaisedPersists(regulations[..n - 1], k, chunk, ask, verbose);
    } else {
      assert regulations[..k] == regulations;
    }
  }

  /** The run completes exactly when every turn does. */
  lemma {:induction false} CheckedAllOk(regulations: seq<Dict>, chunk: string, ask: (Dict, string) -> Reply, verbose: bool)
    ensures CheckedAll(regulations, chunk, ask, verbose).Ok? <==>
              forall i :: 0 <= i < |regulations| ==> CheckOne(regulations[i], ask(regulations[i], chunk), verbose).Ok?
  {
    if regulations != [] {
      var n := |regulations|;
      var init := regulations[..n - 1];
      CheckedAllOk(init, chunk, ask, verbose);
      var before := CheckedAll(init, chunk, ask, verbose);
      var last := CheckOne(regulations[n - 1], ask(regulations[n - 1], chunk), verbose);
      assert CheckedAll(regulations, chunk, ask, verbose).Ok? <==> before.Ok? && last.Ok?;
      if before.Ok? && last.Ok? {
        forall i | 0 <= i < n
          ensures CheckOne(regulations[i], ask(regulations[i], chunk), verbose).Ok?
        {
          if i < n - 1 {
            assert init[i] == regulations[i];
          }
        }
      } else if before.Raised? {
        var i :| 0 <= i < n - 1 && CheckOne(init[i], ask(init[i], chunk), verbose).Raised?;
        assert init[i] == regulations[i];
      }
    }
  }

  /** A completed run holds one result per regulation, in order, each the
      check of that regulation. */
  lemma {:induction false} CheckedAllResults(regulations: seq<Dict>, chunk: string, ask: (Dict, string) -> Reply, verbose: bool)
    requires CheckedAll(regulations, chunk, ask, verbose).Ok?
    ensures var results := CheckedAll(regulations, chunk, ask, verbose).value;
            |results| == |regulations| &&
            forall i :: 0 <= i < |regulations| ==>
              results[i] == CheckRegulationCompliance(regulations[i], ask(regulations[i], chunk))
  {
    if regulations != [] {
      var n := |regulations|;
      var init := regulations[..n - 1];
      var before := CheckedAll(init, chunk, ask, verbose);
      var last := CheckOne(regulations[n - 1], ask(regulations[n - 1], chunk), verbose);
      assert before.Ok? && last.Ok?;
      var results := CheckedAll(regulations, chunk, ask, verbose).value;
      assert results == before.value + [last.value];
      CheckedAllResults(init, chunk, ask, verbose);
      forall i | 0 <= i < n
        ensures results[i] == CheckRegulationCompliance(regulations[i], ask(regulations[i], chunk))
      {
        if i < n - 1 {
          assert init[i] == regulations[i] && results[i] == before.value[i];
        } else {
          assert results[i] == last.value;
        }
      }
    }
  }

  /** Without progress output, a run over regulations whose names are
      strings, lists or falsy always completes. */
  lemma QuietRunCompletes(regulations: seq<Dict>, chunk: string, ask: (Dict, string) -> Reply)
    requires forall i :: 0 <= i < |regulations| ==> Sliceable(GetOr(regulations[i], "regulation_name", Null))
    ensures CheckedAll(regulations, chunk, ask, false).Ok?
  {
    CheckedAllOk(regulations, chunk, ask, false);
  }

  /** The per-status tests of `generate_compliance_report`. */
  function StatusIs(s: Status): Dict -> bool {
    r => HasStatus(r, Label(s))
  }

  /** `compliance_status in ['INSUFFICIENT_INFORMATION', 'HUMAN_REQUIRED']`. */
  function InReview(): Dict -> bool {
    r => HasStatus(r, Label(InsufficientInformation)) || HasStatus(r, Label(HumanRequired))
  }

  /** The number of results with each verdict, the size of the review list,
      and how they add up. */
  lemma {:induction false} Tally(results: seq<Dict>)
    ensures Count(results, StatusIs(Compliant)) + Count(results, StatusIs(NonCompliant))
            + Count(results, StatusIs(InsufficientInformation)) + Count(results, StatusIs(HumanRequired))
            <= |results|
    ensures |Filter(results, InReview())|
            == Count(results, StatusIs(InsufficientInformation)) + Count(results, StatusIs(HumanRequired))
    ensures (forall i :: 0 <= i < |results| ==> Labelled(results[i])) ==>
              Count(results, StatusIs(Compliant)) + Count(results, StatusIs(NonCompliant))
              + Count(results, StatusIs(InsufficientInformation)) + Count(results, StatusIs(HumanRequired))
              == |results|
  {
    if results != [] {
      var init := results[..|results| - 1];
      Tally(init);
      assert forall i :: 0 <= i < |init| ==> init[i] == results[i];
      var last := results[|results| - 1];
      LabelsDistinct(Compliant, NonCompliant);
      LabelsDistinct(Compliant, InsufficientInformation);
      LabelsDistinct(Compliant, HumanRequired);
      LabelsDistinct(NonCompliant, InsufficientInformation);
      LabelsDistinct(NonCompliant, HumanRequired);
      LabelsDistinct(InsufficientInformation, HumanRequired);
    }
  }

  /** The figures of the report's `summary`. */
  datatype Summary = Summary(compliant: nat, nonCompliant: nat, insufficientInfo: nat, humanRequired: nat,
                             total: nat, complianceRate: real)

  /** The report: its one-line verdict, the figures, the violations, the
      results that need a human, and all results. */
  datatype Report = Report(overallStatus: string, summary: Summary, violations: seq<Dict>,
                           needsReview: seq<Dict>, detailedResults: seq<Dict>)

  /** The compliance rate: the compliant share of the definitive verdicts, in
      percent, and 0 when there is none. */
  function Rate(compliant: nat, nonCompliant: nat): (r: real)
    ensures 0.0 <= r <= 100.0
    ensures compliant + nonCompliant == 0 ==> r == 0.0
    ensures compliant == 0 ==> r == 0.0
    ensures nonCompliant == 0 && compliant > 0 ==> r == 100.0
    ensures compliant > 0 && nonCompliant > 0 ==> 0.0 < r < 100.0
  {
    var definitive := compliant + nonCompliant;
    if definitive > 0 then RateOf(compliant, definitive) else 0.0
  }

  /** `part / whole * 100` for `0 < whole`, `part <= whole`. */
  function RateOf(part: nat, whole: nat): (r: real)
    requires 0 < whole && part <= whole
    ensures 0.0 <= r <= 100.0
    ensures part == 0 ==> r == 0.0
    ensures part == whole ==> r == 100.0
    ensures 0 < part < whole ==> 0.0 < r < 100.0
  {
    var q := part as real / whole as real;
    assert q * whole as real == part as real;
    q * 100.0
  }

  /** The reported rate, rounded to one decimal, stays in `[0, 100]`; it is
      0.0 with no compliant verdict and 100.0 when every definitive verdict
      is compliant. */
  lemma RoundedRate(compliant: nat, nonCompliant: nat)
    ensures var r := Round1(Rate(compliant, nonCompliant));
            0.0 <= r <= 100.0 &&
            (compliant == 0 ==> r == 0.0) &&
            (nonCompliant == 0 && compliant > 0 ==> r == 100.0)
  {
    RoundedRange(Rate(compliant, nonCompliant), 0, 1000);
  }

  /** The rounding can report a perfect rate despite a violation: 2000
      compliant verdicts and one violation are reported as 100.0. */
  lemma RoundedRateHidesViolation()
    ensures Rate(2000, 1) < 100.0 && Round1(Rate(2000, 1)) == 100.0
  {
    var x := Rate(2000, 1);
    var q := 2000.0 / 2001.0;
    assert q * 2001.0 == 2000.0;
    assert x == q * 100.0;
    RoundedAtLeast(x, 1000);
    RoundedRange(x, 0, 1000);
  }

  /** The three one-line verdicts of the report. */
  function ViolationsText(n: nat): string {
    "❌ NON-COMPLIANT - " + NatToString(n) + " violation(s) found"
  }
  function ReviewText(n: nat): string {
    "\U{26A0}\U{FE0F} REVIEW REQUIRED - " + NatToString(n) + " item(s) need attention"
  }
  function CleanText(total: nat): string {
    "✅ COMPLIANT - No violations found in " + NatToString(total) + " regulations"
  }

  /** The one-line verdict: any violation first, then any item for review. */
  function Overall(nonCompliant: nat, insufficientInfo: nat, humanRequired: nat, total: nat): string {
    if nonCompliant > 0 then ViolationsText(nonCompliant)
    else if insufficientInfo > 0 || humanRequired > 0 then ReviewText(insufficientInfo + humanRequired)
    else CleanText(total)
  }

  /** `generate_compliance_report`. */
  function GenerateComplianceReport(results: seq<Dict>): Report {
    var compliant := Count(results, StatusIs(Compliant));
    var nonCompliant := Count(results, StatusIs(NonCompliant));
    var insufficientInfo := Count(results, StatusIs(InsufficientInformation));
    var humanRequired := Count(results, StatusIs(HumanRequired));
    var total := |results|;
    Report(Overall(nonCompliant, insufficientInfo, humanRequired, total),
           Summary(compliant, nonCompliant, insufficientInfo, humanRequired, total, Round1(Rate(compliant, nonCompliant))),
           Filter(results, StatusIs(NonCompliant)),
           Filter(results, InReview()),
           results)
  }

  /** The report's figures match its lists: one violation per non-compliant
      result, one review item per undecided result, every violation and
      review item taken from the results, and no more verdicts than results
      (exactly as many when every result carries a label, as every
      `CheckRegulationCompliance` record does). */
  lemma ReportConsistent(results: seq<Dict>)
    ensures var rep := GenerateComplianceReport(results);
            |rep.violations| == rep.summary.nonCompliant &&
            |rep.needsReview| == rep.summary.insufficientInfo + rep.summary.humanRequired &&
            rep.summary.compliant + rep.summary.nonCompliant + rep.summary.insufficientInfo + rep.summary.humanRequired
              <= rep.summary.total &&
            0.0 <= rep.summary.complianceRate <= 100.0
    ensures var rep := GenerateComplianceReport(results);
            (forall r :: r in rep.violations <==> r in results && HasStatus(r, Label(NonCompliant))) &&
            (forall r :: r in rep.needsReview <==> r in results && InReview()(r))
    ensures var rep := GenerateComplianceReport(results);
            (forall i :: 0 <= i < |results| ==> Labelled(results[i])) ==>
              rep.summary.compliant + rep.summary.nonCompliant + rep.summary.insufficientInfo
              + rep.summary.humanRequired == rep.summary.total
  {
    Tally(results);
    CountIsFilterLength(results, StatusIs(NonCompliant));
    RoundedRate(Count(results, StatusIs(Compliant)), Count(results, StatusIs(NonCompliant)));
    forall r ensures r in Filter(results, StatusIs(NonCompliant)) <==> r in results && HasStatus(r, Label(NonCompliant)) {
      FilterMembers(results, StatusIs(NonCompliant), r);
    }
    forall r ensures r in Filter(results, InReview()) <==> r in results && InReview()(r) {
      FilterMembers(results, InReview(), r);
    }
  }

  /** The one-line verdict opens with the sign of its case. */
  lemma OverallSign(nonCompliant: nat, insufficientInfo: nat, humanRequired: nat, total: nat)
    ensures var o := Overall(nonCompliant, insufficientInfo, humanRequired, total);
            o != [] &&
            (o[0] == '❌' <==> nonCompliant > 0) &&
            (o[0] == '✅' <==> nonCompliant == 0 && insufficientInfo == 0 && humanRequired == 0)
  {
    if nonCompliant > 0 {
      assert ViolationsText(nonCompliant)[0] == '❌';
    } else if insufficientInfo > 0 || humanRequired > 0 {
      assert ReviewText(insufficientInfo + humanRequired)[0] == '\U{26A0}';
    } else {
      assert CleanText(total)[0] == '✅';
    }
  }

  /** The report declares the results clean exactly when no result is a
      violation and none needs review, and announces violations exactly when
      there is one. */
  lemma OverallVerdict(results: seq<Dict>)
    ensures var rep := GenerateComplianceReport(results);
            rep.overallStatus != [] &&
            (rep.overallStatus[0] == '✅' <==>
              Filter(results, StatusIs(NonCompliant)) == [] && Filter(results, InReview()) == []) &&
            (rep.overallStatus[0] == '❌' <==> Filter(results, StatusIs(NonCompliant)) != [])
  {
    Tally(results);
    CountIsFilterLength(results, StatusIs(NonCompliant));
    OverallSign(Count(results, StatusIs(NonCompliant)), Count(results, StatusIs(InsufficientInformation)),
                Count(results, StatusIs(HumanRequired)), |results|);
  }

  /** A failed check counts towards the compliant figure, never towards the
      violations or the review list. */
  lemma FailureCountsCompliant(regulation: Dict, reply: Reply)
    requires Failure(reply).Some?
    ensures var r := CheckRegulationCompliance(regulation, reply);
            StatusIs(Compliant)(r) && !StatusIs(NonCompliant)(r) && !InReview()(r)
  {
    FailureReportedCompliant(regulation, reply);
    LabelsDistinct(Compliant, NonCompliant);
    LabelsDistinct(Compliant, InsufficientInformation);
    LabelsDistinct(Compliant, HumanRequired);
  }
}
