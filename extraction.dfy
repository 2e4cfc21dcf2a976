/** The bookkeeping around the extraction calls of RPEM.py: decorating or
    replacing each section's answer, running every section, and flattening
    the regulations of the answers into one list. */
module Extraction {
  import opened Json
  import opened Text
  import Segmenter

  /** `original_content`: the section text, cut to its first 500 characters
      and marked with `...` when it is longer. */
  function Preview(content: string): (r: string)
    ensures |content| <= 500 ==> r == content
    ensures |content| > 500 ==> |r| == 503 && r[..500] == content[..500] && r[500..] == "..."
  {
    if |content| > 500 then content[..500] + "..." else content
  }

  /** The text of the exception raised by `result["section_title"] = ...` when
      the parsed answer is not a dict. */
  function AssignmentError(v: Value): string {
    match v
    case Arr(_) => "list indices must be integers or slices, not str"
    case Obj(_) => ""
    case _ => "'" + TypeName(v) + "' object does not support item assignment"
  }

  /** The `str(e)` of whatever went wrong with one section's extraction. */
  function FailureText(reply: Reply): string {
    match reply
    case CallFailed(message) => message
    case Answer(v) => AssignmentError(v)
  }

  /** The record that stands for a section whose extraction raised. */
  function Fallback(title: string, error: string): Dict {
    [("section_title", Str(title)), ("contains_regulation", Bool(false)), ("confidence_score", Num(0.0)),
     ("regulations", Arr([])), ("section_summary", Null), ("error", Str(error))]
  }

  /** An answer the wrapper can decorate: a JSON object. */
  predicate Decorable(reply: Reply) {
    reply.Answer? && reply.value.Obj?
  }

  /** `extract_regulations_from_section` around its oracle call: an object
      answer gets the section title and a preview of the content; anything
      else gives the fallback record carrying the exception text. */
  function ExtractFromSection(section: Segmenter.Section, reply: Reply): Dict {
    if Decorable(reply) then
      Put(Put(reply.value.entries, "section_title", Str(section.title)), "original_content", Str(Preview(section.content)))
    else
      Fallback(section.title, FailureText(reply))
  }

  /** Whatever the oracle does, the result names its section. */
  lemma ExtractionNamesSection(section: Segmenter.Section, reply: Reply)
    ensures Get(ExtractFromSection(section, reply), "section_title") == Some(Str(section.title))
  {
    if Decorable(reply) {
      var d := Put(reply.value.entries, "section_title", Str(section.title));
      PutGet(reply.value.entries, "section_title", Str(section.title));
      PutOther(d, "original_content", Str(Preview(section.content)), "section_title");
    }
  }

  /** An object answer is kept, with the section title and the content
      preview added. */
  lemma ExtractionDecorates(section: Segmenter.Section, reply: Reply)
    requires Decorable(reply)
    ensures var r := ExtractFromSection(section, reply);
            Get(r, "original_content") == Some(Str(Preview(section.content))) &&
            forall k :: k != "section_title" && k != "original_content" ==> Get(r, k) == Get(reply.value.entries, k)
  {
    var d := Put(reply.value.entries, "section_title", Str(section.title));
    PutGet(d, "original_content", Str(Preview(section.content)));
    PutOthers(reply.value.entries, "section_title", Str(section.title));
    PutOthers(d, "original_content", Str(Preview(section.content)));
  }

  /** A failed call, or an answer that is not an object, gives the fallback
      record: no regulation, confidence 0, and the exception text. */
  lemma ExtractionFallsBack(section: Segmenter.Section, reply: Reply)
    requires !Decorable(reply)
    ensures var r := ExtractFromSection(section, reply);
            Get(r, "contains_regulation") == Some(Bool(false)) &&
            Get(r, "confidence_score") == Some(Num(0.0)) &&
            Get(r, "regulations") == Some(Arr([])) &&
            Get(r, "section_summary") == Some(Null) &&
            Get(r, "error") == Some(Str(FailureText(reply)))
  {
    FallbackFields(section.title, FailureText(reply));
  }

  /** The fields of the fallback record. */
  lemma FallbackFields(title: string, error: string)
    ensures var r := Fallback(title, error);
            Get(r, "contains_regulation") == Some(Bool(false)) &&
            Get(r, "confidence_score") == Some(Num(0.0)) &&
            Get(r, "regulations") == Some(Arr([])) &&
            Get(r, "section_summary") == Some(Null) &&
            Get(r, "error") == Some(Str(error))
  {
    var r := Fallback(title, error);
    GetAt(r, "contains_regulation", 1);
    GetAt(r, "confidence_score", 2);
    GetAt(r, "regulations", 3);
    GetAt(r, "section_summary", 4);
    GetAt(r, "error", 5);
  }

  /** `process_all_sections`: one extraction per section, in order. The
      oracle `ask` stands for the language-model call. */
  method ProcessAllSections(sections: seq<Segmenter.Section>, ask: Segmenter.Section -> Reply)
    returns (results: seq<Dict>)
    ensures |results| == |sections|
    ensures forall i :: 0 <= i < |sections| ==> results[i] == ExtractFromSection(sections[i], ask(sections[i]))
  {
    results := [];
    for i := 0 to |sections|
      invariant |results| == i
      invariant forall j :: 0 <= j < i ==> results[j] == ExtractFromSection(sections[j], ask(sections[j]))
    {
      var analysis := ExtractFromSection(sections[i], ask(sections[i]));
      results := results + [analysis];
    }
  }

  /** The test of `collect_all_regulations`: `contains_regulation` and
      `regulations` both truthy. */
  predicate Contributes(result: Dict) {
    Truthy(GetOr(result, "contains_regulation", Null)) && Truthy(GetOr(result, "regulations", Null))
  }

  /** What the flattening loop needs of a contributing result: its
      `regulations` is a list of dicts (anything else raises). */
  predicate WellShaped(result: Dict) {
    Contributes(result) ==>
      var regs := GetOr(result, "regulations", Null);
      regs.Arr? && forall j :: 0 <= j < |regs.items| ==> regs.items[j].Obj?
  }

  /** The regulations of a well-shaped contributing result. */
  function Regulations(result: Dict): seq<Value>
    requires WellShaped(result) && Contributes(result)
  {
    GetOr(result, "regulations", Null).items
  }

  /** Each regulation with `source_section` set to `title`, in order. */
  function StampAll(regs: seq<Value>, title: Value): (r: seq<Dict>)
    requires forall j :: 0 <= j < |regs| ==> regs[j].Obj?
    ensures |r| == |regs|
  {
    if regs == [] then []
    else StampAll(regs[..|regs| - 1], title) + [Put(regs[|regs| - 1].entries, "source_section", title)]
  }

  /** The flattened regulations of a run of results, in order. */
  function Collected(results: seq<Dict>): seq<Dict>
    requires forall i :: 0 <= i < |results| ==> WellShaped(results[i])
  {
    if results == [] then []
    else
      var last := results[|results| - 1];
      Collected(results[..|results| - 1])
      + (if Contributes(last) then StampAll(Regulations(last), GetOr(last, "section_title", Null)) else [])
  }

  /** `collect_all_regulations`: walks the results and their regulations,
      stamping and appending each. */
  method CollectAllRegulations(results: seq<Dict>) returns (all: seq<Dict>)
    requires forall i :: 0 <= i < |results| ==> WellShaped(results[i])
    ensures all == Collected(results)
  {
    all := [];
    for i := 0 to |results|
      invariant all == Collected(results[..i])
    {
      var result := results[i];
      assert results[..i + 1][..i] == results[..i];
      if Truthy(GetOr(result, "contains_regulation", Null)) && Truthy(GetOr(result, "regulations", Null)) {
        var regs := GetOr(result, "regulations", Null).items;
        var title := GetOr(result, "section_title", Null);
        ghost var before := all;
        for j := 0 to |regs|
          invariant all == before + StampAll(regs[..j], title)
        {
          assert regs[..j + 1][..j] == regs[..j];
          all := all + [Put(regs[j].entries, "source_section", title)];
        }
        assert regs[..|regs|] == regs;
      }
    }
    assert results[..|results|] == results;
  }

  /** Element `j` of `StampAll` is regulation `j` with the new
      `source_section` and every other key unchanged. */
  lemma {:induction false} StampAllAt(regs: seq<Value>, title: Value, j: int)
    requires forall i :: 0 <= i < |regs| ==> regs[i].Obj?
    requires 0 <= j < |regs|
    ensures StampAll(regs, title)[j] == Put(regs[j].entries, "source_section", title)
    ensures Get(StampAll(regs, title)[j], "source_section") == Some(title)
    ensures forall k :: k != "source_section" ==> Get(StampAll(regs, title)[j], k) == Get(regs[j].entries, k)
  {
    if j < |regs| - 1 {
      StampAllAt(regs[..|regs| - 1], title, j);
    } else {
      PutGet(regs[j].entries, "source_section", title);
      PutOthers(regs[j].entries, "source_section", title);
    }
  }

  /** The results of two runs flatten to the flattening of each, joined. */
  lemma {:induction false} CollectedAppend(a: seq<Dict>, b: seq<Dict>)
    requires forall i :: 0 <= i < |a| ==> WellShaped(a[i])
    requires forall i :: 0 <= i < |b| ==> WellShaped(b[i])
    ensures forall i :: 0 <= i < |a + b| ==> WellShaped((a + b)[i])
    ensures Collected(a + b) == Collected(a) + Collected(b)
    decreases |b|
  {
    assert forall i :: 0 <= i < |a + b| ==> WellShaped((a + b)[i]) by {
      forall i | 0 <= i < |a + b|
        ensures WellShaped((a + b)[i])
      {
        if i < |a| {
          assert (a + b)[i] == a[i];
        } else {
          assert (a + b)[i] == b[i - |a|];
        }
      }
    }
    if b != [] {
      var b' := b[..|b| - 1];
      assert (a + b)[..|a + b| - 1] == a + b';
      CollectedAppend(a, b');
    } else {
      assert a + b == a;
    }
  }

  /** Every collected record is a regulation of a contributing result, whose
      `section_title` it carries as `source_section`, all else unchanged. */
  lemma {:induction false} CollectedProvenance(results: seq<Dict>, k: int)
    requires forall i :: 0 <= i < |results| ==> WellShaped(results[i])
    requires 0 <= k < |Collected(results)|
    ensures exists i, j :: 0 <= i < |results| && Contributes(results[i]) && 0 <= j < |Regulations(results[i])| &&
              Collected(results)[k] == Put(Regulations(results[i])[j].entries, "source_section",
                                           GetOr(results[i], "section_title", Null))
  {
    var n := |results|;
    var init := results[..n - 1];
    var last := results[n - 1];
    if k < |Collected(init)| {
      CollectedProvenance(init, k);
      var i, j :| 0 <= i < |init| && Contributes(init[i]) && 0 <= j < |Regulations(init[i])| &&
                  Collected(init)[k] == Put(Regulations(init[i])[j].entries, "source_section",
                                            GetOr(init[i], "section_title", Null));
      assert init[i] == results[i];
    } else {
      var j := k - |Collected(init)|;
      StampAllAt(Regulations(last), GetOr(last, "section_title", Null), j);
    }
  }

  /** A section whose extraction failed adds no regulation. */
  lemma FailedSectionContributesNothing(section: Segmenter.Section, reply: Reply)
    requires !Decorable(reply)
    ensures !Contributes(ExtractFromSection(section, reply))
  {
    ExtractionFallsBack(section, reply);
  }

  /** After extraction, every collected regulation's `source_section` is the
      title of one of the sections. */
  lemma SourceSectionIsATitle(sections: seq<Segmenter.Section>, ask: Segmenter.Section -> Reply,
                              results: seq<Dict>, k: int)
    requires |results| == |sections|
    requires forall i :: 0 <= i < |sections| ==> results[i] == ExtractFromSection(sections[i], ask(sections[i]))
    requires forall i :: 0 <= i < |results| ==> WellShaped(results[i])
    requires 0 <= k < |Collected(results)|
    ensures exists i :: 0 <= i < |sections| &&
              Get(Collected(results)[k], "source_section") == Some(Str(sections[i].title))
  {
    CollectedProvenance(results, k);
    var i, j :| 0 <= i < |results| && Contributes(results[i]) && 0 <= j < |Regulations(results[i])| &&
                Collected(results)[k] == Put(Regulations(results[i])[j].entries, "source_section",
                                             GetOr(results[i], "section_title", Null));
    ExtractionNamesSection(sections[i], ask(sections[i]));
    PutGet(Regulations(results[i])[j].entries, "source_section", GetOr(results[i], "section_title", Null));
  }
}
