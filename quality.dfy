/** The completeness score of RPEM.py (`calculate_quality_score`) and the
    three-way filter built on it (`filter_regulations_by_quality`). Dict-valued
    critical and important fields earn credit in proportion to their filled
    sub-values; supplementary fields earn their full points when present. */
module Quality {
  import opened Json
  import opened Seqs
  import opened Tiers
  import opened Routing

  /** `non_null / max(len(value), 1)`: the filled share of a dict. */
  function Share(entries: Dict): (r: real)
    ensures 0.0 <= r <= 1.0
  {
    FilledCount(entries) as real / (if |entries| > 1 then |entries| else 1) as real
  }

  /** A non-empty dict whose every value is filled has a full share. */
  lemma ShareFull(entries: Dict)
    requires entries != []
    requires forall i :: 0 <= i < |entries| ==> Filled(entries[i].1)
    ensures Share(entries) == 1.0
  {
    FilledCountFull(entries);
    var n := |entries|;
    assert FilledCount(entries) == n;
    assert (if n > 1 then n else 1) == n;
    assert n as real / n as real == 1.0;
  }

  /** The points one field earns, in `[0, Points(t)]`. */
  function Earned(t: Tier, v: Value): (e: real)
    ensures 0.0 <= e <= Points(t)
  {
    if !Present(t, v) then 0.0
    else if t != Supplementary && v.Obj? then Points(t) * Share(v.entries)
    else if t == Important && v.Arr? then Points(t) * (if |v.items| > 0 then 1.0 else 0.0)
    else Points(t)
  }

  /** The points a run of fields of one tier earns. */
  function TierScore(reg: Dict, fields: seq<string>, t: Tier): real {
    if fields == [] then 0.0
    else TierScore(reg, fields[..|fields| - 1], t) + Earned(t, FieldValue(reg, fields[|fields| - 1]))
  }

  /** `prefix + field` for each field whose presence in tier `t` is `present`,
      in field order: the issue and strength lines. */
  function Mentions(reg: Dict, fields: seq<string>, t: Tier, present: bool, prefix: string): seq<string> {
    if fields == [] then []
    else
      var f := fields[|fields| - 1];
      Mentions(reg, fields[..|fields| - 1], t, present, prefix)
      + (if Present(t, FieldValue(reg, f)) == present then [prefix + f] else [])
  }

  const MissingCritical: string := "✗ Missing: "
  const MissingImportant: string := "⚠ Missing: "
  const Has: string := "✓ Has "

  /** The unrounded score of `calculate_quality_score`. */
  function Score(reg: Dict): real {
    TierScore(reg, Fields(Critical), Critical) + TierScore(reg, Fields(Important), Important)
    + TierScore(reg, Fields(Supplementary), Supplementary)
  }

  /** Its `issues`: one line per missing critical field, then one per missing
      important field. */
  function Issues(reg: Dict): seq<string> {
    Mentions(reg, Fields(Critical), Critical, false, MissingCritical)
    + Mentions(reg, Fields(Important), Important, false, MissingImportant)
  }

  /** Its `strengths`: one line per present critical field. */
  function Strengths(reg: Dict): seq<string> {
    Mentions(reg, Fields(Critical), Critical, true, Has)
  }

  /** The dict `calculate_quality_score` returns. */
  datatype Assessment = Assessment(
    score: real, maxScore: real, percentage: real, recommendation: Recommendation,
    status: string, issues: seq<string>, strengths: seq<string>)

  /** The score and percentage are rounded to a tenth; the recommendation is
      taken from the unrounded score. */
  function Assess(reg: Dict): Assessment {
    var s := Score(reg);
    Assessment(Round1(s), 100.0, Round1(s), Recommend(s), StatusEmoji(Recommend(s)), Issues(reg), Strengths(reg))
  }

  /** The stored score, which the filter compares with its thresholds. */
  function RoundedScore(reg: Dict): real {
    Round1(Score(reg))
  }

  function Texts(lines: seq<string>): (r: seq<Value>)
    ensures |r| == |lines|
  {
    if lines == [] then [] else Texts(lines[..|lines| - 1]) + [Str(lines[|lines| - 1])]
  }

  /** The assessment as the JSON object stored under `_quality_score`. */
  function AsValue(q: Assessment): Value {
    Obj([("score", Num(q.score)), ("max_score", Num(q.maxScore)), ("percentage", Num(q.percentage)),
         ("recommendation", Str(RecommendationText(q.recommendation))), ("status", Str(q.status)),
         ("issues", Arr(Texts(q.issues))), ("strengths", Arr(Texts(q.strengths)))])
  }

  /** `calculate_quality_score`: three passes over the field tables,
      accumulating the score, the issues and the strengths. */
  method CalculateQualityScore(reg: Dict) returns (q: Assessment)
    ensures q == Assess(reg)
    ensures 0.0 <= q.score <= 100.0
  {
    var critical, issues, strengths := ScoreCriticalFields(reg);
    var important, importantIssues := ScoreImportantFields(reg);
    var supplementary := ScoreSupplementaryFields(reg);
    var score := critical + important + supplementary;
    issues := issues + importantIssues;
    ScoreBounds(reg);
    RoundedRange(score, 0, 1000);
    var recommendation := Recommend(score);
    q := Assessment(Round1(score), 100.0, Round1(score), recommendation, StatusEmoji(recommendation), issues, strengths);
  }

  /** The critical pass: a present dict earns its filled share of 10 points,
      any other present value all 10; each field is either a strength or an
      issue. */
  method ScoreCriticalFields(reg: Dict) returns (score: real, issues: seq<string>, strengths: seq<string>)
    ensures score == TierScore(reg, Fields(Critical), Critical)
    ensures issues == Mentions(reg, Fields(Critical), Critical, false, MissingCritical)
    ensures strengths == Mentions(reg, Fields(Critical), Critical, true, Has)
  {
    score, issues, strengths := 0.0, [], [];
    var fields := Fields(Critical);
    for i := 0 to |fields|
      invariant score == TierScore(reg, fields[..i], Critical)
      invariant issues == Mentions(reg, fields[..i], Critical, false, MissingCritical)
      invariant strengths == Mentions(reg, fields[..i], Critical, true, Has)
    {
      var field := fields[i];
      TierStep(reg, fields, i, Critical, false, MissingCritical);
      TierStep(reg, fields, i, Critical, true, Has);
      var value := FieldValue(reg, field);
      if FilledCritical(value) {
        if value.Obj? {
          var nonNull := FilledCount(value.entries);
          score := score + 10.0 * (nonNull as real / (if |value.entries| > 1 then |value.entries| else 1) as real);
        } else {
          score := score + 10.0;
        }
        strengths := strengths + [Has + field];
      } else {
        issues := issues + [MissingCritical + field];
      }
    }
    assert fields[..|fields|] == fields;
  }

  /** The important pass: a present dict earns its filled share of 6 points,
      a present list 6 points if non-empty, any other present value 6; each
      missing field is an issue. */
  method ScoreImportantFields(reg: Dict) returns (score: real, issues: seq<string>)
    ensures score == TierScore(reg, Fields(Important), Important)
    ensures issues == Mentions(reg, Fields(Important), Important, false, MissingImportant)
  {
    score, issues := 0.0, [];
    var fields := Fields(Important);
    for i := 0 to |fields|
      invariant score == TierScore(reg, fields[..i], Important)
      invariant issues == Mentions(reg, fields[..i], Important, false, MissingImportant)
    {
      var field := fields[i];
      TierStep(reg, fields, i, Important, false, MissingImportant);
      var value := FieldValue(reg, field);
      if Filled(value) {
        if value.Obj? {
          var nonNull := FilledCount(value.entries);
          score := score + 6.0 * (nonNull as real / (if |value.entries| > 1 then |value.entries| else 1) as real);
        } else if value.Arr? {
          score := score + 6.0 * (if |value.items| > 0 then 1.0 else 0.0);
        } else {
          score := score + 6.0;
        }
      } else {
        issues := issues + [MissingImportant + field];
      }
    }
    assert fields[..|fields|] == fields;
  }

  /** The supplementary pass: every present field earns 5 points. */
  method ScoreSupplementaryFields(reg: Dict) returns (score: real)
    ensures score == TierScore(reg, Fields(Supplementary), Supplementary)
  {
    score := 0.0;
    var fields := Fields(Supplementary);
    for i := 0 to |fields|
      invariant score == TierScore(reg, fields[..i], Supplementary)
    {
      var field := fields[i];
      TierStep(reg, fields, i, Supplementary, false, "");
      var value := FieldValue(reg, field);
      if Filled(value) {
        score := score + 5.0;
      }
    }
    assert fields[..|fields|] == fields;
  }

  /** One loop step over a tier's fields: the next field's points and its
      mention, if any. */
  lemma TierStep(reg: Dict, fields: seq<string>, i: int, t: Tier, present: bool, prefix: string)
    requires 0 <= i < |fields|
    ensures TierScore(reg, fields[..i + 1], t) == TierScore(reg, fields[..i], t) + Earned(t, FieldValue(reg, fields[i]))
    ensures Mentions(reg, fields[..i + 1], t, present, prefix)
            == Mentions(reg, fields[..i], t, present, prefix)
               + (if Present(t, FieldValue(reg, fields[i])) == present then [prefix + fields[i]] else [])
  {
    assert fields[..i + 1][..i] == fields[..i];
  }

  /** A tier's fields earn at most their points each. */
  lemma {:induction false} TierScoreBounds(reg: Dict, fields: seq<string>, t: Tier)
    ensures 0.0 <= TierScore(reg, fields, t) <= |fields| as real * Points(t)
  {
    if fields != [] {
      TierScoreBounds(reg, fields[..|fields| - 1], t);
    }
  }

  /** The score lies in `[0, 100]`: 40 + 30 + 30 points at most. */
  lemma ScoreBounds(reg: Dict)
    ensures 0.0 <= Score(reg) <= 100.0
  {
    TierScoreBounds(reg, Fields(Critical), Critical);
    TierScoreBounds(reg, Fields(Important), Important);
    TierScoreBounds(reg, Fields(Supplementary), Supplementary);
    TierMaxima();
  }

  /** A value that is present and, if a dict, has every sub-value filled. */
  predicate Complete(t: Tier, v: Value) {
    Present(t, v) && (v.Obj? ==> forall i :: 0 <= i < |v.entries| ==> Filled(v.entries[i].1))
  }

  /** Fields whose values are complete earn their full points. */
  lemma {:induction false} TierScoreFull(reg: Dict, fields: seq<string>, t: Tier)
    requires forall i :: 0 <= i < |fields| ==> Complete(t, FieldValue(reg, fields[i]))
    ensures TierScore(reg, fields, t) == |fields| as real * Points(t)
  {
    if fields != [] {
      TierScoreFull(reg, fields[..|fields| - 1], t);
      var v := FieldValue(reg, fields[|fields| - 1]);
      assert Complete(t, v);
      if v.Obj? && t != Supplementary {
        ShareFull(v.entries);
      }
    }
  }

  /** A record whose every tabled field is complete scores 100 and is kept. */
  lemma CompleteRecordKept(reg: Dict)
    requires forall t: Tier, i :: 0 <= i < |Fields(t)| ==> Complete(t, FieldValue(reg, Fields(t)[i]))
    ensures Score(reg) == 100.0
    ensures Recommend(Score(reg)) == Keep
  {
    TierScoreFull(reg, Fields(Critical), Critical);
    TierScoreFull(reg, Fields(Important), Important);
    TierScoreFull(reg, Fields(Supplementary), Supplementary);
  }

  /** Filling in a field that is blank for the tier never lowers the tier's
      score. */
  lemma {:induction false} TierScoreGrows(reg: Dict, f: string, v: Value, fields: seq<string>, t: Tier)
    requires !Present(t, FieldValue(reg, f))
    ensures TierScore(Put(reg, f, v), fields, t) >= TierScore(reg, fields, t)
  {
    if fields != [] {
      TierScoreGrows(reg, f, v, fields[..|fields| - 1], t);
      var g := fields[|fields| - 1];
      if g == f {
        PutGet(reg, f, v);
      } else {
        PutOther(reg, f, v, g);
      }
    }
  }

  /** Giving any value to a field that is blank for its tier (absent, None,
      `""`, `"null"`, an empty list or dict, `false`, `0`, and for a
      critical field also `"N/A"` or `"Unknown"`) never lowers the score. */
  lemma FillingNeverLowers(reg: Dict, f: string, v: Value)
    requires forall u: Tier :: f in Fields(u) ==> !Present(u, FieldValue(reg, f))
    ensures Score(Put(reg, f, v)) >= Score(reg)
  {
    forall u: Tier
      ensures TierScore(Put(reg, f, v), Fields(u), u) >= TierScore(reg, Fields(u), u)
    {
      if f in Fields(u) {
        TierScoreGrows(reg, f, v, Fields(u), u);
      } else {
        TierScoreIgnores(reg, f, v, Fields(u), u);
      }
    }
  }

  /** A key outside the tables leaves a tier's score alone. */
  lemma {:induction false} TierScoreIgnores(reg: Dict, k: string, v: Value, fields: seq<string>, t: Tier)
    requires k !in fields
    ensures TierScore(Put(reg, k, v), fields, t) == TierScore(reg, fields, t)
  {
    if fields != [] {
      TierScoreIgnores(reg, k, v, fields[..|fields| - 1], t);
      PutOther(reg, k, v, fields[|fields| - 1]);
    }
  }

  /** A string value: critical fields refuse `"N/A"` and `"Unknown"`, the
      other tiers give them full credit. */
  lemma StringCredit(s: string)
    requires s != "" && s != "null"
    ensures Earned(Critical, Str(s)) == if s == "N/A" || s == "Unknown" then 0.0 else 10.0
    ensures Earned(Important, Str(s)) == 6.0
    ensures Earned(Supplementary, Str(s)) == 5.0
  {
  }

  /** `prefix + f` is mentioned exactly for the fields of the run whose
      presence is `present`. */
  lemma {:induction false} MentionsMembers(reg: Dict, fields: seq<string>, t: Tier, present: bool, prefix: string, f: string)
    ensures prefix + f in Mentions(reg, fields, t, present, prefix)
            <==> f in fields && Present(t, FieldValue(reg, f)) == present
  {
    if fields != [] {
      var init := fields[..|fields| - 1];
      var g := fields[|fields| - 1];
      MentionsMembers(reg, init, t, present, prefix, f);
      assert fields == init + [g];
      if prefix + f == prefix + g {
        assert f == (prefix + f)[|prefix|..] == (prefix + g)[|prefix|..] == g;
      }
    }
  }

  /** Every mention starts with its prefix. */
  lemma {:induction false} MentionsPrefix(reg: Dict, fields: seq<string>, t: Tier, present: bool, prefix: string)
    ensures forall x :: x in Mentions(reg, fields, t, present, prefix) ==> |prefix| <= |x| && x[..|prefix|] == prefix
  {
    if fields != [] {
      MentionsPrefix(reg, fields[..|fields| - 1], t, present, prefix);
    }
  }

  /** The issues name exactly the missing critical and important fields, and
      the strengths exactly the present critical ones. */
  lemma IssuesNameMissingFields(reg: Dict, f: string)
    ensures f in Fields(Critical) ==>
              (MissingCritical + f in Issues(reg) <==> !FilledCritical(FieldValue(reg, f)))
    ensures f in Fields(Important) ==>
              (MissingImportant + f in Issues(reg) <==> !Filled(FieldValue(reg, f)))
    ensures Has + f in Strengths(reg) <==> f in Fields(Critical) && FilledCritical(FieldValue(reg, f))
  {
    var ci := Mentions(reg, Fields(Critical), Critical, false, MissingCritical);
    var ii := Mentions(reg, Fields(Important), Important, false, MissingImportant);
    MentionsMembers(reg, Fields(Critical), Critical, false, MissingCritical, f);
    MentionsMembers(reg, Fields(Important), Important, false, MissingImportant, f);
    MentionsMembers(reg, Fields(Critical), Critical, true, Has, f);
    MentionsPrefix(reg, Fields(Critical), Critical, false, MissingCritical);
    MentionsPrefix(reg, Fields(Important), Important, false, MissingImportant);
  }

  /** The record with its assessment stored under `_quality_score`. */
  function Annotated(reg: Dict): Dict {
    Put(reg, "_quality_score", AsValue(Assess(reg)))
  }

  /** Annotating a record does not change its score: scoring it again gives
      the same verdict. */
  lemma AnnotationKeepsScore(reg: Dict)
    ensures Score(Annotated(reg)) == Score(reg)
  {
    var q := AsValue(Assess(reg));
    TierScoreIgnores(reg, "_quality_score", q, Fields(Critical), Critical);
    TierScoreIgnores(reg, "_quality_score", q, Fields(Important), Important);
    TierScoreIgnores(reg, "_quality_score", q, Fields(Supplementary), Supplementary);
  }

  /** The filter keeps a record from an unrounded score of 69.95 on, since
      it compares the rounded score: a record whose own recommendation is
      `REVIEW` can still land in the kept list. */
  lemma KeptThreshold(reg: Dict, minScore: real)
    ensures Bin(RoundedScore(reg), minScore) == Keep <==> Score(reg) >= 69.95
    ensures 69.95 <= Score(reg) < 70.0 ==>
              Assess(reg).recommendation == Review && Bin(RoundedScore(reg), minScore) == Keep
  {
    ScoreBounds(reg);
    RoundedAtLeast(Score(reg), 700);
  }

  /** The dict `filter_regulations_by_quality` returns. */
  datatype Filtered = Filtered(
    kept: seq<Dict>, review: seq<Dict>, discarded: seq<Dict>,
    total: nat, keptCount: nat, reviewCount: nat, discardedCount: nat)

  /** `filter_regulations_by_quality`: annotates every record and sends it to
      exactly one of the kept, review and discarded lists, keeping order. */
  method FilterRegulationsByQuality(regs: seq<Dict>, minScore: real) returns (out: Filtered)
    ensures Buckets(out.kept, out.review, out.discarded) == Routed(regs, minScore, RoundedScore, Annotated)
    ensures out.total == |regs| && out.keptCount == |out.kept|
    ensures out.reviewCount == |out.review| && out.discardedCount == |out.discarded|
    ensures out.keptCount + out.reviewCount + out.discardedCount == out.total
  {
    var kept: seq<Dict> := [];
    var review: seq<Dict> := [];
    var discarded: seq<Dict> := [];
    for i := 0 to |regs|
      invariant Buckets(kept, review, discarded) == Routed(regs[..i], minScore, RoundedScore, Annotated)
    {
      var reg := regs[i];
      RoutedStep(regs, i, minScore, RoundedScore, Annotated);
      var quality := CalculateQualityScore(reg);
      var annotated := Put(reg, "_quality_score", AsValue(quality));
      if quality.score >= 70.0 {
        kept := kept + [annotated];
      } else if quality.score >= minScore {
        review := review + [annotated];
      } else {
        discarded := discarded + [annotated];
      }
    }
    assert regs[..|regs|] == regs;
    RoutedPartition(regs, minScore, RoundedScore, Annotated);
    out := Filtered(kept, review, discarded, |regs|, |kept|, |review|, |discarded|);
  }
}
