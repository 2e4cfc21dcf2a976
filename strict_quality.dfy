/** The stricter scorer of filter_regulations_funcs.py
    (`calculate_regulation_quality_score`) and its filter (`filter_regulations`).
    Unlike the scorer of RPEM.py, a dict-valued critical field earns all or
    nothing, a dict-valued supplementary field needs two filled sub-values for
    full credit, and a record dominated by blank values loses 10 or 20 points. */
module StrictQuality {
  import opened Json
  import opened Text
  import opened Seqs
  import opened Tiers
  import opened Routing
  import Quality

  /** `int(part / whole * 100)`: a share as a truncated percentage. */
  function Percent(part: nat, whole: nat): (p: nat)
    requires 0 < whole && part <= whole
    ensures p <= 100
  {
    (part * 100) / whole
  }

  function Min1(x: real): real {
    if x < 1.0 then x else 1.0
  }

  /** The points one field earns under the strict rules. */
  function FieldPoints(t: Tier, v: Value): (e: real)
    ensures 0.0 <= e <= Points(t)
  {
    if !Present(t, v) then 0.0
    else match t
      case Critical => if v.Obj? && FilledCount(v.entries) == 0 then 0.0 else 10.0
      case Important =>
        if v.Obj? then
          if |v.entries| > 0 then
            var n := FilledCount(v.entries);
            ShareBounds(n, |v.entries|);
            6.0 * (n as real / |v.entries| as real)
          else 0.0
        else if v.Arr? then (if |v.items| > 0 then 6.0 else 0.0)
        else 6.0
      case Supplementary =>
        if v.Obj? && FilledCount(v.entries) == 0 then 0.0
        else if v.Obj? then 5.0 * Min1(FilledCount(v.entries) as real / 2.0)
        else 5.0
  }

  function MissingCriticalNote(f: string): string { "✗ Missing critical field: " + f }
  function EmptyDictNote(f: string): string { "✗ " + f + " is empty dict" }
  function PresentNote(f: string): string { "✓ " + f + " is present" }
  function MissingImportantNote(f: string): string { "⚠ Missing important field: " + f }
  function CompleteNote(f: string, p: nat): string { "✓ " + f + " is " + NatToString(p) + "% complete" }
  function PartialNote(f: string, p: nat): string { "⚠ " + f + " is only " + NatToString(p) + "% complete" }
  function ItemsNote(f: string, n: nat): string { "✓ " + f + " has " + NatToString(n) + " items" }
  function EmptyListNote(f: string): string { "⚠ " + f + " is empty list" }
  function TooManyNullsNote(p: nat): string { "✗ Too many null values (" + NatToString(p) + "% empty)" }
  function ManyNullsNote(p: nat): string { "⚠ Many null values (" + NatToString(p) + "% empty)" }

  /** The issue and strength lines one field contributes. */
  datatype Notes = Notes(issues: seq<string>, strengths: seq<string>)

  function FieldNotes(t: Tier, f: string, v: Value): Notes {
    match t
    case Critical =>
      if !Present(t, v) then Notes([MissingCriticalNote(f)], [])
      else if v.Obj? && FilledCount(v.entries) == 0 then Notes([EmptyDictNote(f)], [])
      else Notes([], [PresentNote(f)])
    case Important =>
      if !Present(t, v) then Notes([MissingImportantNote(f)], [])
      else if v.Obj? && |v.entries| > 0 then
        var n := FilledCount(v.entries);
        if n as real >= |v.entries| as real * 0.5 then Notes([], [CompleteNote(f, Percent(n, |v.entries|))])
        else Notes([PartialNote(f, Percent(n, |v.entries|))], [])
      else if v.Arr? then
        if |v.items| > 0 then Notes([], [ItemsNote(f, |v.items|)]) else Notes([EmptyListNote(f)], [])
      else Notes([], [])
    case Supplementary => Notes([], [])
  }

  /** The points a run of fields of one tier earns. */
  function TierPoints(reg: Dict, fields: seq<string>, t: Tier): (e: real)
    ensures 0.0 <= e <= |fields| as real * Points(t)
  {
    if fields == [] then 0.0
    else TierPoints(reg, fields[..|fields| - 1], t) + FieldPoints(t, FieldValue(reg, fields[|fields| - 1]))
  }

  /** The notes of a run of fields, in field order. */
  function TierNotes(reg: Dict, fields: seq<string>, t: Tier): Notes {
    if fields == [] then Notes([], [])
    else
      var before := TierNotes(reg, fields[..|fields| - 1], t);
      var last := FieldNotes(t, fields[|fields| - 1], FieldValue(reg, fields[|fields| - 1]));
      Notes(before.issues + last.issues, before.strengths + last.strengths)
  }

  /** The score before the blank-value penalty. */
  function RawScore(reg: Dict): real {
    TierPoints(reg, Fields(Critical), Critical) + TierPoints(reg, Fields(Important), Important)
    + TierPoints(reg, Fields(Supplementary), Supplementary)
  }

  /** `count_nulls`: the blank values and all the values of a nested value, as
      a pair (blank, total), looking no deeper than depth 5. */
  function CountNulls(v: Value, depth: nat): (r: (nat, nat))
    ensures r.0 <= r.1
    ensures depth > 5 ==> r == (0, 0)
    decreases 6 - depth, 1, 0
  {
    if depth > 5 then (0, 0)
    else match v
      case Obj(entries) => DictNulls(entries, depth)
      case Arr(items) => ListNulls(items, depth)
      case _ => (0, 0)
  }

  /** The blanks among a dict's values: `"Unknown"` and `[]` count too. */
  predicate DictBlank(v: Value) {
    v in [Null, Str("null"), Str(""), Str("N/A"), Str("Unknown"), Arr([])]
  }

  /** The blanks among a list's items: `"Unknown"` does not count. */
  predicate ListBlank(v: Value) {
    v in [Null, Str("null"), Str(""), Str("N/A")]
  }

  function DictNulls(entries: seq<(string, Value)>, depth: nat): (r: (nat, nat))
    requires depth <= 5
    ensures r.0 <= r.1
    decreases 6 - depth, 0, |entries|
  {
    if entries == [] then (0, 0)
    else
      var before := DictNulls(entries[..|entries| - 1], depth);
      var v := entries[|entries| - 1].1;
      var last := if DictBlank(v) then (1, 1)
                  else if v.Obj? || v.Arr? then CountNulls(v, depth + 1)
                  else (0, 1);
      (before.0 + last.0, before.1 + last.1)
  }

  function ListNulls(items: seq<Value>, depth: nat): (r: (nat, nat))
    requires depth <= 5
    ensures r.0 <= r.1
    decreases 6 - depth, 0, |items|
  {
    if items == [] then (0, 0)
    else
      var before := ListNulls(items[..|items| - 1], depth);
      var v := items[|items| - 1];
      var last := if v.Obj? || v.Arr? then CountNulls(v, depth + 1)
                  else if ListBlank(v) then (1, 1)
                  else (0, 1);
      (before.0 + last.0, before.1 + last.1)
  }

  /** A product with a positive factor has the sign of the other factor. */
  lemma NonnegFactor(x: real, y: real)
    requires y > 0.0 && x * y >= 0.0
    ensures x >= 0.0
  {
  }

  /** A share of a positive whole lies in `[0, 1]`, and is at most one half
      when the part is at most half the whole. */
  lemma ShareBounds(part: nat, whole: nat)
    requires 0 < whole && part <= whole
    ensures 0.0 <= part as real / whole as real <= 1.0
    ensures 2 * part <= whole ==> part as real / whole as real <= 0.5
  {
    var w := whole as real;
    var r := part as real / w;
    assert r * w == part as real;
    NonnegFactor(r, w);
    assert (1.0 - r) * w == w - part as real;
    NonnegFactor(1.0 - r, w);
    if 2 * part <= whole {
      assert (0.5 - r) * w == 0.5 * w - part as real;
      NonnegFactor(0.5 - r, w);
    }
  }

  /** `null_count / total_count if total_count > 0 else 1`. */
  function Ratio(nulls: nat, total: nat): (r: real)
    requires nulls <= total
    ensures 0.0 <= r <= 1.0
    ensures total > 0 && 2 * nulls <= total ==> r <= 0.5
  {
    if total > 0 then ShareBounds(nulls, total); nulls as real / total as real else 1.0
  }

  /** `null_ratio`: the share of blank values, 1 for a record with none. */
  function NullRatio(reg: Dict): (r: real)
    ensures 0.0 <= r <= 1.0
  {
    var c := CountNulls(Obj(reg), 0);
    Ratio(c.0, c.1)
  }

  /** `int(null_ratio * 100)`. */
  function NullPercent(reg: Dict): (p: nat)
    ensures p <= 100
  {
    var c := CountNulls(Obj(reg), 0);
    if c.1 > 0 then Percent(c.0, c.1) else 100
  }

  function Max0(x: real): real {
    if x < 0.0 then 0.0 else x
  }

  /** The penalty rule: 20 points off above 70% blanks, 10 above 50%, never
      below zero. */
  function Penalized(raw: real, ratio: real): real {
    if ratio > 0.7 then Max0(raw - 20.0)
    else if ratio > 0.5 then Max0(raw - 10.0)
    else raw
  }

  /** The issue the penalty adds, if any. */
  function PenaltyNote(ratio: real, percent: nat): seq<string> {
    if ratio > 0.7 then [TooManyNullsNote(percent)]
    else if ratio > 0.5 then [ManyNullsNote(percent)]
    else []
  }

  /** The final score. */
  function StrictScore(reg: Dict): real {
    Penalized(RawScore(reg), NullRatio(reg))
  }

  function PenaltyNotes(reg: Dict): seq<string> {
    PenaltyNote(NullRatio(reg), NullPercent(reg))
  }

  /** The dict `calculate_regulation_quality_score` returns. */
  datatype StrictAssessment = StrictAssessment(
    score: real, maxScore: real, percentage: real, nullRatio: real, recommendation: Recommendation,
    status: string, issues: seq<string>, strengths: seq<string>)

  /** The score, the percentage (the score over 100, times 100) and the
      blank ratio in percent are rounded to a tenth; the recommendation is
      taken from the unrounded score. */
  function StrictAssess(reg: Dict): StrictAssessment {
    var s := StrictScore(reg);
    var c := TierNotes(reg, Fields(Critical), Critical);
    var i := TierNotes(reg, Fields(Important), Important);
    var p := TierNotes(reg, Fields(Supplementary), Supplementary);
    Assessed(s, NullRatio(reg), c.issues + i.issues + p.issues + PenaltyNotes(reg), c.strengths + i.strengths + p.strengths)
  }

  /** The assessment of a final score and blank ratio. */
  function Assessed(score: real, ratio: real, issues: seq<string>, strengths: seq<string>): StrictAssessment {
    StrictAssessment(Round1(score), 100.0, Round1(score), Round1(ratio * 100.0), Recommend(score),
                     StatusEmoji(Recommend(score)), issues, strengths)
  }

  /** The stored score, which the filter compares with its thresholds. */
  function RoundedStrictScore(reg: Dict): real {
    Round1(StrictScore(reg))
  }

  /** One loop step over a tier's fields. */
  lemma TierStep(reg: Dict, fields: seq<string>, i: int, t: Tier)
    requires 0 <= i < |fields|
    ensures TierPoints(reg, fields[..i + 1], t) == TierPoints(reg, fields[..i], t) + FieldPoints(t, FieldValue(reg, fields[i]))
    ensures var before, last := TierNotes(reg, fields[..i], t), FieldNotes(t, fields[i], FieldValue(reg, fields[i]));
            TierNotes(reg, fields[..i + 1], t) == Notes(before.issues + last.issues, before.strengths + last.strengths)
  {
    assert fields[..i + 1][..i] == fields[..i];
  }

  /** The critical pass: a present dict earns all 10 points when one of its
      values is filled and nothing otherwise. */
  method StrictCriticalFields(reg: Dict) returns (score: real, issues: seq<string>, strengths: seq<string>)
    ensures score == TierPoints(reg, Fields(Critical), Critical)
    ensures Notes(issues, strengths) == TierNotes(reg, Fields(Critical), Critical)
  {
    score, issues, strengths := 0.0, [], [];
    var fields := Fields(Critical);
    for i := 0 to |fields|
      invariant score == TierPoints(reg, fields[..i], Critical)
      invariant Notes(issues, strengths) == TierNotes(reg, fields[..i], Critical)
    {
      var field := fields[i];
      TierStep(reg, fields, i, Critical);
      var value := FieldValue(reg, field);
      if FilledCritical(value) {
        if value.Obj? {
          var nonNull := FilledCount(value.entries);
          if nonNull > 0 {
            score := score + 10.0;
            strengths := strengths + [PresentNote(field)];
          } else {
            issues := issues + [EmptyDictNote(field)];
          }
        } else {
          score := score + 10.0;
          strengths := strengths + [PresentNote(field)];
        }
      } else {
        issues := issues + [MissingCriticalNote(field)];
      }
    }
    assert fields[..|fields|] == fields;
  }

  /** The important pass: a dict earns its filled share of 6 points and is
      reported complete from half filled on; a non-empty list earns 6. */
  method StrictImportantFields(reg: Dict) returns (score: real, issues: seq<string>, strengths: seq<string>)
    ensures score == TierPoints(reg, Fields(Important), Important)
    ensures Notes(issues, strengths) == TierNotes(reg, Fields(Important), Important)
  {
    score, issues, strengths := 0.0, [], [];
    var fields := Fields(Important);
    for i := 0 to |fields|
      invariant score == TierPoints(reg, fields[..i], Important)
      invariant Notes(issues, strengths) == TierNotes(reg, fields[..i], Important)
    {
      TierStep(reg, fields, i, Important);
      var points, notes := ImportantField(fields[i], FieldValue(reg, fields[i]));
      score := score + points;
      issues, strengths := issues + notes.issues, strengths + notes.strengths;
    }
    assert fields[..|fields|] == fields;
  }

  /** The body of the important pass for one field. */
  method ImportantField(field: string, value: Value) returns (points: real, notes: Notes)
    ensures points == FieldPoints(Important, value)
    ensures notes == FieldNotes(Important, field, value)
  {
    points, notes := 0.0, Notes([], []);
    if Filled(value) {
      if value.Obj? {
        var nonNull := FilledCount(value.entries);
        var total := |value.entries|;
        if total > 0 {
          points := 6.0 * (nonNull as real / total as real);
          if nonNull as real >= total as real * 0.5 {
            notes := Notes([], [CompleteNote(field, Percent(nonNull, total))]);
          } else {
            notes := Notes([PartialNote(field, Percent(nonNull, total))], []);
          }
        }
      } else if value.Arr? {
        if |value.items| > 0 {
          points := 6.0;
          notes := Notes([], [ItemsNote(field, |value.items|)]);
        } else {
          notes := Notes([EmptyListNote(field)], []);
        }
      } else {
        points := 6.0;
      }
    } else {
      notes := Notes([MissingImportantNote(field)], []);
    }
  }

  /** The supplementary pass: a dict earns 5 points per two filled values, up
      to 5; any other present value earns 5. */
  method StrictSupplementaryFields(reg: Dict) returns (score: real)
    ensures score == TierPoints(reg, Fields(Supplementary), Supplementary)
  {
    score := 0.0;
    var fields := Fields(Supplementary);
    for i := 0 to |fields|
      invariant score == TierPoints(reg, fields[..i], Supplementary)
    {
      var field := fields[i];
      TierStep(reg, fields, i, Supplementary);
      var value := FieldValue(reg, field);
      if Filled(value) {
        if value.Obj? {
          var nonNull := FilledCount(value.entries);
          if nonNull > 0 {
            score := score + 5.0 * Min1(nonNull as real / 2.0);
          }
        } else if value.Arr? && |value.items| > 0 {
          score := score + 5.0;
        } else {
          score := score + 5.0;
        }
      }
    }
    assert fields[..|fields|] == fields;
  }

  /** `calculate_regulation_quality_score`: the three passes, then the
      blank-value penalty. */
  method CalculateRegulationQualityScore(reg: Dict) returns (q: StrictAssessment)
    ensures q == StrictAssess(reg)
  {
    var critical, issues, strengths := StrictCriticalFields(reg);
    var important, importantIssues, importantStrengths := StrictImportantFields(reg);
    var supplementary := StrictSupplementaryFields(reg);
    NoSupplementaryNotes(reg, Fields(Supplementary));
    var score := critical + important + supplementary;
    issues := issues + importantIssues;
    strengths := strengths + importantStrengths;
    var nullRatio;
    score, issues, nullRatio := ApplyNullPenalty(reg, score, issues);
    ghost var c, i, p := TierNotes(reg, Fields(Critical), Critical), TierNotes(reg, Fields(Important), Important),
                         TierNotes(reg, Fields(Supplementary), Supplementary);
    assert c.issues + i.issues + p.issues + PenaltyNotes(reg) == issues;
    assert c.strengths + i.strengths + p.strengths == strengths;
    assert score == StrictScore(reg);
    q := Assessed(score, nullRatio, issues, strengths);
  }

  /** The blank-value penalty: counts the blanks of the whole record, then
      takes 20 or 10 points off and adds the matching issue. */
  method ApplyNullPenalty(reg: Dict, raw: real, issuesBefore: seq<string>) returns (score: real, issues: seq<string>, nullRatio: real)
    ensures score == Penalized(raw, NullRatio(reg))
    ensures issues == issuesBefore + PenaltyNotes(reg)
    ensures nullRatio == NullRatio(reg)
  {
    var counts := CountNulls(Obj(reg), 0);
    nullRatio := Ratio(counts.0, counts.1);
    score, issues := raw, issuesBefore;
    if nullRatio > 0.7 {
      score := Max0(score - 20.0);
      issues := issues + [TooManyNullsNote(NullPercent(reg))];
    } else if nullRatio > 0.5 {
      score := Max0(score - 10.0);
      issues := issues + [ManyNullsNote(NullPercent(reg))];
    }
  }

  /** Supplementary fields never add a note. */
  lemma {:induction false} NoSupplementaryNotes(reg: Dict, fields: seq<string>)
    ensures TierNotes(reg, fields, Supplementary) == Notes([], [])
  {
    if fields != [] {
      NoSupplementaryNotes(reg, fields[..|fields| - 1]);
    }
  }

  /** The score lies in `[0, 100]`, and the penalty takes at most 20 points
      off and never adds any. */
  lemma StrictScoreBounds(reg: Dict)
    ensures 0.0 <= RawScore(reg) <= 100.0
    ensures 0.0 <= StrictScore(reg) <= RawScore(reg)
    ensures StrictScore(reg) >= RawScore(reg) - 20.0
  {
    TierMaxima();
  }

  /** At most half blank values: no penalty and no penalty note. */
  lemma MostlyFilledNoPenalty(reg: Dict)
    requires var c := CountNulls(Obj(reg), 0); c.1 > 0 && 2 * c.0 <= c.1
    ensures StrictScore(reg) == RawScore(reg)
    ensures PenaltyNotes(reg) == []
  {
  }

  /** A record with no values at all scores 0, is discarded, and lists every
      critical and important field as missing plus the 100% blank penalty. */
  lemma EmptyRecordDiscarded()
    ensures StrictAssess([]).score == 0.0
    ensures StrictAssess([]).recommendation == Discard
    ensures StrictAssess([]).nullRatio == 100.0
    ensures StrictAssess([]).strengths == []
    ensures StrictAssess([]).issues
            == Seqs.Map(Fields(Critical), MissingCriticalNote) + Seqs.Map(Fields(Important), MissingImportantNote)
               + [TooManyNullsNote(100)]
  {
    var reg: Dict := [];
    EmptyRecordAllBlank();
    EmptyTier(Fields(Critical), Critical);
    EmptyTier(Fields(Important), Important);
    EmptyTier(Fields(Supplementary), Supplementary);
    NoSupplementaryNotes(reg, Fields(Supplementary));
    assert StrictScore(reg) == 0.0;
  }

  /** The empty record has no values, so its blank ratio is 1. */
  lemma EmptyRecordAllBlank()
    ensures NullRatio([]) == 1.0 && NullPercent([]) == 100
    ensures PenaltyNotes([]) == [TooManyNullsNote(100)]
  {
    assert CountNulls(Obj([]), 0) == (0, 0);
  }


  /** Over the empty record, every field of a tier earns nothing and the
      critical and important ones each add their "missing" note. */
  lemma {:induction false} EmptyTier(fields: seq<string>, t: Tier)
    ensures TierPoints([], fields, t) == 0.0
    ensures t == Critical ==> TierNotes([], fields, t) == Notes(Seqs.Map(fields, MissingCriticalNote), [])
    ensures t == Important ==> TierNotes([], fields, t) == Notes(Seqs.Map(fields, MissingImportantNote), [])
  {
    if fields != [] {
      EmptyTier(fields[..|fields| - 1], t);
      assert FieldValue([], fields[|fields| - 1]) == Null;
    }
  }

  /** Unlike the scorer of RPEM.py, a partly filled critical dict earns all
      10 points here, where RPEM.py gives it only its filled share. */
  lemma CriticalDictAllOrNothing(v: Value)
    requires v.Obj? && FilledCritical(v) && 0 < FilledCount(v.entries) < |v.entries|
    ensures FieldPoints(Critical, v) == 10.0
    ensures Quality.Earned(Critical, v) < 10.0
  {
    var n, d := FilledCount(v.entries) as real, |v.entries| as real;
    assert Quality.Share(v.entries) == n / d;
    assert n / d < 1.0;
  }

  /** A supplementary dict needs two filled values for full credit. */
  lemma SupplementaryDictCredit(v: Value)
    requires v.Obj? && Filled(v)
    ensures FilledCount(v.entries) == 0 ==> FieldPoints(Supplementary, v) == 0.0
    ensures FilledCount(v.entries) == 1 ==> FieldPoints(Supplementary, v) == 2.5
    ensures FilledCount(v.entries) >= 2 ==> FieldPoints(Supplementary, v) == 5.0
  {
  }

  /** `"Unknown"` counts as blank among a dict's values but not among a
      list's items. */
  lemma UnknownBlankOnlyInDicts(k: string, depth: nat)
    requires depth <= 5
    ensures CountNulls(Obj([(k, Str("Unknown"))]), depth) == (1, 1)
    ensures CountNulls(Arr([Str("Unknown")]), depth) == (0, 1)
  {
    assert DictBlank(Str("Unknown"));
    assert !ListBlank(Str("Unknown"));
    var entries := [(k, Str("Unknown"))];
    assert entries[..0] == [];
    assert DictNulls(entries, depth) == (1, 1);
    var items := [Str("Unknown")];
    assert items[..0] == [];
    assert ListNulls(items, depth) == (0, 1);
  }

  /** Filling a missing field can lower the strict score: a record holding
      only its id scores 10, and adding a keyword dict with one filled value
      and three `None`s earns 2.5 points but lifts the blank share to 3/5,
      which takes 10 points off. */
  lemma FillingCanLower()
    ensures var reg: Dict := [("regulation_id", Str("a"))];
            var keywords := Obj([("k", Str("x")), ("b", Null), ("c", Null), ("d", Null)]);
            FieldValue(reg, "keywords") == Null
            && StrictScore(reg) == 10.0
            && StrictScore(Put(reg, "keywords", keywords)) == 2.5
  {
    var reg: Dict := [("regulation_id", Str("a"))];
    var keywords := Obj([("k", Str("x")), ("b", Null), ("c", Null), ("d", Null)]);
    assert reg[1..] == [] && reg[0].0 != "keywords";
    assert Put(reg, "keywords", keywords) == reg + [("keywords", keywords)];
    IdOnlyFieldValues(reg, Null);
    IdOnlyScores(reg, Null);
    IdOnlyScores(reg + [("keywords", keywords)], keywords);
  }

  /** The blank count, raw score and strict score of a record holding an id
      `"a"` and perhaps a `keywords` dict with one filled value of four. */
  lemma IdOnlyScores(reg: Dict, keywords: Value)
    requires keywords == Null || keywords == Obj([("k", Str("x")), ("b", Null), ("c", Null), ("d", Null)])
    requires reg == [("regulation_id", Str("a"))] + (if keywords == Null then [] else [("keywords", keywords)])
    ensures keywords == Null ==> CountNulls(Obj(reg), 0) == (0, 1) && RawScore(reg) == 10.0
    ensures keywords != Null ==> CountNulls(Obj(reg), 0) == (3, 5) && RawScore(reg) == 12.5
    ensures StrictScore(reg) == if keywords == Null then 10.0 else 2.5
  {
    IdOnlyFieldValues(reg, keywords);
    assert reg[..1] == [("regulation_id", Str("a"))] && reg[..1][..0] == [];
    assert DictNulls(reg[..1], 0) == (0, 1);
    if keywords == Null {
      assert reg[..1] == reg;
      IdOnlyPoints(reg, 0.0);
    } else {
      OneFilledThreeBlank("k", "b", "c", "d");
      SupplementaryDictCredit(keywords);
      IdOnlyPoints(reg, 2.5);
      assert CountNulls(Obj(reg), 0) == (3, 5);
    }
  }

  /** The fields of a record holding an id `"a"` and, unless `keywords` is
      `None`, a `keywords` value after it. */
  lemma IdOnlyFieldValues(reg: Dict, keywords: Value)
    requires reg == [("regulation_id", Str("a"))] + (if keywords == Null then [] else [("keywords", keywords)])
    ensures FieldValue(reg, "regulation_id") == Str("a") && FieldValue(reg, "keywords") == keywords
    ensures forall f :: (f in Fields(Critical) + Fields(Important) + Fields(Supplementary)
                         && f != "regulation_id" && f != "keywords") ==> FieldValue(reg, f) == Null
  {
    if keywords == Null {
      assert reg[1..] == [];
      forall f | f != "regulation_id"
        ensures FieldValue(reg, f) == Null
      {
        assert Get(reg[1..], f) == None;
      }
    } else {
      var rest := reg[1..];
      assert rest == [("keywords", keywords)] && rest[1..] == [];
      assert "regulation_id" != "keywords";
      assert Get(rest, "keywords") == Some(keywords);
      assert Get(reg, "keywords") == Some(keywords);
      forall f | f != "regulation_id" && f != "keywords"
        ensures FieldValue(reg, f) == Null
      {
        assert Get(rest[1..], f) == None;
        assert Get(rest, f) == None;
      }
    }
  }

  /** A dict of one filled value and three `None`s: three blanks of four
      values, one of them filled. */
  lemma OneFilledThreeBlank(k: string, b: string, c: string, d: string)
    ensures var e := [(k, Str("x")), (b, Null), (c, Null), (d, Null)];
            CountNulls(Obj(e), 1) == (3, 4) && FilledCount(e) == 1
  {
    var e := [(k, Str("x")), (b, Null), (c, Null), (d, Null)];
    assert e[..3] == [(k, Str("x")), (b, Null), (c, Null)];
    assert e[..3][..2] == [(k, Str("x")), (b, Null)];
    assert e[..3][..2][..1] == [(k, Str("x"))];
    assert e[..3][..2] == e[..2] && e[..2][..1] == e[..1];
    assert e[..3][..2][..1][..0] == [];
    assert DictBlank(Null) && !DictBlank(Str("x")) && !Filled(Null) && Filled(Str("x"));
    assert DictNulls(e[..1], 1) == (0, 1) && FilledCount(e[..1]) == 1;
    assert DictNulls(e[..2], 1) == (1, 2) && FilledCount(e[..2]) == 1;
    assert DictNulls(e[..3], 1) == (2, 3) && FilledCount(e[..3]) == 1;
    assert DictNulls(e, 1) == (3, 4) && FilledCount(e) == 1;
  }

  /** The raw score of a record with a critical id `"a"`, no other critical
      or important field, and only `keywords` among the supplementary ones. */
  lemma IdOnlyPoints(reg: Dict, keywords: real)
    requires FieldValue(reg, "regulation_id") == Str("a")
    requires forall f :: (f in Fields(Critical) + Fields(Important) + Fields(Supplementary)
                          && f != "regulation_id" && f != "keywords") ==> FieldValue(reg, f) == Null
    requires FieldPoints(Supplementary, FieldValue(reg, "keywords")) == keywords
    ensures RawScore(reg) == 10.0 + keywords
  {
    var c, i, s := Fields(Critical), Fields(Important), Fields(Supplementary);
    assert FieldValue(reg, "regulation_name") == Null && FieldValue(reg, "regulation_type") == Null
           && FieldValue(reg, "description") == Null;
    assert c[..1] == ["regulation_id"] && c[..1][..0] == [];
    assert c[..2][..1] == c[..1] && c[..3][..2] == c[..2] && c[..4][..3] == c[..3] && c[..4] == c;
    assert TierPoints(reg, c[..1], Critical) == 10.0;
    assert TierPoints(reg, c[..2], Critical) == 10.0;
    assert TierPoints(reg, c[..3], Critical) == 10.0;
    forall k | 0 <= k < |i| ensures FieldValue(reg, i[k]) == Null {
      assert i[k] in Fields(Critical) + Fields(Important) + Fields(Supplementary);
    }
    NullRunEarnsNothing(reg, i, Important);
    assert s[..6] == s && s[..6][..5] == s[..5];
    forall k | 0 <= k < 5 ensures FieldValue(reg, s[..5][k]) == Null {
      assert s[..5][k] in Fields(Critical) + Fields(Important) + Fields(Supplementary);
    }
    NullRunEarnsNothing(reg, s[..5], Supplementary);
  }

  /** A run of fields that all read as `None` earns nothing. */
  lemma {:induction false} NullRunEarnsNothing(reg: Dict, fields: seq<string>, t: Tier)
    requires forall i :: 0 <= i < |fields| ==> FieldValue(reg, fields[i]) == Null
    ensures TierPoints(reg, fields, t) == 0.0
  {
    if fields != [] {
      NullRunEarnsNothing(reg, fields[..|fields| - 1], t);
    }
  }

  /** The assessment as the JSON object stored under `_quality_score`. */
  function AsValue(q: StrictAssessment): Value {
    Obj([("score", Num(q.score)), ("max_score", Num(q.maxScore)), ("percentage", Num(q.percentage)),
         ("null_ratio", Num(q.nullRatio)), ("recommendation", Str(RecommendationText(q.recommendation))),
         ("status", Str(q.status)), ("issues", Arr(Quality.Texts(q.issues))),
         ("strengths", Arr(Quality.Texts(q.strengths)))])
  }

  /** The record with its strict assessment stored under `_quality_score`. */
  function StrictAnnotated(reg: Dict): Dict {
    Put(reg, "_quality_score", AsValue(StrictAssess(reg)))
  }

  /** The sum of the records' stored (rounded) strict scores. */
  function ScoreSum(regs: seq<Dict>): (s: real)
    ensures 0.0 <= s <= 100.0 * |regs| as real
  {
    if regs == [] then 0.0
    else
      var reg := regs[|regs| - 1];
      StrictScoreBounds(reg);
      RoundedRange(StrictScore(reg), 0, 1000);
      ScoreSum(regs[..|regs| - 1]) + RoundedStrictScore(reg)
  }

  /** `part / whole * 100 if whole else 0`, before rounding. */
  function KeptPercentage(part: nat, whole: nat): (p: real)
    requires part <= whole
    ensures 0.0 <= p <= 100.0
    ensures whole == 0 ==> p == 0.0
  {
    if whole == 0 then 0.0 else MeanBounds(part as real * 100.0, whole); part as real * 100.0 / whole as real
  }

  /** `sum / count if count else 0`, before rounding. */
  function Average(sum: real, count: nat): (a: real)
    requires 0.0 <= sum <= 100.0 * count as real
    ensures 0.0 <= a <= 100.0
    ensures count == 0 ==> a == 0.0
  {
    if count == 0 then 0.0 else MeanBounds(sum, count); sum / count as real
  }

  /** A mean of values in `[0, 100]` lies in `[0, 100]`. */
  lemma MeanBounds(sum: real, n: nat)
    requires 0 < n && 0.0 <= sum <= 100.0 * n as real
    ensures 0.0 <= sum / n as real <= 100.0
  {
    var r := sum / n as real;
    assert r * n as real == sum;
  }

  /** The name a record is listed under: `regulation_name`, else
      `regulation_id`, else `Regulation <i+1>`. */
  function DisplayName(reg: Dict, i: nat): Value {
    GetOr(reg, "regulation_name", GetOr(reg, "regulation_id", Str("Regulation " + NatToString(i + 1))))
  }

  /** `reg_name[:50] + "..."` when `str(reg_name)` is longer than 50
      characters: only a string survives it; a list raises at the
      concatenation, anything else at the slice. `show` stands for `str()` of
      numbers, lists and dicts. */
  function NameCheck(reg: Dict, i: nat, show: Value -> string): Result<Value> {
    var name := DisplayName(reg, i);
    if |PyStr(name, show)| <= 50 then Ok(name)
    else match name
      case Str(t) => Ok(Str(t[..50] + "..."))
      case Arr(_) => Raised("can only concatenate list (not \"str\") to list")
      case _ => Raised(SliceError(name))
  }

  /** The name step of every record, in order. */
  function NameChecks(regs: seq<Dict>, show: Value -> string): seq<Result<Value>> {
    seq(|regs|, i requires 0 <= i < |regs| => NameCheck(regs[i], i, show))
  }

  /** Records named by strings, or by anything whose text has at most 50
      characters, never stop the filter. */
  lemma NamesPass(regs: seq<Dict>, show: Value -> string)
    requires forall i :: 0 <= i < |regs| ==>
               DisplayName(regs[i], i).Str? || |PyStr(DisplayName(regs[i], i), show)| <= 50
    ensures AllOrFirstError(NameChecks(regs, show)).Ok?
  {
    forall i | 0 <= i < |regs|
      ensures NameChecks(regs, show)[i].Ok?
    {
    }
  }

  /** A long name that is not a string raises: a dict, a number or a list. */
  lemma LongNameRaises(reg: Dict, i: nat, show: Value -> string)
    requires |PyStr(DisplayName(reg, i), show)| > 50
    ensures NameCheck(reg, i, show).Ok? <==> DisplayName(reg, i).Str?
    ensures DisplayName(reg, i).Obj? ==> NameCheck(reg, i, show) == Raised("unhashable type: 'slice'")
  {
  }

  /** One record's scoring: the assessment stored under `_quality_score`,
      and the rounded score that picks its list. */
  method ScoreOne(reg: Dict) returns (annotated: Dict, score: real)
    ensures annotated == StrictAnnotated(reg) && score == RoundedStrictScore(reg)
    ensures annotated == Put(reg, "_quality_score", AsValue(StrictAssess(reg)))
  {
    var quality := CalculateRegulationQualityScore(reg);
    annotated := Put(reg, "_quality_score", AsValue(quality));
    score := quality.score;
  }

  /** Where the loop of `filter_regulations` stands after the first `n`
      records, given each record's name step in `checks`: the three lists so
      far, or the exception the first failing name raised. */
  function FilterUpTo(regs: seq<Dict>, checks: seq<Result<Value>>, minScore: real, score: Dict -> real,
                      annotate: Dict -> Dict, n: nat): Result<Buckets>
    requires n <= |regs| == |checks|
  {
    if n == 0 then Ok(Buckets([], [], []))
    else match FilterUpTo(regs, checks, minScore, score, annotate, n - 1)
      case Raised(e) => Raised(e)
      case Ok(b) =>
        match checks[n - 1]
        case Raised(e) => Raised(e)
        case Ok(_) => Ok(Add(b, Bin(score(regs[n - 1]), minScore), annotate(regs[n - 1])))
  }

  /** After `n` records the loop has either met the first failing name among
      them, or routed all `n` records and every name so far passed. */
  lemma {:induction false} FilterUpToSpec(regs: seq<Dict>, checks: seq<Result<Value>>, minScore: real,
                                          score: Dict -> real, annotate: Dict -> Dict, n: nat)
    requires n <= |regs| == |checks|
    ensures FilterUpTo(regs, checks, minScore, score, annotate, n).Ok? <==> OkPrefix(checks, n)
    ensures FilterUpTo(regs, checks, minScore, score, annotate, n).Ok? ==>
              FilterUpTo(regs, checks, minScore, score, annotate, n).value == Routed(regs[..n], minScore, score, annotate)
    ensures FilterUpTo(regs, checks, minScore, score, annotate, n).Raised? ==>
              AllOrFirstError(checks) == Raised(FilterUpTo(regs, checks, minScore, score, annotate, n).error)
  {
    if n > 0 {
      FilterUpToSpec(regs, checks, minScore, score, annotate, n - 1);
      if FilterUpTo(regs, checks, minScore, score, annotate, n - 1).Ok? {
        RoutedStep(regs, n - 1, minScore, score, annotate);
        if checks[n - 1].Raised? {
          OkPrefixFirstError(checks, n - 1);
        }
      }
    }
  }

  /** Once a name has raised, later records change nothing. */
  lemma {:induction false} FilterUpToRaised(regs: seq<Dict>, checks: seq<Result<Value>>, minScore: real,
                                            score: Dict -> real, annotate: Dict -> Dict, n: nat, m: nat)
    requires n <= m <= |regs| == |checks| && FilterUpTo(regs, checks, minScore, score, annotate, n).Raised?
    ensures FilterUpTo(regs, checks, minScore, score, annotate, m) == FilterUpTo(regs, checks, minScore, score, annotate, n)
  {
    if n < m {
      FilterUpToRaised(regs, checks, minScore, score, annotate, n, m - 1);
    }
  }

  /** `score` and `annotate` are the strict scorer's rounded score and the
      record with its assessment attached; they are passed as parameters so
      that the loop below reasons about them without unfolding the scorer. */
  ghost predicate IsStrictScorer(score: Dict -> real, annotate: Dict -> Dict) {
    (forall reg {:trigger RoundedStrictScore(reg)} :: score(reg) == RoundedStrictScore(reg)) &&
    (forall reg {:trigger StrictAnnotated(reg)} :: annotate(reg) == StrictAnnotated(reg))
  }

  /** One pass of the loop of `filter_regulations`: score record `i`, attach
      the assessment, shorten the name (which may raise), and append the
      record to the list its rounded score selects. */
  method FilterStep(regs: seq<Dict>, i: nat, minScore: real, show: Value -> string, b: Buckets,
                    ghost score: Dict -> real, ghost annotate: Dict -> Dict) returns (r: Result<Buckets>)
    requires IsStrictScorer(score, annotate)
    requires i < |regs| && FilterUpTo(regs, NameChecks(regs, show), minScore, score, annotate, i) == Ok(b)
    ensures r == FilterUpTo(regs, NameChecks(regs, show), minScore, score, annotate, i + 1)
  {
    var annotated, rounded := ScoreOne(regs[i]);
    var name := NameCheck(regs[i], i, show);
    assert NameChecks(regs, show)[i] == name;
    if name.Raised? {
      return Raised(name.error);
    }
    if rounded >= 70.0 {
      r := Ok(Buckets(b.kept + [annotated], b.review, b.discarded));
    } else if rounded >= minScore {
      r := Ok(Buckets(b.kept, b.review + [annotated], b.discarded));
    } else {
      r := Ok(Buckets(b.kept, b.review, b.discarded + [annotated]));
    }
  }

  /** The loop of `filter_regulations`, run to the end or to the first name
      that raises. */
  method RouteStrict(regs: seq<Dict>, minScore: real, show: Value -> string,
                     ghost score: Dict -> real, ghost annotate: Dict -> Dict) returns (out: Result<Buckets>)
    requires IsStrictScorer(score, annotate)
    ensures out == FilterUpTo(regs, NameChecks(regs, show), minScore, score, annotate, |regs|)
  {
    var b := Buckets([], [], []);
    for i := 0 to |regs|
      invariant FilterUpTo(regs, NameChecks(regs, show), minScore, score, annotate, i) == Ok(b)
    {
      var step := FilterStep(regs, i, minScore, show, b, score, annotate);
      if step.Raised? {
        FilterUpToRaised(regs, NameChecks(regs, show), minScore, score, annotate, i + 1, |regs|);
        return step;
      }
      b := step.value;
    }
    out := Ok(b);
  }

  /** The dict `filter_regulations` returns. */
  datatype StrictFiltered = StrictFiltered(
    kept: seq<Dict>, review: seq<Dict>, discarded: seq<Dict>,
    total: nat, keptCount: nat, reviewCount: nat, discardedCount: nat,
    keptPercentage: real, avgScore: real)

  /** `filter_regulations`: the strict scorer's three-way split, with the
      rounded share of kept records and the rounded mean of the stored
      scores, both 0 for no input; a record whose name cannot be shortened
      stops it with that exception. */
  method FilterRegulations(regs: seq<Dict>, minScore: real, show: Value -> string) returns (out: Result<StrictFiltered>)
    ensures var named := AllOrFirstError(NameChecks(regs, show));
            out.Ok? == named.Ok? && (out.Raised? ==> out.error == named.error)
    ensures out.Ok? ==>
              var f := out.value;
              Buckets(f.kept, f.review, f.discarded) == Routed(regs, minScore, RoundedStrictScore, StrictAnnotated) &&
              f.total == |regs| && f.keptCount == |f.kept| &&
              f.reviewCount == |f.review| && f.discardedCount == |f.discarded| &&
              f.keptCount + f.reviewCount + f.discardedCount == f.total &&
              f.keptPercentage == Round1(KeptPercentage(f.keptCount, f.total)) &&
              f.avgScore == Round1(Average(ScoreSum(regs), |regs|))
  {
    var routed := RouteStrict(regs, minScore, show, RoundedStrictScore, StrictAnnotated);
    FilterUpToSpec(regs, NameChecks(regs, show), minScore, RoundedStrictScore, StrictAnnotated, |regs|);
    if routed.Raised? {
      return Raised(routed.error);
    }
    assert regs[..|regs|] == regs;
    OkPrefixAllOk(NameChecks(regs, show));
    var b := routed.value;
    RoutedPartition(regs, minScore, RoundedStrictScore, StrictAnnotated);
    var keptPercentage := Round1(KeptPercentage(|b.kept|, |regs|));
    var avgScore := Round1(Average(ScoreSum(regs), |regs|));
    out := Ok(StrictFiltered(b.kept, b.review, b.discarded, |regs|, |b.kept|, |b.review|, |b.discarded|, keptPercentage, avgScore));
  }

}
