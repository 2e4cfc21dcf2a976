/** The field tables and the score bands shared by the two quality scorers
    (RPEM.py and filter_regulations_funcs.py use the same fields, points and
    thresholds). */
module Tiers {
  import opened Json

  /** The three groups of fields a regulation record is scored on. */
  datatype Tier = Critical | Important | Supplementary

  /** The fields of each tier, in the order the scorers visit them. */
  function Fields(t: Tier): seq<string> {
    match t
    case Critical => ["regulation_id", "regulation_name", "regulation_type", "description"]
    case Important => ["jurisdiction", "domain", "scope", "requirements", "restrictions"]
    case Supplementary => ["rights_granted", "exceptions", "compliance_requirements", "enforcement", "dates", "keywords"]
  }

  /** `regulation.get(field)`: a missing field reads as `None`. */
  function FieldValue(reg: Dict, field: string): Value {
    GetOr(reg, field, Null)
  }

  /** The test a value passes to count as present: critical fields also treat
      `"N/A"` and `"Unknown"` as missing, the other tiers do not. */
  predicate Present(t: Tier, v: Value) {
    if t == Critical then FilledCritical(v) else Filled(v)
  }

  /** The points one field of a tier is worth. */
  function Points(t: Tier): real {
    match t
    case Critical => 10.0
    case Important => 6.0
    case Supplementary => 5.0
  }

  /** The most a tier can contribute: 40, 30 and 30 points, 100 in all. */
  lemma TierMaxima()
    ensures |Fields(Critical)| as real * Points(Critical) == 40.0
    ensures |Fields(Important)| as real * Points(Important) == 30.0
    ensures |Fields(Supplementary)| as real * Points(Supplementary) == 30.0
  {
  }

  /** The verdict attached to a score. */
  datatype Recommendation = Keep | Review | Discard

  /** `KEEP` from 70 points, `REVIEW` from 40, `DISCARD` below. */
  function Recommend(score: real): (r: Recommendation)
    ensures r == Keep <==> score >= 70.0
    ensures r == Review <==> 40.0 <= score < 70.0
    ensures r == Discard <==> score < 40.0
  {
    if score >= 70.0 then Keep else if score >= 40.0 then Review else Discard
  }

  /** The text the scorers store under `recommendation`. */
  function RecommendationText(r: Recommendation): string {
    match r
    case Keep => "KEEP"
    case Review => "REVIEW"
    case Discard => "DISCARD"
  }

  /** The traffic-light emoji the scorers store under `status`. */
  function StatusEmoji(r: Recommendation): string {
    match r
    case Keep => "\U{1F7E2}"
    case Review => "\U{1F7E1}"
    case Discard => "\U{1F534}"
  }

  /** The list a filter puts a record with score `score` in, for a given
      `min_score`: kept from 70 points, for review from `min_score`, discarded
      below. */
  function Bin(score: real, minScore: real): (r: Recommendation)
    ensures r == Keep <==> score >= 70.0
    ensures r == Review <==> score < 70.0 && score >= minScore
    ensures r == Discard <==> score < 70.0 && score < minScore
  {
    if score >= 70.0 then Keep else if score >= minScore then Review else Discard
  }
}
