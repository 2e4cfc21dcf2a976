# ARCCS core in Dafny

ARCCS checks project documents against regulations. Its core has four stages:

1. **Extraction (RPEM.py).** RPEM turns a PDF into markdown and splits it into header-titled sections. A language model extracts regulation records from each section. The records are flattened into one list, and each is stamped with its `source_section`. A completeness score then sorts the records into kept, review and discarded.
2. **Strict filter (filter_regulations_funcs.py).** This file holds a stricter scorer with a penalty for blank values, plus the filter built on it. It also has a classifier that tells general overviews from specific articles, and the split that classifier drives.
3. **Compliance (CCM.py).** CCM asks the model, for each regulation, whether a document contradicts it. From the answer's three findings it re-derives one of four statuses: `NON_COMPLIANT`, `INSUFFICIENT_INFORMATION`, `HUMAN_REQUIRED` or `COMPLIANT`. It then builds a report with counts, lists, an overall verdict and a compliance rate.
4. **Duplicate merge (merge_regulations.py).** Summaries of the records go to the model in batches of 50. The model names pairs of duplicates. The pairs are shifted by their batch's start and checked against the list length. Each checked pair is logged, and its `delete_index` values are removed from the list.

The model keeps the source's dynamic typing where it matters:
- JSON values are a `Value` datatype. Dicts are insertion-ordered lists of key/value pairs.
- A Python exception that can escape a modelled function is a `Raised` result carrying the exception's text. The only exceptions not modelled are those raised on inputs a member's precondition excludes; "## Left out" names them.

The language model is a function parameter (`ask`) from request to reply, where a reply is either a parsed JSON answer or a failed call. Python's `str()` of a non-text value is a parameter `show`. The model carries the source's constants unchanged:
- tier points 10/6/5;
- thresholds 70, 40, 0.7 and 0.5;
- slice lengths 50, 55, 300, 500;
- batch size 50.

`round(x, 1)` is modelled as round-half-even on exact reals.

Modules:
- `Json`: values, `.get`, dict assignment, rounding, first-error propagation.
- `Text`: `strip`, `lower`, slicing.
- `Seqs`: filter, map, count, partitions.
- `Tiers`: the field tiers and the 70/40 recommendation.
- `Routing`: the kept/review/discarded split.
- `Segmenter`: `elements_to_markdown`, `split_into_sections`.
- `Extraction`: the wrappers around the extraction call, `process_all_sections`, `collect_all_regulations`.
- `Quality`: `calculate_quality_score`, `filter_regulations_by_quality`.
- `StrictQuality`: `calculate_regulation_quality_score`, `filter_regulations`.
- `Overview`: `is_general_overview`, `separate_regulations`.
- `Compliance`: CCM.
- `Dedup`: `merge_duplicate_regulations`, `deduplicate_regulations`.

Where the written design of the system and the code disagree, the model follows the code:
- **Introductory sections.** Extraction is said to force the regulations of an introductory section to be empty. The code only asks the model to do so and keeps whatever it returns.
- **Faults that escape.** Malformed records and oracle faults are said never to stop a batch. The code raises outside any `try` in these places:
  - a long non-string name in `filter_regulations`;
  - a non-sliceable name in `check_all_regulations`;
  - a `brief_summary` that cannot be sliced, in the duplicate summaries;
  - a fractional pair index, or one below `-n`;
  - a pair without a `reason`, in the apply loop;
  - a `batch_size` of 0.

  The model returns `Raised` in each of these cases. It also returns `Raised` where the code raises in other ways:
  - the verbose detail slices in `check_all_regulations` (CCM.py:211, 215);
  - a non-numeric index compared with the length at merge_regulations.py:123, which the first batch lets through unshifted;
  - the report's slices of a `source_section` that is not a string or a list (merge_regulations.py:170-171).
- **Batch offsets.** The merge is said to turn batch-local indices into absolute ones. The summaries already carry absolute indices, so an index the model echoes back is shifted a second time in every batch after the first.
- **Negative indices.** The cleaned list is said to exclude exactly the nominated indices. A negative index passes the `< len` check: it is logged, but no position `i` of the list ever equals it, so nothing is removed for it.
- **Threshold rounding.** The filters compare the rounded score with 70. A score in [69.95, 70) is therefore kept, even though its own recommendation says REVIEW.
- **Strict score and filling.** Filling a blank field is said never to lower the score. That holds for the scorer of RPEM.py (`Quality.FillingNeverLowers`), but not for the strict scorer of filter_regulations_funcs.py. There, a filled dict whose own values are mostly `None` earns its few points (line 89) and also raises the record's blank share past 50%, which costs 10 points (lines 133-136). `StrictQuality.FillingCanLower` shows a record dropping from 10 to 2.5 this way.
- **Deduplication counts.** `cleaned_count + duplicates_removed` is said always to equal `original_count`. `duplicates_removed` is the length of the deletion log, and a pair nominated twice is logged twice but removes one record (`Dedup.NominatedTwiceLoggedTwice`), so the sum can exceed the original count. A logged negative index removes nothing, which has the same effect.

## Model

| member | source | states |
|---|---|---|
| Json.GetSpec | RPEM.py:417 | `.get` finds a value exactly when the key is present, and the value it finds is stored under that key |
| Json.PutGet | RPEM.py:313 | after `d[k] = v`, `d[k]` is `v` |
| Json.PutOther | RPEM.py:313-314 | assigning one key leaves every other key's value unchanged |
| Json.PutLength | RPEM.py:384 | assignment adds an entry only when the key was absent |
| Json.RoundHalfEvenNearest | RPEM.py:478 | `round` picks an integer within one half of its argument, and picks the even one on a tie |
| Json.RoundedAtLeast | filter_regulations_funcs.py:151 | a rounded score reaches an even tenth exactly when the unrounded score is at most 0.05 below it |
| Json.AllOrFirstError | CCM.py:192-223 | a loop that stops at the first exception succeeds exactly when every step succeeds, yielding each step's value in order; otherwise it raises the first step's error |
| Text.StripLeftSpec | RPEM.py:88-90 | stripping on the left removes exactly the leading run of whitespace: the result is a suffix of the input that starts with a non-space character |
| Text.StripRightSpec | RPEM.py:88-90 | stripping on the right removes exactly the trailing run of whitespace: the result is a prefix of the input that ends with a non-space character |
| Text.StripKeepsFirst | RPEM.py:84-90 | a header part keeps its leading `#` when stripped |
| Text.Lower | filter_regulations_funcs.py:243 | the lowered text has the same length and no capital letter left, and every character that was not a capital is unchanged (ASCII only, see Left out) |
| Text.LowerIdempotent | filter_regulations_funcs.py:243 | lowering lowered text changes nothing |
| Text.LowerKeepsKeyword | filter_regulations_funcs.py:260-262 | a lower-case keyword that occurs in the text still occurs after lowering, so lowering only adds keyword matches |
| Text.Take | merge_regulations.py:38-39 | `s[:n]` is the prefix of `s` of length min(n, len(s)): the whole string when it is short, exactly n characters otherwise |
| Tiers.TierMaxima | RPEM.py:408-464 | the critical, important and supplementary tiers are worth 40, 30 and 30 points |
| Tiers.Recommend | RPEM.py:466-475 | KEEP exactly at 70 or more, REVIEW exactly from 40 up to below 70, DISCARD exactly below 40 |
| Tiers.Bin | RPEM.py:519-524 | kept exactly at 70 or more; review exactly below 70 and at least `min_score`; discarded exactly below both |
| Routing.Add | RPEM.py:519-524 | appending a record to one list leaves the other two lists unchanged |
| Routing.RoutedStep | RPEM.py:515-524 | one loop turn appends the annotated record to the list its score selects |
| Routing.RoutedPart | RPEM.py:515-524 | each list holds, in input order, exactly the annotated records whose score selects that list |
| Routing.RoutedPartition | RPEM.py:515-524 | every record lands in exactly one list: the three lists together are a rearrangement of the annotated input |
| Segmenter.ElementsToMarkdown | RPEM.py:57-63 | the loop builds the concatenation of the elements' renderings: a title as `\n## text\n`, anything else as `text\n` |
| Segmenter.MarkdownAppend | RPEM.py:58-62 | rendering two runs of elements gives the two renderings joined |
| Segmenter.RenderedAt | RPEM.py:58-62 | each element's rendering appears in the markdown at the offset where the elements before it end |
| Segmenter.BodyLen | RPEM.py:83-93 | the body of a section runs up to the next header part |
| Segmenter.ResumeAtHeader | RPEM.py:84-91 | a header part closes the open section, if there is one, with its stripped content, and opens a section titled by the stripped header |
| Segmenter.ResumeAtBody | RPEM.py:92-93 | a non-header part is appended to the open section's content |
| Segmenter.ResumeAtEnd | RPEM.py:95-99 | at the end, the open section is closed with its stripped content |
| Segmenter.SplitIntoSections | RPEM.py:79-101 | the loop yields exactly the sections the header-splitting rule defines |
| Segmenter.SectionTitles | RPEM.py:84-90 | the titles are the stripped header parts, in order |
| Segmenter.SectionCount | RPEM.py:84-99 | there is one section per header part |
| Segmenter.NoHeaderNoSection | RPEM.py:80-99 | the result is empty exactly when no part is a header |
| Segmenter.SectionTitlesAreHeaders | RPEM.py:84-90 | every title is non-empty and begins with `#` |
| Segmenter.PreambleDiscarded | RPEM.py:83-93 | text before the first header belongs to no section |
| Extraction.Preview | RPEM.py:314 | content of up to 500 characters is kept whole; longer content becomes its first 500 characters followed by `...` |
| Extraction.ExtractionNamesSection | RPEM.py:313-325 | whatever the oracle does, the result carries the section's title |
| Extraction.ExtractionDecorates | RPEM.py:312-315 | an object answer gains `original_content`, and every other key keeps the answer's value |
| Extraction.ExtractionFallsBack | RPEM.py:317-325 | a failed call, or an answer that is not an object, gives the record with no regulations, confidence 0, a null summary and the exception text |
| Extraction.FallbackFields | RPEM.py:318-325 | the fallback record has exactly the promised field values |
| Extraction.ProcessAllSections | RPEM.py:344-366 | one result per section, in order; each is that section's extraction from its own reply |
| Extraction.StampAllAt | RPEM.py:383-385 | each collected regulation is the original with `source_section` set to the section title, and all its other keys unchanged |
| Extraction.CollectAllRegulations | RPEM.py:379-387 | the loop yields the flattened, stamped regulations of the results that contribute |
| Extraction.CollectedAppend | RPEM.py:381-385 | collecting two runs of results gives the two collections joined |
| Extraction.CollectedProvenance | RPEM.py:382-385 | every collected record is a regulation of a contributing result, stamped with that result's title |
| Extraction.FailedSectionContributesNothing | RPEM.py:317-325 | a section whose extraction fails adds no regulations to the collection |
| Extraction.SourceSectionIsATitle | RPEM.py:313 | end to end, every collected record's `source_section` is the title of some input section |
| Quality.Share | RPEM.py:419-421 | the filled share of a dict lies between 0 and 1 |
| Quality.ShareFull | RPEM.py:419-421 | a non-empty dict with every value filled earns its field's full points |
| Quality.Earned | RPEM.py:416-464 | a field earns between 0 and its tier's points |
| Quality.ScoreCriticalFields | RPEM.py:416-427 | the critical loop adds each field's credit and names each missing field and each present field |
| Quality.ScoreImportantFields | RPEM.py:438-449 | the important loop adds each field's credit and names each missing field |
| Quality.ScoreSupplementaryFields | RPEM.py:461-464 | the supplementary loop adds 5 points per filled field |
| Quality.CalculateQualityScore | RPEM.py:394-485 | the method yields the assessment, with a score between 0 and 100 |
| Quality.TierScoreBounds | RPEM.py:416-464 | a tier scores between 0 and its maximum |
| Quality.ScoreBounds | RPEM.py:404-464 | the score lies between 0 and 100 |
| Quality.TierScoreFull | RPEM.py:416-464 | a tier whose fields are all complete earns its maximum |
| Quality.CompleteRecordKept | RPEM.py:404-468 | a record whose every field is complete scores 100 and is recommended KEEP |
| Quality.TierScoreGrows | RPEM.py:416-464 | giving any value to a field that is blank for the tier never lowers the tier's score |
| Quality.FillingNeverLowers | RPEM.py:404-464 | giving any value to a field that is blank for its tier (absent, None, an empty value, and for a critical field "N/A" or "Unknown") never lowers the score |
| Quality.TierScoreIgnores | RPEM.py:409-459 | keys outside a tier's table do not change that tier's score |
| Quality.StringCredit | RPEM.py:418-464 | a real string earns full points, except that `N/A` and `Unknown` earn nothing in the critical tier |
| Quality.MentionsMembers | RPEM.py:422-427 | a field is named in the notes exactly when it belongs to the tier and its presence matches |
| Quality.MentionsPrefix | RPEM.py:422-449 | every note starts with its tier's marker |
| Quality.IssuesNameMissingFields | RPEM.py:416-449 | the issues name exactly the missing critical and important fields; the strengths name exactly the present critical fields |
| Quality.AnnotationKeepsScore | RPEM.py:517 | storing `_quality_score` on a record does not change its score |
| Quality.KeptThreshold | RPEM.py:478-519 | routing uses the rounded score, so a record is kept exactly when its score is at least 69.95, even if its recommendation says REVIEW |
| Quality.FilterRegulationsByQuality | RPEM.py:504-545 | the lists are the routing of the annotated records by rounded score; the statistics are their lengths and add up to the total |
| StrictQuality.Percent | filter_regulations_funcs.py:59-61 | `int(part/whole*100)` lies between 0 and 100 |
| StrictQuality.FieldPoints | filter_regulations_funcs.py:23-93 | a field earns between 0 and its tier's points |
| StrictQuality.TierPoints | filter_regulations_funcs.py:23-93 | a tier scores between 0 and its maximum |
| StrictQuality.CountNulls | filter_regulations_funcs.py:96-125 | there are never more blanks than values counted, and nothing is counted below depth 5 |
| StrictQuality.DictNulls | filter_regulations_funcs.py:102-112 | a dict's blanks never outnumber its counted values |
| StrictQuality.ListNulls | filter_regulations_funcs.py:113-123 | a list's blanks never outnumber its counted values |
| StrictQuality.Ratio | filter_regulations_funcs.py:128 | the blank ratio lies between 0 and 1, and is at most 0.5 when at most half the values are blank |
| StrictQuality.NullRatio | filter_regulations_funcs.py:127-128 | a record's blank ratio lies between 0 and 1 |
| StrictQuality.NullPercent | filter_regulations_funcs.py:133-137 | the blank percentage in the penalty note is at most 100 |
| StrictQuality.StrictCriticalFields | filter_regulations_funcs.py:23-38 | the loop adds each critical field's points and notes |
| StrictQuality.ImportantField | filter_regulations_funcs.py:50-71 | one important field earns its points and notes: a dict by its share, a list when non-empty, anything else in full |
| StrictQuality.StrictImportantFields | filter_regulations_funcs.py:49-71 | the loop adds each important field's points and notes |
| StrictQuality.StrictSupplementaryFields | filter_regulations_funcs.py:83-93 | the loop adds each supplementary field's points |
| StrictQuality.ApplyNullPenalty | filter_regulations_funcs.py:127-137 | 20 points off above 70% blanks and 10 off above 50%, never below 0, with the matching issue note |
| StrictQuality.CalculateRegulationQualityScore | filter_regulations_funcs.py:5-159 | the method yields the strict assessment of the record |
| StrictQuality.NoSupplementaryNotes | filter_regulations_funcs.py:83-93 | the supplementary tier adds no issues and no strengths |
| StrictQuality.StrictScoreBounds | filter_regulations_funcs.py:10-137 | the raw score lies in [0, 100]; the penalty takes off at most 20 and never goes below zero |
| StrictQuality.MostlyFilledNoPenalty | filter_regulations_funcs.py:127-137 | a record at most half blank is not penalised and gets no penalty note |
| StrictQuality.EmptyRecordDiscarded | filter_regulations_funcs.py:5-159 | an empty record scores 0 and is discarded, with a null ratio of 100, every critical and important field reported missing, and the too-many-nulls note |
| StrictQuality.EmptyRecordAllBlank | filter_regulations_funcs.py:127-133 | a record with nothing to count counts as entirely blank |
| StrictQuality.EmptyTier | filter_regulations_funcs.py:37-38 | an empty record earns nothing in a tier, and each of the tier's fields is reported missing |
| StrictQuality.CriticalDictAllOrNothing | filter_regulations_funcs.py:26-33 | a partly filled critical dict earns full points here, but only its share in the scorer of RPEM.py |
| StrictQuality.SupplementaryDictCredit | filter_regulations_funcs.py:86-89 | a supplementary dict earns 0, 2.5 or 5 points for 0, 1, or 2 or more filled values |
| StrictQuality.FillingCanLower | filter_regulations_funcs.py:83-137 | filling the missing `keywords` of a record holding only an id, with a dict of one filled value and three `None`s, lowers the strict score from 10 to 2.5 |
| StrictQuality.IdOnlyScores | filter_regulations_funcs.py:15-137 | a record holding only an id `"a"` has one value, none blank, and scores 10; with that `keywords` dict it has 3 blanks of 5 values, a raw score of 12.5 and a strict score of 2.5 |
| StrictQuality.OneFilledThreeBlank | filter_regulations_funcs.py:87-125 | a dict of one filled value and three `None`s has three blanks of four values and one filled value |
| StrictQuality.IdOnlyPoints | filter_regulations_funcs.py:15-93 | a record whose id is `"a"` and whose only other scored field is `keywords` earns 10 points plus the keywords' points |
| StrictQuality.NullRunEarnsNothing | filter_regulations_funcs.py:15-93 | fields that all read as `None` earn no points |
| StrictQuality.IdOnlyFieldValues | filter_regulations_funcs.py:15-93 | in such a record, `regulation.get` finds the id and the keywords, and `None` for every other scored field |
| StrictQuality.UnknownBlankOnlyInDicts | filter_regulations_funcs.py:104-123 | `Unknown` counts as blank as a dict value, but not as a list item |
| StrictQuality.ScoreSum | filter_regulations_funcs.py:229 | the sum of the stored scores lies between 0 and 100 times the count |
| StrictQuality.KeptPercentage | filter_regulations_funcs.py:228 | the kept percentage lies between 0 and 100, and is 0 for no records |
| StrictQuality.Average | filter_regulations_funcs.py:229 | the average score lies between 0 and 100, and is 0 for no records |
| StrictQuality.NamesPass | filter_regulations_funcs.py:191-192 | records named by strings, or by anything whose text is short, never stop the filter |
| StrictQuality.LongNameRaises | filter_regulations_funcs.py:192 | a long name survives shortening exactly when it is a string; a dict raises `unhashable type: 'slice'` |
| StrictQuality.ScoreOne | filter_regulations_funcs.py:188-189 | a record gets its assessment stored under `_quality_score`, and its rounded score picks its list |
| StrictQuality.FilterUpToSpec | filter_regulations_funcs.py:187-208 | after n records the loop has run exactly when the first n names pass; it then holds the routing of those n records, and otherwise it raises the first failing name's error |
| StrictQuality.FilterStep | filter_regulations_funcs.py:187-208 | one loop turn: score, check the name, then route the record or raise |
| StrictQuality.RouteStrict | filter_regulations_funcs.py:187-208 | the loop ends in the state the loop specification gives for all records |
| StrictQuality.FilterRegulations | filter_regulations_funcs.py:162-231 | raises exactly the first failing name's error; otherwise returns the routing by rounded strict score, counts that add up, and the rounded kept percentage and average score |
| Overview.Indicators | filter_regulations_funcs.py:240-268 | the weighted indicator count is at most 7 |
| Overview.OverviewRule | filter_regulations_funcs.py:242-270 | both strong signals make an overview on their own; one strong signal needs one weak one; with no strong signal all three weak ones are needed |
| Overview.ArticleIdIsSpecific | filter_regulations_funcs.py:243-245 | an id mentioning an article, without the strong signals, is never an overview |
| Overview.SeparateRegulations | filter_regulations_funcs.py:273-284 | the overviews and the specific records are the two filters of the input, and together a rearrangement of it |
| Compliance.Label | CCM.py:138-148 | each status has a non-empty label |
| Compliance.LabelsDistinct | CCM.py:138-148 | different statuses have different labels |
| Compliance.BelowThreshold | CCM.py:144 | `confidence < 0.7` compares numbers and booleans, and raises on anything else |
| Compliance.ClassifyPrecedence | CCM.py:133-148 | a contradiction is decisive; otherwise missing information; otherwise low confidence; otherwise compliant; a non-numeric confidence raises |
| Compliance.SilentAnswerNeedsHuman | CCM.py:133-145 | an answer with none of the three findings needs a human, because the default confidence is 0.5 |
| Compliance.ProposedStatusIgnored | CCM.py:137-148 | the status the oracle proposes never affects the derived status |
| Compliance.FallbackFields | CCM.py:152-161 | the error record carries the id, the name, no contradiction, `COMPLIANT` and the error text |
| Compliance.FailureReportedCompliant | CCM.py:152-161 | any failure is reported as `COMPLIANT`, without a contradiction, with the error text |
| Compliance.SuccessKeepsAnswer | CCM.py:130-150 | a usable answer keeps all its keys and gains the derived status |
| Compliance.CheckAlwaysLabelled | CCM.py:137-161 | every check result carries one of the four labels |
| Compliance.NonCompliantIffContradiction | CCM.py:137-139 | a result is `NON_COMPLIANT` exactly when the answer reports a contradiction equal to `True` |
| Compliance.CheckOne | CCM.py:193-221 | a turn of the loop succeeds exactly when the name, and in verbose mode the printed detail, can be sliced; it then yields the check result |
| Compliance.CheckAllRegulations | CCM.py:192-223 | the loop yields the results of all turns, or the first turn's exception |
| Compliance.CheckedAllOk | CCM.py:192-223 | the run completes exactly when every turn succeeds |
| Compliance.CheckedAllResults | CCM.py:199-221 | a completed run has one result per regulation, in order, each from its own reply |
| Compliance.QuietRunCompletes | CCM.py:193-194 | without verbose output, sliceable names guarantee the run completes |
| Compliance.Tally | CCM.py:240-246 | the four counts never exceed the total, and add up to it when every result is labelled; the review list holds the insufficient and human-required results |
| Compliance.Rate | CCM.py:257-259 | the rate lies in [0, 100]: 0 with no compliant results, 100 with only compliant results, strictly between when there are both |
| Compliance.RoundedRate | CCM.py:258-269 | the rounded rate stays in [0, 100] and keeps its extremes |
| Compliance.RoundedRateHidesViolation | CCM.py:269 | 2000 compliant and 1 non-compliant give a rate below 100 that rounds to 100.0 |
| Compliance.ReportConsistent | CCM.py:230-274 | the violations are exactly the non-compliant results; the review list is exactly the review results; the counts match the lists and the total; the rate lies in [0, 100] |
| Compliance.OverallSign | CCM.py:250-255 | the verdict starts with ❌ exactly when there are violations, and with ✅ exactly when nothing is flagged |
| Compliance.OverallVerdict | CCM.py:240-255 | the report's verdict is ✅ exactly when no result is non-compliant or under review, and ❌ exactly when some result is non-compliant |
| Compliance.FailureCountsCompliant | CCM.py:152-161 | a failed check is counted as compliant, never as a violation or for review |
| Dedup.Brief | merge_regulations.py:38 | the brief is a string or list of at most 300 items; it raises exactly when the description is a dict whose `brief_summary` cannot be sliced |
| Dedup.Summarize | merge_regulations.py:32-40 | a summary carries its absolute index, a brief of at most 300 items and requirements of at most 500 characters |
| Dedup.BuildSummaries | merge_regulations.py:30-41 | the loop yields every record's summary, or the first error |
| Dedup.SummariesAbsolute | merge_regulations.py:31-33 | the summary at position i carries index i |
| Dedup.Batch | merge_regulations.py:47 | a batch is the slice starting at its start, at most `batch_size` long, and non-empty while records remain |
| Dedup.BatchesCover | merge_regulations.py:46-47 | the batches, joined, are the summaries from the start on, each non-empty and at most `batch_size` long |
| Dedup.StartsSpaced | merge_regulations.py:46 | batch starts begin at 0, lie below the length and are `batch_size` apart |
| Dedup.OffsetIsAddition | merge_regulations.py:105-106 | a numeric index is shifted by the batch start; anything else raises, except in the first batch |
| Dedup.AdjustedPrefix | merge_regulations.py:103-107 | a batch contributes its pairs, shifted, up to the first pair that raises |
| Dedup.AdjustBatch | merge_regulations.py:103-107 | the loop yields the shifted prefix |
| Dedup.ProcessBatch | merge_regulations.py:84-113 | a batch contributes the shifted prefix of its `duplicates_found` list; a failed call, a non-object answer or a non-list `duplicates_found` contributes nothing |
| Dedup.CollectPairs | merge_regulations.py:44-113 | a `batch_size` of 0 raises; otherwise the loop yields every batch's shifted pairs, in order |
| Dedup.PairsProvenance | merge_regulations.py:46-107 | every collected pair comes from an answered batch, shifted by that batch's start |
| Dedup.EchoedIndexShiftedTwice | merge_regulations.py:33-105 | an absolute index echoed back in a later batch is shifted again by the batch start |
| Dedup.Less | merge_regulations.py:123 | `index < len` compares numbers and booleans, and raises on anything else |
| Dedup.ListIndex | merge_regulations.py:127 | a lookup needs a whole number of at least `-len`; a fraction or anything lower raises |
| Dedup.Position | merge_regulations.py:127 | an index from 0 up is its own position; a negative index counts from the end, as position n + i |
| Dedup.ApplyOneSound | merge_regulations.py:119-139 | an applied pair has numeric indices below the length; its deleted index is its `delete_index`; its log entry carries the reason and describes that record, the one n + i from the start for a negative index |
| Dedup.ApplyPairs | merge_regulations.py:116-139 | the loop yields the log and deletion set of all pairs, or the first pair's exception |
| Dedup.ApplyNext | merge_regulations.py:119-139 | one loop turn extends the log and the set, or raises the first error |
| Dedup.OutcomesFirstError | merge_regulations.py:119-139 | a pair that raises, after pairs that passed, decides the error |
| Dedup.LogSpec | merge_regulations.py:124-139 | the log has one entry per distinct deleted index plus one per repeat |
| Dedup.DeletedMembers | merge_regulations.py:139 | an index is in the deletion set exactly when some applied pair deletes it |
| Dedup.DeletedBounds | merge_regulations.py:123-127 | every deleted index lies in [-len, len) |
| Dedup.RemoveDeleted | merge_regulations.py:142-145 | the cleaned list keeps, in order, the records whose position is not in the set |
| Dedup.KeptCount | merge_regulations.py:142-145 | the kept records and the in-range deleted positions together account for the whole list |
| Dedup.KeptMembers | merge_regulations.py:142-145 | a record is kept exactly when it sits at some position that is not deleted |
| Dedup.NothingInRangeKeepsAll | merge_regulations.py:142-145 | with no in-range deletion, the list is unchanged |
| Dedup.MergeDuplicateRegulations | merge_regulations.py:5-147 | the method yields what the merge specification gives: the cleaned list and the log, or the first exception |
| Dedup.ShortListUnchanged | merge_regulations.py:26-27 | a list of at most one record comes back unchanged, with an empty log |
| Dedup.MergeAccounting | merge_regulations.py:116-147 | the cleaned list loses exactly the in-range deleted positions; the log counts deletions plus repeats; removals never outnumber log entries; the cleaned records are those at undeleted positions |
| Dedup.NominatedTwiceLoggedTwice | merge_regulations.py:119-145 | a pair named twice is logged twice but removes one record |
| Dedup.NegativeIndexLoggedNotRemoved | merge_regulations.py:123-145 | when every deleted index is negative, nothing is removed |
| Dedup.DeduplicateRegulations | merge_regulations.py:177-213 | an error from the merge propagates unchanged; an empty input raises division by zero in the report; otherwise the result holds the merge's lists and figures that match them |
| Dedup.DeduplicateFigures | merge_regulations.py:205-213 | the cleaned count never exceeds the original, and the shortfall never exceeds the reported duplicates |

## Left out

- Language-model calls: prompts, model names, temperatures and the OpenAI client. Each call is an oracle parameter whose reply is a JSON value or a failure text.
- `json.loads` and `json.dumps`: a reply arrives already parsed or failed.
- Python's `str()` of numbers, lists and dicts: a parameter `show`. Its exact text is not modelled.
- Floating point: all numbers are exact reals. `round(x, 1)` is exact round-half-even.
- Integer and float JSON numbers are not distinguished. A whole `Num` stands for a Python `int`, so `regs[3.0]` raising for a float index is not captured.
- All printing and verbose output. In `process_all_sections`, the title slice (RPEM.py:353) only prints, because a section title is always a string.
- The verbose regulation count in `process_all_sections` (RPEM.py:361) is not modelled. `len()` raises `TypeError` there when an answer whose `contains_regulation` is truthy has a `regulations` that is null, a number or a boolean, and with `verbose=True`, the default, that ends the whole run. `Extraction.ProcessAllSections` models the quiet run and always completes.
- `print_detailed_report`, `export_report_to_json`, the save path of `deduplicate_regulations` and the two `print_module_info` functions: these only print or write files.
- `print_deduplication_report` is modelled only through the exceptions it can raise: the division at merge_regulations.py:163 and the `source_section` slices at 170-171.
- `load_pdf_document` and `process_regulation_document`: these read files and call the PDF parser. The model starts from the parsed elements.
- The regular-expression split in `split_into_sections` (RPEM.py:76-77): the model starts from the split parts.
- In-place mutation and aliasing: the model returns new values.
  - The filters write `_quality_score` into the caller's dicts, and `filter_regulations` does so before a name check that may raise.
  - `collect_all_regulations` stamps `source_section` into the oracle's dicts.
  - A dict that appears twice in a list is scored a second time with its first annotation inside.
- The exact texts of exceptions are approximations of CPython's messages.
- Extraction.CollectAllRegulations: requires every contributing result's `regulations` to be a list of dicts. A truthy `regulations` of any other kind, or an item that is not a dict, raises `TypeError` at RPEM.py:383-384, and that path is not modelled.
- Text.Lower: lowers ASCII letters only. Python's `str.lower` also lowers other Unicode capitals, such as `É` and the Kelvin sign U+212A, and turns U+0130 (`İ`) into `i` followed by U+0307. So a `source_section` such as `CHAPTER İ` matches the keyword `chapter i` in the source but not in the model.
- Overview.Indicators: requires `requirements` and `rights_granted` to be dicts (or absent) and the measured values to have a length. Otherwise the source raises `AttributeError` or `TypeError`, and that path is not modelled.
- Overview.SeparateRegulations: carries the same requirement on every record, for the same reason.
