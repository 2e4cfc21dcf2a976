/** The duplicate merge of merge_regulations.py: summaries of the
    regulations go to the language model in batches, the pairs it nominates
    are shifted by their batch's start, checked against the list, logged,
    and their `delete_index` values removed from the list. */
module Dedup {
  import opened Json
  import opened Text

  // ---------------------------------------------------------------------------
  // Summaries
  // ---------------------------------------------------------------------------

  /** What the model is shown of one regulation. */
  datatype Summary = Summary(index: int, regulationId: Value, regulationName: Value, regulationType: Value,
                             sourceSection: Value, descriptionBrief: Value, requirementsSummary: string)

  /** `description_brief`: the first 300 items of the description's
      `brief_summary` when the description is a dict (slicing anything but a
      string or a list raises), otherwise of `str(description)`. */
  function Brief(reg: Dict, show: Value -> string): (r: Result<Value>)
    ensures r.Ok? ==> (r.value.Str? || r.value.Arr?) && PyLen(r.value) <= 300
    ensures r.Raised? <==> match Get(reg, "description")
                           case Some(Obj(e)) => !GetOr(e, "brief_summary", Str("")).Str? && !GetOr(e, "brief_summary", Str("")).Arr?
                           case _ => false
  {
    match Get(reg, "description")
    case Some(Obj(e)) =>
      (var b := GetOr(e, "brief_summary", Str(""));
       match b
       case Str(s) => Ok(Str(Take(s, 300)))
       case Arr(items) => Ok(Arr(if |items| <= 300 then items else items[..300]))
       case _ => Raised(SliceError(b)))
    case _ => Ok(Str(Take(PyStr(GetOr(reg, "description", Str("")), show), 300)))
  }

  /** The summary of the regulation at position `i`; `show` stands for
      Python's `str()` of the values it renders. */
  function Summarize(i: int, reg: Dict, show: Value -> string): (r: Result<Summary>)
    ensures r.Ok? <==> Brief(reg, show).Ok?
    ensures r.Ok? ==> r.value.index == i && |r.value.requirementsSummary| <= 500 &&
                      (r.value.descriptionBrief.Str? || r.value.descriptionBrief.Arr?) &&
                      PyLen(r.value.descriptionBrief) <= 300
  {
    match Brief(reg, show)
    case Raised(e) => Raised(e)
    case Ok(brief) =>
      Ok(Summary(i, GetOr(reg, "regulation_id", Str("N/A")), GetOr(reg, "regulation_name", Str("Unknown")),
                 GetOr(reg, "regulation_type", Str("N/A")), GetOr(reg, "source_section", Str("N/A")),
                 brief, Take(PyStr(GetOr(reg, "requirements", Obj([])), show), 500)))
  }

  /** The summary step of every regulation, in order. */
  function Attempts(regs: seq<Dict>, show: Value -> string): seq<Result<Summary>> {
    seq(|regs|, i requires 0 <= i < |regs| => Summarize(i, regs[i], show))
  }

  /** The summary loop: one summary per regulation carrying its own
      position, or the exception of the first regulation whose brief cannot
      be sliced. */
  method BuildSummaries(regs: seq<Dict>, show: Value -> string) returns (out: Result<seq<Summary>>)
    ensures out == AllOrFirstError(Attempts(regs, show))
  {
    var attempts := Attempts(regs, show);
    var summaries: seq<Summary> := [];
    for i := 0 to |regs|
      invariant |summaries| == i
      invariant forall j :: 0 <= j < i ==> attempts[j].Ok? && summaries[j] == attempts[j].value
    {
      var summary := Summarize(i, regs[i], show);
      assert attempts[i] == summary;
      if summary.Raised? {
        out := Raised(summary.error);
        FirstErrorAt(attempts, i);
        return;
      }
      summaries := summaries + [summary.value];
    }
    out := Ok(summaries);
    AllOkValues(attempts, summaries);
  }

  /** Every summary carries its absolute position in the list. */
  lemma SummariesAbsolute(regs: seq<Dict>, show: Value -> string)
    requires AllOrFirstError(Attempts(regs, show)).Ok?
    ensures var sums := AllOrFirstError(Attempts(regs, show)).value;
            |sums| == |regs| && forall i :: 0 <= i < |sums| ==> sums[i].index == i
  {
    var attempts := Attempts(regs, show);
    forall i | 0 <= i < |regs|
      ensures AllOrFirstError(attempts).value[i].index == i
    {
      assert attempts[i] == Summarize(i, regs[i], show);
    }
  }

  // ---------------------------------------------------------------------------
  // Batches
  // ---------------------------------------------------------------------------

  /** `s[start:start + size]`. */
  function Batch<T>(s: seq<T>, start: nat, size: nat): (r: seq<T>)
    requires start <= |s|
    ensures |r| <= size && start + |r| <= |s| && r == s[start..start + |r|]
    ensures start < |s| && size > 0 ==> r != []
  {
    s[start..if start + size <= |s| then start + size else |s|]
  }

  /** The batches of `range(start, len(s), size)`, in order. */
  function BatchesFrom<T>(s: seq<T>, start: nat, size: nat): seq<seq<T>>
    requires size > 0
    decreases |s| - start
  {
    if start >= |s| then [] else [Batch(s, start, size)] + BatchesFrom(s, start + size, size)
  }

  function Flatten<T>(b: seq<seq<T>>): seq<T> {
    if b == [] then [] else b[0] + Flatten(b[1..])
  }

  /** The batches are non-empty, no longer than the batch size, and laid end
      to end they give back the summaries: each summary is in exactly one. */
  lemma {:induction false} BatchesCover<T>(s: seq<T>, start: nat, size: nat)
    requires size > 0 && start <= |s|
    ensures Flatten(BatchesFrom(s, start, size)) == s[start..]
    ensures forall b :: b in BatchesFrom(s, start, size) ==> 0 < |b| <= size
    decreases |s| - start
  {
    if start < |s| {
      var rest := BatchesFrom(s, start + size, size);
      if start + size < |s| {
        BatchesCover(s, start + size, size);
        assert s[start..] == s[start..start + size] + s[start + size..];
      } else {
        assert rest == [];
      }
      assert BatchesFrom(s, start, size)[1..] == rest;
    }
  }

  // ---------------------------------------------------------------------------
  // Shifting the returned pairs
  // ---------------------------------------------------------------------------

  function BoolInt(b: bool): int {
    if b then 1 else 0
  }

  /** The number a numeric value stands for (a boolean is 0 or 1). */
  function NumberOf(v: Value): real
    requires v.Num? || v.Bool?
  {
    if v.Num? then v.n else BoolInt(v.b) as real
  }

  /** `v + start if start > 0 else v`: the addition raises on anything but a
      number or a boolean, and a first batch never adds. */
  function Offset(v: Value, start: int): Option<Value> {
    if start > 0 then
      match v
      case Num(n) => Some(Num(n + start as real))
      case Bool(b) => Some(Num((BoolInt(b) + start) as real))
      case _ => None
    else Some(v)
  }

  /** For a number the conditional shift is plain addition of the batch
      start; for anything else it succeeds only in the first batch. */
  lemma OffsetIsAddition(v: Value, start: int)
    requires start >= 0
    ensures v.Num? || v.Bool? ==> Offset(v, start).Some? && (Offset(v, start).value.Num? || Offset(v, start).value.Bool?) &&
                                  NumberOf(Offset(v, start).value) == NumberOf(v) + start as real
    ensures !(v.Num? || v.Bool?) ==> (Offset(v, start).Some? <==> start == 0)
  {
  }

  /** One nominated pair shifted in place: `delete_index`, then `keep_index`.
      None when a lookup or an addition raises. */
  function Adjust(dup: Value, start: int): Option<Value> {
    if !dup.Obj? then None
    else match Get(dup.entries, "delete_index")
      case None => None
      case Some(d) =>
        match Offset(d, start)
        case None => None
        case Some(d') =>
          var shifted := Put(dup.entries, "delete_index", d');
          match Get(shifted, "keep_index")
          case None => None
          case Some(k) =>
            match Offset(k, start)
            case None => None
            case Some(k') => Some(Obj(Put(shifted, "keep_index", k')))
  }

  /** The loop over `duplicates_found`: the shifted pairs before the first one
      that raises; the exception ends the batch and drops the rest. */
  function Adjusted(items: seq<Value>, start: int): seq<Value> {
    if items == [] then []
    else match Adjust(items[0], start)
      case None => []
      case Some(d) => [d] + Adjusted(items[1..], start)
  }

  /** The adjusted list is the longest prefix of items that adjust, each
      replaced by its adjusted form. */
  lemma {:induction false} AdjustedPrefix(items: seq<Value>, start: int)
    ensures var r := Adjusted(items, start);
            |r| <= |items| &&
            (forall j :: 0 <= j < |r| ==> Adjust(items[j], start) == Some(r[j])) &&
            (|r| < |items| ==> Adjust(items[|r|], start).None?)
  {
    if items != [] && Adjust(items[0], start).Some? {
      AdjustedPrefix(items[1..], start);
      var r := Adjusted(items, start);
      var tail := Adjusted(items[1..], start);
      assert r == [Adjust(items[0], start).value] + tail;
      forall j | 0 <= j < |r|
        ensures Adjust(items[j], start) == Some(r[j])
      {
        if j > 0 {
          assert items[j] == items[1..][j - 1];
        }
      }
      if |r| < |items| {
        assert items[|r|] == items[1..][|tail|];
      }
    }
  }

  /** What one batch adds to `all_deletions`: nothing when the call fails or
      the answer is not a dict, nothing when `duplicates_found` is not a
      list (any item of another iterable raises at once), and otherwise the
      shifted pairs before the first that raises. */
  function BatchPairs(reply: Reply, start: int): seq<Value> {
    match reply
    case CallFailed(_) => []
    case Answer(v) =>
      if !v.Obj? then []
      else
        var found := GetOr(v.entries, "duplicates_found", Arr([]));
        if found.Arr? then Adjusted(found.items, start) else []
  }

  /** The pairs of the batches from `start` on, in order. */
  function PairsFrom(sums: seq<Summary>, size: nat, ask: seq<Summary> -> Reply, start: nat): seq<Value>
    requires size > 0
    decreases |sums| - start
  {
    if start >= |sums| then []
    else BatchPairs(ask(Batch(sums, start, size)), start) + PairsFrom(sums, size, ask, start + size)
  }

  /** One step of `PairsFrom`, for the batch loop. */
  lemma PairsFromUnfold(sums: seq<Summary>, size: nat, ask: seq<Summary> -> Reply, start: nat)
    requires size > 0 && start < |sums|
    ensures PairsFrom(sums, size, ask, start)
         == BatchPairs(ask(Batch(sums, start, size)), start) + PairsFrom(sums, size, ask, start + size)
  {
  }

  lemma Regroup<T>(a: seq<T>, b: seq<T>, c: seq<T>)
    ensures (a + b) + c == a + (b + c)
  {
  }

  /** All pairs: a negative batch size makes `range` empty. */
  function Pairs(sums: seq<Summary>, size: int, ask: seq<Summary> -> Reply): seq<Value> {
    if size > 0 then PairsFrom(sums, size, ask, 0) else []
  }

  /** The shifting loop over one answer's `duplicates_found`. */
  method AdjustBatch(items: seq<Value>, start: int) returns (adjusted: seq<Value>)
    ensures adjusted == Adjusted(items, start)
  {
    adjusted := [];
    var j := 0;
    while j < |items|
      invariant 0 <= j <= |items|
      invariant adjusted + Adjusted(items[j..], start) == Adjusted(items, start)
    {
      var dup := Adjust(items[j], start);
      if dup.None? {
        assert Adjusted(items[j..], start) == [];
        return;
      }
      assert items[j..][1..] == items[j + 1..];
      adjusted := adjusted + [dup.value];
      j := j + 1;
    }
    assert Adjusted(items[j..], start) == [];
  }

  /** The body of the batch loop after the call: the pairs this batch adds. */
  method ProcessBatch(reply: Reply, start: int) returns (pairs: seq<Value>)
    ensures pairs == BatchPairs(reply, start)
  {
    pairs := [];
    if reply.Answer? && reply.value.Obj? {
      var found := GetOr(reply.value.entries, "duplicates_found", Arr([]));
      if found.Arr? {
        pairs := AdjustBatch(found.items, start);
      }
    }
  }

  /** The batch loop: `range(0, len(summaries), size)` raises for a zero
      size; otherwise every batch is sent in order and its pairs collected,
      a failed batch adding none. */
  method CollectPairs(sums: seq<Summary>, size: int, ask: seq<Summary> -> Reply) returns (out: Result<seq<Value>>)
    ensures size == 0 ==> out == Raised(RangeError)
    ensures size != 0 ==> out == Ok(Pairs(sums, size, ask))
  {
    if size == 0 {
      return Raised(RangeError);
    }
    var all: seq<Value> := [];
    if size > 0 {
      var step: nat := size;
      var start: nat := 0;
      while start < |sums|
        invariant all + PairsFrom(sums, step, ask, start) == PairsFrom(sums, step, ask, 0)
        decreases |sums| - start
      {
        var batch := Batch(sums, start, step);
        var found := ProcessBatch(ask(batch), start);
        var next: nat := start + step;
        PairsFromUnfold(sums, step, ask, start);
        Regroup(all, found, PairsFrom(sums, step, ask, next));
        all := all + found;
        start := next;
      }
      assert PairsFrom(sums, step, ask, start) == [];
      assert all == Pairs(sums, size, ask);
    }
    out := Ok(all);
  }

  /** `str(e)` for `range()` with a zero step. */
  const RangeError: string := "range() arg 3 must not be zero"

  /** The batch starts of `range(start, n, size)`. */
  function Starts(n: nat, size: nat, start: nat): seq<nat>
    requires size > 0
    decreases n - start
  {
    if start >= n then [] else [start] + Starts(n, size, start + size)
  }

  /** Every collected pair comes from a batch whose call succeeded, shifted
      by that batch's start. */
  lemma PairsProvenance(sums: seq<Summary>, size: nat, ask: seq<Summary> -> Reply, start: nat, p: Value)
    requires size > 0
    requires p in PairsFrom(sums, size, ask, start)
    ensures exists b :: b in Starts(|sums|, size, start) && b < |sums| &&
              ask(Batch(sums, b, size)).Answer? && p in BatchPairs(ask(Batch(sums, b, size)), b)
  {
    var b := PairSource(sums, size, ask, start, p);
  }

  /** The start of the batch a collected pair comes from. */
  lemma {:induction false} PairSource(sums: seq<Summary>, size: nat, ask: seq<Summary> -> Reply, start: nat, p: Value)
    returns (b: nat)
    requires size > 0
    requires p in PairsFrom(sums, size, ask, start)
    ensures b in Starts(|sums|, size, start) && b < |sums|
    ensures ask(Batch(sums, b, size)).Answer? && p in BatchPairs(ask(Batch(sums, b, size)), b)
    decreases |sums| - start
  {
    assert start < |sums|;
    var reply := ask(Batch(sums, start, size));
    var here := BatchPairs(reply, start);
    var later := PairsFrom(sums, size, ask, start + size);
    assert PairsFrom(sums, size, ask, start) == here + later;
    assert Starts(|sums|, size, start) == [start] + Starts(|sums|, size, start + size);
    if p in here {
      assert reply.Answer?;
      b := start;
    } else {
      assert p in later;
      b := PairSource(sums, size, ask, start + size, p);
    }
  }

  /** The batch starts are `start`, `start + size`, ... below `n`. */
  lemma {:induction false} StartsSpaced(n: nat, size: nat, start: nat)
    requires size > 0
    ensures var st := Starts(n, size, start);
            (st != [] <==> start < n) && (st != [] ==> st[0] == start) &&
            forall k :: 0 <= k < |st| ==> st[k] < n && (k + 1 < |st| ==> st[k + 1] == st[k] + size)
    decreases n - start
  {
    if start < n {
      StartsSpaced(n, size, start + size);
    }
  }

  /** Summaries carry absolute positions, yet pairs from a later batch are
      shifted again: a pair that names the `index` it was shown for the
      `j`-th summary of the batch at `start` records `start + j + start`. */
  lemma EchoedIndexShiftedTwice(sums: seq<Summary>, start: nat, size: nat, j: nat, dup: Value)
    requires forall i :: 0 <= i < |sums| ==> sums[i].index == i
    requires 0 < start < |sums| && size > 0
    requires j < |Batch(sums, start, size)|
    requires dup.Obj? && Get(dup.entries, "delete_index") == Some(Num(Batch(sums, start, size)[j].index as real))
    requires Adjust(dup, start).Some?
    ensures Adjust(dup, start).value.Obj?
    ensures Get(Adjust(dup, start).value.entries, "delete_index") == Some(Num((start + j + start) as real))
  {
    var b := Batch(sums, start, size);
    assert b[j] == sums[start + j];
    var d' := Num((start + j + start) as real);
    var shifted := Put(dup.entries, "delete_index", d');
    PutGet(dup.entries, "delete_index", d');
    var k := Get(shifted, "keep_index").value;
    PutOther(shifted, "keep_index", Offset(k, start).value, "delete_index");
  }

  // ---------------------------------------------------------------------------
  // Applying the pairs
  // ---------------------------------------------------------------------------

  /** What the log records of one side of a pair. */
  datatype RegRef = RegRef(index: Value, regulationId: Value, regulationName: Value, sourceSection: Value)

  /** One deletion-log entry. */
  datatype LogEntry = LogEntry(deletedRegulation: RegRef, keptRegulation: RegRef, reason: Value)

  /** An applied pair: its log entry and the index put in the deletion set. */
  datatype Application = Application(entry: LogEntry, deleted: int)

  /** `v < n` for a pair's index: numbers and booleans compare, anything
      else raises. */
  function Less(v: Value, n: int): (r: Result<bool>)
    ensures r.Ok? <==> v.Num? || v.Bool?
    ensures r.Ok? ==> r.value == (NumberOf(v) < n as real)
  {
    match v
    case Num(x) => Ok(x < n as real)
    case Bool(b) => Ok(BoolInt(b) < n)
    case _ => Raised("'<' not supported between instances of '" + TypeName(v) + "' and 'int'")
  }

  /** The integer a list lookup `regs[v]` uses: a whole number or a boolean,
      no less than `-n`; a fraction raises a `TypeError`, anything below
      `-n` an `IndexError`. */
  function ListIndex(v: Value, n: int): (r: Result<int>)
    requires n >= 0 && (v.Num? || v.Bool?)
    ensures r.Ok? ==> -n <= r.value && r.value as real == NumberOf(v)
    ensures r.Ok? <==> (v.Bool? || v.n.Floor as real == v.n) && NumberOf(v) >= -n as real
  {
    match v
    case Bool(b) => Ok(BoolInt(b))
    case Num(x) =>
      if x.Floor as real != x then Raised("list indices must be integers or slices, not float")
      else if x.Floor < -n then Raised("list index out of range")
      else Ok(x.Floor)
  }

  /** Python's position for an index `-n <= i < n`. */
  function Position(i: int, n: int): (p: nat)
    requires -n <= i < n
    ensures p < n
    ensures i < 0 ==> p == i + n
    ensures 0 <= i ==> p == i
  {
    if i < 0 then i + n else i
  }

  /** The log's record of the regulation at index `i`. */
  function Describe(regs: seq<Dict>, i: int, index: Value): RegRef
    requires -|regs| <= i < |regs|
  {
    var reg := regs[Position(i, |regs|)];
    RegRef(index, GetOr(reg, "regulation_id", Null), GetOr(reg, "regulation_name", Null), GetOr(reg, "source_section", Null))
  }

  /** One turn of the apply loop: read both indices, apply the pair when both
      are below the list length (a negative index passes), skip it
      otherwise, or raise. */
  function ApplyOne(regs: seq<Dict>, dup: Value): Result<Option<Application>> {
    var n := |regs|;
    if !dup.Obj? then Raised("'" + TypeName(dup) + "' object is not subscriptable")
    else match (Get(dup.entries, "delete_index"), Get(dup.entries, "keep_index"))
      case (None, _) => Raised("'delete_index'")
      case (_, None) => Raised("'keep_index'")
      case (Some(d), Some(k)) =>
        match Less(d, n)
        case Raised(e) => Raised(e)
        case Ok(dBelow) =>
          if !dBelow then Ok(None)
          else match Less(k, n)
            case Raised(e) => Raised(e)
            case Ok(kBelow) =>
              if !kBelow then Ok(None)
              else match ListIndex(d, n)
                case Raised(e) => Raised(e)
                case Ok(i) =>
                  match ListIndex(k, n)
                  case Raised(e) => Raised(e)
                  case Ok(j) =>
                    match Get(dup.entries, "reason")
                    case None => Raised("'reason'")
                    case Some(reason) =>
                      Ok(Some(Application(LogEntry(Describe(regs, i, d), Describe(regs, j, k), reason), i)))
  }

  /** An applied pair has numeric indices, both below the list length; the
      index it deletes is its `delete_index`, which may be negative but not
      below `-n`, and its log entry describes the records at both indices; a
      negative index describes the record that many places from the end. */
  lemma ApplyOneSound(regs: seq<Dict>, dup: Value)
    requires Applies(regs, dup)
    ensures dup.Obj?
    ensures var d := Get(dup.entries, "delete_index");
            var k := Get(dup.entries, "keep_index");
            var a := ApplyOne(regs, dup).value.value;
            d.Some? && k.Some? && (d.value.Num? || d.value.Bool?) && (k.value.Num? || k.value.Bool?) &&
            -|regs| <= a.deleted < |regs| && a.deleted as real == NumberOf(d.value) &&
            NumberOf(k.value) < |regs| as real &&
            a.entry.deletedRegulation == Describe(regs, a.deleted, d.value) &&
            Get(dup.entries, "reason") == Some(a.entry.reason)
    ensures var a := ApplyOne(regs, dup).value.value;
            var pos := if a.deleted < 0 then |regs| + a.deleted else a.deleted;
            0 <= pos < |regs| &&
            a.entry.deletedRegulation.regulationId == GetOr(regs[pos], "regulation_id", Null) &&
            a.entry.deletedRegulation.sourceSection == GetOr(regs[pos], "source_section", Null)
  {
  }

  /** The turn of each pair, in order. */
  function Outcomes(regs: seq<Dict>, pairs: seq<Value>): seq<Result<Option<Application>>> {
    seq(|pairs|, j requires 0 <= j < |pairs| => ApplyOne(regs, pairs[j]))
  }

  /** The pair goes through the checks without raising. */
  predicate Passes(regs: seq<Dict>, dup: Value) {
    ApplyOne(regs, dup).Ok?
  }

  /** No pair of the list raises. */
  predicate AllPass(regs: seq<Dict>, pairs: seq<Value>) {
    pairs == [] || (AllPass(regs, pairs[..|pairs| - 1]) && Passes(regs, pairs[|pairs| - 1]))
  }

  lemma {:induction false} AllPassAt(regs: seq<Dict>, pairs: seq<Value>, k: int)
    requires AllPass(regs, pairs) && 0 <= k < |pairs|
    ensures Passes(regs, pairs[k])
  {
    if k < |pairs| - 1 {
      AllPassAt(regs, pairs[..|pairs| - 1], k);
    }
  }

  predicate Applies(regs: seq<Dict>, dup: Value) {
    ApplyOne(regs, dup).Ok? && ApplyOne(regs, dup).value.Some?
  }

  /** The log entries of the applied pairs, in order. */
  function Log(regs: seq<Dict>, pairs: seq<Value>): seq<LogEntry> {
    if pairs == [] then []
    else
      var last := pairs[|pairs| - 1];
      Log(regs, pairs[..|pairs| - 1]) + (if Applies(regs, last) then [ApplyOne(regs, last).value.value.entry] else [])
  }

  /** The deletion set: the `delete_index` of every applied pair. */
  function Deleted(regs: seq<Dict>, pairs: seq<Value>): set<int> {
    if pairs == [] then {}
    else
      var last := pairs[|pairs| - 1];
      Deleted(regs, pairs[..|pairs| - 1]) + (if Applies(regs, last) then {ApplyOne(regs, last).value.value.deleted} else {})
  }

  /** The apply loop: the log and the deletion set of all pairs, or the
      exception of the first pair that raises. */
  method ApplyPairs(regs: seq<Dict>, pairs: seq<Value>) returns (out: Result<(seq<LogEntry>, set<int>)>)
    ensures var tried := AllOrFirstError(Outcomes(regs, pairs));
            out.Ok? == tried.Ok? && (out.Raised? ==> out.error == tried.error)
    ensures out.Ok? ==> out.value == (Log(regs, pairs), Deleted(regs, pairs))
  {
    var log: seq<LogEntry> := [];
    var deleted: set<int> := {};
    for j := 0 to |pairs|
      invariant AllPass(regs, pairs[..j])
      invariant log == Log(regs, pairs[..j]) && deleted == Deleted(regs, pairs[..j])
    {
      var next := ApplyNext(regs, pairs, j, log, deleted);
      if next.Raised? {
        out := Raised(next.error);
        return;
      }
      log, deleted := next.value.0, next.value.1;
    }
    assert pairs[..|pairs|] == pairs;
    out := Ok((log, deleted));
    OutcomesAllOk(regs, pairs);
  }

  /** One turn of the apply loop: the pair's exception, or the log and the
      set extended by the pair's application. */
  method ApplyNext(regs: seq<Dict>, pairs: seq<Value>, j: int, log: seq<LogEntry>, deleted: set<int>)
    returns (next: Result<(seq<LogEntry>, set<int>)>)
    requires 0 <= j < |pairs|
    requires AllPass(regs, pairs[..j])
    requires log == Log(regs, pairs[..j]) && deleted == Deleted(regs, pairs[..j])
    ensures next.Raised? ==> AllOrFirstError(Outcomes(regs, pairs)) == Raised(next.error)
    ensures next.Ok? ==> AllPass(regs, pairs[..j + 1])
    ensures next.Ok? ==> next.value == (Log(regs, pairs[..j + 1]), Deleted(regs, pairs[..j + 1]))
  {
    var outcome := ApplyOne(regs, pairs[j]);
    if outcome.Raised? {
      OutcomesFirstError(regs, pairs, j);
      return Raised(outcome.error);
    }
    ApplyStep(regs, pairs, j);
    assert pairs[..j + 1][..j] == pairs[..j] && pairs[..j + 1][j] == pairs[j];
    assert AllPass(regs, pairs[..j + 1]);
    assert Applies(regs, pairs[j]) == outcome.value.Some?;
    if outcome.value.Some? {
      next := Ok((log + [outcome.value.value.entry], deleted + {outcome.value.value.deleted}));
    } else {
      next := Ok((log, deleted));
    }
    assert next.value.0 == Log(regs, pairs[..j + 1]);
    assert next.value.1 == Deleted(regs, pairs[..j + 1]);
  }

  /** One turn of the apply loop extends the log and the set by the pair's
      application, if any. */
  lemma ApplyStep(regs: seq<Dict>, pairs: seq<Value>, j: int)
    requires 0 <= j < |pairs|
    ensures Log(regs, pairs[..j + 1]) ==
              Log(regs, pairs[..j]) + (if Applies(regs, pairs[j]) then [ApplyOne(regs, pairs[j]).value.value.entry] else [])
    ensures Deleted(regs, pairs[..j + 1]) ==
              Deleted(regs, pairs[..j]) + (if Applies(regs, pairs[j]) then {ApplyOne(regs, pairs[j]).value.value.deleted} else {})
  {
    assert pairs[..j + 1][..j] == pairs[..j];
  }

  /** The apply loop raises the exception of its first raising pair ... */
  lemma OutcomesFirstError(regs: seq<Dict>, pairs: seq<Value>, j: int)
    requires 0 <= j < |pairs| && ApplyOne(regs, pairs[j]).Raised?
    requires AllPass(regs, pairs[..j])
    ensures AllOrFirstError(Outcomes(regs, pairs)) == Raised(ApplyOne(regs, pairs[j]).error)
  {
    forall k | 0 <= k < j
      ensures Outcomes(regs, pairs)[k].Ok?
    {
      AllPassAt(regs, pairs[..j], k);
    }
    FirstErrorAt(Outcomes(regs, pairs), j);
  }

  /** ... and completes when no pair raises. */
  lemma OutcomesAllOk(regs: seq<Dict>, pairs: seq<Value>)
    requires AllPass(regs, pairs)
    ensures AllOrFirstError(Outcomes(regs, pairs)).Ok?
  {
    forall k | 0 <= k < |pairs|
      ensures Outcomes(regs, pairs)[k].Ok?
    {
      AllPassAt(regs, pairs, k);
    }
  }

  /** The log has one entry per applied pair. */
  lemma {:induction false} LogSpec(regs: seq<Dict>, pairs: seq<Value>)
    ensures |Log(regs, pairs)| == |Deleted(regs, pairs)| + Repeats(regs, pairs)
  {
    if pairs != [] {
      var init := pairs[..|pairs| - 1];
      var last := pairs[|pairs| - 1];
      LogSpec(regs, init);
      if Applies(regs, last) {
        var x := ApplyOne(regs, last).value.value.deleted;
        assert Deleted(regs, pairs) == Deleted(regs, init) + {x};
        if x in Deleted(regs, init) {
          assert Deleted(regs, init) + {x} == Deleted(regs, init);
        } else {
          assert |Deleted(regs, init) + {x}| == |Deleted(regs, init)| + 1;
        }
      } else {
        assert Deleted(regs, pairs) == Deleted(regs, init);
      }
    }
  }

  /** How many applied pairs name a `delete_index` an earlier applied pair
      already named. */
  function Repeats(regs: seq<Dict>, pairs: seq<Value>): nat {
    if pairs == [] then 0
    else
      var init := pairs[..|pairs| - 1];
      var last := pairs[|pairs| - 1];
      Repeats(regs, init) +
        (if Applies(regs, last) && ApplyOne(regs, last).value.value.deleted in Deleted(regs, init) then 1 else 0)
  }

  /** An index is in the deletion set exactly when some applied pair names it,
      whatever other pairs say about keeping it. */
  lemma {:induction false} DeletedMembers(regs: seq<Dict>, pairs: seq<Value>, i: int)
    ensures i in Deleted(regs, pairs) <==>
              exists j :: 0 <= j < |pairs| && Applies(regs, pairs[j]) && ApplyOne(regs, pairs[j]).value.value.deleted == i
  {
    if i in Deleted(regs, pairs) {
      var j := DeletedWitness(regs, pairs, i);
    }
    if exists j :: 0 <= j < |pairs| && Applies(regs, pairs[j]) && ApplyOne(regs, pairs[j]).value.value.deleted == i {
      var j :| 0 <= j < |pairs| && Applies(regs, pairs[j]) && ApplyOne(regs, pairs[j]).value.value.deleted == i;
      DeletedHas(regs, pairs, j);
    }
  }

  /** The pair that put an index into the deletion set. */
  lemma {:induction false} DeletedWitness(regs: seq<Dict>, pairs: seq<Value>, i: int) returns (j: int)
    requires i in Deleted(regs, pairs)
    ensures 0 <= j < |pairs| && Applies(regs, pairs[j]) && ApplyOne(regs, pairs[j]).value.value.deleted == i
  {
    var init := pairs[..|pairs| - 1];
    var last := pairs[|pairs| - 1];
    if i in Deleted(regs, init) {
      j := DeletedWitness(regs, init, i);
      assert pairs[j] == init[j];
    } else {
      assert Applies(regs, last) && ApplyOne(regs, last).value.value.deleted == i;
      j := |pairs| - 1;
    }
  }

  /** An applied pair's index is in the deletion set. */
  lemma {:induction false} DeletedHas(regs: seq<Dict>, pairs: seq<Value>, j: int)
    requires 0 <= j < |pairs| && Applies(regs, pairs[j])
    ensures ApplyOne(regs, pairs[j]).value.value.deleted in Deleted(regs, pairs)
  {
    var init := pairs[..|pairs| - 1];
    assert Deleted(regs, init) <= Deleted(regs, pairs);
    if j < |pairs| - 1 {
      assert init[j] == pairs[j];
      DeletedHas(regs, init, j);
    }
  }

  /** Every index in the deletion set lies in `[-n, n)`. */
  lemma {:induction false} DeletedBounds(regs: seq<Dict>, pairs: seq<Value>)
    ensures forall i :: i in Deleted(regs, pairs) ==> -|regs| <= i < |regs|
  {
    if pairs != [] {
      DeletedBounds(regs, pairs[..|pairs| - 1]);
      if Applies(regs, pairs[|pairs| - 1]) {
        ApplyOneSound(regs, pairs[|pairs| - 1]);
      }
    }
  }

  // ---------------------------------------------------------------------------
  // The cleaned list
  // ---------------------------------------------------------------------------

  /** `[reg for i, reg in enumerate(regs) if i not in deleted]`. */
  function Kept(regs: seq<Dict>, deleted: set<int>): seq<Dict> {
    if regs == [] then []
    else Kept(regs[..|regs| - 1], deleted) + (if |regs| - 1 in deleted then [] else [regs[|regs| - 1]])
  }

  /** The positions of the list named in the deletion set. */
  function InRange(deleted: set<int>, n: nat): set<int> {
    set i | i in deleted && 0 <= i < n
  }

  /** The cleaning comprehension. */
  method RemoveDeleted(regs: seq<Dict>, deleted: set<int>) returns (cleaned: seq<Dict>)
    ensures cleaned == Kept(regs, deleted)
  {
    cleaned := [];
    for i := 0 to |regs|
      invariant cleaned == Kept(regs[..i], deleted)
    {
      assert regs[..i + 1][..i] == regs[..i];
      if i !in deleted {
        cleaned := cleaned + [regs[i]];
      }
    }
    assert regs[..|regs|] == regs;
  }

  /** The cleaned list loses exactly the positions in the deletion set. */
  lemma {:induction false} KeptCount(regs: seq<Dict>, deleted: set<int>)
    ensures |Kept(regs, deleted)| + |InRange(deleted, |regs|)| == |regs|
  {
    if regs != [] {
      var n := |regs|;
      KeptCount(regs[..n - 1], deleted);
      assert InRange(deleted, n) == InRange(deleted, n - 1) + (if n - 1 in deleted then {n - 1} else {});
    }
  }

  /** A record is in the cleaned list exactly when it sits at a position
      outside the deletion set. */
  lemma {:induction false} KeptMembers(regs: seq<Dict>, deleted: set<int>, r: Dict)
    ensures r in Kept(regs, deleted) <==> exists i :: 0 <= i < |regs| && i !in deleted && regs[i] == r
  {
    if regs != [] {
      var n := |regs|;
      var init := regs[..n - 1];
      KeptMembers(init, deleted, r);
      if exists i :: 0 <= i < |regs| && i !in deleted && regs[i] == r {
        var i :| 0 <= i < |regs| && i !in deleted && regs[i] == r;
        if i < n - 1 {
          assert init[i] == r;
        }
      }
      if exists i :: 0 <= i < |init| && i !in deleted && init[i] == r {
        var i :| 0 <= i < |init| && i !in deleted && init[i] == r;
        assert regs[i] == r;
      }
    }
  }

  /** A deletion set naming no position of the list (only negative indices,
      say) leaves the list as it is. */
  lemma {:induction false} NothingInRangeKeepsAll(regs: seq<Dict>, deleted: set<int>)
    requires InRange(deleted, |regs|) == {}
    ensures Kept(regs, deleted) == regs
  {
    if regs != [] {
      var n := |regs|;
      assert n - 1 !in InRange(deleted, n);
      assert InRange(deleted, n - 1) <= InRange(deleted, n);
      NothingInRangeKeepsAll(regs[..n - 1], deleted);
    }
  }

  // ---------------------------------------------------------------------------
  // merge_duplicate_regulations and deduplicate_regulations
  // ---------------------------------------------------------------------------

  /** The cleaned list and the deletion log. */
  datatype Merged = Merged(cleaned: seq<Dict>, deletionLog: seq<LogEntry>)

  /** What `merge_duplicate_regulations` returns or raises. */
  function Merge(regs: seq<Dict>, size: int, show: Value -> string, ask: seq<Summary> -> Reply): Result<Merged> {
    if |regs| <= 1 then Ok(Merged(regs, []))
    else match AllOrFirstError(Attempts(regs, show))
      case Raised(e) => Raised(e)
      case Ok(sums) =>
        if size == 0 then Raised(RangeError)
        else
          var pairs := Pairs(sums, size, ask);
          match AllOrFirstError(Outcomes(regs, pairs))
          case Raised(e) => Raised(e)
          case Ok(_) => Ok(Merged(Kept(regs, Deleted(regs, pairs)), Log(regs, pairs)))
  }

  /** `merge_duplicate_regulations`. The oracle `ask` stands for the
      language-model call on one batch of summaries. */
  method MergeDuplicateRegulations(regs: seq<Dict>, size: int, show: Value -> string, ask: seq<Summary> -> Reply)
    returns (out: Result<Merged>)
    ensures out == Merge(regs, size, show, ask)
  {
    if |regs| <= 1 {
      return Ok(Merged(regs, []));
    }
    var sums := BuildSummaries(regs, show);
    if sums.Raised? {
      return Raised(sums.error);
    }
    var pairs := CollectPairs(sums.value, size, ask);
    if pairs.Raised? {
      return Raised(pairs.error);
    }
    var applied := ApplyPairs(regs, pairs.value);
    if applied.Raised? {
      return Raised(applied.error);
    }
    var cleaned := RemoveDeleted(regs, applied.value.1);
    out := Ok(Merged(cleaned, applied.value.0));
  }

  /** A list of at most one regulation comes back unchanged with an empty log. */
  lemma ShortListUnchanged(regs: seq<Dict>, size: int, show: Value -> string, ask: seq<Summary> -> Reply)
    requires |regs| <= 1
    ensures Merge(regs, size, show, ask) == Ok(Merged(regs, []))
  {
  }

  /** A merge that completes removes exactly the in-range positions of the
      deletion set, keeps everything else, and logs at least one entry per
      removed record: more when an index is nominated more than once. */
  lemma MergeAccounting(regs: seq<Dict>, size: int, show: Value -> string, ask: seq<Summary> -> Reply)
    requires |regs| >= 2 && Merge(regs, size, show, ask).Ok?
    ensures var sums := AllOrFirstError(Attempts(regs, show));
            sums.Ok? && size != 0 &&
            var pairs := Pairs(sums.value, size, ask);
            var m := Merge(regs, size, show, ask).value;
            |m.cleaned| + |InRange(Deleted(regs, pairs), |regs|)| == |regs| &&
            |m.deletionLog| == |Deleted(regs, pairs)| + Repeats(regs, pairs) &&
            |regs| - |m.cleaned| <= |m.deletionLog| &&
            (forall r :: r in m.cleaned <==> exists i :: 0 <= i < |regs| && i !in Deleted(regs, pairs) && regs[i] == r)
  {
    var pairs := Pairs(AllOrFirstError(Attempts(regs, show)).value, size, ask);
    var deleted := Deleted(regs, pairs);
    KeptCount(regs, deleted);
    LogSpec(regs, pairs);
    assert InRange(deleted, |regs|) <= deleted;
    SubsetCard(InRange(deleted, |regs|), deleted);
    forall r ensures r in Kept(regs, deleted) <==> exists i :: 0 <= i < |regs| && i !in deleted && regs[i] == r {
      KeptMembers(regs, deleted, r);
    }
  }

  lemma SubsetCard(a: set<int>, b: set<int>)
    requires a <= b
    ensures |a| <= |b|
  {
    assert b == a + (b - a);
  }

  /** Two identical pairs each add a log entry but remove one record. */
  lemma NominatedTwiceLoggedTwice(a: Dict, b: Dict)
    ensures var dup := Obj([("delete_index", Num(0.0)), ("keep_index", Num(1.0)), ("reason", Str(""))]);
            |Log([a, b], [dup, dup])| == 2 && |Kept([a, b], Deleted([a, b], [dup, dup]))| == 1
  {
    var dup := Obj([("delete_index", Num(0.0)), ("keep_index", Num(1.0)), ("reason", Str(""))]);
    var regs := [a, b];
    GetAt(dup.entries, "delete_index", 0);
    GetAt(dup.entries, "keep_index", 1);
    GetAt(dup.entries, "reason", 2);
    assert Less(Num(0.0), 2) == Ok(true);
    assert Less(Num(1.0), 2) == Ok(true);
    assert ListIndex(Num(0.0), 2) == Ok(0);
    assert ListIndex(Num(1.0), 2) == Ok(1);
    var entry := LogEntry(Describe(regs, 0, Num(0.0)), Describe(regs, 1, Num(1.0)), Str(""));
    assert ApplyOne(regs, dup) == Ok(Some(Application(entry, 0)));
    var once: seq<Value> := [dup];
    var none: seq<Value> := [];
    assert [dup, dup][..1] == once && once[..0] == none;
    assert Log(regs, once) == [entry];
    assert Deleted(regs, once) == {0};
    assert Log(regs, [dup, dup]) == [entry, entry];
    assert Deleted(regs, [dup, dup]) == {0};
    assert regs[..1] == [a] && [a][..0] == [];
    assert Kept([a], {0}) == [];
  }

  /** A pair whose `delete_index` is negative is logged, describing the
      record counted from the end, yet removes nothing. */
  lemma NegativeIndexLoggedNotRemoved(regs: seq<Dict>, pairs: seq<Value>)
    requires forall i :: i in Deleted(regs, pairs) ==> i < 0
    ensures Kept(regs, Deleted(regs, pairs)) == regs
  {
    assert InRange(Deleted(regs, pairs), |regs|) == {};
    NothingInRangeKeepsAll(regs, Deleted(regs, pairs));
  }

  /** The batch size `deduplicate_regulations` leaves at its default. */
  const BatchSize: int := 50

  /** The figures of `summary`. */
  datatype DedupSummary = DedupSummary(originalCount: nat, cleanedCount: nat, duplicatesRemoved: nat)

  datatype Deduplicated = Deduplicated(cleanedRegulations: seq<Dict>, deletionLog: seq<LogEntry>, summary: DedupSummary)

  /** The printed report slices both `source_section`s of every entry, which
      raises unless they are strings or lists. */
  function EntryPrinted(e: LogEntry): Result<bool> {
    var deleted := e.deletedRegulation.sourceSection;
    var kept := e.keptRegulation.sourceSection;
    if !(deleted.Str? || deleted.Arr?) then Raised(SliceError(deleted))
    else if !(kept.Str? || kept.Arr?) then Raised(SliceError(kept))
    else Ok(true)
  }

  /** `deduplicate_regulations` without the optional file: merge, print the
      report (the reduction percentage divides by the input length), and
      return the lists with their figures. */
  function DeduplicateRegulations(regs: seq<Dict>, show: Value -> string, ask: seq<Summary> -> Reply): (r: Result<Deduplicated>)
    ensures |regs| == 0 ==> r == Raised("division by zero")
    ensures Merge(regs, BatchSize, show, ask).Raised? ==> r == Raised(Merge(regs, BatchSize, show, ask).error)
    ensures r.Ok? ==> Merge(regs, BatchSize, show, ask) == Ok(Merged(r.value.cleanedRegulations, r.value.deletionLog))
    ensures r.Ok? ==> r.value.summary.originalCount == |regs| &&
                      r.value.summary.cleanedCount == |r.value.cleanedRegulations| &&
                      r.value.summary.duplicatesRemoved == |r.value.deletionLog|
  {
    match Merge(regs, BatchSize, show, ask)
    case Raised(e) => Raised(e)
    case Ok(m) =>
      if |regs| == 0 then Raised("division by zero")
      else match AllOrFirstError(seq(|m.deletionLog|, i requires 0 <= i < |m.deletionLog| => EntryPrinted(m.deletionLog[i])))
        case Raised(e) => Raised(e)
        case Ok(_) => Ok(Deduplicated(m.cleaned, m.deletionLog, DedupSummary(|regs|, |m.cleaned|, |m.deletionLog|)))
  }

  /** The reported figures: the cleaned list is never longer than the input,
      and the removals never outnumber the reported duplicates. */
  lemma DeduplicateFigures(regs: seq<Dict>, show: Value -> string, ask: seq<Summary> -> Reply)
    requires DeduplicateRegulations(regs, show, ask).Ok?
    ensures var s := DeduplicateRegulations(regs, show, ask).value.summary;
            s.cleanedCount <= s.originalCount && s.originalCount - s.cleanedCount <= s.duplicatesRemoved
  {
    if |regs| >= 2 {
      MergeAccounting(regs, BatchSize, show, ask);
    }
  }
}
