/** The tool-call loop detector: verdicts on a bounded window that match the unbounded history. */
module LoopDetector {
  import opened Wrappers
  import Seqs

  datatype CallRecord = CallRecord(tool: string, paramsKey: string, failed: bool)

  datatype LoopDetection = LoopDetection(tool: string, count: nat)

  const ABSOLUTE_MAX := 25
  const FAILED_ABSOLUTE_MAX := 12
  const NO_ACTION_MAX := 5
  const RECENT_CALLS_WINDOW := 30
  const PARAMS_KEY_LIMIT := 200
  const IDENTICAL_THRESHOLD := 3
  const SIMILAR_FAILING_THRESHOLD := 4
  const SAME_TOOL_BASE_NORMAL := 3
  const SAME_TOOL_BASE_HIGH := 5
  const SAME_TOOL_FAILING_DROP_TRIGGER := 3
  const SAME_TOOL_FAILING_NORMAL := 2
  const SAME_TOOL_FAILING_HIGH := 3

  const HIGH_TOLERANCE_TOOLS: set<string> :=
    {"fetch_url", "read_file", "list_dir", "web_search", "github_api", "fetch_prices", "fetch_news", "fetch_macro"}

  type History = seq<CallRecord>

  function Min(a: nat, b: nat): nat {
    if a <= b then a else b
  }

  /** The last n records, or all of them: what a bounded deque retains. */
  function Last(h: History, n: nat): History {
    if |h| <= n then h else h[|h| - n..]
  }

  // ---- verdicts on a history of any length ----

  predicate SameCall(x: CallRecord, y: CallRecord) {
    x.tool == y.tool && x.paramsKey == y.paramsKey
  }

  function LikeCall(x: CallRecord): CallRecord -> bool {
    (y: CallRecord) => SameCall(y, x)
  }

  function FailingOf(tool: string): CallRecord -> bool {
    (y: CallRecord) => y.tool == tool && y.failed
  }

  function UsesOf(tool: string): CallRecord -> bool {
    (y: CallRecord) => y.tool == tool
  }

  /** How many records at the end satisfy p without interruption. */
  function Streak(h: History, p: CallRecord -> bool): (n: nat)
    ensures n <= |h|
  {
    if h == [] || !p(h[|h| - 1]) then 0 else 1 + Streak(h[..|h| - 1], p)
  }

  function Failures(h: History): nat {
    if h == [] then 0 else Failures(h[..|h| - 1]) + (if h[|h| - 1].failed then 1 else 0)
  }

  function SameToolThreshold(tool: string, failing: nat): nat {
    var high := tool in HIGH_TOLERANCE_TOOLS;
    var base := if high then SAME_TOOL_BASE_HIGH else SAME_TOOL_BASE_NORMAL;
    if failing >= SAME_TOOL_FAILING_DROP_TRIGGER then
      Min(base, if high then SAME_TOOL_FAILING_HIGH else SAME_TOOL_FAILING_NORMAL)
    else base
  }

  predicate OverAbsoluteLimit(h: History) {
    |h| >= ABSOLUTE_MAX || Failures(h) >= FAILED_ABSOLUTE_MAX
  }

  function Identical(h: History): Option<LoopDetection> {
    if |h| < IDENTICAL_THRESHOLD then None
    else
      var last := h[|h| - 1];
      var n := Streak(h, LikeCall(last));
      if n >= IDENTICAL_THRESHOLD then Some(LoopDetection(last.tool, n)) else None
  }

  function SimilarFailing(h: History): Option<LoopDetection> {
    if |h| < SIMILAR_FAILING_THRESHOLD then None
    else
      var last := h[|h| - 1];
      var n := Streak(h, FailingOf(last.tool));
      if n >= SIMILAR_FAILING_THRESHOLD then Some(LoopDetection(last.tool, n)) else None
  }

  /** The run of calls to the last tool. */
  function ToolRun(h: History): History
    requires h != []
  {
    Last(h, Streak(h, UsesOf(h[|h| - 1].tool)))
  }

  function SameTool(h: History): Option<LoopDetection> {
    if |h| < SAME_TOOL_BASE_NORMAL then None
    else
      var last, run := h[|h| - 1], ToolRun(h);
      if |run| >= SameToolThreshold(last.tool, Failures(run)) then Some(LoopDetection(last.tool, |run|)) else None
  }

  /** A verdict as the window reports it: the count saturates at the window's size. */
  function Capped(d: Option<LoopDetection>): Option<LoopDetection> {
    match d
    case None => None
    case Some(v) => Some(LoopDetection(v.tool, Min(v.count, RECENT_CALLS_WINDOW)))
  }

  // ---- what the verdicts mean ----

  lemma {:induction false} StreakReaches(h: History, p: CallRecord -> bool, n: nat)
    requires n <= |h|
    ensures Streak(h, p) >= n <==> forall i :: |h| - n <= i < |h| ==> p(h[i])
  {
    if n > 0 {
      StreakReaches(h[..|h| - 1], p, n - 1);
      var init := h[..|h| - 1];
      assert forall i :: 0 <= i < |init| ==> init[i] == h[i];
      if forall i :: |h| - n <= i < |h| ==> p(h[i]) {
        assert p(h[|h| - 1]);
        forall i | |init| - (n - 1) <= i < |init| ensures p(init[i]) {
          assert p(h[i]);
        }
      }
      if Streak(h, p) >= n {
        forall i | |h| - n <= i < |h| ensures p(h[i]) {
          if i < |init| {
            assert p(init[i]);
          }
        }
      }
    }
  }

  /** The identical-call verdict fires exactly when the last three calls share tool and parameters. */
  lemma IdenticalIff(h: History)
    ensures Identical(h).Some? <==>
      |h| >= 3 && SameCall(h[|h| - 3], h[|h| - 1]) && SameCall(h[|h| - 2], h[|h| - 1])
  {
    if |h| >= 3 {
      StreakReaches(h, LikeCall(h[|h| - 1]), 3);
      var p := LikeCall(h[|h| - 1]);
      if SameCall(h[|h| - 3], h[|h| - 1]) && SameCall(h[|h| - 2], h[|h| - 1]) {
        forall i | |h| - 3 <= i < |h| ensures p(h[i]) {
          assert i == |h| - 3 || i == |h| - 2 || i == |h| - 1;
        }
      } else {
        assert !p(h[|h| - 3]) || !p(h[|h| - 2]);
      }
    }
  }

  /** The similar-failing verdict fires exactly when the last four calls failed on one tool. */
  lemma SimilarFailingIff(h: History)
    ensures SimilarFailing(h).Some? <==>
      |h| >= 4 && forall i :: |h| - 4 <= i < |h| ==> h[i].failed && h[i].tool == h[|h| - 1].tool
  {
    if |h| >= 4 {
      var p := FailingOf(h[|h| - 1].tool);
      StreakReaches(h, p, 4);
      assert forall i :: 0 <= i < |h| ==> (p(h[i]) <==> h[i].failed && h[i].tool == h[|h| - 1].tool);
    }
  }

  lemma {:induction false} FailuresWithin(h: History)
    ensures Failures(h) <= |h|
  {
    if h != [] {
      FailuresWithin(h[..|h| - 1]);
    }
  }

  /**
   * For an ordinary tool the lowered threshold decides nothing: three failures in a run are three calls in a row
   * already. For a tolerant one it does: it is reported at five in a row, or at three failures in the run.
   */
  lemma SameToolIff(h: History)
    ensures SameTool(h).Some? <==>
      && |h| >= 3
      && if h[|h| - 1].tool in HIGH_TOLERANCE_TOOLS then |ToolRun(h)| >= 5 || Failures(ToolRun(h)) >= 3
         else |ToolRun(h)| >= 3
  {
    if |h| >= 3 {
      FailuresWithin(ToolRun(h));
    }
  }

  /** Once over the absolute limit, always over it until the next reset. */
  lemma {:induction false} AbsoluteLimitLatches(h: History, more: History)
    requires OverAbsoluteLimit(h)
    ensures OverAbsoluteLimit(h + more)
  {
    FailuresGrow(h, more);
  }

  lemma {:induction false} FailuresGrow(h: History, more: History)
    ensures Failures(h + more) == Failures(h) + Failures(more)
  {
    if more == [] {
      assert h + more == h;
    } else {
      var n := |more| - 1;
      Seqs.PrefixOfConcat(h, more, |h| + n);
      FailuresGrow(h, more[..n]);
      assert (h + more)[|h| + n] == more[n];
    }
  }

  // ---- the verdicts call by call ----

  /** p holds of the last n calls and of no longer stretch. */
  predicate TrailingRun(h: History, n: nat, p: CallRecord -> bool) {
    && n <= |h|
    && (forall i :: |h| - n <= i < |h| ==> p(h[i]))
    && (n < |h| ==> !p(h[|h| - n - 1]))
  }

  lemma StreakIs(h: History, p: CallRecord -> bool, n: nat)
    requires TrailingRun(h, n, p)
    ensures Streak(h, p) == n
  {
    StreakReaches(h, p, n);
    if n < |h| {
      StreakReaches(h, p, n + 1);
    }
  }

  /** The i-th of the last n calls failed. */
  predicate FailedAt(h: History, n: nat, i: nat)
    requires i < n <= |h|
  {
    h[|h| - n + i].failed
  }

  /** Where the failures among the last n calls are. */
  function FailedAmong(h: History, n: nat): set<nat>
    requires n <= |h|
  {
    set i: nat | i < n && FailedAt(h, n, i)
  }

  lemma {:induction false} FailuresCounted(h: History)
    ensures Failures(h) == |FailedAmong(h, |h|)|
  {
    if h == [] {
      assert FailedAmong(h, |h|) == {};
    } else {
      var n := |h| - 1;
      FailuresCounted(h[..n]);
      var before, now := FailedAmong(h[..n], n), FailedAmong(h, |h|);
      assert now == if h[n].failed then before + {n} else before;
    }
  }

  lemma FailuresOfRun(h: History, n: nat)
    requires n <= |h|
    ensures Failures(Last(h, n)) == |FailedAmong(h, n)|
  {
    var run := Last(h, n);
    FailuresCounted(run);
    assert run == h[|h| - n..];
    assert FailedAmong(run, |run|) == FailedAmong(h, n);
  }

  /** The limit is 25 calls in all, or 12 failed ones. */
  lemma AbsoluteLimitIs(h: History)
    ensures OverAbsoluteLimit(h) <==> |h| >= 25 || |FailedAmong(h, |h|)| >= 12
  {
    FailuresCounted(h);
  }

  /** A detection of so many calls of the tool, counted up to 30. */
  predicate Detects(d: Option<LoopDetection>, tool: string, n: nat) {
    d.Some? && d.value.tool == tool && d.value.count == if n < 30 then n else 30
  }

  /** n calls with the tool and the parameters of the last are reported from three on. */
  lemma IdenticalCounts(h: History, n: nat)
    requires h != []
    requires var last := h[|h| - 1];
             TrailingRun(h, n, (x: CallRecord) => x.tool == last.tool && x.paramsKey == last.paramsKey)
    ensures if n >= 3 then Detects(Capped(Identical(h)), h[|h| - 1].tool, n) else Capped(Identical(h)).None?
  {
    StreakIs(h, LikeCall(h[|h| - 1]), n);
  }

  /** n failed calls of the last tool are reported from four on. */
  lemma SimilarFailingCounts(h: History, n: nat)
    requires h != []
    requires var last := h[|h| - 1]; TrailingRun(h, n, (x: CallRecord) => x.tool == last.tool && x.failed)
    ensures if n >= 4 then Detects(Capped(SimilarFailing(h)), h[|h| - 1].tool, n) else Capped(SimilarFailing(h)).None?
  {
    StreakIs(h, FailingOf(h[|h| - 1].tool), n);
  }

  predicate Tolerated(tool: string) {
    || tool == "fetch_url" || tool == "read_file" || tool == "list_dir" || tool == "web_search"
    || tool == "github_api" || tool == "fetch_prices" || tool == "fetch_news" || tool == "fetch_macro"
  }

  /** n calls of the last tool are reported from three on; of a tolerated tool from five on, or with three failed. */
  lemma SameToolCounts(h: History, n: nat)
    requires h != []
    requires var last := h[|h| - 1]; TrailingRun(h, n, (x: CallRecord) => x.tool == last.tool)
    ensures var tool := h[|h| - 1].tool;
            if (if Tolerated(tool) then n >= 5 || |FailedAmong(h, n)| >= 3 else n >= 3)
            then Detects(Capped(SameTool(h)), tool, n)
            else Capped(SameTool(h)).None?
  {
    var tool := h[|h| - 1].tool;
    StreakIs(h, UsesOf(tool), n);
    FailuresOfRun(h, n);
    FailuresWithin(ToolRun(h));
    assert Tolerated(tool) <==> tool in HIGH_TOLERANCE_TOOLS;
    SameToolIff(h);
  }

  // ---- the window is enough ----

  lemma {:induction false} StreakInWindow(h: History, n: nat, p: CallRecord -> bool)
    ensures Streak(Last(h, n), p) == Min(n, Streak(h, p))
  {
    if h != [] && n > 0 {
      var init, w := h[..|h| - 1], Last(h, n);
      assert w[|w| - 1] == h[|h| - 1];
      assert w[..|w| - 1] == Last(init, n - 1);
      StreakInWindow(init, n - 1, p);
    }
  }

  lemma LastOfLast(h: History, n: nat, k: nat)
    ensures Last(Last(h, n), k) == Last(h, Min(n, k))
  {
  }

  lemma LastRecord(h: History, n: nat)
    requires n > 0
    ensures |Last(h, n)| == Min(n, |h|)
    ensures h != [] ==> Last(h, n) != [] && Last(h, n)[|Last(h, n)| - 1] == h[|h| - 1]
  {
  }

  lemma AbsoluteLimitInWindow(h: History)
    ensures OverAbsoluteLimit(h)
       <==> |h| >= ABSOLUTE_MAX || Failures(Last(h, RECENT_CALLS_WINDOW)) >= FAILED_ABSOLUTE_MAX
  {
  }

  lemma IdenticalInWindow(h: History)
    ensures Identical(Last(h, RECENT_CALLS_WINDOW)) == Capped(Identical(h))
  {
    LastRecord(h, RECENT_CALLS_WINDOW);
    if |h| >= IDENTICAL_THRESHOLD {
      StreakInWindow(h, RECENT_CALLS_WINDOW, LikeCall(h[|h| - 1]));
    }
  }

  lemma SimilarFailingInWindow(h: History)
    ensures SimilarFailing(Last(h, RECENT_CALLS_WINDOW)) == Capped(SimilarFailing(h))
  {
    LastRecord(h, RECENT_CALLS_WINDOW);
    if |h| >= SIMILAR_FAILING_THRESHOLD {
      StreakInWindow(h, RECENT_CALLS_WINDOW, FailingOf(h[|h| - 1].tool));
    }
  }

  /** Failures that scrolled out of the window belong to a run long enough to be reported without them. */
  lemma SameToolInWindow(h: History)
    ensures SameTool(Last(h, RECENT_CALLS_WINDOW)) == Capped(SameTool(h))
  {
    var w := Last(h, RECENT_CALLS_WINDOW);
    LastRecord(h, RECENT_CALLS_WINDOW);
    if |h| >= SAME_TOOL_BASE_NORMAL {
      var streak := Streak(h, UsesOf(h[|h| - 1].tool));
      StreakInWindow(h, RECENT_CALLS_WINDOW, UsesOf(h[|h| - 1].tool));
      LastOfLast(h, RECENT_CALLS_WINDOW, Min(RECENT_CALLS_WINDOW, streak));
      assert ToolRun(w) == Last(h, Min(RECENT_CALLS_WINDOW, streak));
      if streak <= RECENT_CALLS_WINDOW {
        assert ToolRun(w) == ToolRun(h);
      }
    }
  }

  // ---- the detector ----

  class ToolCallLoopDetector {
    var recentCalls: seq<CallRecord>
    var totalCalls: nat
    var consecutiveNoAction: nat
    var hardAborted: bool
    /** Every call since construction or the last reset. */
    ghost var history: History

    ghost predicate Valid()
      reads this
    {
      recentCalls == Last(history, RECENT_CALLS_WINDOW) && totalCalls == |history|
    }

    constructor ()
      ensures Valid() && history == [] && consecutiveNoAction == 0 && !hardAborted
    {
      recentCalls, totalCalls, consecutiveNoAction, hardAborted := [], 0, 0, false;
      history := [];
    }

    method Record(tool: string, paramsText: string, failed: bool)
      requires Valid()
      modifies this
      ensures Valid() && consecutiveNoAction == 0 && hardAborted == old(hardAborted)
      ensures var key := if |paramsText| <= 200 then paramsText else paramsText[..200];
              history == old(history) + [CallRecord(tool, key, failed)]
    {
      var key := if |paramsText| <= PARAMS_KEY_LIMIT then paramsText else paramsText[..PARAMS_KEY_LIMIT];
      recentCalls := recentCalls + [CallRecord(tool, key, failed)];
      if |recentCalls| > RECENT_CALLS_WINDOW {
        recentCalls := recentCalls[1..];
      }
      totalCalls := totalCalls + 1;
      consecutiveNoAction := 0;
      history := history + [CallRecord(tool, key, failed)];
    }

    method RecordNoAction() returns (capHit: bool)
      requires Valid()
      modifies this`consecutiveNoAction
      ensures Valid() && consecutiveNoAction == old(consecutiveNoAction) + 1
      ensures capHit == (consecutiveNoAction >= 5)
    {
      consecutiveNoAction := consecutiveNoAction + 1;
      capHit := consecutiveNoAction >= NO_ACTION_MAX;
    }

    method DetectAbsoluteLimit() returns (over: bool)
      requires Valid()
      ensures over == OverAbsoluteLimit(history)
    {
      AbsoluteLimitInWindow(history);
      if totalCalls >= ABSOLUTE_MAX {
        return true;
      }
      var failures := 0;
      for i := 0 to |recentCalls|
        invariant failures == Failures(recentCalls[..i])
      {
        assert recentCalls[..i + 1][..i] == recentCalls[..i];
        if recentCalls[i].failed {
          failures := failures + 1;
        }
      }
      Seqs.FullPrefix(recentCalls);
      over := failures >= FAILED_ABSOLUTE_MAX;
    }

    /** Counts back from the last record while p holds. */
    method CountBack(p: CallRecord -> bool) returns (count: nat)
      ensures count == Streak(recentCalls, p)
    {
      count := 0;
      var i := |recentCalls|;
      Seqs.FullPrefix(recentCalls);
      while i > 0
        invariant 0 <= i && i + count == |recentCalls|
        invariant Streak(recentCalls, p) == count + Streak(recentCalls[..i], p)
      {
        assert recentCalls[..i][..i - 1] == recentCalls[..i - 1];
        if !p(recentCalls[i - 1]) {
          break;
        }
        count := count + 1;
        i := i - 1;
      }
    }

    method DetectIdentical() returns (r: Option<LoopDetection>)
      requires Valid()
      modifies this`hardAborted
      ensures Valid() && r == Capped(Identical(history)) && hardAborted == (old(hardAborted) || r.Some?)
    {
      IdenticalInWindow(history);
      if |recentCalls| < IDENTICAL_THRESHOLD {
        return None;
      }
      var last := recentCalls[|recentCalls| - 1];
      var count := CountBack(LikeCall(last));
      if count >= IDENTICAL_THRESHOLD {
        hardAborted := true;
        return Some(LoopDetection(last.tool, count));
      }
      r := None;
    }

    method DetectSimilarFailing() returns (r: Option<LoopDetection>)
      requires Valid()
      modifies this`hardAborted
      ensures Valid() && r == Capped(SimilarFailing(history)) && hardAborted == (old(hardAborted) || r.Some?)
    {
      SimilarFailingInWindow(history);
      if |recentCalls| < SIMILAR_FAILING_THRESHOLD {
        return None;
      }
      var last := recentCalls[|recentCalls| - 1];
      if !last.failed {
        return None;
      }
      var count := CountBack(FailingOf(last.tool));
      if count >= SIMILAR_FAILING_THRESHOLD {
        hardAborted := true;
        return Some(LoopDetection(last.tool, count));
      }
      r := None;
    }

    method DetectSameTool() returns (r: Option<LoopDetection>)
      requires Valid()
      ensures r == Capped(SameTool(history))
    {
      SameToolInWindow(history);
      if |recentCalls| < SAME_TOOL_BASE_NORMAL {
        return None;
      }
      var last := recentCalls[|recentCalls| - 1];
      var consecutive, failing := CountRun(last.tool);
      if consecutive >= SameToolThreshold(last.tool, failing) {
        return Some(LoopDetection(last.tool, consecutive));
      }
      r := None;
    }

    /** The run of one tool at the end of the window, and the failures in it. */
    method CountRun(tool: string) returns (consecutive: nat, failing: nat)
      ensures consecutive == Streak(recentCalls, UsesOf(tool))
      ensures failing == Failures(Last(recentCalls, consecutive))
    {
      var p := UsesOf(tool);
      consecutive, failing := 0, 0;
      var i := |recentCalls|;
      Seqs.FullPrefix(recentCalls);
      while i > 0
        invariant 0 <= i && i + consecutive == |recentCalls|
        invariant Streak(recentCalls, p) == consecutive + Streak(recentCalls[..i], p)
        invariant failing == Failures(recentCalls[i..])
      {
        assert recentCalls[..i][..i - 1] == recentCalls[..i - 1];
        if recentCalls[i - 1].tool != tool {
          break;
        }
        FailuresFront(recentCalls[i - 1], recentCalls[i..]);
        assert recentCalls[i - 1..] == [recentCalls[i - 1]] + recentCalls[i..];
        consecutive := consecutive + 1;
        if recentCalls[i - 1].failed {
          failing := failing + 1;
        }
        i := i - 1;
      }
      assert Last(recentCalls, consecutive) == recentCalls[i..];
    }

    method Reset()
      modifies this
      ensures Valid() && history == [] && consecutiveNoAction == 0 && !hardAborted
    {
      recentCalls, totalCalls, consecutiveNoAction, hardAborted := [], 0, 0, false;
      history := [];
    }
  }

  lemma FailuresFront(x: CallRecord, rest: History)
    ensures Failures([x] + rest) == (if x.failed then 1 else 0) + Failures(rest)
  {
    FailuresGrow([x], rest);
    assert [x][..0] == [];
  }
}
