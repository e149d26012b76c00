/**
  The filtered transcript of one agent, `readAgentTranscript` of src/workflowService.ts:1155-1220: it reads
  the event log in batches while the log may be growing.
 */
module Transcript {
  import opened Common
  import opened EventLogSpec
  import opened EventStore

  const SCAN_BATCH: nat := 500
  const MAX_SCAN_BATCHES: nat := 20

  datatype TranscriptPage = TranscriptPage(fromCursor: nat, toCursor: nat, events: seq<Stored>, hasMore: bool)

  /** The events of one agent with cursors in (from, to]. */
  function Matching(log: seq<Stored>, mine: Stored -> bool, from: nat, to: nat): seq<Stored>
    requires from <= to <= |log|
  {
    Filter(log[from..to], mine)
  }

  lemma MatchingSplit(log: seq<Stored>, mine: Stored -> bool, a: nat, b: nat, d: nat)
    requires a <= b <= d <= |log|
    ensures Matching(log, mine, a, d) == Matching(log, mine, a, b) + Matching(log, mine, b, d)
  {
    assert log[a..d] == log[a..b] + log[b..d];
    FilterAppend(log[a..b], log[b..d], mine);
  }

  lemma MatchingGrown(log: seq<Stored>, later: seq<Stored>, mine: Stored -> bool, from: nat, to: nat)
    requires log <= later && from <= to <= |log|
    ensures Matching(later, mine, from, to) == Matching(log, mine, from, to)
  {
    assert later[from..to] == log[from..to];
  }

  /** Nothing is lost between two reads. */
  ghost predicate Grows(logs: seq<seq<Stored>>, k: nat) {
    k + 1 < |logs| && logs[k] <= logs[k + 1] && Numbered(logs[k + 1])
  }

  /** The log as each successive read finds it. */
  ghost predicate Growing(logs: seq<seq<Stored>>) {
    |logs| > MAX_SCAN_BATCHES && Numbered(logs[0]) && forall k :: 0 <= k < |logs| - 1 ==> Grows(logs, k)
  }

  /** `last` is where the newest returned event is, or the start. */
  ghost predicate LastReturned(log: seq<Stored>, mine: Stored -> bool, after: nat, events: seq<Stored>, last: nat) {
    after <= last <= |log| && events == Matching(log, mine, after, last) && (events != [] ==> after < last)
  }

  lemma MatchingOne(log: seq<Stored>, mine: Stored -> bool, from: nat, to: nat)
    requires from <= to < |log|
    ensures Matching(log, mine, from, to + 1) == Matching(log, mine, from, to) +
      (if mine(log[to]) then [log[to]] else [])
  {
    MatchingSplit(log, mine, from, to, to + 1);
    assert log[to..to + 1] == [log[to]];
    FilterOne(log[to], mine);
  }

  lemma TakeOne(log: seq<Stored>, mine: Stored -> bool, after: nat, at: nat, more: seq<Stored>)
    requires Numbered(log) && after <= at < |log| && more == Matching(log, mine, after, at) && mine(log[at])
    ensures more + [log[at]] == Matching(log, mine, after, at + 1)
    ensures LastReturned(log, mine, after, more + [log[at]], log[at].cursor) && log[at].cursor == at + 1
  {
    MatchingOne(log, mine, after, at);
  }

  lemma SkipOne(log: seq<Stored>, mine: Stored -> bool, after: nat, at: nat)
    requires after <= at < |log| && !mine(log[at])
    ensures Matching(log, mine, after, at + 1) == Matching(log, mine, after, at)
  {
    MatchingOne(log, mine, after, at);
    assert Matching(log, mine, after, at) + [] == Matching(log, mine, after, at);
  }

  lemma MoreToCome(log: seq<Stored>, mine: Stored -> bool, after: nat, at: nat, to: nat)
    requires after <= at < to <= |log| && mine(log[at])
    ensures |Matching(log, mine, after, to)| > |Matching(log, mine, after, at)|
  {
    MatchingOne(log, mine, after, at);
    MatchingSplit(log, mine, after, at + 1, to);
  }

  /** One batch: take matching events until the response is full. `filled` when it filled with more to
      come in this batch, which is then not consumed. */
  method TakeBatch(log: seq<Stored>, mine: Stored -> bool, after: nat, from: nat, to: nat, limit: nat,
      events: seq<Stored>, last: nat)
      returns (more: seq<Stored>, newLast: nat, filled: bool)
    requires Numbered(log) && after <= from <= to <= |log| && events == Matching(log, mine, after, from) &&
      |events| <= limit
    requires LastReturned(log, mine, after, events, last) && last <= from
    ensures LastReturned(log, mine, after, more, newLast) && newLast <= to && |more| <= limit
    ensures !filled ==> more == Matching(log, mine, after, to)
    ensures filled ==> |more| == limit && |Matching(log, mine, after, to)| > limit
  {
    more, newLast := events, last;
    var at: nat := from;
    while at < to
      invariant from <= at <= to && |more| <= limit
      invariant more == Matching(log, mine, after, at)
      invariant LastReturned(log, mine, after, more, newLast) && newLast <= at
    {
      var stored := log[at];
      if mine(stored) {
        if |more| >= limit {
          MoreToCome(log, mine, after, at, to);
          return more, newLast, true;
        }
        TakeOne(log, mine, after, at, more);
        more, newLast := more + [stored], stored.cursor;
      } else {
        SkipOne(log, mine, after, at);
      }
      at := at + 1;
    }
    filled := false;
  }

  /** What the caller is told: exactly the agent's events after `after` and up to `toCursor`, which
      strictly advances while there may be more. */
  ghost predicate RightPage(log: seq<Stored>, mine: Stored -> bool, after: nat, limit: nat, page: TranscriptPage) {
    && page.fromCursor == after <= page.toCursor <= |log|
    && page.events == Matching(log, mine, after, page.toCursor)
    && |page.events| <= limit
    && (page.hasMore ==> page.toCursor > after)
    && (!page.hasMore ==> page.toCursor == |log|)
  }

  /** The log the most recent read found. */
  ghost function LogAt(logs: seq<seq<Stored>>, turns: nat): seq<Stored>
    requires turns < |logs|
  {
    logs[if turns == 0 then 0 else turns - 1]
  }

  ghost predicate Progress(log: seq<Stored>, mine: Stored -> bool, after: nat, scanCursor: nat, events: seq<Stored>,
      last: nat) {
    && after <= scanCursor <= |log| && events == Matching(log, mine, after, scanCursor)
    && LastReturned(log, mine, after, events, last) && last <= scanCursor
  }

  lemma ProgressGrows(log: seq<Stored>, later: seq<Stored>, mine: Stored -> bool, after: nat, scanCursor: nat,
      events: seq<Stored>, last: nat)
    requires log <= later && Progress(log, mine, after, scanCursor, events, last)
    ensures Progress(later, mine, after, scanCursor, events, last)
  {
    MatchingGrown(log, later, mine, after, scanCursor);
    MatchingGrown(log, later, mine, after, last);
  }

  lemma NothingYet(log: seq<Stored>, mine: Stored -> bool, after: nat)
    requires after <= |log|
    ensures Progress(log, mine, after, after, [], after)
  {
    assert log[after..after] == [];
  }

  /** What the loop knows after a read. */
  ghost predicate Stage(log: seq<Stored>, mine: Stored -> bool, after: nat, limit: nat, scanCursor: nat,
      events: seq<Stored>, last: nat,
      filled: bool, exhausted: bool) {
    && |events| <= limit
    && (if filled then LastReturned(log, mine, after, events, last) && |events| == limit && !exhausted
        else Progress(log, mine, after, scanCursor, events, last))
    && (exhausted ==> scanCursor == |log|)
  }

  lemma StageIsRight(log: seq<Stored>, mine: Stored -> bool, after: nat, limit: nat, scanCursor: nat,
      events: seq<Stored>, last: nat,
      filled: bool, exhausted: bool)
    requires limit > 0 && Stage(log, mine, after, limit, scanCursor, events, last, filled, exhausted)
    requires !filled && !exhausted ==> scanCursor > after
    ensures RightPage(log, mine, after, limit,
      TranscriptPage(after, if filled then last else scanCursor, events, filled || !exhausted))
  {
  }

  /** One read of the log and what is taken from it. */
  method ScanBatch(log: seq<Stored>, mine: Stored -> bool, after: nat, scanCursor: nat, limit: nat,
      events: seq<Stored>, last: nat)
      returns (more: seq<Stored>, newLast: nat, newCursor: nat, filled: bool, exhausted: bool)
    requires Numbered(log) && Progress(log, mine, after, scanCursor, events, last) && |events| <= limit
    ensures Stage(log, mine, after, limit, newCursor, more, newLast, filled, exhausted)
    ensures !filled ==> exhausted || newCursor == scanCursor + 500
    ensures scanCursor <= newCursor <= scanCursor + 500 && newLast <= scanCursor + 500
  {
    more, newLast, newCursor, filled, exhausted := events, last, scanCursor, false, false;
    var page := PageOf(log, scanCursor, SCAN_BATCH);
    if page.events == [] {
      exhausted := true;
      return;
    }
    more, newLast, filled := TakeBatch(log, mine, after, scanCursor, page.toCursor, limit, events, last);
    if filled {
      return;
    }
    newCursor := page.toCursor;
    exhausted := !page.hasMore;
  }

  /** `readAgentTranscript`. The n-th read finds the log as `logs[n]`; the page is right for the log that
      the last read found, and stops before the end of that log only when the response is full or ten thousand
      records were examined. */
  method ReadAgentTranscript(logs: seq<seq<Stored>>, mine: Stored -> bool, after: nat, limit: nat)
      returns (r: Result<TranscriptPage>, ghost turns: nat)
    requires Growing(logs) && limit > 0
    ensures r.Err? <==> after > |logs[0]|
    ensures r.Ok? ==> 0 < turns <= MAX_SCAN_BATCHES && RightPage(logs[turns - 1], mine, after, limit, r.value)
    ensures r.Ok? && r.value.hasMore ==> |r.value.events| == limit || r.value.toCursor == after + 10_000
    ensures r.Ok? ==> r.value.toCursor <= after + 10_000
  {
    turns := 0;
    if after > |logs[0]| {
      return Err(CursorAhead), 0;
    }
    var events: seq<Stored>, scanCursor: nat, last: nat := [], after, after;
    var budgetFilled, exhausted := false, false;
    var batches: nat := 0;
    ghost var now := logs[0];
    NothingYet(now, mine, after);
    while |events| < limit && batches < MAX_SCAN_BATCHES && !budgetFilled && !exhausted
      invariant 0 <= batches == turns <= MAX_SCAN_BATCHES
      invariant now == LogAt(logs, turns)
      invariant Stage(now, mine, after, limit, scanCursor, events, last, budgetFilled, exhausted)
      invariant turns == 0 ==> events == [] && !budgetFilled && !exhausted
      invariant scanCursor <= after + 500 * turns && last <= after + 500 * turns
      invariant !budgetFilled && !exhausted ==> scanCursor == after + 500 * turns
      decreases MAX_SCAN_BATCHES - batches
    {
      assert turns > 0 ==> Grows(logs, turns - 1);
      var log := logs[batches];
      ProgressGrows(now, log, mine, after, scanCursor, events, last);
      batches, turns, now := batches + 1, turns + 1, log;
      events, last, scanCursor, budgetFilled, exhausted :=
        ScanBatch(log, mine, after, scanCursor, limit, events, last);
    }
    StageIsRight(now, mine, after, limit, scanCursor, events, last, budgetFilled, exhausted);
    r := Ok(TranscriptPage(after, if budgetFilled then last else scanCursor, events, budgetFilled || !exhausted));
  }

  // ---------------------------------------------------------------------------------------------
  // The walk
  // ---------------------------------------------------------------------------------------------

  /** Successive calls, each right for the log it found, on a log that only grows. */
  ghost predicate CallChain(logs: seq<seq<Stored>>, mine: Stored -> bool, limit: nat, pages: seq<TranscriptPage>) {
    && |logs| == |pages|
    && (forall j, k :: 0 <= j <= k < |logs| ==> logs[j] <= logs[k])
    && (forall k :: 0 <= k < |pages| ==> RightPage(logs[k], mine, pages[k].fromCursor, limit, pages[k]))
    && (forall k :: 0 < k < |pages| ==> pages[k].fromCursor == pages[k - 1].toCursor)
  }

  function AllEvents(pages: seq<TranscriptPage>): seq<Stored> {
    if pages == [] then [] else AllEvents(pages[..|pages| - 1]) + pages[|pages| - 1].events
  }

  /** Following `toCursor` delivers each of the agent's events exactly once and in order, however the
      response limit, the scan cap and concurrent appends fall. */
  lemma {:induction false} WalkDeliversOnce(logs: seq<seq<Stored>>, mine: Stored -> bool, limit: nat,
      pages: seq<TranscriptPage>)
    requires pages != [] && CallChain(logs, mine, limit, pages)
    ensures var n := |pages| - 1;
      && pages[0].fromCursor <= pages[n].toCursor <= |logs[n]|
      && AllEvents(pages) == Matching(logs[n], mine, pages[0].fromCursor, pages[n].toCursor)
    decreases |pages|
  {
    var n := |pages| - 1;
    assert RightPage(logs[n], mine, pages[n].fromCursor, limit, pages[n]);
    if n == 0 {
      assert AllEvents(pages[..0]) == [];
    } else {
      WalkDeliversOnce(logs[..n], mine, limit, pages[..n]);
      assert RightPage(logs[n - 1], mine, pages[n - 1].fromCursor, limit, pages[n - 1]);
      MatchingGrown(logs[n - 1], logs[n], mine, pages[0].fromCursor, pages[n - 1].toCursor);
      MatchingSplit(logs[n], mine, pages[0].fromCursor, pages[n].fromCursor, pages[n].toCursor);
    }
  }

  /** Once a call says there is no more, everything so far has been delivered. */
  lemma LastPageCompletes(logs: seq<seq<Stored>>, mine: Stored -> bool, limit: nat, pages: seq<TranscriptPage>)
    requires pages != [] && CallChain(logs, mine, limit, pages) && pages[0].fromCursor == 0 &&
      !pages[|pages| - 1].hasMore
    ensures AllEvents(pages) == Filter(logs[|pages| - 1], mine)
  {
    var n := |pages| - 1;
    WalkDeliversOnce(logs, mine, limit, pages);
    assert RightPage(logs[n], mine, pages[n].fromCursor, limit, pages[n]);
    assert logs[n][0..|logs[n]|] == logs[n];
  }
}
