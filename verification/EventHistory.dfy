/** Which appends the log accepts and acknowledges, and where it may die, told by the operations so far. */
module EventHistory {
  import opened Common
  import opened EventLogSpec
  import opened EventScanSpec
  import opened EventCrash

  lemma {:induction false} RunPush(c: Codec, s: State, ops: seq<Op>, op: Op)
    requires EnabledRun(c, s, ops + [op])
    ensures EnabledRun(c, s, ops) && Enabled(c, Run(c, s, ops), op)
    ensures Run(c, s, ops + [op]) == Step(c, Run(c, s, ops), op)
    decreases |ops|
  {
    if ops == [] {
      assert [op][1..] == [];
    } else {
      assert (ops + [op])[1..] == ops[1..] + [op];
      RunPush(c, Step(c, s, ops[0]), ops[1..], op);
    }
  }

  predicate StopsOrStarts(op: Op) {
    op.Die? || op.Recover?
  }

  /** The process runs: it never died, or has recovered since. */
  ghost predicate Running(ops: seq<Op>) {
    var last := LastWhere(ops, StopsOrStarts);
    last.None? || last.value.Recover?
  }

  /** The records whose append returned. */
  function Returned(ops: seq<Op>): seq<Stored> {
    if ops == [] then []
    else
      var op := ops[|ops| - 1];
      Returned(ops[..|ops| - 1]) + if op.Append? then [op.record] else []
  }

  lemma {:induction false} RunIsTold(c: Codec, m: Manifest, ops: seq<Op>)
    requires GoodCodec(c) && m == Blank(m) && EnabledRun(c, Created(m), ops)
    ensures var s := Run(c, Created(m), ops);
      Inv(c, m, s) && (s.up <==> Running(ops)) && s.acknowledged == Returned(ops)
    decreases |ops|
  {
    if ops == [] {
      assert Lines(c, []) == [] && Fold(m, []) == m;
    } else {
      var n := |ops| - 1;
      assert ops == ops[..n] + [ops[n]];
      RunPush(c, Created(m), ops[..n], ops[n]);
      RunIsTold(c, m, ops[..n]);
      var s := Run(c, Created(m), ops[..n]);
      LastWherePush(ops[..n], ops[n], StopsOrStarts);
      StepKeepsInv(c, m, s, ops[n]);
      if ops[n].Recover? {
        RecoverKeepsInv(c, m, s);
      }
    }
  }

  lemma NoneTerminalIff(m: Manifest, records: seq<Stored>)
    requires TerminalLast(records) && m == Blank(m)
    ensures TerminalStatus(Fold(m, records).status) <==>
      exists i :: 0 <= i < |records| && TerminalKind(records[i].event.kind)
  {
    FoldTerminal(m, records);
    if records != [] && TerminalKind(records[|records| - 1].event.kind) {
      assert 0 <= |records| - 1 < |records|;
    }
  }

  /** A record is accepted exactly while the process runs, when it carries the next cursor and sequence, no event
      ended the run, and its line takes at most 1 MiB; every record acknowledged is in the log at its cursor,
      whatever crashes lie between. */
  lemma AcceptedIff(c: Codec, m: Manifest, ops: seq<Op>, r: Stored)
    requires GoodCodec(c) && m == Blank(m) && EnabledRun(c, Created(m), ops)
    ensures var s := Run(c, Created(m), ops);
      && (Enabled(c, s, Append(r)) <==>
        Running(ops) && r.cursor == |s.records| + 1 && r.event.sequence == |s.records| + 1 &&
        !(exists i :: 0 <= i < |s.records| && TerminalKind(s.records[i].event.kind)) &&
        |c.encode(r)| + 1 <= 1_048_576)
      && (forall x :: x in Returned(ops) ==> 0 < x.cursor <= |s.records| && s.records[x.cursor - 1] == x)
  {
    RunIsTold(c, m, ops);
    LogSurvivesCrashes(c, m, ops);
    var s := Run(c, Created(m), ops);
    NoneTerminalIff(m, s.records);
  }

  /** While an accepted append is under way the process may die after any byte of its line, and after the whole line
      with the manifest renamed or not; recovery keeps the record exactly when all its text was written. */
  lemma MayDieAnywhere(c: Codec, m: Manifest, ops: seq<Op>, r: Stored, written: nat, renamed: bool)
    requires GoodCodec(c) && m == Blank(m) && EnabledRun(c, Created(m), ops)
    requires Enabled(c, Run(c, Created(m), ops), Append(r))
    requires written <= |c.encode(r)| + 1 && (renamed ==> written == |c.encode(r)| + 1)
    ensures var (s, crash) := (Run(c, Created(m), ops), Die(Some(Crash(r, written, renamed))));
      && Enabled(c, s, crash)
      && var t := Step(c, Step(c, s, crash), Recover);
      && t.up && t.records == (if written < |c.encode(r)| then s.records else s.records + [r])
      && t.disk.log == Lines(c, t.records) && t.disk.manifest == Fold(m, t.records)
  {
    var (s, crash) := (Run(c, Created(m), ops), Crash(r, written, renamed));
    RunIsTold(c, m, ops);
    OneCrash(c, m, s, crash);
    StepKeepsInv(c, m, s, Die(Some(crash)));
    StepKeepsInv(c, m, Step(c, s, Die(Some(crash))), Recover);
    assert s.records + [r] != s.records by {
      assert |s.records + [r]| == |s.records| + 1;
    }
  }
}
