/**
  What the proof budgets of imported-prompt reuse cost. From one state a smaller budget only loses a hit;
  over a run it changes nothing until a search is cut short, and from then on it may even gain hits.
 */
module JournalBudget {
  import opened Common
  import opened JournalModel
  import opened JournalResume
  import opened JournalReuse

  /** `b` is `a` but for the budgets. */
  predicate SameButBudgets(a: Run, b: Run) {
    b == a.(proofHashes := b.proofHashes, proofBytes := b.proofBytes)
  }

  predicate Poorer(poor: Run, rich: Run) {
    SameButBudgets(rich, poor) && poor.proofHashes <= rich.proofHashes && poor.proofBytes <= rich.proofBytes
  }

  /** The search stops because a budget is spent. */
  predicate CutShort(keys: seq<Key>, target: Key, prompt: Text, options: Text, shared: nat, hashes: nat, bytes: nat)
    decreases |keys|
  {
    keys != [] &&
    (hashes == 0 || shared + KeyBytes(keys[0]) > bytes ||
     (Link(keys[0], prompt, options) != target &&
      CutShort(keys[1..], target, prompt, options, shared, hashes - 1, bytes - (shared + KeyBytes(keys[0])))))
  }

  /** The imported call whose options admission has to prove, if any. */
  function Suspect(run: Run, call: Call): (m: Option<nat>)
    ensures m.Some? ==> m.value < |run.previous| && m.value !in run.consumed
  {
    if run.sparse && run.tracking && FindDirect(run, CallKey(run, call), 0) == |run.previous| then
      var candidate := UniqueImport(run.previous, call.prompt);
      if candidate.Some? && candidate.value !in run.consumed then candidate else None
    else None
  }

  predicate Starved(run: Run, call: Call) {
    var m := Suspect(run, call);
    m.Some? && CutShort([Root] + DistinctKeys(run.previous), run.previous[m.value].key, call.prompt, call.options,
      SharedBytes(call.prompt, call.options), run.proofHashes, run.proofBytes)
  }

  predicate Proves(run: Run, call: Call) {
    var m := Suspect(run, call);
    m.Some? && ImportProof(run, m.value, call.prompt, call.options).found
  }

  /** A search that is not cut short finds and spends the same with more. */
  lemma {:induction false} SearchAgrees(keys: seq<Key>, target: Key, prompt: Text, options: Text, shared: nat,
      hashes: nat, bytes: nat, more: nat, moreBytes: nat)
    requires hashes <= more && bytes <= moreBytes
    requires !CutShort(keys, target, prompt, options, shared, hashes, bytes)
    ensures var p, r := Prove(keys, target, prompt, options, shared, hashes, bytes),
      Prove(keys, target, prompt, options, shared, more, moreBytes);
      p.found == r.found && hashes - p.hashes == more - r.hashes && bytes - p.bytes == moreBytes - r.bytes
    decreases |keys|
  {
    if keys != [] && Link(keys[0], prompt, options) != target {
      var cost := shared + KeyBytes(keys[0]);
      SearchAgrees(keys[1..], target, prompt, options, shared, hashes - 1, bytes - cost, more - 1, moreBytes - cost);
    }
  }

  lemma {:induction false} CutFindsNothing(keys: seq<Key>, target: Key, prompt: Text, options: Text, shared: nat,
      hashes: nat, bytes: nat)
    requires CutShort(keys, target, prompt, options, shared, hashes, bytes)
    ensures !Prove(keys, target, prompt, options, shared, hashes, bytes).found
    decreases |keys|
  {
    if hashes > 0 && shared + KeyBytes(keys[0]) <= bytes {
      CutFindsNothing(keys[1..], target, prompt, options, shared, hashes - 1, bytes - (shared + KeyBytes(keys[0])));
    }
  }

  lemma SameSuspect(rich: Run, poor: Run, call: Call)
    requires SameButBudgets(rich, poor)
    ensures Suspect(poor, call) == Suspect(rich, call)
    ensures FindDirect(poor, CallKey(poor, call), 0) == FindDirect(rich, CallKey(rich, call), 0)
  {
    SameDirect(rich, poor, CallKey(rich, call), 0);
  }

  /** What admission does apart from spending budget depends on the match alone. */
  lemma SameMatchSameRun(rich: Run, poor: Run, call: Call)
    requires SameButBudgets(rich, poor)
    requires Lookup(poor, call).hit == Lookup(rich, call).hit &&
      Lookup(poor, call).replaced == Lookup(rich, call).replaced
    ensures SameButBudgets(Admit(rich, call).0, Admit(poor, call).0) && Admit(poor, call).1 == Admit(rich, call).1
  {
  }

  /** A smaller budget never gains a hit in one lookup, and never changes one. */
  lemma BudgetOnlyCostsHits(rich: Run, poor: Run, call: Call)
    requires Poorer(poor, rich)
    ensures var m := Lookup(poor, call).hit; m.Some? ==> Lookup(rich, call).hit == m
  {
    SameSuspect(rich, poor, call);
    var m := Suspect(rich, call);
    if m.Some? && Proves(poor, call) {
      ProveMonotone([Root] + DistinctKeys(rich.previous), rich.previous[m.value].key, call.prompt, call.options,
        SharedBytes(call.prompt, call.options), rich.proofHashes, rich.proofBytes, poor.proofHashes, poor.proofBytes);
    }
  }

  /** Unless its search is cut short, an admission does not depend on the budgets. */
  lemma AdmitAgrees(rich: Run, poor: Run, call: Call)
    requires Poorer(poor, rich) && !Starved(poor, call)
    ensures Poorer(Admit(poor, call).0, Admit(rich, call).0) && Admit(poor, call).1 == Admit(rich, call).1
  {
    SameSuspect(rich, poor, call);
    var m := Suspect(poor, call);
    if m.Some? {
      SearchAgrees([Root] + DistinctKeys(poor.previous), poor.previous[m.value].key, call.prompt, call.options,
        SharedBytes(call.prompt, call.options), poor.proofHashes, poor.proofBytes, rich.proofHashes, rich.proofBytes);
    }
    SameMatchSameRun(rich, poor, call);
  }

  /** Exactly when one admission tells a poorer run from a richer: the poorer search is cut short and the
      richer finds its proof. */
  lemma AdmitDivergesIff(rich: Run, poor: Run, call: Call)
    requires Poorer(poor, rich)
    ensures SameButBudgets(Admit(rich, call).0, Admit(poor, call).0) <==> !(Starved(poor, call) && Proves(rich, call))
  {
    SameSuspect(rich, poor, call);
    var m := Suspect(rich, call);
    if !Starved(poor, call) {
      AdmitAgrees(rich, poor, call);
    } else {
      CutFindsNothing([Root] + DistinctKeys(poor.previous), poor.previous[m.value].key, call.prompt, call.options,
        SharedBytes(call.prompt, call.options), poor.proofHashes, poor.proofBytes);
      if Proves(rich, call) {
        AdmitConsumes(rich, call);
        AdmitConsumes(poor, call);
        assert m.value in Admit(rich, call).0.consumed && m.value !in Admit(poor, call).0.consumed;
      } else {
        SameMatchSameRun(rich, poor, call);
      }
    }
  }

  predicate NeverStarved(run: Run, ops: seq<Op>)
    decreases |ops|
  {
    ops == [] || (!(ops[0].AdmitOp? && Starved(run, ops[0].call)) && NeverStarved(Apply(run, ops[0]), ops[1..]))
  }

  lemma OtherOpsKeepPoorer(rich: Run, poor: Run, op: Op)
    requires Poorer(poor, rich) && !op.AdmitOp?
    ensures Poorer(Apply(poor, op), Apply(rich, op))
  {
    match op
    case ResultOp(index, key, agent, _, _, _) => assert Unfinished(poor, index, key, agent) ==
      Unfinished(rich, index, key, agent);
    case SessionOp(index, key, agent, _) => assert Unfinished(poor, index, key, agent) ==
      Unfinished(rich, index, key, agent);
    case DiscardOp(index, key, agent) => assert Unfinished(poor, index, key, agent) ==
      Unfinished(rich, index, key, agent);
  }

  /** A budget that never cuts a search short costs nothing over a whole run: every call has the same fate
      as with any larger budget. */
  lemma {:induction false} EnoughIsEnough(rich: Run, poor: Run, ops: seq<Op>)
    requires Poorer(poor, rich) && NeverStarved(poor, ops)
    ensures Poorer(ApplyAll(poor, ops), ApplyAll(rich, ops)) && ApplyAll(poor, ops).slots == ApplyAll(rich, ops).slots
    decreases |ops|
  {
    if ops != [] {
      if ops[0].AdmitOp? {
        AdmitAgrees(rich, poor, ops[0].call);
      } else {
        OtherOpsKeepPoorer(rich, poor, ops[0]);
      }
      EnoughIsEnough(Apply(rich, ops[0]), Apply(poor, ops[0]), ops[1..]);
    }
  }

  /** Otherwise the runs agree up to the first search that is cut short, which finds nothing. */
  lemma {:induction false} AgreesUntilCut(rich: Run, poor: Run, ops: seq<Op>) returns (k: nat)
    requires Poorer(poor, rich) && !NeverStarved(poor, ops)
    ensures k < |ops| && ops[k].AdmitOp? && NeverStarved(poor, ops[..k])
    ensures var r, p := ApplyAll(rich, ops[..k]), ApplyAll(poor, ops[..k]);
      Poorer(p, r) && Starved(p, ops[k].call) && Lookup(p, ops[k].call).replaced.None?
    decreases |ops|
  {
    var op := ops[0];
    if op.AdmitOp? && Starved(poor, op.call) {
      k := 0;
      SameSuspect(rich, poor, op.call);
      var m := Suspect(poor, op.call).value;
      CutFindsNothing([Root] + DistinctKeys(poor.previous), poor.previous[m].key, op.call.prompt, op.call.options,
        SharedBytes(op.call.prompt, op.call.options), poor.proofHashes, poor.proofBytes);
    } else {
      if op.AdmitOp? {
        AdmitAgrees(rich, poor, op.call);
      } else {
        OtherOpsKeepPoorer(rich, poor, op);
      }
      var x := AgreesUntilCut(Apply(rich, op), Apply(poor, op), ops[1..]);
      k := x + 1;
      assert ops[..k][0] == op && ops[..k][1..] == ops[1..][..x];
    }
  }

  // ---------------------------------------------------------------------------------------------
  // Over a run a smaller budget can gain a hit
  // ---------------------------------------------------------------------------------------------

  const EMPTY := Text("")
  const FIRST := Link(Root, EMPTY, EMPTY)
  const SECOND := Link(FIRST, EMPTY, EMPTY)
  const AGENT := Agent("a")
  const CALL := Call(AGENT, EMPTY, EMPTY)

  /** The first of two equal calls has no result; the second has one, and is listed with its prompt. */
  const HISTORY := Snapshot(EMPTY,
    [Started(FIRST, AGENT), Started(SECOND, AGENT), Result(SECOND, AGENT, Plain(EMPTY), Some(true), false)], [],
    Some([Imported(SECOND, AGENT, EMPTY)]))

  function Resumed(hashes: nat, bytes: nat): Run {
    BeginRun(Some(HISTORY), EMPTY, ExactSourceSparse, false).(proofHashes := hashes, proofBytes := bytes)
  }

  function Fates(run: Run): (r: (bool, bool)) {
    var one := Lookup(run, CALL).hit;
    var two := Lookup(Admit(run, CALL).0, CALL).hit;
    (one.Some?, two.Some?)
  }

  const OPEN := Historical(FIRST, AGENT, None, None, None)
  const DONE := Historical(SECOND, AGENT, Some(HISTORY.records[2]), None, Some(EMPTY))

  lemma ImportMarks(calls: seq<Historical>)
    requires |calls| == 2 && !SameCall(calls[0], SECOND, AGENT) && SameCall(calls[1], SECOND, AGENT)
    ensures WithImports(WithSessions(calls, []), [Imported(SECOND, AGENT, EMPTY)]) ==
      [calls[0], calls[1].(importedPrompt := Some(EMPTY))]
  {
    assert calls[1..] == [calls[1]];
    assert FirstSame(calls, SECOND, AGENT) == 1;
    assert [Imported(SECOND, AGENT, EMPTY)][1..] == [];
  }

  lemma HistoryIs()
    ensures HistoricalCalls(HISTORY) == [OPEN, DONE]
  {
    var rs := HISTORY.records;
    var started := Historical(SECOND, AGENT, None, None, None);
    assert rs[..2] == [rs[0], rs[1]] && rs[..2][..1] == [rs[0]] && [rs[0]][..0] == [];
    assert Calls([rs[0]]) == [OPEN];
    assert Calls(rs[..2]) == [OPEN, started];
    assert [OPEN, started][1..] == [started];
    assert FirstOpen([OPEN, started], SECOND, AGENT) == 1;
    var ended := started.(result := Some(rs[2]));
    assert Calls(rs) == [OPEN, ended];
    ImportMarks([OPEN, ended]);
  }

  lemma KeysAre()
    ensures [Root] + DistinctKeys([OPEN, DONE]) == [Root, FIRST, SECOND]
  {
    assert [OPEN, DONE][..1] == [OPEN] && [OPEN][..0] == [];
    assert DistinctKeys([OPEN]) == [FIRST];
  }

  /** Proving the second call's options takes two hashes of 2 and 69 bytes. */
  lemma ProofNeeds(hashes: nat, bytes: nat)
    ensures Prove([Root, FIRST, SECOND], SECOND, EMPTY, EMPTY, 2, hashes, bytes).found <==> hashes >= 2 && bytes >= 71
  {
    var keys := [Root, FIRST, SECOND];
    assert keys[1..] == [FIRST, SECOND] && keys[1..][1..] == [SECOND] && keys[1..][1..][1..] == [];
  }

  lemma FirstMatch(run: Run)
    requires run.previous == [OPEN, DONE] && run.sparse && run.tracking && run.consumed == {} && run.previousKey == Root
    ensures var m := Lookup(run, CALL).replaced;
      if run.proofHashes >= 2 && run.proofBytes >= 71 then m == Some(1) && Lookup(run, CALL).hit == m else m.None?
  {
    assert FindDirect(run, FIRST, 2) == 2 && FindDirect(run, FIRST, 1) == 2 && FindDirect(run, FIRST, 0) == 2;
    assert FindPrompt(run.previous, EMPTY, 2) == 2 && FindPrompt(run.previous, EMPTY, 1) == 1;
    assert UniqueImport(run.previous, EMPTY) == Some(1);
    KeysAre();
    assert SharedBytes(EMPTY, EMPTY) == 2;
    ProofNeeds(run.proofHashes, run.proofBytes);
  }

  lemma SecondMatch(run: Run)
    requires run.previous == [OPEN, DONE] && run.sparse && run.tracking && run.previousKey == FIRST
    requires run.consumed == {} || run.consumed == {1}
    ensures Lookup(run, CALL).hit.Some? <==> run.consumed == {}
  {
    assert FindDirect(run, SECOND, 2) == 2;
    assert FindDirect(run, SECOND, 1) == if 1 in run.consumed then 2 else 1;
    assert FindDirect(run, SECOND, 0) == FindDirect(run, SECOND, 1);
    assert FindPrompt(run.previous, EMPTY, 1) == 1;
  }

  /** With budget for one proof the first call takes the result by its prompt and the second finds it gone;
      with less the first call misses and the second hits under its own key. */
  lemma BudgetCanGainHits(hashes: nat, bytes: nat)
    ensures Fates(Resumed(hashes, bytes)) == if hashes >= 2 && bytes >= 71 then (true, false) else (false, true)
  {
    HistoryIs();
    var run := Resumed(hashes, bytes);
    FirstMatch(run);
    AdmitConsumes(run, CALL);
    SecondMatch(Admit(run, CALL).0);
  }
}
