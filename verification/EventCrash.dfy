/**
  The event log over any number of process lifetimes: appends, crashes at any byte, and recoveries that
  may themselves be cut short.
 */
module EventCrash {
  import opened Common
  import opened EventLogSpec
  import opened EventScanSpec

  /** `records`, `crash` and `acknowledged` are history: the complete records in the log, the append the
      process died in, and the records whose append returned. */
  datatype State = State(disk: Disk, up: bool, records: seq<Stored>, crash: Option<Crash>, acknowledged: seq<Stored>)

  datatype Op = Append(record: Stored) | Die(crash: Option<Crash>) | HalfRecover | Recover

  predicate Enabled(c: Codec, s: State, op: Op) {
    match op
    case Append(r) => s.up && Appendable(s.disk.manifest, r) && Fits(c, r)
    case Die(crash) =>
      s.up && (crash.Some? ==>
        Appendable(s.disk.manifest, crash.value.record) && Fits(c, crash.value.record) &&
        Possible(c, crash.value))
    case HalfRecover => !s.up
    case Recover => !s.up
  }

  /** What the log holds once its tail is repaired. */
  function Complete(c: Codec, s: State): seq<Stored> {
    if s.crash.None? then s.records else Survivors(c, s.records, s.crash.value)
  }

  function Step(c: Codec, s: State, op: Op): State
    requires Enabled(c, s, op)
  {
    match op
    case Append(r) =>
      s.(disk := Disk(s.disk.log + Line(c, r), ApplyEvent(s.disk.manifest, r)), records := s.records + [r],
         acknowledged := s.acknowledged + [r])
    case Die(crash) =>
      s.(up := false, crash := crash, disk := if crash.None? then s.disk else Crashed(c, s.disk, crash.value))
    case HalfRecover =>
      var log := Repaired(c, s.disk.log);
      if log.None? then s else s.(disk := s.disk.(log := log.value), records := Complete(c, s), crash := None)
    case Recover =>
      var disk := Recovered(c, s.disk);
      if disk.None? then s else s.(disk := disk.value, up := true, records := Complete(c, s), crash := None)
  }

  predicate EnabledRun(c: Codec, s: State, ops: seq<Op>)
    decreases |ops|
  {
    ops == [] || (Enabled(c, s, ops[0]) && EnabledRun(c, Step(c, s, ops[0]), ops[1..]))
  }

  function Run(c: Codec, s: State, ops: seq<Op>): State
    requires EnabledRun(c, s, ops)
    decreases |ops|
  {
    if ops == [] then s else Run(c, Step(c, s, ops[0]), ops[1..])
  }

  /** A run just created: an empty log and a manifest that counts nothing. */
  function Created(m: Manifest): State {
    State(Disk([], m), true, [], None, [])
  }

  // ---------------------------------------------------------------------------------------------
  // Invariant
  // ---------------------------------------------------------------------------------------------

  ghost predicate Undamaged(c: Codec, m: Manifest, s: State) {
    Coherent(c, m, s.records, s.disk) && (s.up ==> s.disk.manifest == Fold(m, s.records))
  }

  ghost predicate Damaged(c: Codec, m: Manifest, s: State)
    requires s.crash.Some?
  {
    var (k, before) := (s.crash.value, Disk(Lines(c, s.records), Fold(m, s.records)));
    && !s.up && Coherent(c, m, s.records, before)
    && Appendable(before.manifest, k.record) && Fits(c, k.record) && Possible(c, k)
    && s.disk == Crashed(c, before, k)
  }

  /** Every acknowledged record is where it was acknowledged. */
  ghost predicate Kept(s: State) {
    forall r :: r in s.acknowledged ==> 0 < r.cursor <= |s.records| && s.records[r.cursor - 1] == r
  }

  ghost predicate Inv(c: Codec, m: Manifest, s: State) {
    && m == Blank(m) && Kept(s)
    && if s.crash.None? then Undamaged(c, m, s) else Damaged(c, m, s)
  }

  lemma CompleteGrows(c: Codec, s: State)
    ensures s.records <= Complete(c, s)
  {
  }

  lemma AppendKeepsInv(c: Codec, m: Manifest, s: State, r: Stored)
    requires GoodCodec(c) && Inv(c, m, s) && Enabled(c, s, Append(r))
    ensures Inv(c, m, Step(c, s, Append(r)))
  {
    AppendKeeps(m, s.records, r);
    LinesPush(c, s.records, r);
    FoldPush(m, s.records, r);
    FoldCursor(m, s.records);
  }

  /** Repairing the tail leaves a log that holds exactly the complete records. */
  lemma RepairedCoherent(c: Codec, m: Manifest, s: State)
    requires GoodCodec(c) && Inv(c, m, s) && !s.up
    ensures Repaired(c, s.disk.log) == Some(Lines(c, Complete(c, s)))
    ensures Coherent(c, m, Complete(c, s), Disk(Lines(c, Complete(c, s)), s.disk.manifest))
  {
    if s.crash.None? {
      if s.records != [] {
        LinesEnd(c, s.records);
      }
    } else {
      var k := s.crash.value;
      assert GoodRecord(c, k.record);
      RepairOfTorn(c, s.records, k.record, k.written);
      AppendKeeps(m, s.records, k.record);
      FoldPush(m, s.records, k.record);
      assert (s.records + [k.record])[..|s.records|] == s.records;
    }
  }

  lemma StillKept(c: Codec, s: State, t: State)
    requires Kept(s) && t.acknowledged == s.acknowledged && s.records <= t.records
    ensures Kept(t)
  {
  }

  lemma RecoverKeepsInv(c: Codec, m: Manifest, s: State)
    requires GoodCodec(c) && Inv(c, m, s) && !s.up
    ensures Recovered(c, s.disk).Some? && Repaired(c, s.disk.log).Some?
    ensures Inv(c, m, Step(c, s, Recover)) && Inv(c, m, Step(c, s, HalfRecover))
  {
    var all := Complete(c, s);
    RepairedCoherent(c, m, s);
    RecoveredCoherent(c, m, all, Disk(Lines(c, all), s.disk.manifest), s.disk.log);
    CompleteGrows(c, s);
    StillKept(c, s, Step(c, s, Recover));
    StillKept(c, s, Step(c, s, HalfRecover));
  }

  lemma StepKeepsInv(c: Codec, m: Manifest, s: State, op: Op)
    requires GoodCodec(c) && Inv(c, m, s) && Enabled(c, s, op)
    ensures Inv(c, m, Step(c, s, op)) && s.records <= Step(c, s, op).records
  {
    match op
    case Append(r) => AppendKeepsInv(c, m, s, r);
    case Die(_) =>
    case HalfRecover => RecoverKeepsInv(c, m, s);
    case Recover => RecoverKeepsInv(c, m, s);
  }

  lemma {:induction false} RunKeepsInv(c: Codec, m: Manifest, s: State, ops: seq<Op>)
    requires GoodCodec(c) && Inv(c, m, s) && EnabledRun(c, s, ops)
    ensures Inv(c, m, Run(c, s, ops)) && s.records <= Run(c, s, ops).records
    decreases |ops|
  {
    if ops != [] {
      StepKeepsInv(c, m, s, ops[0]);
      RunKeepsInv(c, m, Step(c, s, ops[0]), ops[1..]);
    }
  }

  /** Over any lifetimes: whenever the store is up, the log is the records, the manifest is their fold
      and counts them, sequences run from one, only the last event may be terminal, and every
      acknowledged record is still where it was. */
  lemma LogSurvivesCrashes(c: Codec, m: Manifest, ops: seq<Op>)
    requires GoodCodec(c) && m == Blank(m) && EnabledRun(c, Created(m), ops)
    ensures var s := Run(c, Created(m), ops);
      && Numbered(s.records) && TerminalLast(s.records) && Kept(s)
      && (s.up ==>
        s.disk.log == Lines(c, s.records) && s.disk.manifest == Fold(m, s.records) &&
        s.disk.manifest.cursor == |s.records|)
      && (!s.up ==> Recovered(c, s.disk).Some?)
  {
    var s := Run(c, Created(m), ops);
    RunKeepsInv(c, m, Created(m), ops);
    FoldCursor(m, s.records);
    if !s.up {
      RecoverKeepsInv(c, m, s);
    }
  }

  /** One crash costs at most the record in flight: what recovery keeps is what was there, or that and
      the one record whose append had not returned. */
  lemma OneCrash(c: Codec, m: Manifest, s: State, crash: Crash)
    requires GoodCodec(c) && Inv(c, m, s) && Enabled(c, s, Die(Some(crash)))
    ensures var t := Step(c, Step(c, s, Die(Some(crash))), Recover);
      && t.up && t.disk.manifest == Fold(m, t.records)
      && (t.records == s.records || t.records == s.records + [crash.record])
      && (t.records == s.records <==> crash.written < |c.encode(crash.record)|)
  {
    var down := Step(c, s, Die(Some(crash)));
    StepKeepsInv(c, m, s, Die(Some(crash)));
    RecoverKeepsInv(c, m, down);
    StepKeepsInv(c, m, down, Recover);
    assert |s.records + [crash.record]| != |s.records|;
  }

  /** Dying again during recovery changes nothing: the next recovery ends where the first would have. */
  lemma RecoveryRestarts(c: Codec, m: Manifest, s: State)
    requires GoodCodec(c) && Inv(c, m, s) && !s.up
    ensures Step(c, Step(c, s, HalfRecover), Recover).disk == Step(c, s, Recover).disk
    ensures Step(c, Step(c, s, HalfRecover), Recover).records == Step(c, s, Recover).records
  {
    var half := Step(c, s, HalfRecover);
    RecoverKeepsInv(c, m, s);
    RecoverKeepsInv(c, m, half);
    StepKeepsInv(c, m, half, Recover);
  }
}
