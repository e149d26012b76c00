/**
  The durable event log of src/fileWorkflowStore.ts at byte level: one JSON record and a newline per
  event, and a manifest that is the fold of the events it counts.
 */
module EventLogSpec {
  import opened Common

  const NEWLINE: Byte := 0x0A
  const TAIL_WINDOW := 1024 * 1024

  datatype Text = Text(chars: string)

  datatype Kind =
    | Started
    | CancellationRequested(reason: Option<Text>)
    | Completed(withErrors: bool, result: Text)
    | Failed(message: Text)
    | Cancelled(reason: Option<Text>)
    | Interrupted(cause: Text)
    | Other(content: Text)

  datatype Event = Event(sequence: nat, kind: Kind)

  /** One line of the log. Run ids are left out: a log holds one run. */
  datatype Stored = Stored(cursor: nat, recordedAt: int, event: Event)

  datatype Status =
    | Queued | Running | CancellationAsked
    | Done | DoneWithErrors | FailedRun | CancelledRun | InterruptedRun

  /** `identity` stands for the fields that no event changes. */
  datatype Manifest = Manifest(
    identity: Text,
    createdAt: int,
    status: Status,
    cursor: nat,
    updatedAt: int,
    error: Option<Text>,
    cancellationReason: Option<Text>,
    result: Option<Text>)

  predicate TerminalStatus(s: Status) {
    s.Done? || s.DoneWithErrors? || s.FailedRun? || s.CancelledRun? || s.InterruptedRun?
  }

  predicate TerminalKind(k: Kind) {
    k.Completed? || k.Failed? || k.Cancelled? || k.Interrupted?
  }

  /** A reason that is not given leaves the one before. Result bodies are kept out of the manifest; what is
      kept is the reference to them. */
  function ApplyEvent(m: Manifest, stored: Stored): Manifest {
    var n := m.(cursor := stored.cursor, updatedAt := stored.recordedAt);
    match stored.event.kind
    case Started => n.(status := Running)
    case CancellationRequested(reason) =>
      n.(status := CancellationAsked, cancellationReason := if reason.Some? then reason else m.cancellationReason)
    case Completed(withErrors, result) => n.(status := if withErrors then DoneWithErrors
      else Done, result := Some(result))
    case Failed(message) => n.(status := FailedRun, error := Some(message))
    case Cancelled(reason) =>
      n.(status := CancelledRun, cancellationReason := if reason.Some? then reason else m.cancellationReason)
    case Interrupted(cause) => n.(status := InterruptedRun, error := Some(cause))
    case Other(_) => n
  }

  /** A manifest before its first event; recovery starts over from it. */
  function Blank(m: Manifest): Manifest {
    Manifest(m.identity, m.createdAt, Queued, 0, m.createdAt, None, None, None)
  }

  function Fold(m: Manifest, records: seq<Stored>): Manifest {
    if records == [] then m else ApplyEvent(Fold(m, records[..|records| - 1]), records[|records| - 1])
  }

  // ---------------------------------------------------------------------------------------------
  // Encoding
  // ---------------------------------------------------------------------------------------------

  /** JSON serialization of records, and what JSON.parse accepts. */
  datatype Codec = Codec(encode: Stored -> Bytes, decode: Bytes -> Option<Stored>, json: Bytes -> bool)

  ghost predicate GoodRecord(c: Codec, r: Stored) {
    var t := c.encode(r);
    && t != [] && NEWLINE !in t
    && c.decode(t) == Some(r)
    && c.json(t) && (forall k :: 0 <= k < |t| ==> !c.json(t[..k]))
  }

  /** A record's text has no newline, reads back as the record, and no proper prefix of it is JSON. */
  ghost predicate GoodCodec(c: Codec) {
    forall r: Stored :: GoodRecord(c, r)
  }

  function Line(c: Codec, r: Stored): Bytes {
    c.encode(r) + [NEWLINE]
  }

  function Lines(c: Codec, records: seq<Stored>): Bytes {
    if records == [] then [] else Lines(c, records[..|records| - 1]) + Line(c, records[|records| - 1])
  }

  /** Cursors and event sequences count from one. */
  ghost predicate Numbered(records: seq<Stored>) {
    forall i :: 0 <= i < |records| ==> records[i].cursor == i + 1 && records[i].event.sequence == i + 1
  }

  /** At most one event is terminal, and it is the last. */
  ghost predicate TerminalLast(records: seq<Stored>) {
    forall i :: 0 <= i < |records| - 1 ==> !TerminalKind(records[i].event.kind)
  }

  lemma Reassociate(a: Bytes, b: Bytes, d: Bytes)
    ensures a + b + d == a + (b + d)
  {
  }

  lemma {:induction false} LinesAppend(c: Codec, a: seq<Stored>, b: seq<Stored>)
    ensures Lines(c, a + b) == Lines(c, a) + Lines(c, b)
    decreases |b|
  {
    if b == [] {
      assert a + b == a;
      assert Lines(c, a) + [] == Lines(c, a);
    } else {
      var n := |b| - 1;
      LinesAppend(c, a, b[..n]);
      assert (a + b)[..|a + b| - 1] == a + b[..n];
      Reassociate(Lines(c, a), Lines(c, b[..n]), Line(c, b[n]));
    }
  }

  lemma LinesOne(c: Codec, r: Stored)
    ensures Lines(c, [r]) == Line(c, r)
  {
    assert [r][..0] == [];
    assert [] + Line(c, r) == Line(c, r);
  }

  lemma LinesPush(c: Codec, records: seq<Stored>, r: Stored)
    ensures Lines(c, records + [r]) == Lines(c, records) + Line(c, r)
  {
    LinesAppend(c, records, [r]);
    LinesOne(c, r);
  }

  /** Byte offset of record `k`. */
  function Offset(c: Codec, records: seq<Stored>, k: nat): nat
    requires k <= |records|
  {
    |Lines(c, records[..k])|
  }

  /** The log from record `k` on. */
  lemma LinesFrom(c: Codec, records: seq<Stored>, k: nat)
    requires k <= |records|
    ensures Offset(c, records, k) <= |Lines(c, records)|
    ensures Lines(c, records)[Offset(c, records, k)..] == Lines(c, records[k..])
    ensures Lines(c, records)[..Offset(c, records, k)] == Lines(c, records[..k])
  {
    LinesAppend(c, records[..k], records[k..]);
    assert records == records[..k] + records[k..];
  }

  lemma LinesHead(c: Codec, records: seq<Stored>, k: nat)
    requires k < |records|
    ensures Lines(c, records[k..]) == Line(c, records[k]) + Lines(c, records[k + 1..])
    ensures Offset(c, records, k + 1) == Offset(c, records, k) + |Line(c, records[k])|
  {
    assert records[k..] == [records[k]] + records[k + 1..];
    LinesAppend(c, [records[k]], records[k + 1..]);
    LinesOne(c, records[k]);
    assert records[..k + 1] == records[..k] + [records[k]];
    LinesPush(c, records[..k], records[k]);
  }

  // ---------------------------------------------------------------------------------------------
  // Folds
  // ---------------------------------------------------------------------------------------------

  lemma FoldPush(m: Manifest, records: seq<Stored>, r: Stored)
    ensures Fold(m, records + [r]) == ApplyEvent(Fold(m, records), r)
  {
    assert (records + [r])[..|records|] == records;
  }

  lemma {:induction false} FoldCursor(m: Manifest, records: seq<Stored>)
    requires Numbered(records) && m.cursor == 0
    ensures Fold(m, records).cursor == |records|
    decreases |records|
  {
    if records != [] {
      FoldCursor(m, records[..|records| - 1]);
    }
  }

  lemma {:induction false} FoldKeepsBlank(m: Manifest, records: seq<Stored>)
    ensures Blank(Fold(m, records)) == Blank(m)
    decreases |records|
  {
    if records != [] {
      FoldKeepsBlank(m, records[..|records| - 1]);
    }
  }

  /** The status is terminal exactly when the last event is. */
  lemma {:induction false} FoldTerminal(m: Manifest, records: seq<Stored>)
    requires TerminalLast(records) && !TerminalStatus(m.status)
    ensures TerminalStatus(Fold(m, records).status) <==>
      records != [] &&
      TerminalKind(records[|records| - 1].event.kind)
    decreases |records|
  {
    if records != [] {
      FoldTerminal(m, records[..|records| - 1]);
    }
  }

  // ---------------------------------------------------------------------------------------------
  // Recovery of the tail
  // ---------------------------------------------------------------------------------------------

  /** The index after the last newline, or zero. */
  function LastStart(t: Bytes): (i: nat)
    ensures i <= |t| && (i > 0 ==> t[i - 1] == NEWLINE) && (forall j :: i <= j < |t| ==> t[j] != NEWLINE)
    decreases |t|
  {
    if t == [] then 0
    else if t[|t| - 1] == NEWLINE then |t|
    else LastStart(t[..|t| - 1])
  }

  lemma LastStartIs(head: Bytes, torn: Bytes)
    requires NEWLINE !in torn && (head == [] || head[|head| - 1] == NEWLINE)
    ensures LastStart(head + torn) == |head|
  {
    var t := head + torn;
    assert forall j :: |head| <= j < |t| ==> t[j] == torn[j - |head|];
    assert head != [] ==> t[|head| - 1] == NEWLINE;
  }

  /** Where the unterminated tail starts; `None` when the window recovery reads has no newline. */
  function TailStart(log: Bytes): (start: Option<nat>)
    ensures start.Some? ==> start.value <= |log|
  {
    var window := if |log| <= TAIL_WINDOW then |log| else TAIL_WINDOW;
    var skipped := |log| - window;
    var start := LastStart(log[skipped..]);
    if start == 0 && |log| > window then None else Some(skipped + start)
  }

  /** The repaired log, or `None` where recovery reports a corrupt store. */
  function Repaired(c: Codec, log: Bytes): Option<Bytes> {
    if log == [] || log[|log| - 1] == NEWLINE then Some(log)
    else
      var start := TailStart(log);
      if start.None? then None
      else if c.json(log[start.value..]) then Some(log + [NEWLINE])
      else Some(log[..start.value])
  }

  /** A record that fits the window recovery reads. */
  predicate Fits(c: Codec, r: Stored) {
    |Line(c, r)| <= TAIL_WINDOW
  }

  lemma LinesEnd(c: Codec, records: seq<Stored>)
    requires records != []
    ensures Lines(c, records) != [] && Lines(c, records)[|Lines(c, records)| - 1] == NEWLINE
  {
  }

  lemma TailStartIs(head: Bytes, torn: Bytes)
    requires NEWLINE !in torn && |torn| < TAIL_WINDOW && (head == [] || head[|head| - 1] == NEWLINE)
    ensures TailStart(head + torn) == Some(|head|)
  {
    var log := head + torn;
    var window := if |log| <= TAIL_WINDOW then |log| else TAIL_WINDOW;
    var skipped := |log| - window;
    assert log[skipped..] == head[skipped..] + torn;
    assert head[skipped..] != [] ==> head[skipped..][|head[skipped..]| - 1] == head[|head| - 1];
    LastStartIs(head[skipped..], torn);
  }

  /** Byte `i` on there is no line feed. */
  predicate NoLineFeedFrom(log: Bytes, i: int) {
    forall j :: 0 <= j < |log| && i <= j ==> log[j] != 0x0A
  }

  /** The tail begins after the last line feed; it is not found exactly when the log is longer than 1 MiB and the
      last MiB has none. */
  lemma TailStartIff(log: Bytes)
    ensures TailStart(log).None? <==> |log| > 1_048_576 && NoLineFeedFrom(log, |log| - 1_048_576)
    ensures var start := TailStart(log);
      start.Some? ==> NoLineFeedFrom(log, start.value) && (start.value > 0 ==> log[start.value - 1] == 0x0A)
  {
    var window := if |log| <= TAIL_WINDOW then |log| else TAIL_WINDOW;
    var skipped := |log| - window;
    var t := log[skipped..];
    assert forall j :: 0 <= j < |t| ==> t[j] == log[skipped + j];
    assert forall j :: skipped <= j < |log| ==> log[j] == t[j - skipped];
  }

  /** What repair does to a log whose unterminated last line begins at byte `i`. */
  function Mended(c: Codec, log: Bytes, i: nat): Bytes
    requires i <= |log|
  {
    if c.json(log[i..]) then log + [0x0A] else log[..i]
  }

  /** Repair leaves a terminated log alone, completes a last line that is JSON, cuts any other back to the line feed
      before it, and reports a log whose last MiB is one unterminated line. */
  lemma RepairIff(c: Codec, log: Bytes)
    ensures log == [] || log[|log| - 1] == 0x0A ==> Repaired(c, log) == Some(log)
    ensures Repaired(c, log).None? <==>
      log != [] && log[|log| - 1] != 0x0A && |log| > 1_048_576 && NoLineFeedFrom(log, |log| - 1_048_576)
    ensures Repaired(c, log).Some? && log != [] && log[|log| - 1] != 0x0A ==>
      exists i: nat :: i <= |log| && NoLineFeedFrom(log, i) && (i > 0 ==> log[i - 1] == 0x0A) &&
        Repaired(c, log) == Some(Mended(c, log, i))
  {
    TailStartIff(log);
    var start := TailStart(log);
    if start.Some? && log != [] && log[|log| - 1] != 0x0A {
      assert NoLineFeedFrom(log, start.value) && Repaired(c, log) == Some(Mended(c, log, start.value));
    }
  }

  /** A line ends with a line feed and has no other. */
  lemma LineIs(c: Codec, r: Stored)
    requires GoodRecord(c, r)
    ensures Line(c, r) == c.encode(r) + [0x0A] && 0x0A !in c.encode(r)
  {
  }

  lemma TornTail(c: Codec, records: seq<Stored>, torn: Bytes)
    requires torn != [] && NEWLINE !in torn && |torn| < TAIL_WINDOW
    ensures var log := Lines(c, records) + torn;
      Repaired(c, log) == Some(if c.json(torn) then log + [NEWLINE] else Lines(c, records))
  {
    var head := Lines(c, records);
    var log := head + torn;
    if records != [] {
      LinesEnd(c, records);
    }
    TailStartIs(head, torn);
    assert log[|log| - 1] == torn[|torn| - 1] && torn[|torn| - 1] in torn;
    assert log[|head|..] == torn && log[..|head|] == head;
  }

  /** A torn append leaves `w` bytes of its line; the repair keeps the record exactly when all its bytes
      but the newline made it, and otherwise removes nothing but the torn bytes. */
  lemma RepairOfTorn(c: Codec, records: seq<Stored>, r: Stored, w: nat)
    requires GoodRecord(c, r) && Fits(c, r) && w <= |Line(c, r)|
    ensures Repaired(c, Lines(c, records) + Line(c, r)[..w]) ==
      Some(if w < |c.encode(r)| then Lines(c, records) else Lines(c, records + [r]))
  {
    LinesPush(c, records, r);
    var head, torn := Lines(c, records), Line(c, r)[..w];
    if w == 0 {
      assert head + torn == head;
      if records != [] {
        LinesEnd(c, records);
      }
    } else if w == |Line(c, r)| {
      assert torn == Line(c, r);
      LinesEnd(c, records + [r]);
    } else {
      assert torn == c.encode(r)[..w];
      TornTail(c, records, torn);
      if w == |c.encode(r)| {
        assert torn == c.encode(r);
        Reassociate(head, torn, [NEWLINE]);
      }
    }
  }
}
