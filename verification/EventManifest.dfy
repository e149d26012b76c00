/**
  What a manifest says of its run, told by the event log alone: each field is what the last event that sets it
  says, so a recovered manifest can be read without knowing how it was folded.
 */
module EventManifest {
  import opened Common
  import opened EventLogSpec

  predicate SetsStatus(r: Stored) {
    !r.event.kind.Other?
  }

  predicate SetsError(r: Stored) {
    r.event.kind.Failed? || r.event.kind.Interrupted?
  }

  predicate SetsReason(r: Stored) {
    (r.event.kind.CancellationRequested? || r.event.kind.Cancelled?) && r.event.kind.reason.Some?
  }

  predicate SetsResult(r: Stored) {
    r.event.kind.Completed?
  }

  function StatusOf(k: Kind): Status {
    match k
    case Started => Running
    case CancellationRequested(_) => CancellationAsked
    case Completed(withErrors, _) => if withErrors then DoneWithErrors else Done
    case Failed(_) => FailedRun
    case Cancelled(_) => CancelledRun
    case Interrupted(_) => InterruptedRun
    case Other(_) => Queued
  }

  function ErrorOf(k: Kind): Option<Text> {
    match k
    case Failed(message) => Some(message)
    case Interrupted(cause) => Some(cause)
    case _ => None
  }

  /** The manifest of a run that began blank, field by field. */
  ghost predicate SaysLog(m: Manifest, blank: Manifest, records: seq<Stored>) {
    var status, error := LastWhere(records, SetsStatus), LastWhere(records, SetsError);
    var reason, result := LastWhere(records, SetsReason), LastWhere(records, SetsResult);
    && m.identity == blank.identity && m.createdAt == blank.createdAt
    && m.status == (if status.Some? then StatusOf(status.value.event.kind) else Queued)
    && m.error == (if error.Some? then ErrorOf(error.value.event.kind) else None)
    && m.cancellationReason == (if reason.Some? then reason.value.event.kind.reason else None)
    && m.result == (if result.Some? then Some(result.value.event.kind.result) else None)
    && (if records == [] then m.cursor == 0 && m.updatedAt == blank.createdAt
        else m.cursor == records[|records| - 1].cursor && m.updatedAt == records[|records| - 1].recordedAt)
  }

  lemma SaysOneMore(m: Manifest, blank: Manifest, records: seq<Stored>, r: Stored)
    requires SaysLog(m, blank, records)
    ensures SaysLog(ApplyEvent(m, r), blank, records + [r])
  {
    LastWherePush(records, r, SetsStatus);
    LastWherePush(records, r, SetsError);
    LastWherePush(records, r, SetsReason);
    LastWherePush(records, r, SetsResult);
  }

  /** Folding the log over a blank manifest says exactly what the log says. */
  lemma {:induction false} ManifestSaysLog(m: Manifest, records: seq<Stored>)
    ensures SaysLog(Fold(Blank(m), records), m, records)
    decreases |records|
  {
    if records != [] {
      var n := |records| - 1;
      assert records == records[..n] + [records[n]];
      ManifestSaysLog(m, records[..n]);
      SaysOneMore(Fold(Blank(m), records[..n]), m, records[..n], records[n]);
    }
  }
}
