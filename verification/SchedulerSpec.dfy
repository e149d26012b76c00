/**
  What the provider scheduler of src/workConservingScheduler.ts computes, and what whole runs of it
  guarantee: a fair semaphore that rotates among the fairness keys of its waiters. The class in
  Scheduler.dfy is the code that updates fields, proved to compute exactly these functions.
 */
module SchedulerSpec {
  import opened Common

  /** A fairness key; the runtime passes the run's identifier. */
  datatype Key = Key(name: string)

  /** One queued `acquire`: its request number, fairness key and abort signal. */
  datatype Waiter = Waiter(id: nat, key: Key, signal: nat)

  /** `held` are the leases whose `released` flag is still false; the logs record the requests made
      and the promises resolved and rejected so far, in order. */
  datatype State = State(
    capacity: nat,
    active: nat,
    waiters: seq<Waiter>,
    last: Option<Key>,
    held: set<nat>,
    aborted: set<nat>,
    requests: seq<Waiter>,
    granted: seq<Waiter>,
    rejected: seq<Waiter>)

  /** The distinct keys in order of first occurrence: the source's `[...new Set(keys)]`. */
  function UniqueKeys(ws: seq<Waiter>): (r: seq<Key>)
    ensures forall k :: k in r <==> exists w :: w in ws && w.key == k
    ensures forall i, j :: 0 <= i < j < |r| ==> r[i] != r[j]
    ensures ws != [] ==> r != []
  {
    if ws == [] then []
    else
      var rest := UniqueKeys(ws[..|ws| - 1]);
      assert ws == ws[..|ws| - 1] + [ws[|ws| - 1]];
      if ws[|ws| - 1].key in rest then rest else rest + [ws[|ws| - 1].key]
  }

  /** JavaScript's `indexOf`. */
  function IndexOf(keys: seq<Key>, k: Key): (i: int)
    ensures -1 <= i < |keys|
    ensures i >= 0 ==> keys[i] == k
    ensures k in keys <==> i >= 0
    ensures forall j :: 0 <= j < i ==> keys[j] != k
  {
    if keys == [] then -1
    else if keys[0] == k then 0
    else
      var rest := IndexOf(keys[1..], k);
      assert keys == [keys[0]] + keys[1..];
      assert forall j :: 0 < j < |keys| ==> keys[j] == keys[1..][j - 1];
      if rest < 0 then -1 else rest + 1
  }

  /** The first waiter with key `k`: `findIndex` in the source. */
  function FirstWith(ws: seq<Waiter>, k: Key): (i: nat)
    requires exists w :: w in ws && w.key == k
    ensures i < |ws| && ws[i].key == k
    ensures forall j :: 0 <= j < i ==> ws[j].key != k
  {
    if ws[0].key == k then 0
    else
      assert ws == [ws[0]] + ws[1..];
      var i := 1 + FirstWith(ws[1..], k);
      assert forall j :: 0 < j < i ==> ws[j] == ws[1..][j - 1];
      i
  }

  /** The key whose turn it is: the one after the last granted key in the ring of waiting keys. */
  function NextKey(ws: seq<Waiter>, last: Option<Key>): (k: Key)
    requires ws != []
    ensures k in UniqueKeys(ws)
  {
    var keys := UniqueKeys(ws);
    var previous := if last.None? then -1 else IndexOf(keys, last.value);
    keys[(previous + 1) % |keys|]
  }

  function NextIndex(ws: seq<Waiter>, last: Option<Key>): (i: nat)
    requires ws != []
    ensures i < |ws|
  {
    FirstWith(ws, NextKey(ws, last))
  }

  function Grant(s: State, w: Waiter): State {
    s.(active := s.active + 1, last := Some(w.key), held := s.held + {w.id}, granted := s.granted + [w])
  }

  /** Take the waiter at `i` off the queue; reject it if it was aborted, otherwise grant it. */
  function SettleAt(s: State, i: nat): (s': State)
    requires i < |s.waiters|
    ensures |s'.waiters| == |s.waiters| - 1
  {
    var w := s.waiters[i];
    var popped := s.(waiters := s.waiters[..i] + s.waiters[i + 1..]);
    if w.signal in s.aborted then popped.(rejected := s.rejected + [w]) else Grant(popped, w)
  }

  /** One iteration of the drain loop. */
  function DrainOne(s: State): (s': State)
    requires s.waiters != []
    ensures |s'.waiters| == |s.waiters| - 1
  {
    SettleAt(s, NextIndex(s.waiters, s.last))
  }

  predicate Drainable(s: State) {
    s.active < s.capacity && s.waiters != []
  }

  function Drain(s: State): State
    decreases |s.waiters|
  {
    if Drainable(s) then Drain(DrainOne(s)) else s
  }

  function Acquire(s: State, key: Key, signal: nat): State {
    var w := Waiter(|s.requests|, key, signal);
    var t := s.(requests := s.requests + [w]);
    if signal in s.aborted then t.(rejected := s.rejected + [w])
    else if s.active < s.capacity && s.waiters == [] then Grant(t, w)
    else Drain(t.(waiters := s.waiters + [w]))
  }

  function Returned(s: State, id: nat): State {
    s.(held := s.held - {id}, active := if s.active > 0 then s.active - 1 else 0)
  }

  function Release(s: State, id: nat): State {
    if id !in s.held then s
    else Drain(Returned(s, id))
  }

  /** The abort flag of a signal is set before its listeners run. */
  function SetAborted(s: State, signal: nat): State {
    s.(aborted := s.aborted + {signal})
  }

  function Without(ws: seq<Waiter>, w: Waiter): seq<Waiter> {
    Filter(ws, x => x != w)
  }

  /** A waiter's abort listener: it removes the waiter and rejects its promise. */
  function OnAbort(s: State, w: Waiter): State {
    if w !in s.waiters then s
    else s.(waiters := Without(s.waiters, w), rejected := s.rejected + [w])
  }

  datatype Op = AcquireOp(key: Key, signal: nat) | ReleaseOp(id: nat) | AbortOp(aborting: nat) | OnAbortOp(w: Waiter)

  function Apply(s: State, op: Op): State {
    match op
    case AcquireOp(key, signal) => Acquire(s, key, signal)
    case ReleaseOp(id) => Release(s, id)
    case AbortOp(signal) => SetAborted(s, signal)
    case OnAbortOp(w) => OnAbort(s, w)
  }

  function Run(s: State, ops: seq<Op>): State
    decreases |ops|
  {
    if ops == [] then s else Run(Apply(s, ops[0]), ops[1..])
  }

  function Initial(capacity: nat): State {
    State(capacity, 0, [], None, {}, {}, [], [], [])
  }

  // ---------------------------------------------------------------------------------------------
  // Safety of whole runs
  // ---------------------------------------------------------------------------------------------

  ghost predicate IncreasingIds(ws: seq<Waiter>) {
    forall i, j :: 0 <= i < j < |ws| ==> ws[i].id < ws[j].id
  }

  /** Grants of one key are in request order, and come before every waiter of that key. */
  ghost predicate FifoPerKey(granted: seq<Waiter>, waiters: seq<Waiter>) {
    && (forall i, j :: 0 <= i < j < |granted| && granted[i].key == granted[j].key ==> granted[i].id < granted[j].id)
    && (forall i, w :: 0 <= i < |granted| && w in waiters && granted[i].key == w.key ==> granted[i].id < w.id)
  }

  /** Every request has exactly one fate: it waits, was granted once, or was rejected once. */
  ghost predicate OneFate(s: State) {
    && (forall i :: 0 <= i < |s.requests| ==> s.requests[i].id == i)
    && multiset(s.waiters) + multiset(s.granted) + multiset(s.rejected) == multiset(s.requests)
  }

  ghost predicate LeasesGranted(held: set<nat>, granted: seq<Waiter>) {
    forall id :: id in held ==> exists g :: g in granted && g.id == id
  }

  /** Permits and requests are accounted for. */
  ghost predicate Accounts(s: State) {
    && 0 < s.capacity
    && s.active == |s.held| <= s.capacity
    && LeasesGranted(s.held, s.granted)
    && OneFate(s)
  }

  /** Waiters are in request order, grants of a key too, and `last` is the last grant's key. */
  ghost predicate Ordered(s: State) {
    && IncreasingIds(s.waiters)
    && FifoPerKey(s.granted, s.waiters)
    && (s.granted == [] ==> s.last.None? && s.waiters == [])
    && (s.granted != [] ==> s.last == Some(s.granted[|s.granted| - 1].key))
  }

  ghost predicate Inv(s: State) {
    Accounts(s) && Ordered(s)
  }

  /** No permit is idle while a request waits. */
  predicate WorkConserving(s: State) {
    s.waiters == [] || s.active == s.capacity
  }

  lemma AppendMembers<T>(ws: seq<T>, w: T)
    ensures forall x :: x in ws + [w] <==> x in ws || x == w
  {
  }

  lemma {:induction false} DistinctCount(ws: seq<Waiter>, w: Waiter)
    requires forall i :: 0 <= i < |ws| ==> ws[i].id == i
    ensures multiset(ws)[w] <= 1
  {
    if ws != [] {
      var ws' := ws[..|ws| - 1];
      assert ws == ws' + [ws[|ws| - 1]];
      DistinctCount(ws', w);
      if w in ws' {
        var i :| 0 <= i < |ws'| && ws'[i] == w;
        assert w.id == i;
      }
    }
  }

  /** A request is in at most one of the three places. */
  lemma FatesDisjoint(s: State, w: Waiter)
    requires OneFate(s) && w in s.waiters
    ensures forall g :: g in s.granted ==> g.id != w.id
    ensures w.id < |s.requests|
  {
    assert w in multiset(s.requests);
    assert w in s.requests;
    forall g | g in s.granted ensures g.id != w.id {
      assert g in multiset(s.requests);
      assert g in s.requests;
      DistinctCount(s.requests, w);
      assert g == w ==> (multiset(s.waiters) + multiset(s.granted) + multiset(s.rejected))[w] >= 2;
    }
  }

  lemma RemoveAt(ws: seq<Waiter>, i: nat)
    requires i < |ws| && IncreasingIds(ws)
    ensures IncreasingIds(ws[..i] + ws[i + 1..])
    ensures forall w :: w in ws[..i] + ws[i + 1..] ==> w in ws
    ensures multiset(ws) == multiset(ws[..i] + ws[i + 1..]) + multiset{ws[i]}
    ensures ws[i] !in ws[..i] + ws[i + 1..]
  {
    var r := ws[..i] + ws[i + 1..];
    assert forall j :: 0 <= j < |r| ==> r[j] == if j < i then ws[j] else ws[j + 1];
    assert ws == ws[..i] + [ws[i]] + ws[i + 1..];
  }

  /** Handing a permit to a fresh request keeps the accounts. */
  lemma GrantKeepsAccounts(s: State, w: Waiter)
    requires 0 < s.capacity && s.active == |s.held| < s.capacity && LeasesGranted(s.held, s.granted)
    requires forall g :: g in s.granted ==> g.id != w.id
    requires OneFate(Grant(s, w))
    ensures Accounts(Grant(s, w))
  {
    var t := Grant(s, w);
    assert w.id !in s.held;
    forall id | id in t.held ensures exists g :: g in t.granted && g.id == id {
      if id == w.id {
        assert t.granted[|s.granted|] == w;
      } else {
        var g :| g in s.granted && g.id == id;
        assert g in t.granted;
      }
    }
  }

  lemma GrantKeepsOrder(s: State, w: Waiter)
    requires IncreasingIds(s.waiters) && FifoPerKey(s.granted, s.waiters)
    requires forall i :: 0 <= i < |s.granted| && s.granted[i].key == w.key ==> s.granted[i].id < w.id
    requires forall x :: x in s.waiters && x.key == w.key ==> w.id < x.id
    ensures Ordered(Grant(s, w))
  {
  }

  /** The waiter chosen is the oldest of its key. */
  lemma ChosenIsOldest(ws: seq<Waiter>, i: nat)
    requires i < |ws| && IncreasingIds(ws) && forall j :: 0 <= j < i ==> ws[j].key != ws[i].key
    ensures forall x :: x in ws && x.key == ws[i].key && x != ws[i] ==> ws[i].id < x.id
  {
    forall x | x in ws && x.key == ws[i].key && x != ws[i] ensures ws[i].id < x.id {
      var j :| 0 <= j < |ws| && ws[j] == x;
      assert j > i;
    }
  }

  lemma RingStep(n: nat, p: nat)
    requires p < n
    ensures (p + 1) % n == if p + 1 == n then 0 else p + 1
  {
  }

  /** Two grants in a row share a key only when no other key waits. */
  lemma NextKeyRotates(ws: seq<Waiter>, last: Option<Key>)
    requires ws != []
    ensures last == Some(NextKey(ws, last)) ==> forall x :: x in ws ==> x.key == last.value
  {
    if last == Some(NextKey(ws, last)) {
      var keys := UniqueKeys(ws);
      var p := IndexOf(keys, last.value);
      RingStep(|keys|, p);
      assert |keys| == 1;
      forall x | x in ws ensures x.key == last.value {
        assert x.key in keys;
      }
    }
  }

  lemma RingStart(n: nat)
    requires n > 0
    ensures (-1 + 1) % n == 0
  {
  }

  lemma {:induction false} UniqueKeysPrefix(ws: seq<Waiter>, n: nat)
    requires n <= |ws|
    ensures UniqueKeys(ws[..n]) <= UniqueKeys(ws)
  {
    if n < |ws| {
      var ws' := ws[..|ws| - 1];
      UniqueKeysPrefix(ws', n);
      assert ws'[..n] == ws[..n];
    } else {
      assert ws[..n] == ws;
    }
  }

  lemma FrontKey(ws: seq<Waiter>)
    requires ws != []
    ensures UniqueKeys(ws)[0] == ws[0].key
  {
    UniqueKeysPrefix(ws, 1);
    assert ws[..1][..0] == [];
    assert UniqueKeys(ws[..1]) == [ws[0].key];
  }

  /** Before the first grant, and whenever nobody waits under the key granted last, the oldest waiter is next. */
  lemma OldestStartsTheRing(ws: seq<Waiter>, last: Option<Key>)
    requires ws != [] && (last.Some? ==> forall w :: w in ws ==> w.key != last.value)
    ensures NextKey(ws, last) == ws[0].key && NextIndex(ws, last) == 0
  {
    var keys := UniqueKeys(ws);
    FrontKey(ws);
    assert last.Some? ==> IndexOf(keys, last.value) == -1;
    RingStart(|keys|);
  }

  lemma SettleKeepsAccounts(s: State, i: nat)
    requires Accounts(s) && IncreasingIds(s.waiters) && Drainable(s) && i < |s.waiters|
    ensures Accounts(SettleAt(s, i))
  {
    var w := s.waiters[i];
    RemoveAt(s.waiters, i);
    FatesDisjoint(s, w);
    var popped := s.(waiters := s.waiters[..i] + s.waiters[i + 1..]);
    if w.signal in s.aborted {
      assert multiset(s.rejected + [w]) == multiset(s.rejected) + multiset{w};
    } else {
      assert multiset(s.granted + [w]) == multiset(s.granted) + multiset{w};
      GrantKeepsAccounts(popped, w);
    }
  }

  lemma SettleKeepsOrder(s: State, i: nat)
    requires Ordered(s) && Drainable(s) && i < |s.waiters|
    requires forall j :: 0 <= j < i ==> s.waiters[j].key != s.waiters[i].key
    ensures Ordered(SettleAt(s, i))
  {
    var w := s.waiters[i];
    RemoveAt(s.waiters, i);
    ChosenIsOldest(s.waiters, i);
    if w.signal !in s.aborted {
      GrantKeepsOrder(s.(waiters := s.waiters[..i] + s.waiters[i + 1..]), w);
    }
  }

  lemma {:induction false} DrainKeepsInv(s: State)
    requires Inv(s)
    ensures Inv(Drain(s)) && WorkConserving(Drain(s))
    ensures Drain(s).requests == s.requests && Drain(s).capacity == s.capacity && Drain(s).aborted == s.aborted
    decreases |s.waiters|
  {
    if Drainable(s) {
      SettleKeepsAccounts(s, NextIndex(s.waiters, s.last));
      SettleKeepsOrder(s, NextIndex(s.waiters, s.last));
      DrainKeepsInv(DrainOne(s));
    }
  }

  function Requested(s: State, w: Waiter): State {
    s.(requests := s.requests + [w])
  }

  lemma KnownIds(s: State)
    requires OneFate(s)
    ensures forall g :: g in s.granted || g in s.waiters ==> g.id < |s.requests|
  {
    forall g | g in s.granted || g in s.waiters ensures g.id < |s.requests| {
      assert g in multiset(s.requests);
      assert g in s.requests;
    }
  }

  lemma EnqueueKeepsOrder(granted: seq<Waiter>, ws: seq<Waiter>, w: Waiter)
    requires IncreasingIds(ws) && FifoPerKey(granted, ws)
    requires forall x :: x in granted || x in ws ==> x.id < w.id
    ensures IncreasingIds(ws + [w]) && FifoPerKey(granted, ws + [w])
  {
    AppendMembers(ws, w);
  }

  lemma EnqueueKeepsFates(s: State, w: Waiter)
    requires OneFate(s) && w.id == |s.requests|
    ensures OneFate(Requested(s, w).(waiters := s.waiters + [w]))
  {
  }

  lemma EnqueueKeepsInv(s: State, w: Waiter)
    requires Inv(s) && w.id == |s.requests| && s.granted != []
    ensures Inv(Requested(s, w).(waiters := s.waiters + [w]))
  {
    KnownIds(s);
    EnqueueKeepsOrder(s.granted, s.waiters, w);
    EnqueueKeepsFates(s, w);
  }

  lemma GrantNowKeepsInv(s: State, w: Waiter)
    requires Inv(s) && w.id == |s.requests| && s.waiters == [] && s.active < s.capacity
    ensures Inv(Grant(Requested(s, w), w))
  {
    KnownIds(s);
    assert multiset(s.granted + [w]) == multiset(s.granted) + multiset{w};
    GrantKeepsAccounts(Requested(s, w), w);
    GrantKeepsOrder(Requested(s, w), w);
  }

  lemma SomeGranted(s: State)
    requires Inv(s) && WorkConserving(s) && !(s.active < s.capacity && s.waiters == [])
    ensures s.granted != []
  {
    if s.waiters == [] {
      var id :| id in s.held;
      assert exists g :: g in s.granted && g.id == id;
    }
  }

  lemma RejectKeepsInv(s: State, w: Waiter)
    requires Inv(s) && w.id == |s.requests|
    ensures Inv(Requested(s, w).(rejected := s.rejected + [w]))
  {
    assert multiset(s.rejected + [w]) == multiset(s.rejected) + multiset{w};
  }

  lemma AcquireKeepsInv(s: State, key: Key, signal: nat)
    requires Inv(s) && WorkConserving(s)
    ensures Inv(Acquire(s, key, signal)) && WorkConserving(Acquire(s, key, signal))
  {
    var w := Waiter(|s.requests|, key, signal);
    if signal in s.aborted {
      RejectKeepsInv(s, w);
    } else if s.active < s.capacity && s.waiters == [] {
      GrantNowKeepsInv(s, w);
    } else {
      SomeGranted(s);
      EnqueueKeepsInv(s, w);
      DrainKeepsInv(Requested(s, w).(waiters := s.waiters + [w]));
    }
  }

  lemma ReleaseKeepsInv(s: State, id: nat)
    requires Inv(s) && WorkConserving(s)
    ensures Inv(Release(s, id)) && WorkConserving(Release(s, id))
  {
    if id in s.held {
      DrainKeepsInv(Returned(s, id));
    }
  }

  lemma WithoutAt(ws: seq<Waiter>, i: nat)
    requires IncreasingIds(ws) && i < |ws|
    ensures Without(ws, ws[i]) == ws[..i] + ws[i + 1..]
  {
    var keep := (x: Waiter) => x != ws[i];
    assert ws == ws[..i] + [ws[i]] + ws[i + 1..];
    FilterAppend(ws[..i] + [ws[i]], ws[i + 1..], keep);
    FilterAppend(ws[..i], [ws[i]], keep);
    FilterAll(ws[..i], keep);
    FilterAll(ws[i + 1..], keep);
    FilterOne(ws[i], keep);
  }

  lemma {:induction false} RemovedWaiter(ws: seq<Waiter>, w: Waiter)
    requires IncreasingIds(ws) && w in ws
    ensures IncreasingIds(Without(ws, w))
    ensures multiset(ws) == multiset(Without(ws, w)) + multiset{w}
  {
    var i :| 0 <= i < |ws| && ws[i] == w;
    RemoveAt(ws, i);
    WithoutAt(ws, i);
  }

  lemma OnAbortKeepsInv(s: State, w: Waiter)
    requires Inv(s) && WorkConserving(s)
    ensures Inv(OnAbort(s, w)) && WorkConserving(OnAbort(s, w))
  {
    if w in s.waiters {
      RemovedWaiter(s.waiters, w);
      var t := OnAbort(s, w);
      assert Ordered(t);
      assert OneFate(t) by {
        assert multiset(t.rejected) == multiset(s.rejected) + multiset{w};
      }
    }
  }

  lemma StepKeepsInv(s: State, op: Op)
    requires Inv(s) && WorkConserving(s)
    ensures Inv(Apply(s, op)) && WorkConserving(Apply(s, op))
  {
    match op
    case AcquireOp(key, signal) => AcquireKeepsInv(s, key, signal);
    case ReleaseOp(id) => ReleaseKeepsInv(s, id);
    case AbortOp(_) =>
    case OnAbortOp(w) => OnAbortKeepsInv(s, w);
  }

  /** In every state of every run: permits are never over-issued or lost, every request has exactly
      one fate, grants of a key are first come first served, and no permit idles beside a waiter. */
  lemma {:induction false} RunIsSafe(s: State, ops: seq<Op>)
    requires Inv(s) && WorkConserving(s)
    ensures Inv(Run(s, ops)) && WorkConserving(Run(s, ops))
    decreases |ops|
  {
    if ops != [] {
      StepKeepsInv(s, ops[0]);
      RunIsSafe(Apply(s, ops[0]), ops[1..]);
    }
  }

  lemma InitialIsSafe(capacity: nat)
    requires capacity > 0
    ensures Inv(Initial(capacity)) && WorkConserving(Initial(capacity))
  {
  }

  // ---------------------------------------------------------------------------------------------
  // Fairness
  // ---------------------------------------------------------------------------------------------

  lemma NewKeyAppended(ws: seq<Waiter>, i: nat)
    requires i < |ws| && forall j :: 0 <= j < i ==> ws[j].key != ws[i].key
    ensures UniqueKeys(ws[..i + 1]) == UniqueKeys(ws[..i]) + [ws[i].key]
  {
    assert ws[..i + 1][..i] == ws[..i];
    assert forall w :: w in ws[..i] ==> w.key != ws[i].key;
  }

  lemma PrefixIndex(ring: seq<Key>, before: seq<Key>, k: Key)
    requires before + [k] <= ring && forall i, j :: 0 <= i < j < |ring| ==> ring[i] != ring[j]
    ensures IndexOf(ring, k) == |before| && ring[..|before|] == before
  {
    assert ring[|before|] == (before + [k])[|before|];
    var i := IndexOf(ring, k);
  }

  /** The keys met before the first waiter of key `k` are those before `k` in the ring. */
  lemma KeysBeforeFirst(ws: seq<Waiter>, i: nat)
    requires i < |ws| && forall j :: 0 <= j < i ==> ws[j].key != ws[i].key
    ensures var ring := UniqueKeys(ws); var j := IndexOf(ring, ws[i].key);
      j >= 0 && UniqueKeys(ws[..i]) == ring[..j]
  {
    UniqueKeysPrefix(ws, i + 1);
    NewKeyAppended(ws, i);
    PrefixIndex(UniqueKeys(ws), UniqueKeys(ws[..i]), ws[i].key);
  }

  /** Where the ring stands: the place of the last granted key, or past the end when it left. */
  function Place(ring: seq<Key>, last: Key): (p: nat)
    ensures p <= |ring| && (p < |ring| ==> ring[p] == last)
  {
    var i := IndexOf(ring, last);
    if i < 0 then |ring| else i
  }

  /** Taking the first waiter of ring entry `j` leaves that entry's key at `j` or later. */
  lemma PlaceAfterTaking(ws: seq<Waiter>, i: nat)
    requires i < |ws| && forall j :: 0 <= j < i ==> ws[j].key != ws[i].key
    ensures Place(UniqueKeys(ws[..i] + ws[i + 1..]), ws[i].key) >= IndexOf(UniqueKeys(ws), ws[i].key)
  {
    var r := ws[..i] + ws[i + 1..];
    KeysBeforeFirst(ws, i);
    UniqueKeysPrefix(r, i);
    assert r[..i] == ws[..i];
    var before := UniqueKeys(ws[..i]);
    assert forall p :: 0 <= p < |before| ==> UniqueKeys(r)[p] == before[p];
  }

  lemma {:induction false} DistinctWithin(keys: seq<Key>, bound: set<Key>)
    requires forall i, j :: 0 <= i < j < |keys| ==> keys[i] != keys[j]
    requires forall k :: k in keys ==> k in bound
    ensures |keys| <= |bound|
  {
    if keys != [] {
      var k := keys[|keys| - 1];
      DistinctWithin(keys[..|keys| - 1], bound - {k});
    }
  }

  /** No waiter is aborted, and every key in play belongs to `bound`. */
  ghost predicate Quiet(s: State, bound: set<Key>) {
    && (forall w :: w in s.waiters ==> w.key in bound && w.signal !in s.aborted)
    && (s.last.Some? ==> s.last.value in bound)
  }

  lemma PlaceBound(s: State, bound: set<Key>)
    requires Quiet(s, bound) && s.last.Some?
    ensures Place(UniqueKeys(s.waiters), s.last.value) < |bound|
  {
    var ring := UniqueKeys(s.waiters);
    if s.last.value in ring {
      DistinctWithin(ring, bound);
    } else {
      DistinctWithin(ring, bound - {s.last.value});
    }
  }

  /** `turns` rounds of `n` grants each. */
  function Rounds(turns: nat, n: nat): nat {
    if turns == 0 then 0 else Rounds(turns - 1, n) + n
  }

  lemma {:induction false} RoundsIsProduct(turns: nat, n: nat)
    ensures Rounds(turns, n) == turns * n
  {
    if turns > 0 {
      RoundsIsProduct(turns - 1, n);
      assert (turns - 1) * n + n == turns * n;
    }
  }

  /** How many grants the waiter at index `q` may still have to watch, its own included. */
  function Budget(s: State, q: nat, n: nat): int
    requires s.last.Some?
  {
    Rounds(q + 1, n) - Place(UniqueKeys(s.waiters), s.last.value)
  }

  ghost predicate Served(granted: seq<Waiter>, t: Waiter, limit: int) {
    exists i :: 0 <= i < |granted| && i < limit && granted[i] == t
  }

  ghost predicate Expected(s: State, q: nat, t: Waiter, n: nat, limit: int) {
    q < |s.waiters| && s.waiters[q] == t && s.last.Some? && |s.granted| + Budget(s, q, n) <= limit
  }

  /** `t` was granted, or will be, among the first `limit` grants of the log. */
  ghost predicate OnTime(s: State, t: Waiter, n: nat, limit: int) {
    Served(s.granted, t, limit) || exists q: nat :: Expected(s, q, t, n, limit)
  }

  lemma IndexAt(keys: seq<Key>, j: nat)
    requires forall i, k :: 0 <= i < k < |keys| ==> keys[i] != keys[k]
    requires j < |keys|
    ensures IndexOf(keys, keys[j]) == j
  {
  }

  lemma NextKeyPlace(ws: seq<Waiter>, last: Key)
    requires ws != []
    ensures var keys := UniqueKeys(ws); var p := Place(keys, last); var k := NextKey(ws, Some(last));
      k == keys[0] || (p + 1 < |keys| && k == keys[p + 1])
  {
    var keys := UniqueKeys(ws);
    var p := IndexOf(keys, last);
    if p >= 0 {
      RingStep(|keys|, p);
    } else {
      assert 0 % |keys| == 0;
    }
  }

  lemma TurnAdvances(ws: seq<Waiter>, last: Key)
    requires ws != [] && NextIndex(ws, Some(last)) > 0
    ensures IndexOf(UniqueKeys(ws), NextKey(ws, Some(last))) == Place(UniqueKeys(ws), last) + 1
  {
    var keys := UniqueKeys(ws);
    FrontKey(ws);
    NextKeyPlace(ws, last);
    IndexAt(keys, Place(keys, last) + 1);
  }

  /** Granting a waiter behind `q` moves the ring on. */
  lemma RingMovesOn(ws: seq<Waiter>, last: Key)
    requires ws != [] && NextIndex(ws, Some(last)) > 0
    ensures var i := NextIndex(ws, Some(last));
      Place(UniqueKeys(ws[..i] + ws[i + 1..]), ws[i].key) > Place(UniqueKeys(ws), last)
  {
    TurnAdvances(ws, last);
    PlaceAfterTaking(ws, NextIndex(ws, Some(last)));
  }

  lemma BudgetPositive(s: State, q: nat, bound: set<Key>)
    requires Quiet(s, bound) && s.last.Some?
    ensures Rounds(q, |bound|) < Budget(s, q, |bound|) <= Rounds(q + 1, |bound|)
  {
    PlaceBound(s, bound);
  }

  lemma DrainOneStaysQuiet(s: State, bound: set<Key>)
    requires Quiet(s, bound) && Drainable(s) && s.last.Some?
    ensures Quiet(DrainOne(s), bound)
    ensures var i := NextIndex(s.waiters, s.last); var s' := DrainOne(s);
      && s'.last == Some(s.waiters[i].key) && s'.granted == s.granted + [s.waiters[i]]
      && s'.waiters == s.waiters[..i] + s.waiters[i + 1..]
  {
    var i := NextIndex(s.waiters, s.last);
    assert s.waiters[i] in s.waiters;
    var r := s.waiters[..i] + s.waiters[i + 1..];
    assert forall w :: w in r ==> w in s.waiters;
  }

  lemma ShiftAfterRemoval(ws: seq<Waiter>, i: nat, q: nat)
    requires i < |ws| && q < |ws| && i != q
    ensures var q' := if i < q then q - 1 else q;
      q' < |ws| - 1 && (ws[..i] + ws[i + 1..])[q'] == ws[q]
  {
  }

  /** A grant ahead of `q` shortens its queue; one behind it moves the ring on. Either way it spends budget. */
  lemma GrantSpendsBudget(s: State, i: nat, q: nat, bound: set<Key>)
    requires Quiet(s, bound) && s.last.Some? && q < |s.waiters| && Drainable(s)
    requires i == NextIndex(s.waiters, s.last) && i != q
    ensures Budget(DrainOne(s), if i < q then q - 1 else q, |bound|) < Budget(s, q, |bound|)
  {
    DrainOneStaysQuiet(s, bound);
    if i < q {
      BudgetPositive(DrainOne(s), q - 1, bound);
      BudgetPositive(s, q, bound);
    } else {
      RingMovesOn(s.waiters, s.last.value);
    }
  }

  lemma ServedStays(granted: seq<Waiter>, more: seq<Waiter>, t: Waiter, limit: int)
    requires Served(granted, t, limit) && granted <= more
    ensures Served(more, t, limit)
  {
    var i :| 0 <= i < |granted| && i < limit && granted[i] == t;
    assert more[i] == t;
  }

  lemma OthersGrantedOnTime(s: State, t: Waiter, i: nat, q: nat, bound: set<Key>, limit: int)
    requires Quiet(s, bound) && Drainable(s) && s.last.Some? && Expected(s, q, t, |bound|, limit)
    requires i == NextIndex(s.waiters, s.last) && i != q
    ensures Expected(DrainOne(s), if i < q then q - 1 else q, t, |bound|, limit)
  {
    DrainOneStaysQuiet(s, bound);
    GrantSpendsBudget(s, i, q, bound);
    ShiftAfterRemoval(s.waiters, i, q);
  }

  lemma DrainOneOnTime(s: State, t: Waiter, bound: set<Key>, limit: int)
    requires Quiet(s, bound) && Drainable(s) && s.last.Some? && OnTime(s, t, |bound|, limit)
    ensures OnTime(DrainOne(s), t, |bound|, limit)
  {
    var s' := DrainOne(s);
    DrainOneStaysQuiet(s, bound);
    if Served(s.granted, t, limit) {
      ServedStays(s.granted, s'.granted, t, limit);
    } else {
      var q: nat :| Expected(s, q, t, |bound|, limit);
      var i := NextIndex(s.waiters, s.last);
      if i == q {
        BudgetPositive(s, q, bound);
        assert s'.granted[|s.granted|] == t;
      } else {
        OthersGrantedOnTime(s, t, i, q, bound, limit);
      }
    }
  }

  lemma {:induction false} DrainOnTime(s: State, t: Waiter, bound: set<Key>, limit: int)
    requires Quiet(s, bound) && s.last.Some? && OnTime(s, t, |bound|, limit)
    ensures Quiet(Drain(s), bound) && OnTime(Drain(s), t, |bound|, limit)
    decreases |s.waiters|
  {
    if Drainable(s) {
      DrainOneStaysQuiet(s, bound);
      DrainOneOnTime(s, t, bound, limit);
      DrainOnTime(DrainOne(s), t, bound, limit);
    }
  }

  lemma PlaceGrows(ws: seq<Waiter>, w: Waiter, last: Key)
    ensures Place(UniqueKeys(ws + [w]), last) >= Place(UniqueKeys(ws), last)
  {
    var ring, ring' := UniqueKeys(ws), UniqueKeys(ws + [w]);
    assert (ws + [w])[..|ws|] == ws;
    UniqueKeysPrefix(ws + [w], |ws|);
    var p' := Place(ring', last);
    assert p' < |ring| ==> ring[p'] == ring'[p'];
  }

  /** A newcomer goes behind every waiter and never moves the ring back. */
  lemma ArrivalOnTime(s: State, w: Waiter, t: Waiter, n: nat, limit: int)
    requires s.last.Some? && OnTime(s, t, n, limit)
    ensures OnTime(Requested(s, w).(waiters := s.waiters + [w]), t, n, limit)
  {
    var s' := Requested(s, w).(waiters := s.waiters + [w]);
    if !Served(s.granted, t, limit) {
      var q: nat :| Expected(s, q, t, n, limit);
      PlaceGrows(s.waiters, w, s.last.value);
      assert Expected(s', q, t, n, limit);
    }
  }

  /** The operations of the fairness theorem: arrivals with keys in `bound` that are not aborted, and releases. */
  ghost predicate QuietOp(s: State, op: Op, bound: set<Key>) {
    (op.AcquireOp? && op.key in bound && op.signal !in s.aborted) || op.ReleaseOp?
  }

  lemma SameQueueOnTime(s: State, r: State, t: Waiter, n: nat, limit: int)
    requires OnTime(s, t, n, limit) && r.waiters == s.waiters && r.granted == s.granted && r.last == s.last
    ensures OnTime(r, t, n, limit)
  {
    if !Served(s.granted, t, limit) {
      var q: nat :| Expected(s, q, t, n, limit);
      assert Expected(r, q, t, n, limit);
    }
  }

  lemma StepOnTime(s: State, op: Op, t: Waiter, bound: set<Key>, limit: int)
    requires Inv(s) && Quiet(s, bound) && s.last.Some? && QuietOp(s, op, bound) && OnTime(s, t, |bound|, limit)
    requires WorkConserving(s)
    ensures Quiet(Apply(s, op), bound) && OnTime(Apply(s, op), t, |bound|, limit)
  {
    match op
    case AcquireOp(key, signal) =>
      var w := Waiter(|s.requests|, key, signal);
      if s.active < s.capacity && s.waiters == [] {
        ServedStays(s.granted, s.granted + [w], t, limit);
      } else {
        ArrivalOnTime(s, w, t, |bound|, limit);
        DrainOnTime(Requested(s, w).(waiters := s.waiters + [w]), t, bound, limit);
      }
    case ReleaseOp(id) =>
      if id in s.held {
        var r := Returned(s, id);
        SameQueueOnTime(s, r, t, |bound|, limit);
        DrainOnTime(r, t, bound, limit);
      }
  }

  lemma {:induction false} LogsGrow(s: State)
    ensures Drain(s).aborted == s.aborted && (s.last.Some? ==> Drain(s).last.Some?)
    decreases |s.waiters|
  {
    if Drainable(s) {
      LogsGrow(DrainOne(s));
    }
  }

  lemma StepKeepsFlags(s: State, op: Op)
    requires (op.AcquireOp? || op.ReleaseOp?) && s.last.Some?
    ensures Apply(s, op).aborted == s.aborted && Apply(s, op).last.Some?
  {
    match op
    case AcquireOp(key, signal) =>
      var w := Waiter(|s.requests|, key, signal);
      LogsGrow(Requested(s, w).(waiters := s.waiters + [w]));
    case ReleaseOp(id) => LogsGrow(Returned(s, id));
  }

  lemma {:induction false} RunOnTime(s: State, ops: seq<Op>, t: Waiter, bound: set<Key>, limit: int)
    requires Inv(s) && WorkConserving(s) && Quiet(s, bound) && s.last.Some? && OnTime(s, t, |bound|, limit)
    requires forall op :: op in ops ==> QuietOp(s, op, bound)
    ensures Quiet(Run(s, ops), bound) && OnTime(Run(s, ops), t, |bound|, limit)
    decreases |ops|
  {
    if ops != [] {
      var op, next := ops[0], Apply(s, ops[0]);
      assert op in ops;
      StepOnTime(s, op, t, bound, limit);
      StepKeepsInv(s, op);
      StepKeepsFlags(s, op);
      assert forall o :: o in ops[1..] ==> o in ops && QuietOp(next, o, bound);
      RunOnTime(next, ops[1..], t, bound, limit);
    }
  }

  lemma ServedWithin(granted: seq<Waiter>, t: Waiter, limit: int)
    requires Served(granted, t, limit)
    ensures 0 <= limit <= |granted| ==> t in granted[..limit]
  {
    var g :| 0 <= g < |granted| && g < limit && granted[g] == t;
    if limit <= |granted| {
      assert granted[..limit][g] == t;
    }
  }

  /**
    Fairness with a bound: while nothing is aborted and all keys come from `bound`, a waiter with `q`
    requests before it is granted among the next (q + 1) * |bound| grants, whatever arrives later.
   */
  lemma FairnessBound(s: State, ops: seq<Op>, q: nat, bound: set<Key>)
    requires Inv(s) && WorkConserving(s) && Quiet(s, bound) && q < |s.waiters|
    requires forall op :: op in ops ==> QuietOp(s, op, bound)
    ensures var s' := Run(s, ops); var limit := |s.granted| + (q + 1) * |bound|;
      |s'.granted| >= limit ==> s.waiters[q] in s'.granted[..limit]
  {
    var n := |bound|;
    var limit := |s.granted| + (q + 1) * n;
    var s', t := Run(s, ops), s.waiters[q];
    RoundsIsProduct(q + 1, n);
    BudgetPositive(s, q, bound);
    assert Expected(s, q, t, n, limit);
    RunOnTime(s, ops, t, bound, limit);
    if Served(s'.granted, t, limit) {
      ServedWithin(s'.granted, t, limit);
    } else {
      var p: nat :| Expected(s', p, t, n, limit);
      BudgetPositive(s', p, bound);
    }
  }
}
