/**
  The run inventory of src/fileWorkflowStore.ts:534-591, 1229-1264 and 1693-1717: one sorted key list per
  status, pages merged from them, and the walk a caller makes while runs are created and change status.
 */
module Inventory {
  import opened Common

  datatype Status =
    | Queued | Running | CancellationRequested
    | Completed | CompletedWithErrors | Failed | Cancelled | Interrupted

  const ALL: seq<Status> := [Queued, Running, CancellationRequested, Completed, CompletedWithErrors, Failed,
    Cancelled, Interrupted]

  /** Creation time and run id in text order; a key stands for its rank, and 0 for the empty string that
      precedes every key. */
  type Key = k: nat | k > 0 witness 1

  predicate Ascending(keys: seq<Key>) {
    forall i, j :: 0 <= i < j < |keys| ==> keys[i] < keys[j]
  }

  /** How many keys are at most `after`: where `index` splits a sorted list. */
  predicate Splits(keys: seq<Key>, index: nat, after: nat) {
    && index <= |keys|
    && (forall i :: 0 <= i < index ==> keys[i] <= after)
    && (forall i :: index <= i < |keys| ==> keys[i] > after)
  }

  method FirstKeyAfter(keys: seq<Key>, after: nat) returns (index: nat)
    requires Ascending(keys)
    ensures Splits(keys, index, after)
  {
    var low, high := 0, |keys|;
    while low < high
      invariant 0 <= low <= high <= |keys|
      invariant forall i :: 0 <= i < low ==> keys[i] <= after
      invariant forall i :: high <= i < |keys| ==> keys[i] > after
      decreases high - low
    {
      var middle := (low + high) / 2;
      if keys[middle] <= after {
        low := middle + 1;
      } else {
        high := middle;
      }
    }
    index := low;
  }

  lemma InsertHolds(keys: seq<Key>, index: nat, key: Key)
    requires index <= |keys|
    ensures forall k :: k in keys[..index] + [key] + keys[index..] <==> k in keys || k == key
  {
    assert keys == keys[..index] + keys[index..];
  }

  method InsertSortedKey(keys: seq<Key>, key: Key) returns (r: seq<Key>)
    requires Ascending(keys)
    ensures Ascending(r) && forall k :: k in r <==> k in keys || k == key
  {
    var index := FirstKeyAfter(keys, key);
    if index > 0 && keys[index - 1] == key {
      return keys;
    }
    r := keys[..index] + [key] + keys[index..];
    assert forall i :: 0 <= i < |r| ==> r[i] == if i < index then keys[i] else if i == index then key else keys[i - 1];
    InsertHolds(keys, index, key);
  }

  lemma NotThere(keys: seq<Key>, index: nat, key: Key)
    requires Ascending(keys) && Splits(keys, index, key) && (index == 0 || keys[index - 1] != key)
    ensures key !in keys
  {
    assert forall i :: 0 <= i < index ==> keys[i] <= keys[index - 1];
  }

  lemma RemoveHolds(keys: seq<Key>, index: nat)
    requires Ascending(keys) && index < |keys|
    ensures forall k :: k in keys[..index] + keys[index + 1..] <==> k in keys && k != keys[index]
  {
    assert keys == keys[..index] + [keys[index]] + keys[index + 1..];
    assert forall i :: 0 <= i < |keys| && i != index ==> keys[i] != keys[index];
  }

  method RemoveSortedKey(keys: seq<Key>, key: Key) returns (r: seq<Key>)
    requires Ascending(keys)
    ensures Ascending(r) && forall k :: k in r <==> k in keys && k != key
  {
    var index := FirstKeyAfter(keys, key);
    if index == 0 || keys[index - 1] != key {
      NotThere(keys, index, key);
      return keys;
    }
    r := keys[..index - 1] + keys[index..];
    assert forall i :: 0 <= i < |r| ==> r[i] == keys[if i < index - 1 then i else i + 1];
    RemoveHolds(keys, index - 1);
  }

  // ---------------------------------------------------------------------------------------------
  // The index
  // ---------------------------------------------------------------------------------------------

  /** A page asks for keys with one of `statuses` in (after, highWater]. */
  predicate Wanted(summaries: map<Key, Status>, statuses: seq<Status>, after: nat, highWater: nat, k: Key) {
    k in summaries && summaries[k] in statuses && after < k <= highWater
  }

  /** `keys` are, in order, exactly the wanted keys up to `last`. */
  ghost predicate Collected(summaries: map<Key, Status>, statuses: seq<Status>, after: nat, last: nat, keys: seq<Key>) {
    Ascending(keys) && forall k: Key :: k in keys <==> Wanted(summaries, statuses, after, last, k)
  }

  datatype Page = Page(items: seq<Key>, hasMore: bool, highWater: nat, nextAfter: nat)

  function Last(keys: seq<Key>, after: nat): nat {
    if keys == [] then after else keys[|keys| - 1]
  }

  /** The first `limit` wanted keys, and whether there are more. */
  ghost predicate RightPage(summaries: map<Key, Status>, statuses: seq<Status>, after: nat, limit: nat, page: Page) {
    && |page.items| <= limit
    && page.nextAfter == Last(page.items, after)
    && Collected(summaries, statuses, after, if page.hasMore then page.nextAfter else page.highWater, page.items)
    && (page.hasMore ==> |page.items| == limit && exists k: Key ::
      Wanted(summaries, statuses, page.nextAfter, page.highWater, k))
  }

  datatype Error = BadLimit | BadFilter | InvalidCursor

  datatype Result<T> = Ok(value: T) | Err(error: Error)

  /** A page cursor: the status filter it belongs to, the newest key when the walk began, and where the
      last page ended. */
  datatype Cursor = Cursor(filter: seq<Status>, highWater: nat, after: nat)

  const MAX_RUNS_PER_PAGE: int := 200

  predicate Distinct(statuses: seq<Status>) {
    forall i, j :: 0 <= i < j < |statuses| ==> statuses[i] != statuses[j]
  }

  lemma AscendingPush(keys: seq<Key>, after: nat, key: Key)
    requires Ascending(keys) && key > Last(keys, after)
    ensures Ascending(keys + [key])
  {
  }

  class RunInventory {
    var summaries: map<Key, Status>
    var lists: map<Status, seq<Key>>

    ghost predicate ListRight(status: Status)
      reads this
    {
      && status in lists
      && Ascending(lists[status])
      && forall k: Key :: k in lists[status] <==> k in summaries && summaries[k] == status
    }

    /** Each status list is strictly sorted and holds exactly the keys with that status. */
    ghost predicate Valid()
      reads this
    {
      forall status: Status :: ListRight(status)
    }

    constructor ()
      ensures Valid() && summaries == map[]
    {
      summaries := map[];
      lists := map status: Status | status in ALL :: [];
      new;
      forall status: Status ensures ListRight(status) {
        AllHolds(status);
      }
    }

    static lemma AllHolds(status: Status)
      ensures status in ALL
    {
      assert ALL[0] == Queued && ALL[1] == Running && ALL[2] == CancellationRequested && ALL[3] == Completed;
      assert ALL[4] == CompletedWithErrors && ALL[5] == Failed && ALL[6] == Cancelled && ALL[7] == Interrupted;
    }

    /** `#indexManifest`: a run appears, or moves to another status. */
    method IndexManifest(key: Key, status: Status)
      requires Valid()
      modifies this
      ensures Valid() && summaries == old(summaries)[key := status]
    {
      assert ListRight(status);
      if key in summaries {
        var previous := summaries[key];
        assert ListRight(previous);
        var removed := RemoveSortedKey(lists[previous], key);
        lists := lists[previous := removed];
      }
      var inserted := InsertSortedKey(lists[status], key);
      lists := lists[status := inserted];
      summaries := summaries[key := status];
      forall other: Status ensures ListRight(other) {
        assert old(ListRight(other));
      }
    }

    /** The newest key, or 0. */
    method Newest() returns (newest: nat)
      ensures forall k :: k in summaries ==> k <= newest
      ensures newest == 0 || newest in summaries
    {
      newest := 0;
      var left := summaries.Keys;
      while left != {}
        invariant left <= summaries.Keys && (newest == 0 || newest in summaries)
        invariant forall k :: k in summaries && k !in left ==> k <= newest
        decreases |left|
      {
        var k :| k in left;
        left := left - {k};
        if k > newest {
          newest := k;
        }
      }
    }

    /** Every list is read up to the last selected key. */
    ghost predicate Positioned(statuses: seq<Status>, indices: seq<nat>, last: nat)
      requires Valid()
      reads this
    {
      && |indices| == |statuses|
      && forall j :: 0 <= j < |statuses| ==> ListRight(statuses[j]) && Splits(lists[statuses[j]], indices[j], last)
    }

    /** The unread key at the head of list `j`, within the page's range. */
    predicate Candidate(statuses: seq<Status>, indices: seq<nat>, highWater: nat, j: nat)
      requires j < |statuses| == |indices| && statuses[j] in lists
      reads this
    {
      indices[j] < |lists[statuses[j]]| && lists[statuses[j]][indices[j]] <= highWater
    }

    /** One round of the merge: the list whose head is least, if any list has a head in range. */
    method LeastHead(statuses: seq<Status>, indices: seq<nat>, highWater: nat, ghost last: nat)
        returns (best: Option<nat>)
      requires Valid() && Positioned(statuses, indices, last)
      ensures best.Some? ==> best.value < |statuses| && Candidate(statuses, indices, highWater, best.value)
      ensures best.None? ==> forall j :: 0 <= j < |statuses| ==> !Candidate(statuses, indices, highWater, j)
      ensures best.Some? ==> forall j :: 0 <= j < |statuses| && Candidate(statuses, indices, highWater, j) ==>
        lists[statuses[best.value]][indices[best.value]] <= lists[statuses[j]][indices[j]]
    {
      best := None;
      var j: nat := 0;
      while j < |statuses|
        invariant 0 <= j <= |statuses|
        invariant best.Some? ==> best.value < j && Candidate(statuses, indices, highWater, best.value)
        invariant best.None? ==> forall i :: 0 <= i < j ==> !Candidate(statuses, indices, highWater, i)
        invariant best.Some? ==> forall i :: 0 <= i < j && Candidate(statuses, indices, highWater, i) ==>
          lists[statuses[best.value]][indices[best.value]] <= lists[statuses[i]][indices[i]]
      {
        assert ListRight(statuses[j]);
        if Candidate(statuses, indices, highWater, j) {
          if best.None? || lists[statuses[j]][indices[j]] < lists[statuses[best.value]][indices[best.value]] {
            best := Some(j);
          }
        }
        j := j + 1;
      }
    }

    /** Every wanted key after `last` is at or behind the head of its list. */
    lemma WantedIsAhead(statuses: seq<Status>, indices: seq<nat>, last: nat, highWater: nat, k: Key) returns (j: nat)
      requires Valid() && Positioned(statuses, indices, last) && Wanted(summaries, statuses, last, highWater, k)
      ensures j < |statuses| && Candidate(statuses, indices, highWater, j) && lists[statuses[j]][indices[j]] <= k
    {
      j :| 0 <= j < |statuses| && statuses[j] == summaries[k];
      assert ListRight(statuses[j]);
      var i :| 0 <= i < |lists[statuses[j]]| && lists[statuses[j]][i] == k;
      assert indices[j] <= i;
    }

    /** Taking the least head extends the page by exactly the next wanted key. */
    lemma TakeHead(statuses: seq<Status>, indices: seq<nat>, after: nat, highWater: nat, selected: seq<Key>, best: nat)
      requires Valid() && Positioned(statuses, indices, Last(selected, after))
      requires Collected(summaries, statuses, after, Last(selected, after), selected)
      requires best < |statuses| && Candidate(statuses, indices, highWater, best)
      requires forall j :: 0 <= j < |statuses| && Candidate(statuses, indices, highWater, j) ==>
        lists[statuses[best]][indices[best]] <= lists[statuses[j]][indices[j]]
      ensures var key := lists[statuses[best]][indices[best]];
        && key > Last(selected, after) && Wanted(summaries, statuses, after, highWater, key)
        && Collected(summaries, statuses, after, key, selected + [key])
    {
      var key, last := lists[statuses[best]][indices[best]], Last(selected, after);
      assert ListRight(statuses[best]);
      assert key in lists[statuses[best]];
      assert key > last;
      LastIsAfter(statuses, after, selected);
      forall k: Key | Wanted(summaries, statuses, after, key, k) &&
        !Wanted(summaries, statuses, after, last, k) ensures k == key {
        var j := WantedIsAhead(statuses, indices, last, highWater, k);
      }
      AscendingPush(selected, after, key);
    }

    lemma LastIsAfter(statuses: seq<Status>, after: nat, selected: seq<Key>)
      requires Collected(summaries, statuses, after, Last(selected, after), selected)
      ensures after <= Last(selected, after)
    {
      if selected != [] {
        assert selected[|selected| - 1] in selected;
      }
    }

    /** Advancing the list of the least head keeps every list read up to the new last key. */
    lemma AdvanceHead(statuses: seq<Status>, indices: seq<nat>, last: nat, highWater: nat, best: nat)
      requires Valid() && Positioned(statuses, indices, last) && Distinct(statuses)
      requires best < |statuses| && Candidate(statuses, indices, highWater, best)
      requires forall j :: 0 <= j < |statuses| && Candidate(statuses, indices, highWater, j) ==>
        lists[statuses[best]][indices[best]] <= lists[statuses[j]][indices[j]]
      ensures Positioned(statuses, indices[best := indices[best] + 1], lists[statuses[best]][indices[best]])
    {
      var key := lists[statuses[best]][indices[best]];
      forall j | 0 <= j < |statuses| ensures Splits(lists[statuses[j]], indices[best := indices[best] + 1][j], key) {
        assert ListRight(statuses[j]) && ListRight(statuses[best]);
        if j != best {
          assert statuses[j] != statuses[best] by {
            assert j < best ==> statuses[j] != statuses[best];
            assert best < j ==> statuses[best] != statuses[j];
          }
          assert key in lists[statuses[best]];
          assert key !in lists[statuses[j]];
          if indices[j] < |lists[statuses[j]]| {
            assert lists[statuses[j]][indices[j]] in lists[statuses[j]];
            assert lists[statuses[j]][indices[j]] > key;
          }
        }
      }
    }

    /** Where each list stands just after `after`. */
    method Start(statuses: seq<Status>, after: nat) returns (indices: seq<nat>)
      requires Valid()
      ensures Positioned(statuses, indices, after)
    {
      indices := [];
      while |indices| < |statuses|
        invariant |indices| <= |statuses|
        invariant forall j :: 0 <= j < |indices| ==>
          ListRight(statuses[j]) &&
          Splits(lists[statuses[j]], indices[j], after)
        decreases |statuses| - |indices|
      {
        assert ListRight(statuses[|indices|]);
        var index := FirstKeyAfter(lists[statuses[|indices|]], after);
        indices := indices + [index];
      }
    }

    /** The k-way merge: up to `most` wanted keys, fewer only when there are no more. */
    method Merge(statuses: seq<Status>, after: nat, highWater: nat, most: nat) returns (selected: seq<Key>)
      requires Valid() && Distinct(statuses) && after <= highWater
      ensures |selected| <= most && Collected(summaries, statuses, after, Last(selected, after), selected)
      ensures after <= Last(selected, after) <= highWater
      ensures |selected| < most ==> Collected(summaries, statuses, after, highWater, selected)
    {
      var indices := Start(statuses, after);
      selected := [];
      while |selected| < most
        invariant |selected| <= most && Positioned(statuses, indices, Last(selected, after))
        invariant Collected(summaries, statuses, after, Last(selected, after), selected)
        invariant after <= Last(selected, after) <= highWater
        decreases most - |selected|
      {
        var best := LeastHead(statuses, indices, highWater, Last(selected, after));
        if best.None? {
          NothingLeft(statuses, indices, after, highWater, selected);
          return;
        }
        var key := lists[statuses[best.value]][indices[best.value]];
        TakeHead(statuses, indices, after, highWater, selected, best.value);
        AdvanceHead(statuses, indices, Last(selected, after), highWater, best.value);
        indices := indices[best.value := indices[best.value] + 1];
        selected := selected + [key];
      }
    }

    lemma NothingLeft(statuses: seq<Status>, indices: seq<nat>, after: nat, highWater: nat, selected: seq<Key>)
      requires Valid() && Positioned(statuses, indices, Last(selected, after)) && Last(selected, after) <= highWater
      requires Collected(summaries, statuses, after, Last(selected, after), selected)
      requires forall j :: 0 <= j < |statuses| ==> !Candidate(statuses, indices, highWater, j)
      ensures Collected(summaries, statuses, after, highWater, selected)
    {
      forall k: Key | Wanted(summaries, statuses, after, highWater, k) ensures Wanted(summaries, statuses, after,
        Last(selected, after), k) {
        if k > Last(selected, after) {
          var j := WantedIsAhead(statuses, indices, Last(selected, after), highWater, k);
        }
      }
      LastIsAfter(statuses, after, selected);
    }

    /** `listRuns` */
    method ListRuns(statuses: seq<Status>, limit: int, cursor: Option<Cursor>) returns (r: Result<Page>)
      requires Valid() && Distinct(statuses)
      ensures r == Err(BadLimit) <==> limit < 1 || limit > 200
      ensures r.Ok? ==>
        1 <= limit <= 200 && statuses != [] &&
        (cursor.Some? ==> cursor.value.filter == statuses)
      ensures r.Ok? ==> RightPage(summaries, statuses, if cursor.Some? then cursor.value.after else 0, limit, r.value)
      ensures r.Ok? && cursor.Some? ==> r.value.highWater == cursor.value.highWater
      ensures r.Ok? && cursor.None? ==> forall k :: k in summaries ==> k <= r.value.highWater
      ensures r.Ok? && cursor.None? ==> r.value.highWater == 0 || r.value.highWater in summaries
      ensures r == Err(BadFilter) <==> 1 <= limit <= 200 && statuses == []
      ensures r == Err(InvalidCursor) <==> (1 <= limit <= 200 && statuses != [] && cursor.Some? &&
        (cursor.value.filter != statuses || cursor.value.after > cursor.value.highWater))
    {
      if limit < 1 || limit > MAX_RUNS_PER_PAGE {
        return Err(BadLimit);
      }
      if statuses == [] {
        return Err(BadFilter);
      }
      if cursor.Some? && cursor.value.filter != statuses {
        return Err(InvalidCursor);
      }
      var newest := Newest();
      var highWater := if cursor.Some? then cursor.value.highWater else newest;
      var after := if cursor.Some? then cursor.value.after else 0;
      if after > highWater {
        return Err(InvalidCursor);
      }
      var selected := Merge(statuses, after, highWater, limit + 1);
      var hasMore := |selected| > limit;
      var items := if hasMore then selected[..|selected| - 1] else selected;
      r := Ok(Page(items, hasMore, highWater, Last(items, after)));
      if hasMore {
        DropLookAhead(statuses, after, highWater, selected);
      }
    }

    /** The look-ahead key answers whether there is more; without it the page is still complete up to its
        last key. */
    lemma DropLookAhead(statuses: seq<Status>, after: nat, highWater: nat, selected: seq<Key>)
      requires |selected| > 1 && Collected(summaries, statuses, after, Last(selected, after), selected) &&
        Last(selected, after) <= highWater
      ensures var items := selected[..|selected| - 1];
        && Collected(summaries, statuses, after, Last(items, after), items)
        && Wanted(summaries, statuses, Last(items, after), highWater, selected[|selected| - 1])
    {
      var n := |selected| - 1;
      var items := selected[..n];
      assert selected[n] in selected && items[n - 1] == selected[n - 1];
      forall k: Key ensures k in items <==> Wanted(summaries, statuses, after, items[n - 1], k) {
        if k in items {
          var i :| 0 <= i < n && items[i] == k;
          assert selected[i] == k && selected[i] in selected;
        }
        if Wanted(summaries, statuses, after, items[n - 1], k) {
          assert k in selected;
          var i :| 0 <= i < |selected| && selected[i] == k;
          assert i < n;
          assert items[i] == k;
        }
      }
    }
  }

  // ---------------------------------------------------------------------------------------------
  // The walk
  // ---------------------------------------------------------------------------------------------

  function After(pages: seq<Page>, n: nat): nat
    requires n <= |pages|
  {
    if n == 0 then 0 else pages[n - 1].nextAfter
  }

  ghost predicate PageOfWalk(found: seq<map<Key, Status>>, limit: nat, highWater: nat, pages: seq<Page>, n: nat)
    requires n < |pages| == |found|
  {
    && RightPage(found[n], ALL, After(pages, n), limit, pages[n]) && pages[n].highWater == highWater
    && (pages[n].hasMore <==> n + 1 < |pages|)
    && (n > 0 ==> found[n - 1].Keys <= found[n].Keys)
  }

  /** Successive pages of an unfiltered walk. The inventory as page n finds it is `found[n]`: runs may be
      created and change status in between, but none disappears. */
  ghost predicate Walk(found: seq<map<Key, Status>>, limit: nat, highWater: nat, pages: seq<Page>) {
    && |found| == |pages|
    && (forall n :: 0 <= n < |pages| ==> PageOfWalk(found, limit, highWater, pages, n))
  }

  function Items(pages: seq<Page>): seq<Key> {
    if pages == [] then [] else Items(pages[..|pages| - 1]) + pages[|pages| - 1].items
  }

  /** Everything so far, in order, up to `last`. */
  ghost predicate Seen(start: map<Key, Status>, now: map<Key, Status>, items: seq<Key>, last: nat) {
    && Ascending(items)
    && (forall k :: k in items ==> k in now && k <= last)
    && (forall k: Key :: k in start && k <= last ==> k in items)
  }

  lemma WantedAll(summaries: map<Key, Status>, after: nat, highWater: nat, k: Key)
    ensures Wanted(summaries, ALL, after, highWater, k) <==> k in summaries && after < k <= highWater
  {
    if k in summaries {
      RunInventory.AllHolds(summaries[k]);
    }
  }

  lemma OnePage(start: map<Key, Status>, before: map<Key, Status>, now: map<Key, Status>, items: seq<Key>, after: nat,
      last: nat, page: seq<Key>)
    requires Seen(start, before, items, after) && before.Keys <= now.Keys && start.Keys <= now.Keys && after <= last
    requires Collected(now, ALL, after, last, page)
    ensures Seen(start, now, items + page, last)
  {
    forall k: Key ensures k in page <==> k in now && after < k <= last {
      WantedAll(now, after, last, k);
    }
    var all := items + page;
    forall i, j | 0 <= i < j < |all| ensures all[i] < all[j] {
      if i < |items| <= j {
        assert items[i] in items && page[j - |items|] in page;
      }
    }
  }

  lemma {:induction false} KeysGrow(found: seq<map<Key, Status>>, limit: nat, highWater: nat, pages: seq<Page>, n: nat)
    requires Walk(found, limit, highWater, pages) && n < |pages|
    ensures found[0].Keys <= found[n].Keys
    decreases n
  {
    if n > 0 {
      KeysGrow(found, limit, highWater, pages, n - 1);
      assert PageOfWalk(found, limit, highWater, pages, n);
    }
  }

  lemma LastGrows(summaries: map<Key, Status>, after: nat, limit: nat, page: Page)
    requires RightPage(summaries, ALL, after, limit, page)
    ensures after <= page.nextAfter
  {
    if page.items != [] {
      assert page.items[|page.items| - 1] in page.items;
    }
  }

  lemma {:induction false} SeenSoFar(found: seq<map<Key, Status>>, limit: nat, highWater: nat, pages: seq<Page>, n: nat)
    requires Walk(found, limit, highWater, pages) && 0 < n < |pages|
    ensures Seen(found[0], found[n - 1], Items(pages[..n]), After(pages, n))
    decreases n
  {
    assert PageOfWalk(found, limit, highWater, pages, n - 1);
    LastGrows(found[n - 1], After(pages, n - 1), limit, pages[n - 1]);
    assert pages[..n][..n - 1] == pages[..n - 1];
    KeysGrow(found, limit, highWater, pages, n - 1);
    if n == 1 {
      assert Items(pages[..0]) == [];
      OnePage(found[0], found[0], found[0], [], 0, After(pages, 1), pages[0].items);
    } else {
      SeenSoFar(found, limit, highWater, pages, n - 1);
      OnePage(found[0], found[n - 2], found[n - 1], Items(pages[..n - 1]), After(pages, n - 1), After(pages, n),
        pages[n - 1].items);
    }
  }

  /** The high-water mark is not behind the last page. */
  lemma LastPageWithinMark(found: seq<map<Key, Status>>, limit: nat, highWater: nat, pages: seq<Page>)
    requires pages != [] && Walk(found, limit, highWater, pages)
    ensures After(pages, |pages| - 1) <= highWater
  {
    if |pages| > 1 {
      assert PageOfWalk(found, limit, highWater, pages, |pages| - 2);
    }
  }

  lemma WalkUpToMark(found: seq<map<Key, Status>>, limit: nat, highWater: nat, pages: seq<Page>)
    requires pages != [] && Walk(found, limit, highWater, pages) && forall k :: k in found[0] ==> k <= highWater
    requires After(pages, |pages| - 1) <= highWater
    ensures Seen(found[0], found[|pages| - 1], Items(pages), highWater)
  {
    var n := |pages| - 1;
    assert PageOfWalk(found, limit, highWater, pages, n);
    KeysGrow(found, limit, highWater, pages, n);
    if n == 0 {
      assert Items(pages[..0]) == [];
      OnePage(found[0], found[0], found[0], [], 0, highWater, pages[0].items);
    } else {
      SeenSoFar(found, limit, highWater, pages, n);
      OnePage(found[0], found[n - 1], found[n], Items(pages[..n]), After(pages, n), highWater, pages[n].items);
    }
  }

  /** A finished unfiltered walk returns every run that existed when it began exactly once, in ascending
      order, whatever was created or moved in between. */
  lemma WalkIsComplete(found: seq<map<Key, Status>>, limit: nat, highWater: nat, pages: seq<Page>)
    requires pages != [] && Walk(found, limit, highWater, pages) && forall k :: k in found[0] ==> k <= highWater
    ensures Ascending(Items(pages)) && forall k :: k in found[0] ==> k in Items(pages)
    ensures forall k :: k in Items(pages) ==> k in found[|pages| - 1] && k <= highWater
  {
    LastPageWithinMark(found, limit, highWater, pages);
    WalkUpToMark(found, limit, highWater, pages);
  }
}
