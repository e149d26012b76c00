/**
  The search that proves the options of an imported call: which keys it tries, what each try costs in bytes of
  hashed UTF-8, and exactly when it finds the predecessor within the budgets of a run.
 */
module JournalProof {
  import opened Common
  import opened JournalModel
  import U = Utf8

  // ---------------------------------------------------------------------------------------------
  // Bytes
  // ---------------------------------------------------------------------------------------------

  /** Section 3 of RFC 3629. */
  function EncodeChar(c: char): Bytes {
    var n := c as int;
    if n < 0x80 then [n as Byte]
    else if n < 0x800 then [(0xC0 + n / 64) as Byte, (0x80 + n % 64) as Byte]
    else if n < 0x1_0000 then [(0xE0 + n / 4096) as Byte, (0x80 + n / 64 % 64) as Byte, (0x80 + n % 64) as Byte]
    else [(0xF0 + n / 262144) as Byte, (0x80 + n / 4096 % 64) as Byte, (0x80 + n / 64 % 64) as Byte,
          (0x80 + n % 64) as Byte]
  }

  function Encode(s: string): Bytes {
    if s == "" then [] else EncodeChar(s[0]) + Encode(s[1..])
  }

  lemma EncodedCharIsValid(c: char)
    ensures U.ScalarLength(EncodeChar(c)) == |EncodeChar(c)| == CharBytes(c)
  {
  }

  /** A text takes as many bytes as its UTF-8, which is valid. */
  lemma {:induction false} LengthIsEncoded(s: string)
    ensures U.Valid(Encode(s)) && |Encode(s)| == Utf8Length(s)
    decreases |s|
  {
    if s != "" {
      LengthIsEncoded(s[1..]);
      var (first, rest) := (EncodeChar(s[0]), Encode(s[1..]));
      EncodedCharIsValid(s[0]);
      assert (first + rest)[..|first|] == first && (first + rest)[|first|..] == rest;
      U.ScalarOwnBytes(first, first + rest);
    }
  }

  /** What one try hashes besides the key: prompt, options and the two separators. */
  lemma SharedIsEncoded(prompt: Text, options: Text)
    ensures SharedBytes(prompt, options) == |Encode(prompt.chars)| + 1 + |Encode(options.chars)| + 1
  {
    LengthIsEncoded(prompt.chars);
    LengthIsEncoded(options.chars);
  }

  /** Keys print as nothing, or as `v2:` and 64 hexadecimal digits. */
  lemma KeyIsPrinted(key: Key)
    ensures KeyBytes(key) == if key.Root? then |""| else |"v2:"| + 64
  {
  }

  // ---------------------------------------------------------------------------------------------
  // Candidates
  // ---------------------------------------------------------------------------------------------

  ghost predicate NoRepeats(keys: seq<Key>) {
    forall i, j :: 0 <= i < j < |keys| ==> keys[i] != keys[j]
  }

  /** The keys tried are those of history, each once. */
  lemma {:induction false} CandidatesAre(calls: seq<Historical>)
    ensures NoRepeats(DistinctKeys(calls))
    ensures forall h :: h in calls ==> h.key in DistinctKeys(calls)
    decreases |calls|
  {
    if calls != [] {
      var n := |calls| - 1;
      assert calls == calls[..n] + [calls[n]];
      CandidatesAre(calls[..n]);
    }
  }

  /** Older calls' keys are tried first. */
  lemma OlderFirst(calls: seq<Historical>, more: seq<Historical>)
    ensures DistinctKeys(calls) <= DistinctKeys(calls + more)
    decreases |more|
  {
    if more == [] {
      assert calls + more == calls;
    } else {
      var n := |more| - 1;
      assert (calls + more)[..|calls + more| - 1] == calls + more[..n];
      OlderFirst(calls, more[..n]);
    }
  }

  lemma {:induction false} PromptFrom(calls: seq<Historical>, prompt: Text, from: nat)
    requires from <= |calls|
    ensures forall j :: from <= j < FindPrompt(calls, prompt, from) ==> calls[j].importedPrompt != Some(prompt)
    decreases |calls| - from
  {
    if from < |calls| && calls[from].importedPrompt != Some(prompt) {
      PromptFrom(calls, prompt, from + 1);
    }
  }

  /** A prompt names a historical call exactly when no other call has it. */
  lemma UniqueImportIff(calls: seq<Historical>, prompt: Text, m: nat)
    ensures UniqueImport(calls, prompt) == Some(m) <==>
      && m < |calls| && calls[m].importedPrompt == Some(prompt)
      && (forall j :: 0 <= j < |calls| && calls[j].importedPrompt == Some(prompt) ==> j == m)
  {
    var i := FindPrompt(calls, prompt, 0);
    PromptFrom(calls, prompt, 0);
    if i < |calls| {
      PromptFrom(calls, prompt, i + 1);
    }
  }

  // ---------------------------------------------------------------------------------------------
  // The search
  // ---------------------------------------------------------------------------------------------

  /** What the first `n` tries hash. */
  function Cost(keys: seq<Key>, shared: nat, n: nat): nat
    requires n <= |keys|
  {
    if n == 0 then 0 else Cost(keys, shared, n - 1) + shared + KeyBytes(keys[n - 1])
  }

  lemma {:induction false} CostFrom(keys: seq<Key>, shared: nat, n: nat)
    requires 0 < n <= |keys|
    ensures Cost(keys, shared, n) == shared + KeyBytes(keys[0]) + Cost(keys[1..], shared, n - 1)
    decreases n
  {
    if n > 1 {
      CostFrom(keys, shared, n - 1);
    }
  }

  /** Try `i` is the one that finds, and the budgets reach it. */
  ghost predicate FindsAt(keys: seq<Key>, target: Key, prompt: Text, options: Text, shared: nat, hashes: nat,
      bytes: nat, i: nat) {
    && i < |keys| && Link(keys[i], prompt, options) == target
    && (forall j :: 0 <= j < i ==> Link(keys[j], prompt, options) != target)
    && i + 1 <= hashes && Cost(keys, shared, i + 1) <= bytes
  }

  lemma FindsLater(keys: seq<Key>, target: Key, prompt: Text, options: Text, shared: nat, hashes: nat, bytes: nat,
      i: nat)
    requires keys != [] && hashes > 0 && shared + KeyBytes(keys[0]) <= bytes
    requires Link(keys[0], prompt, options) != target
    ensures FindsAt(keys, target, prompt, options, shared, hashes, bytes, i + 1) <==>
      FindsAt(keys[1..], target, prompt, options, shared, hashes - 1, bytes - (shared + KeyBytes(keys[0])), i)
  {
    if i + 1 < |keys| {
      CostFrom(keys, shared, i + 2);
    }
    assert forall j :: 0 < j < |keys| ==> keys[j] == keys[1..][j - 1];
  }

  lemma {:induction false} SearchFinds(keys: seq<Key>, target: Key, prompt: Text, options: Text, shared: nat,
      hashes: nat, bytes: nat, i: nat)
    requires FindsAt(keys, target, prompt, options, shared, hashes, bytes, i)
    ensures var r := Prove(keys, target, prompt, options, shared, hashes, bytes);
      r.found && r.hashes == hashes - (i + 1) && r.bytes == bytes - Cost(keys, shared, i + 1)
    decreases i
  {
    CostFrom(keys, shared, i + 1);
    if i == 0 {
      assert Cost(keys[1..], shared, 0) == 0;
    } else {
      FindsLater(keys, target, prompt, options, shared, hashes, bytes, i - 1);
      SearchFinds(keys[1..], target, prompt, options, shared, hashes - 1, bytes - (shared + KeyBytes(keys[0])), i - 1);
    }
  }

  lemma {:induction false} FoundAt(keys: seq<Key>, target: Key, prompt: Text, options: Text, shared: nat, hashes: nat,
      bytes: nat) returns (i: nat)
    requires Prove(keys, target, prompt, options, shared, hashes, bytes).found
    ensures FindsAt(keys, target, prompt, options, shared, hashes, bytes, i)
    decreases |keys|
  {
    if Link(keys[0], prompt, options) == target {
      CostFrom(keys, shared, 1);
      i := 0;
    } else {
      i := FoundAt(keys[1..], target, prompt, options, shared, hashes - 1, bytes - (shared + KeyBytes(keys[0])));
      FindsLater(keys, target, prompt, options, shared, hashes, bytes, i);
      i := i + 1;
    }
  }

  /** The search finds exactly when some try finds within both budgets, and then it has spent a hash and the
      bytes of each try up to that one. */
  lemma ProveIff(keys: seq<Key>, target: Key, prompt: Text, options: Text, shared: nat, hashes: nat, bytes: nat)
    ensures var r := Prove(keys, target, prompt, options, shared, hashes, bytes);
      && (r.found <==> exists i: nat :: FindsAt(keys, target, prompt, options, shared, hashes, bytes, i))
      && (forall i: nat :: FindsAt(keys, target, prompt, options, shared, hashes, bytes, i) ==>
            i < |keys| && r.hashes == hashes - (i + 1) && r.bytes == bytes - Cost(keys, shared, i + 1))
  {
    if Prove(keys, target, prompt, options, shared, hashes, bytes).found {
      var i := FoundAt(keys, target, prompt, options, shared, hashes, bytes);
    }
    forall i: nat | FindsAt(keys, target, prompt, options, shared, hashes, bytes, i)
      ensures var r := Prove(keys, target, prompt, options, shared, hashes, bytes);
        r.found && r.hashes == hashes - (i + 1) && r.bytes == bytes - Cost(keys, shared, i + 1)
    {
      SearchFinds(keys, target, prompt, options, shared, hashes, bytes, i);
    }
  }

  /** A run begins with 100000 hashes and 128 MiB. */
  lemma FullBudget(p: Snapshot, sourceHash: Text, mode: Mode, gaps: bool)
    ensures var run := BeginRun(Some(p), sourceHash, mode, gaps);
      run.proofHashes == 100_000 && run.proofBytes == 134_217_728
  {
  }
}
