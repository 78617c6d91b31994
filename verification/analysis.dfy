/** Analysing a thread transcript in batches from a durable cursor. */
module Analysis {
  import opened Wrappers

  const BATCH_LIMIT := 25

  /** A transcript as the keys of its entries, oldest first. */
  ghost predicate Oldest(entries: seq<int>) {
    forall i, j :: 0 <= i < j < |entries| ==> entries[i] < entries[j]
  }

  predicate Before(key: int, cursor: Option<int>) { cursor.Some? && key <= cursor.value }

  /** How many entries are at or before the cursor. */
  function Position(entries: seq<int>, cursor: Option<int>): (n: nat)
    ensures n <= |entries|
    ensures forall i :: 0 <= i < n ==> Before(entries[i], cursor)
    ensures n < |entries| ==> !Before(entries[n], cursor)
  {
    if entries == [] then 0
    else if !Before(entries[0], cursor) then 0
    else
      var n := Position(entries[1..], cursor);
      assert forall i :: 0 < i < n + 1 ==> entries[i] == entries[1..][i - 1];
      n + 1
  }

  lemma {:induction false} PositionOfEntry(entries: seq<int>, k: nat)
    requires Oldest(entries) && k < |entries|
    ensures Position(entries, Some(entries[k])) == k + 1
  {
    var cursor := Some(entries[k]);
    if k == 0 {
      assert |entries| > 1 ==> entries[1..][0] == entries[1] && entries[0] < entries[1];
    } else {
      assert Before(entries[0], cursor);
      assert entries[1..][k - 1] == entries[k];
      PositionOfEntry(entries[1..], k - 1);
    }
  }

  /**
    The reader returns, from position p on, `size(p)` entries: at least one when
    any is left, as many as its limits on entries and characters allow.
   */
  ghost predicate Reads(entries: seq<int>, size: nat -> nat) {
    forall p :: 0 <= p < |entries| ==> 1 <= size(p) <= |entries| - p
  }

  function Joined(batches: seq<seq<int>>): seq<int> {
    if batches == [] then [] else Joined(batches[..|batches| - 1]) + batches[|batches| - 1]
  }

  /** The checkpointed cursors strictly advance from the initial one. */
  predicate Advancing(cursor: Option<int>, checkpoints: seq<int>) {
    && (checkpoints != [] && cursor.Some? ==> cursor.value < checkpoints[0])
    && forall i, j :: 0 <= i < j < |checkpoints| ==> checkpoints[i] < checkpoints[j]
  }

  /** What a call has done so far: it analysed exactly the entries from `start` to `at`. */
  ghost predicate Analysed(entries: seq<int>, cursor: Option<int>, start: nat, at: nat, last: Option<int>,
                           batches: seq<seq<int>>, checkpoints: seq<int>) {
    && start <= at <= |entries|
    && at == Position(entries, last)
    && Joined(batches) == entries[start..at]
    && |batches| == |checkpoints|
    && Advancing(cursor, checkpoints)
    && last == if checkpoints == [] then cursor else Some(checkpoints[|checkpoints| - 1])
  }

  lemma AdvancesPast(entries: seq<int>, cursor: Option<int>, last: Option<int>, checkpoints: seq<int>,
                     from: nat, k: nat)
    requires Oldest(entries) && Advancing(cursor, checkpoints)
    requires last == if checkpoints == [] then cursor else Some(checkpoints[|checkpoints| - 1])
    requires from == Position(entries, last) && from <= k < |entries|
    ensures Advancing(cursor, checkpoints + [entries[k]])
  {
  }

  /** One more batch: the next entries. */
  lemma BatchAnalysed(entries: seq<int>, cursor: Option<int>, start: nat, at: nat, last: Option<int>,
                      batches: seq<seq<int>>, checkpoints: seq<int>, pending: seq<int>)
    requires Oldest(entries) && Analysed(entries, cursor, start, at, last, batches, checkpoints)
    requires 1 <= |pending| <= |entries| - at && pending == entries[at..at + |pending|]
    ensures var next := pending[|pending| - 1];
            Analysed(entries, cursor, start, at + |pending|, Some(next), batches + [pending], checkpoints + [next])
  {
    var to := at + |pending|;
    assert pending[|pending| - 1] == entries[to - 1];
    PositionOfEntry(entries, to - 1);
    AdvancesPast(entries, cursor, last, checkpoints, at, to - 1);
    JoinedMore(batches, pending);
    SlicesMeet(entries, start, at, to);
  }

  lemma JoinedMore(batches: seq<seq<int>>, pending: seq<int>)
    ensures Joined(batches + [pending]) == Joined(batches) + pending
  {
  }

  lemma SlicesMeet(entries: seq<int>, start: nat, at: nat, to: nat)
    requires start <= at <= to <= |entries|
    ensures entries[start..at] + entries[at..to] == entries[start..to]
  {
  }

  /** What is loaded after the cursor; empty exactly when nothing is left. */
  function Pending(entries: seq<int>, size: nat -> nat, at: nat): (r: seq<int>)
    requires Reads(entries, size) && at <= |entries|
    ensures r == [] <==> at == |entries|
    ensures |r| <= |entries| - at && r == entries[at..at + |r|]
  {
    if at == |entries| then [] else entries[at..at + size(at)]
  }

  /** One turn of the loop: load what is pending after the cursor, analyse it, checkpoint. */
  method AnalyzeBatch(entries: seq<int>, size: nat -> nat,
                      ghost cursor: Option<int>, ghost start: nat, last: Option<int>,
                      batches: seq<seq<int>>, checkpoints: seq<int>)
    returns (pending: seq<int>, omitted: nat, ghost now: nat)
    requires Oldest(entries) && Reads(entries, size)
    requires Analysed(entries, cursor, start, Position(entries, last), last, batches, checkpoints)
    ensures pending == Pending(entries, size, Position(entries, last))
    ensures omitted == |entries| - Position(entries, last) - |pending|
    ensures now + omitted == |entries|
    ensures pending == [] ==> now == Position(entries, last) == |entries|
    ensures pending != [] ==>
      && now == Position(entries, last) + |pending|
      && Analysed(entries, cursor, start, now, Some(pending[|pending| - 1]), batches + [pending],
                  checkpoints + [pending[|pending| - 1]])
  {
    var at := Position(entries, last);
    pending := Pending(entries, size, at);
    omitted, now := |entries| - at - |pending|, at + |pending|;
    if pending != [] {
      BatchAnalysed(entries, cursor, start, at, last, batches, checkpoints, pending);
    }
  }

  /**
    The batches of one call join up to one contiguous segment that starts just
    after the initial cursor and ends at the final one, so every entry in it is
    analysed once; checkpoints strictly advance; at most 25 batches run; and
    `drained` says exactly whether anything is left.
   */
  method AnalyzeThread(entries: seq<int>, size: nat -> nat, cursor: Option<int>)
    returns (batches: seq<seq<int>>, drained: bool, last: Option<int>, checkpoints: seq<int>)
    requires Oldest(entries) && Reads(entries, size)
    ensures Analysed(entries, cursor, Position(entries, cursor), Position(entries, last), last, batches, checkpoints)
    ensures |batches| <= 25 && (!drained ==> |batches| == 25)
    ensures drained <==> Position(entries, last) == |entries|
  {
    ghost var start := Position(entries, cursor);
    batches, drained, last, checkpoints := [], true, cursor, [];
    assert entries[start..start] == [];
    ghost var now: nat := start;
    var index := 0;
    while index < BATCH_LIMIT
      invariant |batches| == index <= BATCH_LIMIT
      invariant Analysed(entries, cursor, start, now, last, batches, checkpoints)
      invariant drained <==> index == 0
      invariant index > 0 ==> now < |entries|
    {
      var pending, omitted;
      pending, omitted, now := AnalyzeBatch(entries, size, cursor, start, last, batches, checkpoints);
      if pending == [] {
        break;
      }
      var next := pending[|pending| - 1];
      last, batches, checkpoints := Some(next), batches + [pending], checkpoints + [next];
      drained := omitted == 0;
      if drained {
        break;
      }
      index := index + 1;
    }
  }
}
