/**
 The serverless handler's in-memory exchange log: a module-level list that
 `save_to_memory` appends to, `get_chat_history` returns as it stands and
 `clear_chat_history` replaces by an empty list. Here the list is a value
 and each operation a transition from the old log to the new one; the
 timestamp `save_to_memory` reads from the clock is a parameter.
 */
module History {

  datatype Exchange = Exchange(userMessage: string, botResponse: string, timestamp: string)

  /** The entries in the order they were saved, oldest first. */
  type Log = seq<Exchange>

  /** `save_to_memory`: one new exchange, at the end; earlier entries untouched. */
  function Save(log: Log, user: string, bot: string, stamp: string): (r: Log)
    ensures |r| == |log| + 1
    ensures r[..|log|] == log
    ensures r[|log|].userMessage == user && r[|log|].botResponse == bot
    ensures r[|log|].timestamp == stamp
  {
    log + [Exchange(user, bot, stamp)]
  }

  /** `clear_chat_history`: the log is replaced by an empty one. */
  function Clear(log: Log): (r: Log)
    ensures |r| == 0
  {
    []
  }

  /** `save_to_memory` called once per (user, bot, stamp) triple, in order. */
  function SaveAll(log: Log, batch: seq<(string, string, string)>): Log
    decreases |batch|
  {
    if batch == [] then log
    else SaveAll(Save(log, batch[0].0, batch[0].1, batch[0].2), batch[1..])
  }

  /**
   `get_chat_history` after a run of saves lists the old entries unchanged,
   then one entry per save, in the order the saves were made.
   */
  lemma {:induction false} SaveAllOldestFirst(log: Log, batch: seq<(string, string, string)>)
    ensures |SaveAll(log, batch)| == |log| + |batch|
    ensures SaveAll(log, batch)[..|log|] == log
    ensures forall k :: 0 <= k < |batch| ==>
              SaveAll(log, batch)[|log| + k] == Exchange(batch[k].0, batch[k].1, batch[k].2)
    decreases |batch|
  {
    if batch != [] {
      var next := Save(log, batch[0].0, batch[0].1, batch[0].2);
      SaveAllOldestFirst(next, batch[1..]);
      var r := SaveAll(log, batch);
      assert r == SaveAll(next, batch[1..]);
      assert r[..|log|] == r[..|next|][..|log|];
      forall k | 0 <= k < |batch|
        ensures r[|log| + k] == Exchange(batch[k].0, batch[k].1, batch[k].2)
      {
        if k == 0 {
          assert r[|log|] == r[..|next|][|log|];
        } else {
          assert r[|log| + k] == r[|next| + (k - 1)];
          assert batch[1..][k - 1] == batch[k];
        }
      }
    }
  }

  /** Clearing twice is the same as clearing once. */
  lemma ClearIdempotent(log: Log)
    ensures Clear(Clear(log)) == Clear(log)
  {
  }

  /** After a clear, the next save starts the history afresh. */
  lemma SaveAfterClear(log: Log, user: string, bot: string, stamp: string)
    ensures Save(Clear(log), user, bot, stamp) == [Exchange(user, bot, stamp)]
  {
  }
}
