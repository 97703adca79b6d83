/** The accept loop's thread slots, as the loop itself: `thread_id[]`, the index, and
    the inner loop that joins a full batch. */
module AcceptLoop {
  import opened Server

  function UpTo(n: nat): (s: seq<nat>)
    ensures |s| == n
  {
    seq(n, i => i)
  }

  class Loop {
    const threadId: array<nat>
    var index: nat
    var created: nat
    var joined: seq<nat>

    ghost predicate Valid()
      reads this, threadId
    {
      && threadId.Length == SLOTS && index < BATCH && index <= created
      && joined == UpTo(created - index)
      && forall j :: 0 <= j < index ==> threadId[j] == created - index + j
    }

    constructor ()
      ensures Valid() && fresh(threadId) && created == 0 && index == 0
    {
      threadId := new nat[SLOTS];
      index, created, joined := 0, 0, [];
    }

    /** Join all threads of a full batch, in order of creation, each once. */
    method JoinBatch()
      requires threadId.Length == SLOTS && index == BATCH <= created && joined == UpTo(created - BATCH)
      requires forall j :: 0 <= j < BATCH ==> threadId[j] == created - BATCH + j
      modifies this
      ensures index == 0 && created == old(created) && joined == UpTo(created)
    {
      index := 0;
      while index < BATCH
        invariant 0 <= index <= BATCH && created == old(created)
        invariant joined == UpTo(created - BATCH + index)
        decreases BATCH - index
      {
        joined := joined + [threadId[index]];
        index := index + 1;
      }
      index := 0;
    }

    /** Accept `n` more connections. Threads are numbered as they are created; those
        joined are an initial stretch, and fewer than 50 are left. */
    method Serve(n: nat)
      requires Valid()
      modifies this, threadId
      ensures Valid() && created == old(created) + n && index == (old(index) + n) % 50
    {
      var i := 0;
      while i < n
        invariant 0 <= i <= n && Valid()
        invariant created == old(created) + i && index == (old(index) + i) % BATCH
      {
        threadId[index] := created;
        created := created + 1;
        index := index + 1;
        if index >= BATCH {
          JoinBatch();
        }
        i := i + 1;
      }
    }
  }
}
