/** The logger object itself: a poll of the queue into the buffer, and of the buffer into the outputs. */
module AsyncLogger {
  import QueueMachine
  import opened QueueInvariant
  import opened QueueTheorems
  import opened QueueSolo
  import opened QueueWords
  import opened MpmcQueue
  import opened WrappedTickets
  import opened LoggerMachine

  /** The characters of records, one record after the other. */
  function Texts(records: seq<Record>): string
    requires Readable(records)
  {
    if records == [] then "" else Texts(records[..|records| - 1]) + Taken(records[|records| - 1]).value
  }

  /** Records that copy_n does not read beyond. */
  predicate Readable(records: seq<Record>)
  {
    forall k :: 0 <= k < |records| ==> Taken(records[k]).Some?
  }

  /** Every output with the same text behind it. */
  function All(outputs: seq<string>, text: string): (r: seq<string>)
    ensures |r| == |outputs|
  {
    seq(|outputs|, i requires 0 <= i < |outputs| => outputs[i] + text)
  }

  lemma AllNothing(outputs: seq<string>)
    ensures All(outputs, "") == outputs
  {
    forall i | 0 <= i < |outputs| ensures outputs[i] + "" == outputs[i] {
    }
  }

  class Logger {
    const queue: MPMCQueue<Record>
    const threshold: nat
    var buf: string
    var outputs: seq<string>

    /** A logger before its first poll, with one output: stdout. */
    constructor (capacity: uint64, threshold: nat, ghost threads: nat)
      requires capacity > 0 && And(capacity as nat, capacity as nat - 1) == 0
      ensures queue.Valid() && fresh(queue) && fresh(queue.slots)
          && queue.g == QueueMachine.Init(capacity as nat, threads)
      ensures this.threshold == threshold && buf == "" && outputs == [""]
    {
      queue := new MPMCQueue<Record>(capacity, threads);
      this.threshold, buf, outputs := threshold, "", [""];
    }

    /** writeFile: every output gets the buffer, and the buffer is empty. */
    method WriteFile()
      modifies `buf, `outputs
      ensures buf == "" && outputs == All(old(outputs), old(buf))
    {
      if buf == "" {
        AllNothing(outputs);
        return;
      }
      ghost var before := outputs;
      var i := 0;
      while i < |outputs|
        invariant i <= |outputs| == |before| && buf == old(buf)
        invariant forall k :: 0 <= k < |before| ==> outputs[k] == if k < i then before[k] + buf else before[k]
      {
        outputs := outputs[i := outputs[i] + buf];
        i := i + 1;
      }
      assert outputs == All(before, buf);
      buf := "";
    }

    /** The callback of poll, on the records that try_consume_all hands to it. */
    method Append(records: seq<Record>)
      requires Readable(records)
      modifies `buf
      ensures buf == old(buf) + Texts(records)
    {
      var i := 0;
      assert records[..0] == [];
      while i < |records|
        invariant i <= |records| && buf == old(buf) + Texts(records[..i])
      {
        buf := buf + Taken(records[i]).value;
        i := i + 1;
        assert records[..i][..i - 1] == records[..i - 1];
      }
      assert records[..i] == records;
    }

    /** poll, while the other threads stand still: it takes everything published in a row, and may write it. */
    method Poll(flush: bool, ghost me: nat)
      requires queue.Valid() && NoLag(queue.g) && me < |queue.g.pcs| && queue.g.pcs[me].Idle?
          && Readable(queue.g.issued)
      modifies this, queue, queue.slots
      ensures queue.Valid() && NoLag(queue.g) && queue.g.issued == old(queue.g.issued)
          && queue.g.head == old(queue.g.head)
      ensures |queue.g.pcs| == |old(queue.g.pcs)| && queue.g.pcs[me].Idle?
      ensures forall i :: 0 <= i < |queue.g.pcs| && i != me ==> queue.g.pcs[i] == old(queue.g.pcs)[i]
      ensures old(queue.g.tail) <= queue.g.tail == FirstGap(old(queue.g), old(queue.g.tail))
      ensures queue.g.tail > old(queue.g.tail) ==> queue.g.tail <= |queue.g.issued|
      ensures queue.g.tail == old(queue.g.tail) ==> buf == old(buf) && outputs == old(outputs)
      ensures queue.g.tail > old(queue.g.tail) ==>
                var all := old(buf) + Texts(queue.g.issued[old(queue.g.tail)..queue.g.tail]);
                if flush || |all| >= threshold then buf == "" && outputs == All(old(outputs), all)
                else buf == all && outputs == old(outputs)
    {
      hide Inv, Taken, WordShape, Storable, Stored;
      var records := queue.BulkPop(me);
      Append(records);
      if |records| == 0 {
        assert buf == old(buf) + "";
        return;
      }
      EndPoll(flush);
    }

    /** The end of poll: a full buffer is written, and any buffer if that is asked for. */
    method EndPoll(flush: bool)
      modifies `buf, `outputs
      ensures if flush || |old(buf)| >= threshold then buf == "" && outputs == All(old(outputs), old(buf))
              else buf == old(buf) && outputs == old(outputs)
    {
      if |buf| >= threshold {
        WriteFile();
        AllNothing(outputs);
      }
      if flush {
        WriteFile();
      }
    }

    /**
      The destructor, when nobody logs any more: a last poll takes and writes all that was accepted.  The files
      are closed by the outer code only if something is left in the buffer, which is never written then.
     */
    method Shutdown(ghost me: nat)
      requires queue.Valid() && NoLag(queue.g) && AllIdle(queue.g) && me < |queue.g.pcs| && Readable(queue.g.issued)
      requires queue.g.tail <= queue.g.head
      modifies this, queue, queue.slots
      ensures queue.Valid() && queue.g.tail == queue.g.head == old(queue.g.head) == |queue.g.issued|
      ensures queue.g.issued == old(queue.g.issued)
      ensures outputs == if old(queue.g.tail) == old(queue.g.head) then old(outputs)
                         else All(old(outputs), old(buf) + Texts(old(queue.g.issued[queue.g.tail..])))
      ensures buf == if old(queue.g.tail) == old(queue.g.head) then old(buf) else ""
    {
      AllPublished(queue.g, queue.g.tail);
      Poll(true, me);
      assert queue.g.issued[old(queue.g.tail)..queue.g.tail] == old(queue.g.issued[queue.g.tail..]);
    }
  }

  /** What is polled without being written, with nothing logged after it, is not written by the destructor. */
  method PolledAndLost() returns (logger: Logger)
    ensures fresh(logger) && logger.queue.g.issued == [MakeRecord("x")] && logger.queue.g.tail == 1
    ensures logger.buf == "x" && logger.outputs == [""]
  {
    logger := new Logger(2, 100, 1);
    logger.queue.BulkPush(0, [MakeRecord("x")], 0);
    logger.Poll(false, 0);
    logger.Shutdown(0);
  }
}
