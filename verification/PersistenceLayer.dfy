/** The persistence thread: a queue filled by the engine, emptied in batches, each committed
    as one transaction. */
module PersistenceThread {
  import opened Orders
  import opened Books
  import opened Gateway
  import opened Persistence
  import opened OrderIds

  /** The steps that hold the lock or commit are the methods; they may be called in any order. */
  class PersistenceLayer {
    var queue: seq<DbEvent>
    var batch: seq<DbEvent>      // taken from the queue, not yet committed
    var table: Table             // what a crash leaves behind
    var stop: bool
    ghost var base: Table
    ghost var pushed: seq<DbEvent>
    ghost var committed: nat

    /** Committed, in flight and queued events are the pushed ones, in order; the table is the
        fold of the committed ones. */
    ghost predicate Ok()
      reads this
    {
      && committed <= |pushed|
      && pushed[committed..] == batch + queue
      && table == ApplyEvents(base, pushed[..committed])
    }

    constructor (t: Table)
      ensures Ok() && table == t && base == t && pushed == [] && queue == [] && batch == [] && !stop
    {
      queue, batch, table, stop := [], [], t, false;
      base, pushed, committed := t, [], 0;
    }

    method Push(e: DbEvent)
      requires Ok()
      modifies this
      ensures Ok() && pushed == old(pushed) + [e] && queue == old(queue) + [e]
      ensures batch == old(batch) && table == old(table) && stop == old(stop) && base == old(base)
    {
      assert (pushed + [e])[committed..] == pushed[committed..] + [e];
      assert (pushed + [e])[..committed] == pushed[..committed];
      queue := queue + [e];
      pushed := pushed + [e];
    }

    method SetStop()
      requires Ok()
      modifies this
      ensures Ok() && stop && pushed == old(pushed) && queue == old(queue) && batch == old(batch)
      ensures table == old(table) && base == old(base)
    {
      stop := true;
    }

    /** Under the lock: move everything queued into the batch. The thread exits if it was told
        to stop and found nothing; then every event ever pushed has been committed, once and
        in order. */
    method TakeBatch() returns (exits: bool)
      requires Ok() && batch == []
      modifies this
      ensures Ok() && queue == [] && batch == old(queue) && pushed == old(pushed)
      ensures table == old(table) && stop == old(stop) && base == old(base)
      ensures exits <==> stop && old(queue) == []
      ensures exits ==> table == ApplyEvents(base, pushed)
    {
      while queue != []
        invariant batch + queue == old(queue)
        invariant table == old(table) && stop == old(stop) && base == old(base)
        invariant pushed == old(pushed) && committed == old(committed)
        decreases |queue|
      {
        batch := batch + [queue[0]];
        queue := queue[1..];
      }
      exits := stop && batch == [];
      if exits {
        assert committed == |pushed|;
        assert pushed[..committed] == pushed;
      }
    }

    /** Apply the batch and commit: the table moves from one prefix of the events to a longer one. */
    method Flush()
      requires Ok()
      modifies this
      ensures Ok() && batch == [] && queue == old(queue) && pushed == old(pushed) && base == old(base)
      ensures table == ApplyEvents(old(table), old(batch)) && stop == old(stop)
    {
      var t := table;
      for i := 0 to |batch|
        invariant ApplyEvents(table, batch) == ApplyEvents(t, batch[i..])
      {
        t := ApplyEvent(t, batch[i]);
      }
      ghost var n := committed + |batch|;
      assert pushed[..n] == pushed[..committed] + batch by {
        assert pushed[..n] == pushed[..committed] + pushed[committed..][..|batch|];
      }
      ApplyEventsAppend(base, pushed[..committed], batch);
      assert pushed[n..] == pushed[committed..][|batch|..];
      committed := n;
      table, batch := t, [];
    }

    /** The largest sequence number among the stored ids, read back from their text. */
    method LoadMaxOrderSeq() returns (max: nat)
      ensures IsMaxSeq(table, max)
    {
      max := 0;
      var todo := table.Keys;
      while todo != {}
        invariant todo <= table.Keys
        invariant forall id :: id in table && id !in todo ==> id <= max
        invariant if todo == table.Keys then max == 0 else max in table
        decreases |todo|
      {
        var id :| id in todo;
        SeqOfText(id);
        var seqNo := SeqOf(Text(id));
        if todo == table.Keys || seqNo > max {
          max := seqNo;
        }
        todo := todo - {id};
      }
    }

    /** Recovery: every row once, in an order of the database's choosing. */
    method LoadRestingOrders() returns (os: seq<Order>)
      ensures Enumerates(os, Recovered(table))
    {
      os := [];
      var todo := table.Keys;
      var v := Recovered(table);
      while todo != {}
        invariant todo <= table.Keys && Distinct(os)
        invariant forall i :: 0 <= i < |os| ==> os[i].id in v && v[os[i].id] == os[i] && os[i].id !in todo
        invariant forall id :: id in v && id !in todo ==> exists i :: 0 <= i < |os| && os[i].id == id
        decreases |todo|
      {
        var id :| id in todo;
        ghost var before, was := os, todo;
        os := os + [Loaded(id, table[id])];
        todo := todo - {id};
        forall x | x in v && x !in todo
          ensures exists i :: 0 <= i < |os| && os[i].id == x
        {
          if x in was {
            assert os[|before|].id == x;
          } else {
            var i :| 0 <= i < |before| && before[i].id == x;
            assert os[i].id == x;
          }
        }
      }
    }
  }

  /** An id issued after recovery, as text, is none of the stored ids. */
  lemma {:induction false} IssuedTextIsNew(t: Table, max: nat, n: nat)
    requires IsMaxSeq(t, max) && n > max
    ensures forall id :: id in t ==> Text(n) != Text(id)
  {
    forall id | id in t
      ensures Text(n) != Text(id)
    {
      SeqOfText(n);
      SeqOfText(id);
    }
  }
}
