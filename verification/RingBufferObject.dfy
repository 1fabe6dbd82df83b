/** The ring buffer object. Each method, run to completion, is a sequence of the atomic steps of
    the interleaving model, and so keeps the same invariant. */
module RingBufferObject {
  import opened Options
  import opened RingBuffer

  class SpscRing<T> {
    const buf: array<Slot<T>>
    var head: nat
    var tail: nat
    ghost var pushed: seq<T>
    ghost var popped: seq<T>

    /** The buffer between two operations, as a state of the interleaving model. */
    ghost function State(): Ring<T>
      reads this, buf
    {
      Ring(buf[..], head, tail, false, PIdle, CTop, pushed, popped, popped, 0)
    }

    ghost predicate Ok()
      reads this, buf
    {
      Inv(State())
    }

    /** What is held, oldest first. */
    ghost function Contents(): seq<T>
      reads this, buf
      requires Ok()
    {
      pushed[|popped|..]
    }

    constructor (n: nat)
      requires n > 0
      ensures Ok() && fresh(buf) && buf.Length == n && Contents() == []
    {
      buf := new Slot<T>[n](_ => Blank);
      head, tail, pushed, popped := 0, 0, [], [];
    }

    /** Refused exactly when n - 1 items are held. */
    method Push(item: T) returns (ok: bool)
      requires Ok()
      modifies this, buf
      ensures Ok() && popped == old(popped)
      ensures ok <==> old(|Contents()|) < buf.Length - 1
      ensures Contents() == if ok then old(Contents()) + [item] else old(Contents())
      ensures State() == if ok then Exec(old(State()), PushRun(item)) else old(State())
    {
      hide Wrap, Stored, ProducerOk, ConsumerOk, Exec;
      ghost var s0 := State();
      PushSteps(s0, item);
      var next := Wrap(head + 1, buf.Length);
      if next == tail {
        return false;
      }
      buf[head] := Full(item);
      head := next;
      pushed := pushed + [item];
      assert State() == Exec(s0, PushRun(item));
      return true;
    }

    /** The oldest item, or nothing exactly when nothing is held. */
    method Pop() returns (item: Option<T>)
      requires Ok()
      modifies this
      ensures Ok() && pushed == old(pushed) && buf[..] == old(buf[..])
      ensures if old(Contents()) == [] then item == None && Contents() == []
              else item == Some(old(Contents())[0]) && Contents() == old(Contents())[1..]
      ensures item.Some? ==> State() == Exec(old(State()), PopRun())
    {
      hide Wrap, Stored, ProducerOk, ConsumerOk, Exec;
      ghost var s0 := State();
      PopSteps(s0);
      if tail == head {
        return None;
      }
      item := Some(buf[tail].item);
      tail := Wrap(tail + 1, buf.Length);
      popped := popped + [item.value];
      assert State() == Exec(s0, PopRun());
    }

    method Empty() returns (e: bool)
      requires Ok()
      ensures e <==> Contents() == []
    {
      EmptyIffMet(State());
      e := tail == head;
    }
  }

  /** A push that finds room: call, load the head, compare with the tail, write, publish. */
  function PushRun<T>(item: T): seq<Act<T>> {
    [Submit(item), ProducerStep, ProducerStep, ProducerStep, ProducerStep]
  }

  /** A pop that finds an item, and its processing. */
  function PopRun<T>(): seq<Act<T>> {
    [ConsumerStep, ConsumerStep, ConsumerStep, ConsumerStep, ConsumerStep, ConsumerStep]
  }

  /** No operation is under way. */
  predicate Quiet<T>(s: Ring<T>) {
    s.producer.PIdle? && s.consumer.CTop? && !s.stop
  }

  lemma {:induction false} OneStep<T>(s: Ring<T>, a: Act<T>, s': Ring<T>, run: seq<Act<T>>)
    requires Inv(s) && |s.buf| > 0 && s' == Next(s, a)
    ensures Inv(s') && |s'.buf| == |s.buf| && Exec(s, [a] + run) == Exec(s', run)
  {
    NextKeeps(s, a);
    assert ([a] + run)[1..] == run;
  }

  /** There is no room exactly when one slot is left, and otherwise the steps of a push store the item. */
  lemma {:induction false} PushSteps<T>(s: Ring<T>, item: T)
    requires Inv(s) && Quiet(s)
    ensures |s.buf| > 0 && s.head < |s.buf| && |s.popped| <= |s.pushed| <= |s.popped| + |s.buf| - 1
    ensures Wrap(s.head + 1, |s.buf|) == s.tail <==> |s.pushed| - |s.popped| == |s.buf| - 1
    ensures Wrap(s.head + 1, |s.buf|) != s.tail ==>
              var s' := s.(buf := s.buf[s.head := Full(item)], head := Wrap(s.head + 1, |s.buf|),
                           pushed := s.pushed + [item]);
              Exec(s, PushRun(item)) == s' && Inv(s')
  {
    var n, r, w := |s.buf|, |s.popped|, |s.pushed|;
    WrapBound(w, n);
    WrapSucc(w, n);
    WrapUniqueLap(r, n);
    if Wrap(w + 1, n) == Wrap(r, n) && w + 1 < r + n {
      WrapDistinct(r, w + 1, n);
    }
    hide Wrap, Inv;
    if Wrap(s.head + 1, n) != s.tail {
      RoomyPush(s, item);
    }
  }

  lemma {:induction false} RoomyPush<T>(s: Ring<T>, item: T)
    requires Inv(s) && Quiet(s) && |s.buf| > 0 && s.head < |s.buf| && Wrap(s.head + 1, |s.buf|) != s.tail
    ensures var s' := s.(buf := s.buf[s.head := Full(item)], head := Wrap(s.head + 1, |s.buf|),
                         pushed := s.pushed + [item]);
            Exec(s, PushRun(item)) == s' && Inv(s')
  {
    hide Wrap, Inv, Exec;
    var h := s.head;
    var s1 := s.(producer := PCalled(item));
    var s2 := s.(producer := PLoadedHead(item, h));
    var s3 := s.(producer := PHasRoom(item, h));
    var s4 := s.(producer := PWrote(item, h), buf := s.buf[h := Full(item)]);
    var s5 := s.(buf := s.buf[h := Full(item)], head := Wrap(h + 1, |s.buf|), pushed := s.pushed + [item]);
    var step: seq<Act<T>> := [ProducerStep];
    OneStep(s, Submit(item), s1, step + (step + (step + (step + []))));
    OneStep(s1, ProducerStep, s2, step + (step + (step + [])));
    OneStep(s2, ProducerStep, s3, step + (step + []));
    OneStep(s3, ProducerStep, s4, step + []);
    OneStep(s4, ProducerStep, s5, []);
    assert PushRun(item) == [Submit(item)] + (step + (step + (step + (step + []))));
    NoSteps(s5);
  }

  lemma {:induction false} NoSteps<T>(s: Ring<T>)
    requires |s.buf| > 0
    ensures Exec(s, []) == s
  {
  }

  /** The counters meet exactly when nothing is held. */
  lemma {:induction false} EmptyIffMet<T>(s: Ring<T>)
    requires Inv(s)
    ensures s.tail == s.head <==> |s.popped| == |s.pushed|
  {
    if s.tail == s.head {
      WrapDistinct(|s.popped|, |s.pushed|, |s.buf|);
    }
  }

  lemma {:induction false} PopSteps<T>(s: Ring<T>)
    requires Inv(s) && Quiet(s) && s.processed == s.popped
    ensures |s.buf| > 0 && s.tail < |s.buf| && |s.popped| <= |s.pushed|
    ensures s.tail == s.head <==> |s.popped| == |s.pushed|
    ensures s.tail != s.head ==>
              && s.buf[s.tail] == Full(s.pushed[|s.popped|])
              && var item := s.pushed[|s.popped|];
                 var s' := s.(tail := Wrap(s.tail + 1, |s.buf|), popped := s.popped + [item],
                              processed := s.popped + [item]);
                 Exec(s, PopRun()) == s' && Inv(s')
  {
    WrapBound(|s.popped|, |s.buf|);
    EmptyIffMet(s);
    if s.tail != s.head {
      hide Wrap;
      HeldPop(s);
    }
  }

  lemma {:induction false} HeldPop<T>(s: Ring<T>)
    requires Inv(s) && Quiet(s) && s.processed == s.popped && |s.buf| > 0 && s.tail < |s.buf| && s.tail != s.head
    requires |s.popped| < |s.pushed| && s.buf[s.tail] == Full(s.pushed[|s.popped|])
    ensures var item := s.pushed[|s.popped|];
            var s' := s.(tail := Wrap(s.tail + 1, |s.buf|), popped := s.popped + [item],
                         processed := s.popped + [item]);
            Exec(s, PopRun()) == s' && Inv(s')
  {
    hide Wrap, Inv, Exec;
    var t, item := s.tail, s.pushed[|s.popped|];
    var s1 := s.(consumer := CPopCalled);
    var s2 := s.(consumer := CPopLoadedTail(t));
    var s3 := s.(consumer := CPopNonEmpty(t));
    var s4 := s.(consumer := CPopRead(t, item));
    var s5 := s.(consumer := CPopped(item), tail := Wrap(t + 1, |s.buf|), popped := s.popped + [item]);
    var s6 := s5.(consumer := CTop, processed := s.popped + [item]);
    var step: seq<Act<T>> := [ConsumerStep];
    OneStep(s, ConsumerStep, s1, step + (step + (step + (step + (step + [])))));
    OneStep(s1, ConsumerStep, s2, step + (step + (step + (step + []))));
    OneStep(s2, ConsumerStep, s3, step + (step + (step + [])));
    OneStep(s3, ConsumerStep, s4, step + (step + []));
    OneStep(s4, ConsumerStep, s5, step + []);
    OneStep(s5, ConsumerStep, s6, []);
    assert PopRun<T>() == step + (step + (step + (step + (step + (step + [])))));
    NoSteps(s6);
  }
}
