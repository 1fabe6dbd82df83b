/** The single-producer single-consumer ring buffer between the gateway and the engine, with
    push and pop split into their individual loads, slot accesses and stores, and the engine
    loop's drain on stop. Steps interleave freely; each is atomic and seen in order. */
module RingBuffer {
  datatype Slot<T> = Blank | Full(item: T)

  /** Where the producer is: the submit loop retries push until it finds room. */
  datatype Producer<T> =
    | PIdle
    | PCalled(item: T)
    | PLoadedHead(item: T, h: nat)
    | PHasRoom(item: T, h: nat)
    | PWrote(item: T, h: nat)

  /** Where the engine loop is. */
  datatype Consumer<T> =
    | CTop
    | CSawStop
    | CEmptyLoadedTail(t: nat)
    | CPopCalled
    | CPopLoadedTail(t: nat)
    | CPopNonEmpty(t: nat)
    | CPopRead(t: nat, item: T)
    | CPopped(item: T)
    | CExited

  /** The buffer and its users. History: what was pushed, popped and processed, and how many
      pushes were complete when the stop flag was set. */
  datatype Ring<T> = Ring(
    buf: seq<Slot<T>>, head: nat, tail: nat, stop: bool, producer: Producer<T>, consumer: Consumer<T>,
    pushed: seq<T>, popped: seq<T>, processed: seq<T>, atStop: nat)

  datatype Act<T> =
    | Submit(item: T)    // the gateway starts a push
    | ProducerStep
    | ConsumerStep
    | SetStop

  function Wrap(i: nat, n: nat): nat
    requires n > 0
  {
    i % n
  }

  function ProducerNext<T>(s: Ring<T>): Ring<T>
    requires |s.buf| > 0
  {
    var n := |s.buf|;
    match s.producer
    case PIdle => s
    case PCalled(item) => s.(producer := PLoadedHead(item, s.head))
    case PLoadedHead(item, h) =>
      if Wrap(h + 1, n) == s.tail then s.(producer := PCalled(item))
      else s.(producer := PHasRoom(item, h))
    case PHasRoom(item, h) =>
      if h < n then s.(buf := s.buf[h := Full(item)], producer := PWrote(item, h)) else s
    case PWrote(item, h) =>
      s.(head := Wrap(h + 1, n), producer := PIdle, pushed := s.pushed + [item])
  }

  function ConsumerNext<T>(s: Ring<T>): Ring<T>
    requires |s.buf| > 0
  {
    var n := |s.buf|;
    match s.consumer
    case CTop => s.(consumer := if s.stop then CSawStop else CPopCalled)
    case CSawStop => s.(consumer := CEmptyLoadedTail(s.tail))
    case CEmptyLoadedTail(t) => s.(consumer := if t == s.head then CExited else CPopCalled)
    case CPopCalled => s.(consumer := CPopLoadedTail(s.tail))
    case CPopLoadedTail(t) => s.(consumer := if t == s.head then CTop else CPopNonEmpty(t))
    case CPopNonEmpty(t) =>
      if t < n && s.buf[t].Full? then s.(consumer := CPopRead(t, s.buf[t].item)) else s
    case CPopRead(t, item) =>
      s.(tail := Wrap(t + 1, n), consumer := CPopped(item), popped := s.popped + [item])
    case CPopped(item) => s.(consumer := CTop, processed := s.processed + [item])
    case CExited => s
  }

  function Next<T>(s: Ring<T>, a: Act<T>): Ring<T>
    requires |s.buf| > 0
  {
    match a
    case Submit(item) => if s.producer.PIdle? then s.(producer := PCalled(item)) else s
    case ProducerStep => ProducerNext(s)
    case ConsumerStep => ConsumerNext(s)
    case SetStop => if s.stop then s else s.(stop := true, atStop := |s.pushed|)
  }

  function Exec<T>(s: Ring<T>, run: seq<Act<T>>): Ring<T>
    requires |s.buf| > 0
    decreases |run|
  {
    if run == [] then s else Exec(Next(s, run[0]), run[1..])
  }

  function Init<T>(n: nat): Ring<T> {
    Ring(seq(n, _ => Blank), 0, 0, false, PIdle, CTop, [], [], [], 0)
  }

  // ---- Arithmetic of positions ----

  lemma {:induction false} WrapSucc(i: nat, n: nat)
    requires n > 0
    ensures Wrap(Wrap(i, n) + 1, n) == Wrap(i + 1, n)
  {
    var q, r := i / n, i % n;
    assert i == n * q + r;
    if r + 1 < n {
      WrapUnique(i + 1, n, q, r + 1);
      WrapUnique(r + 1, n, 0, r + 1);
    } else {
      assert i + 1 == n * (q + 1) + 0 by {
        assert n * (q + 1) == n * q + n;
      }
      WrapUnique(i + 1, n, q + 1, 0);
      WrapUnique(n, n, 1, 0);
    }
  }

  lemma {:induction false} WrapUnique(i: nat, n: nat, q: nat, r: nat)
    requires n > 0 && r < n && i == n * q + r
    ensures i % n == r
  {
    assert i == n * (i / n) + i % n;
    assert n * (i / n - q) == n * (i / n) - n * q;
    SmallMultiple(n, i / n - q);
  }

  lemma {:induction false} SmallMultiple(n: int, k: int)
    requires n > 0 && -n < n * k < n
    ensures k == 0
  {
  }

  /** Positions less than a lap apart that share a slot are the same. */
  lemma {:induction false} WrapDistinct(i: nat, j: nat, n: nat)
    requires n > 0 && i <= j < i + n && Wrap(i, n) == Wrap(j, n)
    ensures i == j
  {
    assert i == n * (i / n) + i % n && j == n * (j / n) + j % n;
    assert n * (j / n - i / n) == n * (j / n) - n * (i / n);
    SmallMultiple(n, j / n - i / n);
  }

  // ---- The invariant ----

  /** Held items sit in their slots, in order; the counters are the lengths of the history, wrapped. */
  ghost predicate Stored<T>(s: Ring<T>) {
    var n, r, w := |s.buf|, |s.popped|, |s.pushed|;
    && n > 0 && r <= w <= r + n - 1
    && s.popped == s.pushed[..r]
    && s.head == Wrap(w, n) && s.tail == Wrap(r, n)
    && (forall i :: r <= i < w ==> s.buf[Wrap(i, n)] == Full(s.pushed[i]))
  }

  ghost predicate ProducerOk<T>(s: Ring<T>) {
    var n, r, w := |s.buf|, |s.popped|, |s.pushed|;
    n > 0 &&
    match s.producer
    case PIdle => true
    case PCalled(_) => true
    case PLoadedHead(_, h) => h == Wrap(w, n)
    case PHasRoom(_, h) => h == Wrap(w, n) && w + 1 <= r + n - 1
    case PWrote(item, h) => h == Wrap(w, n) && w + 1 <= r + n - 1 && s.buf[h] == Full(item)
  }

  ghost predicate ConsumerOk<T>(s: Ring<T>) {
    var n, r, w := |s.buf|, |s.popped|, |s.pushed|;
    && n > 0
    && s.atStop <= w
    && (s.consumer.CPopped? || s.processed == s.popped)
    && match s.consumer {
         case CTop => true
         case CSawStop => s.stop
         case CEmptyLoadedTail(t) => s.stop && t == Wrap(r, n)
         case CPopCalled => true
         case CPopLoadedTail(t) => t == Wrap(r, n)
         case CPopNonEmpty(t) => t == Wrap(r, n) && r < w
         case CPopRead(t, item) => t == Wrap(r, n) && r < w && item == s.pushed[r]
         case CPopped(item) => s.popped == s.processed + [item]
         case CExited => s.stop && s.atStop <= r
       }
  }

  ghost predicate Inv<T>(s: Ring<T>) {
    Stored(s) && ProducerOk(s) && ConsumerOk(s)
  }

  lemma {:induction false} WriteKeeps<T>(s: Ring<T>)
    requires Inv(s) && s.producer.PHasRoom?
    ensures Inv(ProducerNext(s)) && |ProducerNext(s).buf| == |s.buf|
  {
    hide Wrap;
    var n, r, w := |s.buf|, |s.popped|, |s.pushed|;
    WrapBound(w, n);
    forall i | r <= i < w
      ensures Wrap(i, n) < n && Wrap(i, n) != s.producer.h
    {
      WrapBound(i, n);
      if Wrap(i, n) == s.producer.h {
        WrapDistinct(i, w, n);
      }
    }
  }

  lemma {:induction false} ProducerKeeps<T>(s: Ring<T>)
    requires Inv(s)
    ensures Inv(ProducerNext(s)) && |ProducerNext(s).buf| == |s.buf|
  {
    hide Wrap;
    match s.producer
    case PLoadedHead(_, _) => RoomKeeps(s);
    case PHasRoom(_, _) => WriteKeeps(s);
    case PWrote(_, _) => PublishKeeps(s);
    case _ =>
  }

  lemma {:induction false} RoomKeeps<T>(s: Ring<T>)
    requires Inv(s) && s.producer.PLoadedHead?
    ensures Inv(ProducerNext(s)) && |ProducerNext(s).buf| == |s.buf|
  {
    hide Wrap;
    var n, r, w := |s.buf|, |s.popped|, |s.pushed|;
    WrapSucc(w, n);
    if w + 1 == r + n {
      WrapUniqueLap(r, n);
    }
  }

  lemma {:induction false} PublishKeeps<T>(s: Ring<T>)
    requires Inv(s) && s.producer.PWrote?
    ensures Inv(ProducerNext(s)) && |ProducerNext(s).buf| == |s.buf|
  {
    hide Wrap;
    var n, r, w := |s.buf|, |s.popped|, |s.pushed|;
    WrapSucc(w, n);
    WrapBound(w, n);
    assert ProducerNext(s).pushed[..r] == s.pushed[..r];
  }

  lemma {:induction false} WrapBound(i: nat, n: nat)
    requires n > 0
    ensures Wrap(i, n) < n
  {
  }

  lemma {:induction false} WrapUniqueLap(r: nat, n: nat)
    requires n > 0
    ensures Wrap(r + n, n) == Wrap(r, n)
  {
    assert r + n == n * (r / n + 1) + r % n by {
      assert n * (r / n + 1) == n * (r / n) + n;
    }
    WrapUnique(r + n, n, r / n + 1, r % n);
  }

  lemma {:induction false} ConsumerKeeps<T>(s: Ring<T>)
    requires Inv(s)
    ensures Inv(ConsumerNext(s)) && |ConsumerNext(s).buf| == |s.buf|
  {
    var n, r, w := |s.buf|, |s.popped|, |s.pushed|;
    match s.consumer
    case CEmptyLoadedTail(t) =>
      if t == s.head {
        WrapDistinct(r, w, n);
      }
    case CPopRead(t, item) =>
      WrapSucc(r, n);
      hide Wrap;
      assert s.pushed[..r + 1] == s.pushed[..r] + [s.pushed[r]];
    case _ =>
  }

  lemma {:induction false} NextKeeps<T>(s: Ring<T>, a: Act<T>)
    requires Inv(s)
    ensures Inv(Next(s, a)) && |Next(s, a).buf| == |s.buf|
  {
    match a
    case ProducerStep => ProducerKeeps(s);
    case ConsumerStep => ConsumerKeeps(s);
    case _ =>
  }

  lemma {:induction false} ExecKeeps<T>(s: Ring<T>, run: seq<Act<T>>)
    requires Inv(s)
    ensures Inv(Exec(s, run)) && |Exec(s, run).buf| == |s.buf|
    decreases |run|
  {
    hide Inv, Next;
    if run != [] {
      NextKeeps(s, run[0]);
      NonEmpty(s);
      ExecKeeps(Next(s, run[0]), run[1..]);
    }
  }

  lemma {:induction false} NonEmpty<T>(s: Ring<T>)
    requires Inv(s)
    ensures |s.buf| > 0
  {
  }

  // ---- What every interleaving guarantees ----

  /** Under every interleaving: what has been popped is what was pushed, in order, without loss
      or repetition; at most n - 1 items are held; the slot about to be written holds no unread
      item and is not the slot about to be read; and the slot about to be read has been
      written, with the next item in order. */
  lemma {:induction false} FifoUnderEveryInterleaving<T>(n: nat, run: seq<Act<T>>)
    requires n > 0
    ensures var s := Exec(Init<T>(n), run);
            && s.popped <= s.pushed && |s.pushed| - |s.popped| <= n - 1
            && |s.buf| == n
            && (s.producer.PHasRoom? ==>
                  && s.producer.h < n
                  && (forall i :: |s.popped| <= i < |s.pushed| ==> Wrap(i, n) != s.producer.h)
                  && (s.consumer.CPopNonEmpty? ==> s.consumer.t != s.producer.h))
            && (s.consumer.CPopNonEmpty? ==>
                  && s.consumer.t < n && |s.popped| < |s.pushed|
                  && s.buf[s.consumer.t] == Full(s.pushed[|s.popped|]))
  {
    ExecKeeps(Init<T>(n), run);
    var s := Exec(Init<T>(n), run);
    hide Exec;
    var r, w := |s.popped|, |s.pushed|;
    if s.producer.PHasRoom? {
      forall i | r <= i < w
        ensures Wrap(i, n) != s.producer.h
      {
        if Wrap(i, n) == s.producer.h {
          WrapDistinct(i, w, n);
        }
      }
    }
  }

  /** When the engine loop exits, every item whose push was complete when the stop flag was
      set has been processed, once and in order. */
  lemma {:induction false} DrainedOnExit<T>(n: nat, run: seq<Act<T>>)
    requires n > 0
    ensures var s := Exec(Init<T>(n), run);
            s.consumer.CExited? ==>
              s.stop && s.processed <= s.pushed && s.atStop <= |s.processed| <= |s.pushed|
  {
    ExecKeeps(Init<T>(n), run);
  }

  // ---- The drain ends ----

  /** How far the engine loop is from its exit, once told to stop and sent nothing more. */
  function Distance<T>(s: Ring<T>): nat
    requires |s.popped| <= |s.pushed|
  {
    var held := |s.pushed| - |s.popped|;
    12 * held +
    match s.consumer
    case CExited => 0
    case CPopRead(_, _) => 1
    case CPopNonEmpty(_) => 2
    case CPopLoadedTail(_) => if held > 0 then 3 else 9
    case CPopCalled => if held > 0 then 4 else 10
    case CEmptyLoadedTail(_) => 5
    case CSawStop => 6
    case CTop => 7
    case CPopped(_) => 8
  }

  /** The engine loop's own steps. */
  function Turns<T>(k: nat): seq<Act<T>> {
    if k == 0 then [] else [ConsumerStep] + Turns(k - 1)
  }

  lemma {:induction false} OneStepCloser<T>(s: Ring<T>)
    requires Inv(s) && s.stop && !s.consumer.CExited?
    ensures |s.buf| > 0 && |s.popped| <= |s.pushed|
    ensures var s' := ConsumerNext(s);
            && Inv(s') && s'.stop && s'.pushed == s.pushed && |s'.popped| <= |s'.pushed|
            && (if s'.consumer.CExited? then s'.processed == s'.pushed else Distance(s') < Distance(s))
  {
    hide Wrap;
    ConsumerKeeps(s);
    NonEmpty(s);
    WrapBound(|s.popped|, |s.buf|);
    if s.tail == s.head {
      WrapDistinct(|s.popped|, |s.pushed|, |s.buf|);
    }
  }

  /** Once told to stop and sent nothing more, the engine loop exits after so many steps of its
      own, with everything ever pushed processed. */
  lemma {:induction false} DrainEnds<T>(s: Ring<T>, k: nat)
    requires Inv(s) && s.stop && !s.consumer.CExited?
    requires |s.popped| <= |s.pushed| && k >= Distance(s)
    ensures |s.buf| > 0
    ensures var e := Exec(s, Turns(k)); e.consumer.CExited? && e.processed == e.pushed == s.pushed
    decreases k
  {
    hide Inv, Distance, ConsumerNext;
    OneStepCloser(s);
    NotThereYet(s);
    var s1 := ConsumerNext(s);
    assert Turns<T>(k)[1..] == Turns<T>(k - 1);
    NonEmpty(s1);
    if s1.consumer.CExited? {
      StaysOut(s1, k - 1);
    } else {
      DrainEnds(s1, k - 1);
    }
  }

  lemma {:induction false} NotThereYet<T>(s: Ring<T>)
    requires |s.popped| <= |s.pushed| && !s.consumer.CExited?
    ensures Distance(s) > 0
  {
  }

  lemma {:induction false} StaysOut<T>(s: Ring<T>, k: nat)
    requires |s.buf| > 0 && s.consumer.CExited?
    ensures Exec(s, Turns(k)) == s
    decreases k
  {
    if k > 0 {
      assert Turns<T>(k)[1..] == Turns<T>(k - 1);
      StaysOut(s, k - 1);
    }
  }

  /** In every interleaving: wherever the loop is when the flag is set, it gets to its exit. */
  lemma {:induction false} EveryDrainEnds<T>(n: nat, run: seq<Act<T>>)
    requires n > 0 && Exec(Init<T>(n), run).stop && !Exec(Init<T>(n), run).consumer.CExited?
    ensures var s := Exec(Init<T>(n), run);
            && |s.buf| == n && |s.popped| <= |s.pushed|
            && var e := Exec(s, Turns(Distance(s)));
               e.consumer.CExited? && e.processed == s.pushed
  {
    hide Exec, Distance;
    InitOk<T>(n);
    ExecKeeps(Init<T>(n), run);
    var s := Exec(Init<T>(n), run);
    OneStepCloser(s);
    DrainEnds(s, Distance(s));
  }

  lemma {:induction false} InitOk<T>(n: nat)
    requires n > 0
    ensures Inv(Init<T>(n)) && |Init<T>(n).buf| == n
  {
  }

  // ---- The mask ----

  function Pow2(k: nat): nat {
    if k == 0 then 1 else 2 * Pow2(k - 1)
  }

  /** Bitwise and of two non-negative integers. */
  function And(x: nat, y: nat): nat
    decreases x
  {
    if x == 0 || y == 0 then 0
    else 2 * And(x / 2, y / 2) + (if x % 2 == 1 && y % 2 == 1 then 1 else 0)
  }

  lemma {:induction false} DoubleWrap(x: nat, m: nat)
    requires m > 0
    ensures x % (2 * m) == 2 * ((x / 2) % m) + x % 2
  {
    var h := x / 2;
    assert h == m * (h / m) + h % m;
    assert x == 2 * h + x % 2;
    assert (2 * m) * (h / m) == 2 * (m * (h / m));
    WrapUnique(x, 2 * m, h / m, 2 * (h % m) + x % 2);
  }

  /** For a buffer size that is a power of two, masking with size - 1 wraps the index. */
  lemma {:induction false} MaskIsWrap(x: nat, k: nat)
    ensures Pow2(k) > 0
    ensures And(x, Pow2(k) - 1) == Wrap(x, Pow2(k))
  {
    if k > 0 {
      MaskIsWrap(x / 2, k - 1);
      var m := Pow2(k - 1);
      DoubleWrap(x, m);
      MaskStep(x, m);
    }
  }

  lemma {:induction false} MaskStep(x: nat, m: nat)
    requires m > 0
    ensures And(x, 2 * m - 1) == 2 * And(x / 2, m - 1) + x % 2
  {
    assert (2 * m - 1) / 2 == m - 1 && (2 * m - 1) % 2 == 1;
  }
}
