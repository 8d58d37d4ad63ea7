/** How the upload dispatcher cuts the stream of jobs into batches. */
module Dispatcher {
  import opened Lists

  /** What the dispatcher's select can see: the next job, or the batch deadline passing. */
  datatype Message<+J> = Job(job: J) | Deadline

  function Jobs<J>(script: seq<Message<J>>): seq<J> {
    if script == [] then []
    else (if script[0].Job? then [script[0].job] else []) + Jobs(script[1..])
  }

  /** Deadlines in the script. */
  function Deadlines<J>(script: seq<Message<J>>): nat {
    if script == [] then 0 else (if script[0].Deadline? then 1 else 0) + Deadlines(script[1..])
  }

  /** The batches cut while `open` is being collected; no batch is open when it is empty. */
  function Batches<J>(script: seq<Message<J>>, open: seq<J>, size: nat): seq<seq<J>>
    requires size > 0
    decreases |script|
  {
    if script == [] then (if open == [] then [] else [open])
    else
      match script[0]
      case Deadline => (if open == [] then [] else [open]) + Batches(script[1..], [], size)
      case Job(j) =>
        if |open| + 1 >= size then [open + [j]] + Batches(script[1..], [], size)
        else Batches(script[1..], open + [j], size)
  }

  /** The batches, one after another, are the jobs in the order they arrived. */
  lemma {:induction false} BatchesKeepOrder<J>(script: seq<Message<J>>, open: seq<J>, size: nat)
    requires size > 0
    ensures Flatten(Batches(script, open, size)) == open + Jobs(script)
    decreases |script|
  {
    if script == [] {
      FlattenCons(open, []);
      assert [open] + [] == [open];
    } else if script[0].Deadline? {
      var later := Batches(script[1..], [], size);
      BatchesKeepOrder(script[1..], [], size);
      FlattenCons(open, later);
      assert [] + later == later;
      assert [] + Jobs(script[1..]) == Jobs(script[1..]) == Jobs(script);
    } else {
      var grown := open + [script[0].job];
      BatchesKeepOrder(script[1..], if |grown| >= size then [] else grown, size);
      FlattenCons(grown, Batches(script[1..], [], size));
      assert [] + Jobs(script[1..]) == Jobs(script[1..]);
      Regroup(open, [script[0].job], Jobs(script[1..]));
    }
  }

  /** No batch is empty or larger than allowed. */
  lemma {:induction false} BatchSizes<J>(script: seq<Message<J>>, open: seq<J>, size: nat, b: seq<J>)
    requires |open| < size && b in Batches(script, open, size)
    ensures 1 <= |b| <= size
    decreases |script|
  {
    if script != [] {
      var rest := script[1..];
      match script[0]
      case Deadline =>
        if b != open { BatchSizes(rest, [], size, b); }
        else if open == [] { BatchSizes(rest, [], size, b); }
      case Job(j) =>
        if |open| + 1 >= size {
          if b != open + [j] { BatchSizes(rest, [], size, b); }
        } else {
          BatchSizes(rest, open + [j], size, b);
        }
    }
  }

  /** What the first message closes, and what is open after it. */
  function ClosedBy<J>(m: Message<J>, open: seq<J>, size: nat): seq<seq<J>> {
    match m
    case Deadline => if open == [] then [] else [open]
    case Job(j) => if |open| + 1 >= size then [open + [j]] else []
  }

  function OpenAfter<J>(m: Message<J>, open: seq<J>, size: nat): seq<J> {
    match m
    case Deadline => []
    case Job(j) => if |open| + 1 >= size then [] else open + [j]
  }

  lemma FirstMessage<J>(script: seq<Message<J>>, open: seq<J>, size: nat)
    requires script != [] && size > 0
    ensures Batches(script, open, size)
         == ClosedBy(script[0], open, size) + Batches(script[1..], OpenAfter(script[0], open, size), size)
  {
    var rest := Batches(script[1..], OpenAfter(script[0], open, size), size);
    assert [] + rest == rest;
  }

  /**
   * Batch i was cut at point p: exactly the jobs of it and of the batches before it have
   * arrived by then, and a deadline comes next, or the script is over and the batch the last.
   */
  ghost predicate CutAt<J>(script: seq<Message<J>>, open: seq<J>, size: nat, i: nat, p: nat)
    requires size > 0
  {
    var bs := Batches(script, open, size);
    && i < |bs| && p <= |script| && open + Jobs(script[..p]) == Flatten(bs[..i + 1])
    && if p == |script| then i == |bs| - 1 else script[p].Deadline?
  }

  /** Every batch that is not full was cut by a deadline passing while it was open, or by the close of the channel. */
  lemma {:induction false} UnderfullWasCut<J>(script: seq<Message<J>>, open: seq<J>, size: nat, i: nat) returns (p: nat)
    requires |open| < size && i < |Batches(script, open, size)| && |Batches(script, open, size)[i]| < size
    ensures CutAt(script, open, size, i, p)
    decreases |script|
  {
    if script == [] {
      p := 0;
      OneBatch(open);
    } else {
      FirstMessage(script, open, size);
      var closed := ClosedBy(script[0], open, size);
      if i < |closed| {
        p := 0;
        CutNow(script, open, size);
      } else {
        var q := UnderfullWasCut(script[1..], OpenAfter(script[0], open, size), size, i - |closed|);
        p := q + 1;
        CutLater(script, open, size, i, q);
      }
    }
  }

  lemma CutNow<J>(script: seq<Message<J>>, open: seq<J>, size: nat)
    requires script != [] && script[0].Deadline? && open != [] && size > 0
    ensures CutAt(script, open, size, 0, 0)
  {
    FirstMessage(script, open, size);
    OneBatch(open);
    assert Batches(script, open, size)[..1] == [open] && script[..0] == [];
  }

  lemma CutLater<J>(script: seq<Message<J>>, open: seq<J>, size: nat, i: nat, q: nat)
    requires script != [] && |open| < size && |ClosedBy(script[0], open, size)| <= i
    requires CutAt(script[1..], OpenAfter(script[0], open, size), size, i - |ClosedBy(script[0], open, size)|, q)
    ensures CutAt(script, open, size, i, q + 1)
  {
    var closed, next := ClosedBy(script[0], open, size), OpenAfter(script[0], open, size);
    FirstMessage(script, open, size);
    JobsTake(script, q);
    ClosedThenRest(closed, Batches(script[1..], next, size), i);
    ClosedAndOpen(script[0], open, size, Jobs(script[1..][..q]));
  }

  lemma OneBatch<J>(b: seq<J>)
    ensures Flatten([b]) == b && [b][..1] == [b] && b + Jobs<J>([]) == b
  {
    FlattenCons(b, []);
    assert [b] + [] == [b];
  }

  lemma JobsTake<J>(script: seq<Message<J>>, q: nat)
    requires q < |script|
    ensures Jobs(script[..q + 1]) == (if script[0].Job? then [script[0].job] else []) + Jobs(script[1..][..q])
  {
    assert script[..q + 1][1..] == script[1..][..q];
  }

  lemma ClosedThenRest<J>(closed: seq<seq<J>>, rest: seq<seq<J>>, i: nat)
    requires |closed| <= 1 && |closed| <= i < |closed| + |rest|
    ensures Flatten((closed + rest)[..i + 1]) ==
              (if closed == [] then [] else closed[0]) + Flatten(rest[..i - |closed| + 1])
  {
    var cut := rest[..i - |closed| + 1];
    assert (closed + rest)[..i + 1] == closed + cut;
    if closed == [] {
      assert closed + cut == cut && [] + Flatten(cut) == Flatten(cut);
    } else {
      assert closed == [closed[0]];
      FlattenCons(closed[0], cut);
    }
  }

  /** The jobs of the batch closed by a message, then the open ones, are those open before and the message's. */
  lemma ClosedAndOpen<J>(m: Message<J>, open: seq<J>, size: nat, later: seq<J>)
    requires size > 0
    ensures
      var closed := ClosedBy(m, open, size);
      open + ((if m.Job? then [m.job] else []) + later)
      == (if closed == [] then [] else closed[0]) + (OpenAfter(m, open, size) + later)
  {
  }

  /** A deadline cuts what is open: no batch has jobs from both before and after one. */
  lemma {:induction false} NoBatchSpansDeadline<J>(script: seq<Message<J>>, open: seq<J>, size: nat, p: nat)
    returns (i: nat)
    requires |open| < size && p < |script| && script[p].Deadline?
    ensures i <= |Batches(script, open, size)|
    ensures open + Jobs(script[..p]) == Flatten(Batches(script, open, size)[..i])
    decreases |script|
  {
    FirstMessage(script, open, size);
    var closed, next := ClosedBy(script[0], open, size), OpenAfter(script[0], open, size);
    var rest := Batches(script[1..], next, size);
    if p == 0 {
      i := |closed|;
      assert script[..0] == [] && (closed + rest)[..i] == closed;
      OneBatch(open);
    } else {
      var later := NoBatchSpansDeadline(script[1..], next, size, p - 1);
      i := |closed| + later;
      JobsTake(script, p - 1);
      ClosedAndOpen(script[0], open, size, Jobs(script[1..][..p - 1]));
      ClosedThenSome(closed, rest, later);
    }
  }

  lemma ClosedThenSome<J>(closed: seq<seq<J>>, rest: seq<seq<J>>, n: nat)
    requires |closed| <= 1 && n <= |rest|
    ensures Flatten((closed + rest)[..|closed| + n]) == (if closed == [] then [] else closed[0]) + Flatten(rest[..n])
  {
    assert (closed + rest)[..|closed| + n] == closed + rest[..n];
    if closed == [] {
      assert closed + rest[..n] == rest[..n] && [] + Flatten(rest[..n]) == Flatten(rest[..n]);
    } else {
      assert closed == [closed[0]];
      FlattenCons(closed[0], rest[..n]);
    }
  }

  function Underfull<J>(bs: seq<seq<J>>, size: nat): nat {
    if bs == [] then 0 else (if |bs[0]| < size then 1 else 0) + Underfull(bs[1..], size)
  }

  lemma {:induction false} UnderfullAppend<J>(a: seq<seq<J>>, b: seq<seq<J>>, size: nat)
    ensures Underfull(a + b, size) == Underfull(a, size) + Underfull(b, size)
  {
    if a == [] {
      assert a + b == b;
    } else {
      UnderfullAppend(a[1..], b, size);
      assert (a + b)[1..] == a[1..] + b;
    }
  }

  /** Only a passed deadline, or the closing of the channel, sends a batch off before it is full. */
  lemma {:induction false} UnderfullNeedsDeadline<J>(script: seq<Message<J>>, open: seq<J>, size: nat)
    requires |open| < size
    ensures Underfull(Batches(script, open, size), size) <= Deadlines(script) + 1
    decreases |script|
  {
    if script == [] {
      assert [open][1..] == [];
    } else {
      var rest := script[1..];
      match script[0]
      case Deadline =>
        UnderfullNeedsDeadline(rest, [], size);
        UnderfullAppend(if open == [] then [] else [open], Batches(rest, [], size), size);
        assert [open][1..] == [];
      case Job(j) =>
        if |open| + 1 >= size {
          UnderfullNeedsDeadline(rest, [], size);
          UnderfullAppend([open + [j]], Batches(rest, [], size), size);
          assert [open + [j]][1..] == [];
        } else {
          UnderfullNeedsDeadline(rest, open + [j], size);
        }
    }
  }

  /** dispatcher_loop on a script of what its receiver and timer produce until the channel closes. */
  method DispatcherLoop<J>(script: seq<Message<J>>, configured: nat) returns (batches: seq<seq<J>>)
    ensures
      var size := if configured > 1 then configured else 1;
      && batches == Batches(script, [], size)
      && Flatten(batches) == Jobs(script)
      && forall b :: b in batches ==> 1 <= |b| <= size
  {
    var batchSize := if configured > 1 then configured else 1;
    batches := [];
    var at := 0;
    while true
      invariant CutUpTo(script, batchSize, batches, at)
      decreases |script| - at
    {
      while at < |script| && script[at].Deadline?
        invariant CutUpTo(script, batchSize, batches, at)
      {
        SkipIdle(script, batchSize, batches, at);
        at := at + 1;
      }
      if at == |script| { break; }
      var batch;
      ghost var start := at;
      batch, at := Collect(script, at, batchSize);
      OneMoreBatch(script, batchSize, batches, start, batch, at);
      batches := batches + [batch];
    }
    AllCut(script, batchSize, batches);
  }

  /** The batches cut so far, with those of the rest of the script, are all. */
  ghost predicate CutUpTo<J>(script: seq<Message<J>>, size: nat, batches: seq<seq<J>>, at: nat)
    requires size > 0
  {
    at <= |script| && batches + Batches(script[at..], [], size) == Batches(script, [], size)
  }

  lemma SkipIdle<J>(script: seq<Message<J>>, size: nat, batches: seq<seq<J>>, at: nat)
    requires size > 0 && CutUpTo(script, size, batches, at) && at < |script| && script[at].Deadline?
    ensures CutUpTo(script, size, batches, at + 1)
  {
    assert script[at..][1..] == script[at + 1..];
  }

  lemma OneMoreBatch<J>(script: seq<Message<J>>, size: nat, batches: seq<seq<J>>, start: nat, batch: seq<J>, at: nat)
    requires size > 0 && CutUpTo(script, size, batches, start) && start <= at <= |script|
    requires [batch] + Batches(script[at..], [], size) == Batches(script[start..], [], size)
    ensures CutUpTo(script, size, batches + [batch], at)
  {
    Regroup(batches, [batch], Batches(script[at..], [], size));
  }

  lemma AllCut<J>(script: seq<Message<J>>, size: nat, batches: seq<seq<J>>)
    requires size > 0 && CutUpTo(script, size, batches, |script|)
    ensures batches == Batches(script, [], size) && Flatten(batches) == Jobs(script)
    ensures forall b :: b in batches ==> 1 <= |b| <= size
  {
    assert batches + [] == batches && [] + Jobs(script) == Jobs(script);
    BatchesKeepOrder(script, [], size);
    forall b | b in batches
      ensures 1 <= |b| <= size
    {
      BatchSizes(script, [], size, b);
    }
  }

  /** One turn of the loop: the first job, then more until full, deadline or close. */
  method Collect<J>(script: seq<Message<J>>, start: nat, size: nat) returns (batch: seq<J>, at: nat)
    requires start < |script| && script[start].Job? && size > 0
    ensures start < at <= |script|
    ensures [batch] + Batches(script[at..], [], size) == Batches(script[start..], [], size)
  {
    batch, at := [script[start].job], start + 1;
    assert script[start..][1..] == script[start + 1..] && [] + batch == batch;
    if size == 1 { return; }
    while |batch| < size
      invariant start < at <= |script| && 1 <= |batch| <= size
      invariant if |batch| < size
                then Batches(script[at..], batch, size) == Batches(script[start..], [], size)
                else [batch] + Batches(script[at..], [], size) == Batches(script[start..], [], size)
      decreases |script| - at
    {
      if at == |script| {
        assert script[at..] == [];
        return;
      }
      assert script[at..][1..] == script[at + 1..];
      match script[at]
      case Job(j) =>
        batch, at := batch + [j], at + 1;
      case Deadline =>
        at := at + 1;
        return;
    }
  }
}
