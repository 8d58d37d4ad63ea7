/** The byte quota on uploads in progress: one shared atomic counter, many reservations. */
module TmpQuota {
  import opened Lists

  const U64: nat := 0x1_0000_0000_0000_0000

  /** No buffer is longer, so no chunk is. */
  const MAX_CHUNK: nat := 0x7FFF_FFFF_FFFF_FFFF

  /** One add in flight: what was added and what the counter showed before. */
  datatype Attempt = Attempt(n: nat, prev: nat)

  datatype Reservation = Reservation(bytes: nat, pending: Option<Attempt>)

  datatype State = State(limit: Option<nat>, counter: nat, reservations: seq<Reservation>)

  /** The atomic and local steps of try_add and drop, by reservation. */
  datatype Step =
    | Open
    | FetchAdd(r: nat, n: nat)
    | Accept(r: nat)
    | RollBack(r: nat)
    | Drop(r: nat)

  function SaturatingAdd(x: nat, y: nat): nat {
    if x + y < U64 then x + y else U64 - 1
  }

  function WrappingAdd(x: nat, y: nat): nat {
    (x + y) % U64
  }

  function WrappingSub(x: nat, y: nat): (r: nat)
    ensures y <= x < U64 ==> r == x - y
  {
    (x - y) % U64
  }

  predicate Admitted(limit: nat, a: Attempt) {
    SaturatingAdd(a.prev, a.n) <= limit
  }

  predicate Possible(s: State, e: Step) {
    match e
    case Open => true
    case FetchAdd(r, n) => r < |s.reservations| && s.reservations[r].pending.None? && n <= MAX_CHUNK
    case Accept(r) =>
      r < |s.reservations| && s.reservations[r].pending.Some? && s.limit.Some?
      && Admitted(s.limit.value, s.reservations[r].pending.value)
    case RollBack(r) =>
      r < |s.reservations| && s.reservations[r].pending.Some? && s.limit.Some?
      && !Admitted(s.limit.value, s.reservations[r].pending.value)
    case Drop(r) => r < |s.reservations| && s.reservations[r].pending.None?
  }

  function Do(s: State, e: Step): State
    requires Possible(s, e)
  {
    match e
    case Open => s.(reservations := s.reservations + [Reservation(0, None)])
    case FetchAdd(r, n) =>
      var x := s.reservations[r];
      if s.limit.None? then s.(reservations := s.reservations[r := x.(bytes := SaturatingAdd(x.bytes, n))])
      else s.(counter := WrappingAdd(s.counter, n),
             reservations := s.reservations[r := x.(pending := Some(Attempt(n, s.counter)))])
    case Accept(r) =>
      var x := s.reservations[r];
      s.(reservations := s.reservations[r := Reservation(SaturatingAdd(x.bytes, x.pending.value.n), None)])
    case RollBack(r) =>
      var x := s.reservations[r];
      s.(counter := WrappingSub(s.counter, x.pending.value.n), reservations := s.reservations[r := x.(pending := None)])
    case Drop(r) =>
      var x := s.reservations[r];
      s.(counter := if x.bytes > 0 && s.limit.Some? then WrappingSub(s.counter, x.bytes) else s.counter,
         reservations := s.reservations[r := Reservation(0, None)])
  }

  // ---- Sums over reservations

  function Sum(xs: seq<Reservation>, f: Reservation -> nat): nat {
    if xs == [] then 0 else f(xs[0]) + Sum(xs[1..], f)
  }

  lemma {:induction false} SumUpdate(xs: seq<Reservation>, i: nat, x: Reservation, f: Reservation -> nat)
    requires i < |xs|
    ensures Sum(xs[i := x], f) == Sum(xs, f) - f(xs[i]) + f(x)
    ensures Sum(xs, f) >= f(xs[i])
  {
    if i > 0 {
      SumUpdate(xs[1..], i - 1, x, f);
      assert xs[i := x][1..] == xs[1..][i - 1 := x];
    } else {
      assert xs[0 := x][1..] == xs[1..];
    }
  }

  lemma {:induction false} SumSnoc(xs: seq<Reservation>, x: Reservation, f: Reservation -> nat)
    ensures Sum(xs + [x], f) == Sum(xs, f) + f(x)
  {
    if xs != [] {
      SumSnoc(xs[1..], x, f);
      assert (xs + [x])[1..] == xs[1..] + [x];
    }
  }

  function Bytes(x: Reservation): nat { x.bytes }

  function Adding(x: Reservation): nat { if x.pending.Some? then x.pending.value.n else 0 }

  function Winning(limit: nat, x: Reservation): nat {
    if x.pending.Some? && Admitted(limit, x.pending.value) then x.pending.value.n else 0
  }

  function Held(s: State): nat { Sum(s.reservations, Bytes) }

  function Awaiting(s: State): nat { Sum(s.reservations, Adding) }

  /** Bytes of adds whose check is already decided in their favour. */
  function Won(s: State): nat
    requires s.limit.Some?
  {
    Sum(s.reservations, x => Winning(s.limit.value, x))
  }

  // ---- The protocol's promise

  /** The counter is the initial usage, the held bytes and the adds not yet settled. */
  predicate Exact(initial: nat, s: State) {
    && s.limit.Some? && s.limit.value < U64
    && s.counter == initial + Held(s) + Awaiting(s) < U64
  }

  /** Held bytes, with those already won, fit under the limit. */
  predicate Within(initial: nat, s: State)
    requires s.limit.Some?
  {
    initial <= s.limit.value ==> initial + Held(s) + Won(s) <= s.limit.value
  }

  /** What a caller can see before a step: its atomic add does not overflow the counter. */
  predicate NoWrap(s: State, e: Step) {
    e.FetchAdd? ==> s.counter + e.n < U64
  }

  lemma UpdateSums(s: State, r: nat, x: Reservation)
    requires r < |s.reservations| && s.limit.Some?
    ensures
      var t := s.(reservations := s.reservations[r := x]);
      var old_ := s.reservations[r];
      && Held(t) == Held(s) - Bytes(old_) + Bytes(x)
      && Awaiting(t) == Awaiting(s) - Adding(old_) + Adding(x)
      && Won(t) == Won(s) - Winning(s.limit.value, old_) + Winning(s.limit.value, x)
    ensures Held(s) >= Bytes(s.reservations[r]) && Awaiting(s) >= Adding(s.reservations[r])
  {
    SumUpdate(s.reservations, r, x, Bytes);
    SumUpdate(s.reservations, r, x, Adding);
    SumUpdate(s.reservations, r, x, y => Winning(s.limit.value, y));
  }

  lemma {:induction false} WonAtMostAwaiting(xs: seq<Reservation>, limit: nat)
    ensures Sum(xs, x => Winning(limit, x)) <= Sum(xs, Adding)
  {
    if xs != [] {
      WonAtMostAwaiting(xs[1..], limit);
    }
  }

  /**
   * A step keeps the counter exact if and only if its add does not overflow, and then the holdings
   * stay within the limit.
   */
  lemma StepKeepsQuotaIff(initial: nat, s: State, e: Step)
    requires Exact(initial, s) && Within(initial, s) && Possible(s, e)
    ensures Do(s, e).limit == s.limit
    ensures Exact(initial, Do(s, e)) <==> NoWrap(s, e)
    ensures NoWrap(s, e) ==> Within(initial, Do(s, e))
  {
    WonAtMostAwaiting(s.reservations, s.limit.value);
    match e
    case Open =>
      SumSnoc(s.reservations, Reservation(0, None), Bytes);
      SumSnoc(s.reservations, Reservation(0, None), Adding);
      SumSnoc(s.reservations, Reservation(0, None), y => Winning(s.limit.value, y));
    case FetchAdd(r, n) => FetchAddKeepsIff(initial, s, r, n);
    case Accept(r) => SettlingKeeps(initial, s, e, r);
    case RollBack(r) => SettlingKeeps(initial, s, e, r);
    case Drop(r) => SettlingKeeps(initial, s, e, r);
  }

  lemma FetchAddKeepsIff(initial: nat, s: State, r: nat, n: nat)
    requires Exact(initial, s) && Within(initial, s) && Possible(s, FetchAdd(r, n))
    ensures Exact(initial, Do(s, FetchAdd(r, n))) <==> NoWrap(s, FetchAdd(r, n))
    ensures NoWrap(s, FetchAdd(r, n)) ==> Within(initial, Do(s, FetchAdd(r, n)))
  {
    WonAtMostAwaiting(s.reservations, s.limit.value);
    UpdateSums(s, r, s.reservations[r].(pending := Some(Attempt(n, s.counter))));
  }

  /** Accepting, rolling back and dropping only take out what the counter holds for the reservation. */
  lemma SettlingKeeps(initial: nat, s: State, e: Step, r: nat)
    requires Exact(initial, s) && Within(initial, s) && Possible(s, e)
    requires e == Accept(r) || e == RollBack(r) || e == Drop(r)
    ensures Exact(initial, Do(s, e)) && Within(initial, Do(s, e))
  {
    WonAtMostAwaiting(s.reservations, s.limit.value);
    UpdateSums(s, r, Do(s, e).reservations[r]);
  }

  ghost predicate IsRun(states: seq<State>, steps: seq<Step>, initial: nat, limit: nat) {
    && |states| == |steps| + 1 && states[0] == State(Some(limit), initial, [])
    && forall k :: 0 <= k < |steps| ==>
         Possible(states[k], steps[k]) && states[k + 1] == Do(states[k], steps[k])
  }

  /**
   * Over any interleaving of adds that do not overflow: the counter accounts for every
   * byte, and what is held never takes the usage over a limit it started within.
   */
  lemma {:induction false} QuotaHolds(states: seq<State>, steps: seq<Step>, initial: nat, limit: nat, k: nat)
    requires IsRun(states, steps, initial, limit) && initial < U64 && limit < U64 && k < |states|
    requires forall i :: 0 <= i < |steps| ==> NoWrap(states[i], steps[i])
    ensures states[k].limit == Some(limit)
    ensures Exact(initial, states[k]) && Within(initial, states[k])
    ensures initial <= limit ==> initial + Held(states[k]) <= limit
  {
    if k > 0 {
      QuotaHolds(states, steps, initial, limit, k - 1);
      StepKeepsQuotaIff(initial, states[k - 1], steps[k - 1]);
    }
  }

  /** Once every reservation is dropped, the counter is back where it began. */
  lemma {:induction false} NothingLeaks(states: seq<State>, steps: seq<Step>, initial: nat, limit: nat, k: nat)
    requires IsRun(states, steps, initial, limit) && initial < U64 && limit < U64 && k < |states|
    requires forall i :: 0 <= i < |steps| ==> NoWrap(states[i], steps[i])
    requires forall i :: 0 <= i < |states[k].reservations| ==> states[k].reservations[i] == Reservation(0, None)
    ensures states[k].counter == initial
  {
    QuotaHolds(states, steps, initial, limit, k);
    IdleSums(states[k].reservations);
  }

  lemma {:induction false} IdleSums(xs: seq<Reservation>)
    requires forall i :: 0 <= i < |xs| ==> xs[i] == Reservation(0, None)
    ensures Sum(xs, Bytes) == 0 && Sum(xs, Adding) == 0
  {
    if xs != [] {
      IdleSums(xs[1..]);
    }
  }

  /** The reservation a step is about, if it is about one. */
  function About(e: Step): Option<nat> {
    match e
    case Open => None
    case FetchAdd(r, _) => Some(r)
    case Accept(r) => Some(r)
    case RollBack(r) => Some(r)
    case Drop(r) => Some(r)
  }

  lemma OthersUnchanged(s: State, e: Step, r: nat)
    requires Possible(s, e) && About(e) != Some(r) && r < |s.reservations|
    ensures r < |Do(s, e).reservations| && Do(s, e).reservations[r] == s.reservations[r] && Do(s, e).limit == s.limit
  {
  }

  lemma {:induction false} StillPending(states: seq<State>, steps: seq<Step>, initial: nat, limit: nat, i: nat, k: nat)
    requires IsRun(states, steps, initial, limit) && i < k <= |steps| && steps[i].FetchAdd?
    requires states[i].limit == Some(limit)
    requires forall j :: i < j < k ==> About(steps[j]) != Some(steps[i].r)
    ensures
      var r := steps[i].r;
      && states[k].limit == Some(limit) && r < |states[k].reservations|
      && states[k].reservations[r] ==
           states[i].reservations[r].(pending := Some(Attempt(steps[i].n, states[i].counter)))
    decreases k
  {
    if k > i + 1 {
      StillPending(states, steps, initial, limit, i, k - 1);
      OthersUnchanged(states[k - 1], steps[k - 1], steps[i].r);
    }
  }

  lemma {:induction false} LimitStays(states: seq<State>, steps: seq<Step>, initial: nat, limit: nat, k: nat)
    requires IsRun(states, steps, initial, limit) && k < |states|
    ensures states[k].limit == Some(limit)
  {
    if k > 0 {
      LimitStays(states, steps, initial, limit, k - 1);
    }
  }

  /**
   * A chunk is let in if and only if the usage at the moment of its add, with it, is within
   * the limit, or the limit is the greatest number there is - whatever other uploads do between
   * the add and the check; and it then adds its length to what its upload holds, or nothing.
   */
  lemma AdmittedByUsage(states: seq<State>, steps: seq<Step>, initial: nat, limit: nat, i: nat, k: nat)
    requires IsRun(states, steps, initial, limit) && limit < U64 && i < k < |steps| && steps[i].FetchAdd?
    requires forall j :: i < j < k ==> About(steps[j]) != Some(steps[i].r)
    requires About(steps[k]) == Some(steps[i].r)
    ensures steps[k] == Accept(steps[i].r) <==> states[i].counter + steps[i].n <= limit || limit == U64 - 1
    ensures steps[k] == RollBack(steps[i].r) <==> states[i].counter + steps[i].n > limit && limit < U64 - 1
    ensures
      var r, before := steps[i].r, states[i].reservations[steps[i].r].bytes;
      && r < |states[k + 1].reservations|
      && states[k + 1].reservations[r].pending.None?
      && (before + steps[i].n < U64 ==>
            states[k + 1].reservations[r].bytes == before + if steps[k].Accept? then steps[i].n else 0)
  {
    LimitStays(states, steps, initial, limit, i);
    StillPending(states, steps, initial, limit, i, k);
  }

  /** Without a configured limit nothing is refused, and the shared counter is left alone. */
  lemma UnlimitedAlwaysAdds(s: State, r: nat, n: nat)
    requires s.limit.None? && Possible(s, FetchAdd(r, n)) && s.reservations[r].bytes + n < U64
    ensures
      var t := Do(s, FetchAdd(r, n));
      && t.counter == s.counter && t.reservations[r] == Reservation(s.reservations[r].bytes + n, None)
      && Do(t, Drop(r)).counter == s.counter
  {
  }

  function Holding(bytes: nat): Reservation {
    Reservation(bytes, None)
  }

  function Trying(n: nat, prev: nat): Reservation {
    Reservation(0, Some(Attempt(n, prev)))
  }

  /** A run that takes one more step. */
  lemma RunSnoc(states: seq<State>, steps: seq<Step>, initial: nat, limit: nat, e: Step) returns (longer: seq<State>)
    requires IsRun(states, steps, initial, limit) && Possible(states[|steps|], e)
    ensures IsRun(longer, steps + [e], initial, limit) && longer == states + [Do(states[|steps|], e)]
  {
    longer := states + [Do(states[|steps|], e)];
  }

  lemma FourOpen() returns (states: seq<State>, steps: seq<Step>)
    ensures IsRun(states, steps, 0, 10)
    ensures states[|steps|] == State(Some(10), 0, [Holding(0), Holding(0), Holding(0), Holding(0)])
  {
    states, steps := [State(Some(10), 0, [])], [];
    for i := 0 to 4
      invariant IsRun(states, steps, 0, 10)
      invariant states[|steps|] == State(Some(10), 0, seq(i, _ => Holding(0)))
    {
      states := RunSnoc(states, steps, 0, 10, Open);
      steps := steps + [Open];
      assert seq(i, _ => Holding(0)) + [Holding(0)] == seq(i + 1, _ => Holding(0));
    }
  }

  lemma TwoWaiting() returns (states: seq<State>, steps: seq<Step>)
    ensures IsRun(states, steps, 0, 10)
    ensures states[|steps|] == State(Some(10), 8,
              [Holding(10), Trying(MAX_CHUNK, 10), Trying(MAX_CHUNK, 10 + MAX_CHUNK), Holding(0)])
  {
    states, steps := FourOpen();
    states := RunSnoc(states, steps, 0, 10, FetchAdd(0, 10));
    steps := steps + [FetchAdd(0, 10)];
    states := RunSnoc(states, steps, 0, 10, Accept(0));
    steps := steps + [Accept(0)];
    assert states[|steps|] == State(Some(10), 10, [Holding(10), Holding(0), Holding(0), Holding(0)]);
    states := RunSnoc(states, steps, 0, 10, FetchAdd(1, MAX_CHUNK));
    steps := steps + [FetchAdd(1, MAX_CHUNK)];
    states := RunSnoc(states, steps, 0, 10, FetchAdd(2, MAX_CHUNK));
    steps := steps + [FetchAdd(2, MAX_CHUNK)];
  }

  /**
   * Overflow is a way past the quota of 10: with 10 bytes held, two largest possible chunks
   * wait for their rollback, the second having wrapped the counter to 8, so a chunk of 2 is
   * let in as well.
   */
  lemma WrapBreaksQuota() returns (states: seq<State>, steps: seq<Step>)
    ensures IsRun(states, steps, 0, 10)
    ensures Held(states[|steps|]) == 12
  {
    states, steps := TwoWaiting();
    states := RunSnoc(states, steps, 0, 10, FetchAdd(3, 2));
    steps := steps + [FetchAdd(3, 2)];
    assert states[|steps|].reservations[3] == Trying(2, 8);
    states := RunSnoc(states, steps, 0, 10, Accept(3));
    steps := steps + [Accept(3)];
    SumOfFour(states[|steps|].reservations, Bytes);
  }

  lemma SumOfFour(xs: seq<Reservation>, f: Reservation -> nat)
    requires |xs| == 4
    ensures Sum(xs, f) == f(xs[0]) + f(xs[1]) + f(xs[2]) + f(xs[3])
  {
    var tail := xs[1..];
    assert tail[1..][1..] == [xs[3]];
    assert Sum([xs[3]], f) == f(xs[3]);
    assert Sum(tail[1..], f) == f(xs[2]) + f(xs[3]);
  }
}
