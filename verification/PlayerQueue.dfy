/** Row by row: where the player's actions put tracks, what is played next, and what the draws decide. */
module PlayerQueue {
  import opened Lists
  import opened FisherYates
  import opened PlayerModel
  import opened PlayerCoherence

  /** r is q with ts put in before row `at`. */
  ghost predicate Inserted<T>(q: seq<T>, at: nat, ts: seq<T>, r: seq<T>) {
    && at <= |q| && |r| == |q| + |ts|
    && (forall i :: 0 <= i < at ==> r[i] == q[i])
    && (forall j :: 0 <= j < |ts| ==> r[at + j] == ts[j])
    && (forall i :: at <= i < |q| ==> r[|ts| + i] == q[i])
  }

  // ---- Adding

  /** Without shuffling, or with nothing selected, added tracks go to the end in their order. */
  lemma AddedAtEnd(s: State, ts: seq<Track>, ps: seq<nat>)
    requires !s.shuffle || s.queueIndex < 0
    ensures Enabled(s, AddToQueue(ts, ps))
    ensures Inserted(s.queue, |s.queue|, ts, Step(s, AddToQueue(ts, ps)).queue)
  {
  }

  /** "Play next" puts them behind the row at the index, at the front when nothing is selected. */
  lemma AddedNext(s: State, ts: seq<Track>)
    requires -1 <= s.queueIndex < |s.queue|
    ensures Inserted(s.queue, s.queueIndex + 1, ts, Step(s, AddToQueueNext(ts)).queue)
  {
    assert Cut(s.queueIndex + 1, |s.queue|) == s.queueIndex + 1;
  }

  lemma PlayedAtEnd(s: State, t: Track)
    ensures
      var r := Step(s, PlayAppended(t));
      Inserted(s.queue, |s.queue|, [t], r.queue) && r.queueIndex == |s.queue| && r.currentTrack == Some(t)
  {
  }

  /** Where a row that stands at p is once further tracks have been put in at the given positions. */
  function Landing(p: nat, later: seq<nat>): nat
    decreases |later|
  {
    if later == [] then p else Landing(if later[0] <= p then p + 1 else p, later[1..])
  }

  /** Drawn positions, none beyond the end the queue has by then. */
  function Clipped(ps: seq<nat>, n: nat): (r: seq<nat>)
    ensures |r| == |ps| && forall k :: 0 <= k < |ps| ==> r[k] == Least(ps[k], n + k)
  {
    seq(|ps|, k requires 0 <= k < |ps| => Least(ps[k], n + k))
  }

  lemma ClippedTail(ps: seq<nat>, n: nat)
    requires ps != []
    ensures Clipped(ps, n)[1..] == Clipped(ps[1..], n + 1)
  {
  }

  lemma {:induction false} OldRowLands(q: seq<Track>, ts: seq<Track>, ps: seq<nat>, i: nat)
    requires |ps| == |ts| && i < |q|
    ensures |Scattered(q, ts, ps)| == |q| + |ts|
    ensures Landing(i, Clipped(ps, |q|)) < |q| + |ts|
    ensures Scattered(q, ts, ps)[Landing(i, Clipped(ps, |q|))] == q[i]
    decreases |ts|
  {
    if ts != [] {
      var p := Least(ps[0], |q|);
      var grown := InsertAt(q, p, ts[0]);
      assert Cut(ps[0], |q|) == p;
      assert grown[if p <= i then i + 1 else i] == q[i];
      ClippedTail(ps, |q|);
      OldRowLands(grown, ts[1..], ps[1..], if p <= i then i + 1 else i);
    }
  }

  /** Track j of those added stands where its position has been moved to. */
  ghost predicate Lands(q: seq<Track>, ts: seq<Track>, ps: seq<nat>, j: nat)
    requires |ps| == |ts| && j < |ts|
  {
    var r, c := Scattered(q, ts, ps), Clipped(ps, |q|);
    |r| == |q| + |ts| && Landing(c[j], c[j + 1..]) < |r| && r[Landing(c[j], c[j + 1..])] == ts[j]
  }

  lemma FirstLands(q: seq<Track>, ts: seq<Track>, ps: seq<nat>)
    requires |ps| == |ts| && ts != []
    ensures Lands(q, ts, ps, 0)
  {
    var p := Least(ps[0], |q|);
    var grown := InsertAt(q, p, ts[0]);
    assert Cut(ps[0], |q|) == p && grown[p] == ts[0];
    ClippedTail(ps, |q|);
    OldRowLands(grown, ts[1..], ps[1..], p);
  }

  lemma LaterLands(q: seq<Track>, ts: seq<Track>, ps: seq<nat>, j: nat)
    requires |ps| == |ts| && 0 < j < |ts|
    requires Lands(InsertAt(q, Least(ps[0], |q|), ts[0]), ts[1..], ps[1..], j - 1)
    ensures Lands(q, ts, ps, j)
  {
    assert Cut(ps[0], |q|) == Least(ps[0], |q|);
    ClippedTail(ps, |q|);
    assert Clipped(ps, |q|)[j + 1..] == Clipped(ps, |q|)[1..][j..];
  }

  lemma {:induction false} AddedRowLands(q: seq<Track>, ts: seq<Track>, ps: seq<nat>, j: nat)
    requires |ps| == |ts| && j < |ts|
    ensures Lands(q, ts, ps, j)
    decreases |ts|
  {
    if j == 0 {
      FirstLands(q, ts, ps);
    } else {
      AddedRowLands(InsertAt(q, Least(ps[0], |q|), ts[0]), ts[1..], ps[1..], j - 1);
      LaterLands(q, ts, ps, j);
    }
  }

  /**
   * While shuffling, every added track stands at the position drawn for it, moved on by one
   * for each later track put in at or before it; the old rows are moved on likewise.
   */
  lemma AddedWhereDrawn(s: State, ts: seq<Track>, ps: seq<nat>)
    requires s.shuffle && s.queueIndex >= 0 && Enabled(s, AddToQueue(ts, ps))
    ensures
      var r, c := Step(s, AddToQueue(ts, ps)).queue, Clipped(ps, |s.queue|);
      && |r| == |s.queue| + |ts|
      && (forall i :: 0 <= i < |s.queue| ==> Landing(i, c) < |r| && r[Landing(i, c)] == s.queue[i])
      && (forall j :: 0 <= j < |ts| ==> Landing(c[j], c[j + 1..]) < |r| && r[Landing(c[j], c[j + 1..])] == ts[j])
  {
    var r, c := Step(s, AddToQueue(ts, ps)).queue, Clipped(ps, |s.queue|);
    forall i | 0 <= i < |s.queue|
      ensures |r| == |s.queue| + |ts| && Landing(i, c) < |r| && r[Landing(i, c)] == s.queue[i]
    {
      OldRowLands(s.queue, ts, ps, i);
    }
    forall j | 0 <= j < |ts|
      ensures |r| == |s.queue| + |ts| && Landing(c[j], c[j + 1..]) < |r| && r[Landing(c[j], c[j + 1..])] == ts[j]
    {
      AddedRowLands(s.queue, ts, ps, j);
    }
  }

  /** What the source computes from one random number u for an insert into n rows. */
  function Drawn(u: real, index: int, n: nat): int {
    index + 1 + (u * (n - index) as real).Floor
  }

  /** The positions an insert can take are exactly those some random number in [0, 1) gives. */
  lemma PositionsAreDrawn(index: int, n: nat, p: nat)
    requires index >= 0
    ensures ValidPositions([p], index, n) <==> exists u: real :: 0.0 <= u < 1.0 && Drawn(u, index, n) == p
  {
    OnePosition(p, index, n);
    if u: real :| 0.0 <= u < 1.0 && Drawn(u, index, n) == p {
      ScaledFloor(u, n - index);
    }
    if ValidPositions([p], index, n) {
      var u := DrawFor(p - (index + 1), n - index);
      assert Drawn(u, index, n) == p;
    }
  }

  lemma OnePosition(p: nat, index: int, n: nat)
    ensures ValidPositions([p], index, n) <==> if index < n then index + 1 <= p <= n else n < p <= index + 1
  {
    assert [p][0] == p;
  }

  lemma ScaledFloor(u: real, width: int)
    requires 0.0 <= u < 1.0
    ensures width > 0 ==> 0 <= (u * width as real).Floor < width
    ensures width <= 0 ==> width <= (u * width as real).Floor <= 0
  {
    var w := width as real;
    if width > 0 {
      Between(u, w);
    } else if width < 0 {
      Between(u, -w);
      assert u * w == -(u * -w);
    }
  }

  lemma Between(u: real, w: real)
    requires 0.0 <= u < 1.0 && w > 0.0
    ensures 0.0 <= u * w < w
  {
    assert (1.0 - u) * w > 0.0;
    assert (1.0 - u) * w == w - u * w;
  }

  /** A random number that gives the step d. */
  lemma DrawFor(d: int, width: int) returns (u: real)
    requires if width > 0 then 0 <= d < width else width <= d <= 0
    ensures 0.0 <= u < 1.0 && (u * width as real).Floor == d
  {
    if d == 0 {
      u := 0.0;
    } else if width > 0 {
      u := Fraction(d as real, width as real);
    } else {
      u := Fraction(-(d as real + 0.5), -(width as real));
      assert u * width as real == -(u * -(width as real)) == d as real + 0.5;
    }
  }

  lemma Fraction(x: real, w: real) returns (u: real)
    requires 0.0 <= x < w
    ensures 0.0 <= u < 1.0 && u * w == x
  {
    u := x / w;
    assert u * w == x;
    ScaledOutside(u, w);
  }

  lemma ScaledOutside(u: real, w: real)
    requires w > 0.0
    ensures u < 0.0 ==> u * w < 0.0
    ensures u >= 1.0 ==> u * w >= w
  {
  }

  // ---- What the shuffles decide

  /** Exactly one vector of draws makes the shuffle of s come out as p. */
  ghost predicate OnlyDraws<T(!new)>(s: seq<T>, p: seq<T>, draws: seq<nat>) {
    && ValidDraws(draws, |s|) && Shuffled(s, draws) == p
    && forall d :: ValidDraws(d, |s|) && Shuffled(s, d) == p ==> d == draws
  }

  lemma ExactDraws<T(!new)>(s: seq<T>, p: seq<T>) returns (draws: seq<nat>)
    requires Distinct(s) && multiset(s) == multiset(p)
    ensures OnlyDraws(s, p, draws)
  {
    draws := ShuffledSurjective(s, p);
    forall d | ValidDraws(d, |s|) && Shuffled(s, d) == p
      ensures d == draws
    {
      ShuffledInjective(s, d, draws);
    }
  }

  /**
   * Turning shuffle on while a track is current (or none is, at index -1) leaves the rows up to
   * it, and brings the rows behind it into any given order for exactly one vector of draws.
   */
  lemma ToggledExactly(s: State, order: seq<Track>) returns (draws: seq<nat>)
    requires !s.shuffle && -1 <= s.queueIndex < |s.queue| && Distinct(s.queue)
    requires multiset(order) == multiset(s.queue[s.queueIndex + 1..])
    ensures Enabled(s, ToggleShuffle(draws))
    ensures
      Step(s, ToggleShuffle(draws)) ==
        s.(shuffle := true, queue := s.queue[..s.queueIndex + 1] + order, originalQueue := Some(s.queue))
    ensures forall d :: Enabled(s, ToggleShuffle(d)) && Step(s, ToggleShuffle(d)).queue[s.queueIndex + 1..] == order ==>
              d == draws
  {
    draws := ExactDraws(s.queue[s.queueIndex + 1..], order);
    ToggledTail(s, draws);
    forall d | Enabled(s, ToggleShuffle(d)) && Step(s, ToggleShuffle(d)).queue[s.queueIndex + 1..] == order
      ensures d == draws
    {
      ToggledTail(s, d);
    }
  }

  lemma ToggledTail(s: State, d: seq<nat>)
    requires !s.shuffle && -1 <= s.queueIndex < |s.queue|
    ensures Enabled(s, ToggleShuffle(d)) <==> ValidDraws(d, |s.queue[s.queueIndex + 1..]|)
    ensures Enabled(s, ToggleShuffle(d)) ==>
              var rest := Shuffled(s.queue[s.queueIndex + 1..], d);
              && Step(s, ToggleShuffle(d)) ==
                   s.(shuffle := true, queue := s.queue[..s.queueIndex + 1] + rest, originalQueue := Some(s.queue))
              && Step(s, ToggleShuffle(d)).queue[s.queueIndex + 1..] == rest
  {
    assert Cut(s.queueIndex + 1, |s.queue|) == s.queueIndex + 1;
  }

  /** Row i is the one a search for the urn finds: its first row, or row 0 when there is none. */
  ghost predicate FirstRow(q: seq<Track>, urn: string, i: nat) {
    && i < |q| && (forall k :: 0 <= k < i ==> q[k].urn != urn)
    && (q[i].urn != urn ==> i == 0 && forall k :: 0 <= k < |q| ==> q[k].urn != urn)
  }

  lemma FirstRowFound(q: seq<Track>, urn: string, i: nat)
    requires FirstRow(q, urn, i)
    ensures i == if FindUrn(q, urn) >= 0 then FindUrn(q, urn) else 0
  {
  }

  /**
   * A list started while shuffling plays the chosen track first, and behind it the others in
   * any given order for exactly one vector of draws.
   */
  lemma StartedExactly(s: State, t: Track, q: seq<Track>, i: nat, order: seq<Track>) returns (draws: seq<nat>)
    requires s.shuffle && FirstRow(q, t.urn, i) && Distinct(RemoveAt(q, i))
    requires multiset(order) == multiset(RemoveAt(q, i))
    ensures Enabled(s, Play(t, q, false, draws))
    ensures
      Step(s, Play(t, q, false, draws)) ==
        s.(currentTrack := Some(t), queue := [t] + order, queueIndex := 0, isPlaying := true, originalQueue := Some(q))
    ensures forall d :: Enabled(s, Play(t, q, false, d)) && Step(s, Play(t, q, false, d)).queue == [t] + order ==>
              d == draws
  {
    FirstRowFound(q, t.urn, i);
    var rest := RemoveAt(q, i);
    draws := ExactDraws(rest, order);
    forall d | Enabled(s, Play(t, q, false, d)) && Step(s, Play(t, q, false, d)).queue == [t] + order
      ensures d == draws
    {
      TailsEqual(t, Shuffled(rest, d), order);
    }
  }

  lemma TailsEqual<T>(x: T, a: seq<T>, b: seq<T>)
    requires [x] + a == [x] + b
    ensures a == b
  {
    assert ([x] + a)[1..] == a && ([x] + b)[1..] == b;
  }

  /** Without shuffling, or in the endless mix, a list is queued as it is and starts at the chosen row. */
  lemma StartedInOrder(s: State, t: Track, q: seq<Track>, i: nat, vibe: bool, draws: seq<nat>)
    requires (!s.shuffle || vibe) && FirstRow(q, t.urn, i)
    ensures
      Step(s, Play(t, q, vibe, draws)) ==
        s.(currentTrack := Some(t), queue := q, queueIndex := i, isPlaying := true, originalQueue := None)
  {
    FirstRowFound(q, t.urn, i);
  }

  /** A queue replaced while shuffling around a current track it holds: that track first, the others in any order. */
  lemma ReplacedExactly(s: State, q: seq<Track>, i: nat, order: seq<Track>) returns (draws: seq<nat>)
    requires s.shuffle && s.currentTrack.Some? && FirstRow(q, s.currentTrack.value.urn, i)
    requires q[i].urn == s.currentTrack.value.urn && Distinct(RemoveAt(q, i))
    requires multiset(order) == multiset(RemoveAt(q, i))
    ensures Enabled(s, SetQueue(q, draws))
    ensures Step(s, SetQueue(q, draws)) == s.(queue := [q[i]] + order, queueIndex := 0, originalQueue := Some(q))
    ensures forall d :: Enabled(s, SetQueue(q, d)) && Step(s, SetQueue(q, d)).queue == [q[i]] + order ==> d == draws
  {
    FirstRowFound(q, s.currentTrack.value.urn, i);
    var rest := RemoveAt(q, i);
    draws := ExactDraws(rest, order);
    forall d | Enabled(s, SetQueue(q, d)) && Step(s, SetQueue(q, d)).queue == [q[i]] + order
      ensures d == draws
    {
      TailsEqual(q[i], Shuffled(rest, d), order);
    }
  }

  /** A queue replaced in any other case stands as given; the index goes to the current track's first row, if any. */
  lemma ReplacedInOrder(s: State, q: seq<Track>, i: int, draws: seq<nat>)
    requires if s.currentTrack.Some? && (exists t :: t in q && t.urn == s.currentTrack.value.urn)
             then !s.shuffle && 0 <= i < |q| && q[i].urn == s.currentTrack.value.urn
                  && forall k :: 0 <= k < i ==> q[k].urn != q[i].urn
             else i == s.queueIndex
    ensures Enabled(s, SetQueue(q, draws))
    ensures
      Step(s, SetQueue(q, draws)) ==
        s.(queue := q, queueIndex := i, originalQueue := if s.shuffle then Some(q) else None)
  {
    if s.currentTrack.Some? && FindUrn(q, s.currentTrack.value.urn) >= 0 {
      assert q[FindUrn(q, s.currentTrack.value.urn)] in q;
    }
  }

  /** Turning shuffle off with a track current installs the kept order at that track's first row. */
  lemma ToggledBack(s: State, q: seq<Track>, i: nat, draws: seq<nat>)
    requires s.shuffle && s.originalQueue == Some(q) && s.currentTrack.Some? && FirstRow(q, s.currentTrack.value.urn, i)
    ensures
      Step(s, ToggleShuffle(draws)) == s.(shuffle := false, queue := q, queueIndex := i, originalQueue := None)
  {
    FirstRowFound(q, s.currentTrack.value.urn, i);
  }

  // ---- Removing and moving

  /** Removing a row keeps all others in order; removing where there is no row keeps them all. */
  lemma RemovedRow(s: State, i: int)
    ensures
      var r := Step(s, RemoveFromQueue(i)).queue;
      if 0 <= i < |s.queue| then
        && |r| == |s.queue| - 1 && (forall k :: 0 <= k < i ==> r[k] == s.queue[k])
        && (forall k :: i <= k < |r| ==> r[k] == s.queue[k + 1])
      else r == s.queue
  {
  }

  /**
   * A move's positions as the splices read them: negative ones count from the end, of the
   * queue for the row taken and of what is left for its place, and those too far are clipped.
   */
  lemma MovedAsCounted(s: State, from: int, to: int, row: nat, place: nat)
    requires row < |s.queue| && place < |s.queue|
    requires from == row || from == row - |s.queue| || (from < -|s.queue| && row == 0)
    requires to == place || (to == place - (|s.queue| - 1) && place < |s.queue| - 1)
          || (to < -(|s.queue| - 1) && place == 0) || (to >= |s.queue| && place == |s.queue| - 1)
    ensures Enabled(s, MoveInQueue(from, to))
    ensures
      var r := Step(s, MoveInQueue(from, to)).queue;
      && |r| == |s.queue| && r[place] == s.queue[row] && RemoveAt(r, place) == RemoveAt(s.queue, row)
  {
    var r := InsertAt(RemoveAt(s.queue, row), place, s.queue[row]);
    assert Cut(from, |s.queue|) == row && Cut(to, |s.queue| - 1) == place;
    assert RemoveAt(r, place) == RemoveAt(s.queue, row);
  }

  // ---- Runs of next and prev

  /** Pressing next through the queue plays its rows one after another. */
  lemma {:induction false} NextsPlayOn(states: seq<State>, actions: seq<Action>, m: nat, n: nat)
    requires IsRun(states, actions) && m < n < |states|
    requires -1 <= states[m].queueIndex && states[m].queueIndex + (n - m) < |states[m].queue|
    requires forall k :: m <= k < n ==> actions[k] == Next
    ensures states[n].queue == states[m].queue && states[n].queueIndex == states[m].queueIndex + (n - m)
    ensures states[n].currentTrack == Some(states[m].queue[states[m].queueIndex + (n - m)]) && states[n].isPlaying
    decreases n
  {
    if m + 1 < n {
      NextsPlayOn(states, actions, m, n - 1);
    }
  }

  lemma AddedRuns(states: seq<State>, actions: seq<Action>, c: nat, ts: seq<Track>, ps: seq<nat>)
    requires IsRun(states, actions) && c < |actions| && actions[c] == AddToQueue(ts, ps)
    requires !states[c].shuffle || states[c].queueIndex < 0
    ensures states[c + 1].queueIndex == states[c].queueIndex
    ensures Inserted(states[c].queue, |states[c].queue|, ts, states[c + 1].queue)
  {
    AddedAtEnd(states[c], ts, ps);
  }

  /**
   * Tracks added without shuffling are heard, in their order, only after every row that was
   * queued behind the current one: after k presses of next, the old row k on, or the added
   * track that many beyond the old rows.
   */
  lemma OldBeforeAdded(states: seq<State>, actions: seq<Action>, c: nat, n: nat, ts: seq<Track>, ps: seq<nat>,
                       q: seq<Track>, index: int)
    requires IsRun(states, actions) && c + 1 < n < |states| && actions[c] == AddToQueue(ts, ps)
    requires q == states[c].queue && index == states[c].queueIndex
    requires -1 <= index && (!states[c].shuffle || index < 0)
    requires forall k :: c < k < n ==> actions[k] == Next
    requires index + (n - c - 1) < |q| + |ts|
    ensures
      var row := index + (n - c - 1);
      states[n].currentTrack == Some(if row < |q| then q[row] else ts[row - |q|])
  {
    AddedRuns(states, actions, c, ts, ps);
    HeardAppended(states, actions, c + 1, n, q, index, ts);
  }

  /** With ts put in at the end, k presses of next play what stood behind the index and then them. */
  lemma HeardAppended(states: seq<State>, actions: seq<Action>, m: nat, n: nat, q: seq<Track>, index: int,
                      ts: seq<Track>)
    requires IsRun(states, actions) && m < n < |states| && -1 <= index && states[m].queueIndex == index
    requires Inserted(q, |q|, ts, states[m].queue) && index + (n - m) < |q| + |ts|
    requires forall k :: m <= k < n ==> actions[k] == Next
    ensures
      var row := index + (n - m);
      states[n].currentTrack == Some(if row < |q| then q[row] else ts[row - |q|])
  {
    HeardAfter(states, actions, m, n, states[m].queue, index);
    AppendedRow(q, ts, states[m].queue, index + (n - m));
  }

  lemma AppendedRow<T>(q: seq<T>, ts: seq<T>, r: seq<T>, row: nat)
    requires Inserted(q, |q|, ts, r) && row < |r|
    ensures r[row] == if row < |q| then q[row] else ts[row - |q|]
  {
    if row >= |q| {
      assert r[|q| + (row - |q|)] == ts[row - |q|];
    }
  }

  /** Tracks put next are heard first, in their order, and then the rows that were queued behind the current one. */
  lemma AddedNextBeforeOld(states: seq<State>, actions: seq<Action>, c: nat, n: nat, ts: seq<Track>,
                           q: seq<Track>, index: int)
    requires IsRun(states, actions) && c + 1 < n < |states| && actions[c] == AddToQueueNext(ts)
    requires q == states[c].queue && index == states[c].queueIndex && -1 <= index < |q|
    requires forall k :: c < k < n ==> actions[k] == Next
    requires index + (n - c - 1) < |q| + |ts|
    ensures
      var k := n - c - 2;
      states[n].currentTrack == Some(if k < |ts| then ts[k] else q[index + 1 + (k - |ts|)])
  {
    AddedNextRuns(states, actions, c, ts);
    HeardInserted(states, actions, c + 1, n, q, index, ts);
  }

  /** With ts put in behind the index, k presses of next play them and then what stood behind the index. */
  lemma HeardInserted(states: seq<State>, actions: seq<Action>, m: nat, n: nat, q: seq<Track>, index: int,
                      ts: seq<Track>)
    requires IsRun(states, actions) && m < n < |states| && -1 <= index && states[m].queueIndex == index
    requires Inserted(q, index + 1, ts, states[m].queue) && index + (n - m) < |q| + |ts|
    requires forall k :: m <= k < n ==> actions[k] == Next
    ensures
      var k := n - m - 1;
      states[n].currentTrack == Some(if k < |ts| then ts[k] else q[index + 1 + (k - |ts|)])
  {
    HeardAfter(states, actions, m, n, states[m].queue, index);
    InsertedRow(q, index + 1, ts, states[m].queue, n - m - 1);
  }

  lemma HeardAfter(states: seq<State>, actions: seq<Action>, m: nat, n: nat, q: seq<Track>, index: int)
    requires IsRun(states, actions) && m < n < |states| && states[m].queue == q && states[m].queueIndex == index
    requires -1 <= index && index + (n - m) < |q|
    requires forall k :: m <= k < n ==> actions[k] == Next
    ensures states[n].currentTrack == Some(q[index + (n - m)]) && states[n].queueIndex == index + (n - m)
  {
    NextsPlayOn(states, actions, m, n);
  }

  lemma AddedNextRuns(states: seq<State>, actions: seq<Action>, c: nat, ts: seq<Track>)
    requires IsRun(states, actions) && c < |actions| && actions[c] == AddToQueueNext(ts)
    requires -1 <= states[c].queueIndex < |states[c].queue|
    ensures states[c + 1].queueIndex == states[c].queueIndex
    ensures Inserted(states[c].queue, states[c].queueIndex + 1, ts, states[c + 1].queue)
  {
    AddedNext(states[c], ts);
  }

  /** The row k places on from where the tracks were put in. */
  lemma InsertedRow<T>(q: seq<T>, at: nat, ts: seq<T>, r: seq<T>, k: nat)
    requires Inserted(q, at, ts, r) && at + k < |r|
    ensures r[at + k] == if k < |ts| then ts[k] else q[at + (k - |ts|)]
  {
    if k >= |ts| {
      assert r[|ts| + (at + (k - |ts|))] == q[at + (k - |ts|)];
    }
  }

  /** After clearing, the first track added is the next one heard. */
  lemma ClearedStartsOver(states: seq<State>, actions: seq<Action>, c: nat, ts: seq<Track>, ps: seq<nat>)
    requires IsRun(states, actions) && c + 2 < |actions| && ts != []
    requires actions[c] == ClearQueue && actions[c + 1] == AddToQueue(ts, ps) && actions[c + 2] == Next
    ensures states[c + 1].queue == [] && states[c + 1].originalQueue.None?
    ensures states[c + 2].queue == ts && states[c + 3].currentTrack == Some(ts[0]) && states[c + 3].queueIndex == 0
  {
    RunCleared(states, actions, c);
    AddedRuns(states, actions, c + 1, ts, ps);
    InsertedAlone(ts, states[c + 2].queue);
    HeardAfter(states, actions, c + 2, c + 3, ts, -1);
  }

  lemma RunCleared(states: seq<State>, actions: seq<Action>, c: nat)
    requires IsRun(states, actions) && c < |actions| && actions[c] == ClearQueue
    ensures states[c + 1] == states[c].(queue := [], queueIndex := -1, originalQueue := None)
  {
  }

  lemma InsertedAlone<T>(ts: seq<T>, r: seq<T>)
    requires Inserted([], 0, ts, r)
    ensures r == ts
  {
    assert forall j :: 0 <= j < |ts| ==> r[0 + j] == ts[j];
  }

  /** Pressing prev goes back row by row and stays on the first; it plays, whatever was paused. */
  lemma {:induction false} PrevsGoBack(states: seq<State>, actions: seq<Action>, m: nat, n: nat)
    requires IsRun(states, actions) && m < n < |states| && 0 <= states[m].queueIndex < |states[m].queue|
    requires forall k :: m <= k < n ==> actions[k] == Prev
    ensures
      var row := if states[m].queueIndex >= n - m then states[m].queueIndex - (n - m) else 0;
      && states[n].queue == states[m].queue && states[n].queueIndex == row
      && states[n].currentTrack == Some(states[m].queue[row]) && states[n].isPlaying
    decreases n
  {
    if m + 1 < n {
      PrevsGoBack(states, actions, m, n - 1);
    }
  }

  /** Picking a row plays that very row; picking none there is does nothing. */
  lemma PickedRow(s: State, i: int)
    ensures
      Step(s, PlayFromQueue(i)) ==
        if 0 <= i < |s.queue| then s.(currentTrack := Some(s.queue[i]), queueIndex := i, isPlaying := true) else s
  {
  }

  /** In an empty queue next does nothing, and prev leaves nothing current. */
  lemma EmptyQueue(s: State)
    requires s.queue == []
    ensures Step(s, Next) == s
    ensures
      Step(s, Prev) ==
        s.(currentTrack := None, queueIndex := if s.queueIndex > 1 then s.queueIndex - 1 else 0, isPlaying := true)
  {
  }

  // ---- What an action leaves alone

  /** Only toggling shuffle changes the mode, only toggling repeat the repeat mode, in a cycle of three. */
  lemma ModesChangeOnlyByToggle(s: State, a: Action)
    requires Enabled(s, a)
    ensures Step(s, a).shuffle == if a.ToggleShuffle? then !s.shuffle else s.shuffle
    ensures !a.ToggleRepeat? ==> Step(s, a).repeat == s.repeat
    ensures a.ToggleRepeat? ==>
              (s.repeat, Step(s, a).repeat) in
                {(Repeat.Off, Repeat.All), (Repeat.All, Repeat.One), (Repeat.One, Repeat.Off)}
  {
  }

  /** The actions that are about the queue and its order only. */
  predicate EditsQueue(a: Action) {
    a.SetQueue? || a.AddToQueue? || a.AddToQueueNext? || a.RemoveFromQueue? || a.MoveInQueue? || a.ClearQueue?
    || a.ToggleShuffle?
  }

  /** Queue edits neither change nor stop what is playing; the transport actions touch nothing but it. */
  lemma EditsLeavePlayback(s: State, a: Action)
    requires Enabled(s, a)
    ensures EditsQueue(a) ==> Step(s, a).currentTrack == s.currentTrack && Step(s, a).isPlaying == s.isPlaying
    ensures a.Pause? || a.Resume? || a.TogglePlay? ==>
              Step(s, a) == s.(isPlaying := a.Resume? || (a.TogglePlay? && s.currentTrack.Some? != s.isPlaying))
    ensures a.PlayFromQueue? || a.Next? || a.Prev? ==>
              Step(s, a).queue == s.queue && Step(s, a).originalQueue == s.originalQueue
  {
  }

  /** The access mark shows on the current track and changes nothing else. */
  lemma AccessShown(s: State, access: string)
    ensures
      var r := Step(s, SetCurrentTrackAccess(access));
      && r == s.(currentTrack := r.currentTrack) && (r.currentTrack.Some? <==> s.currentTrack.Some?)
      && (s.currentTrack.Some? ==>
            Shows(s.currentTrack.value, r.currentTrack.value,
                  Track(s.currentTrack.value.urn, map["access" := access])))
  {
  }
}
