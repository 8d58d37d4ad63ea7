/** Session recovery told by its events: when a renewal starts, when it is called off, when the modal opens. */
module RecoveryRuns {
  import opened Lists
  import opened AuthRecovery

  // ---- Calling a renewal off

  /** A success seen while renewal g is unsettled and shown, with no other recovery under way. */
  predicate CallsOff(s: State, e: Event, g: nat) {
    e.NoteSuccess? && g in s.pending && s.phase != Idle && !s.busy && !s.oauthActive
  }

  lemma CalledOff(s: State, e: Event, g: nat)
    requires Inv(s) && CallsOff(s, e, g)
    ensures
      var t := Happen(s, e);
      && t.inFlight == Some(g) && t.gen == g && t.cancelledGen == g && t.phase == Idle && !t.busy
      && t.rlHits == [] && t.pending == {g}
  {
  }

  /** Once a success has called a renewal off nothing is shown any more, its failure included. */
  lemma CalledOffStaysQuiet(states: seq<State>, events: seq<Event>, k: nat, n: nat, g: nat)
    requires IsRun(states, events) && k < n < |states| && CallsOff(states[k], events[k], g)
    requires forall i :: k < i < n - 1 ==> !Settles(events[i])
    ensures states[n].phase == Idle && !states[n].busy
  {
    RunCalledOff(states, events, k, g);
    if k + 1 < n {
      CancelledStaysQuiet(states, events, k + 1, n - 1);
      QuietStep(states, events, n - 1);
    }
  }

  lemma RunCalledOff(states: seq<State>, events: seq<Event>, k: nat, g: nat)
    requires IsRun(states, events) && k < |events| && CallsOff(states[k], events[k], g)
    ensures
      var t := states[k + 1];
      t.inFlight == Some(g) && t.cancelledGen == g == t.gen && t.phase == Idle && !t.busy
  {
    RestIsQuiet(states, events, k);
    CalledOff(states[k], events[k], g);
  }

  /** While a cancelled renewal is unsettled no event shows anything, its own settling included. */
  lemma QuietStep(states: seq<State>, events: seq<Event>, k: nat)
    requires IsRun(states, events) && k < |events|
    requires states[k].inFlight.Some? && states[k].cancelledGen == states[k].gen
    ensures states[k + 1].phase == Idle && !states[k + 1].busy
  {
    RestIsQuiet(states, events, k);
    StaysHidden(states[k], events[k]);
  }

  lemma StaysHidden(s: State, e: Event)
    requires Inv(s) && Possible(s, e) && s.inFlight.Some? && s.cancelledGen == s.gen
    ensures Happen(s, e).phase == Idle && !Happen(s, e).busy
  {
  }

  /** Event i starts renewal g. */
  predicate Starts(states: seq<State>, i: nat, g: nat)
    requires i + 1 < |states|
  {
    states[i].inFlight.None? && states[i + 1].inFlight == Some(g)
  }

  lemma StartIsNew(s: State, e: Event, g: nat)
    requires Inv(s) && Possible(s, e) && s.inFlight.None? && Happen(s, e).inFlight == Some(g)
    ensures g == s.gen + 1 && Happen(s, e).gen == g && Happen(s, e).cancelledGen < g
  {
  }

  /** A renewal unsettled after an event was so before it, or has just started under a new number. */
  lemma StillUnsettled(s: State, e: Event, g: nat)
    requires Inv(s) && Possible(s, e) && g in Happen(s, e).pending
    ensures g in s.pending || (s.pending == {} && g == s.gen + 1)
  {
  }

  lemma {:induction false} GenGrows(states: seq<State>, events: seq<Event>, m: nat, n: nat)
    requires IsRun(states, events) && m <= n < |states|
    ensures states[m].gen <= states[n].gen
    decreases n
  {
    if m < n {
      GenGrows(states, events, m, n - 1);
    }
  }

  lemma {:induction false} UnsettledThroughout(states: seq<State>, events: seq<Event>, i: nat, m: nat, n: nat, g: nat)
    requires IsRun(states, events) && i < m <= n < |states| && Starts(states, i, g) && g in states[n].pending
    ensures g in states[m].pending
    decreases n - m
  {
    if m < n {
      UnsettledThroughout(states, events, i, m + 1, n, g);
      RestIsQuiet(states, events, m);
      RestIsQuiet(states, events, i);
      StartIsNew(states[i], events[i], g);
      GenGrows(states, events, i + 1, m);
      StillUnsettled(states[m], events[m], g);
    }
  }

  /** One event while g is unsettled: it is marked cancelled by a success that calls it off, and by nothing else. */
  lemma CancelStep(s: State, e: Event, g: nat)
    requires Inv(s) && Possible(s, e) && g in s.pending && g in Happen(s, e).pending
    ensures Happen(s, e).cancelledGen == g <==> s.cancelledGen == g || CallsOff(s, e, g)
  {
  }

  /** A success has called g off between its start at i and point m. */
  ghost predicate CalledOffSince(states: seq<State>, events: seq<Event>, i: nat, m: nat, g: nat) {
    m <= |states| && m <= |events| && exists k :: i < k < m && CallsOff(states[k], events[k], g)
  }

  lemma NotYetCancelled(states: seq<State>, events: seq<Event>, i: nat, g: nat)
    requires IsRun(states, events) && i < |events| && Starts(states, i, g)
    ensures states[i + 1].cancelledGen != g && !CalledOffSince(states, events, i, i + 1, g)
  {
    RestIsQuiet(states, events, i);
    StartIsNew(states[i], events[i], g);
  }

  lemma CancelledStep(states: seq<State>, events: seq<Event>, i: nat, m: nat, g: nat)
    requires IsRun(states, events) && i < m < |events| && g in states[m].pending && g in states[m + 1].pending
    requires states[m].cancelledGen == g <==> CalledOffSince(states, events, i, m, g)
    ensures states[m + 1].cancelledGen == g <==> CalledOffSince(states, events, i, m + 1, g)
  {
    RestIsQuiet(states, events, m);
    CancelStep(states[m], events[m], g);
  }

  /** As long as g is unsettled it is marked cancelled exactly if it has been called off. */
  ghost predicate MarkedIff(states: seq<State>, events: seq<Event>, i: nat, m: nat, g: nat) {
    m < |states| && (g in states[m].pending ==>
                       (states[m].cancelledGen == g <==> CalledOffSince(states, events, i, m, g)))
  }

  lemma MarkedStep(states: seq<State>, events: seq<Event>, i: nat, m: nat, g: nat)
    requires IsRun(states, events) && i < m < |events| && Starts(states, i, g) && MarkedIff(states, events, i, m, g)
    ensures MarkedIff(states, events, i, m + 1, g)
  {
    if g in states[m + 1].pending {
      UnsettledThroughout(states, events, i, m, m + 1, g);
      CancelledStep(states, events, i, m, g);
    }
  }

  lemma CancelledIff(states: seq<State>, events: seq<Event>, i: nat, m: nat, g: nat)
    requires IsRun(states, events) && i < m < |events| && Starts(states, i, g)
    ensures MarkedIff(states, events, i, m, g)
  {
    ghost var holds := seq(m + 1, j requires 0 <= j <= m => MarkedIff(states, events, i, j, g));
    NotYetCancelled(states, events, i, g);
    forall j | i + 1 <= j < m && holds[j]
      ensures holds[j + 1]
    {
      MarkedStep(states, events, i, j, g);
    }
    Chain(holds, i + 1, m);
  }

  /**
   * In every run a renewal's failure opens the modal if and only if no success has called the
   * renewal off since it started; otherwise the failure shows nothing.
   */
  lemma FailureShownIff(states: seq<State>, events: seq<Event>, i: nat, n: nat, g: nat)
    requires IsRun(states, events) && i < n < |events| && Starts(states, i, g) && events[n] == RenewFailed(g)
    ensures states[n + 1].phase == Modal <==> forall k :: i < k < n ==> !CallsOff(states[k], events[k], g)
    ensures states[n + 1].phase != Modal ==> states[n + 1].phase == Idle
    ensures !states[n + 1].busy && states[n + 1].pending == {}
  {
    CancelledIff(states, events, i, n, g);
    FailureOpensModalIff(states, events, n);
    RestIsQuiet(states, events, n + 1);
    RestIsQuiet(states, events, n);
  }

  // ---- Hits

  /** The times of the rate-limit answers among these events. */
  function Hits(events: seq<Event>): seq<int> {
    if events == [] then []
    else
      var last := events[|events| - 1];
      Hits(events[..|events| - 1]) + if last.NoteRateLimit? then [last.now] else []
  }

  /** The last three hits fall within fifteen seconds. */
  predicate ThirdHit(ts: seq<int>) {
    |ts| >= 3 && ts[|ts| - 1] - ts[|ts| - 3] < 15_000
  }

  lemma {:induction false} RecentIsSuffix(hits: seq<int>, now: int, k: nat)
    requires k <= |hits|
    requires forall i :: 0 <= i < k ==> now - hits[i] >= RL_WINDOW_MS
    requires forall i :: k <= i < |hits| ==> now - hits[i] < RL_WINDOW_MS
    ensures Recent(hits, now) == hits[k..]
  {
    if hits != [] {
      var n := |hits| - 1;
      if k <= n {
        RecentIsSuffix(hits[..n], now, k);
        assert hits[k..] == hits[..n][k..] + [hits[n]];
      } else {
        RecentIsSuffix(hits[..n], now, n);
        assert hits[..n][n..] + [] == hits[k..];
      }
    }
  }

  lemma {:induction false} FirstRecent(hits: seq<int>, now: int) returns (k: nat)
    requires Ascending(hits)
    ensures k <= |hits|
    ensures forall i :: 0 <= i < k ==> now - hits[i] >= RL_WINDOW_MS
    ensures forall i :: k <= i < |hits| ==> now - hits[i] < RL_WINDOW_MS
  {
    k := 0;
    while k < |hits| && now - hits[k] >= RL_WINDOW_MS
      invariant 0 <= k <= |hits|
      invariant forall i :: 0 <= i < k ==> now - hits[i] >= RL_WINDOW_MS
    {
      k := k + 1;
    }
  }

  /** Three hits are kept exactly when the third last is within the window of the last. */
  lemma KeepsThreeIff(ts: seq<int>)
    requires Ascending(ts) && ts != []
    ensures |Recent(ts, ts[|ts| - 1])| >= RL_THRESHOLD <==> ThirdHit(ts)
  {
    var now := ts[|ts| - 1];
    var k := FirstRecent(ts, now);
    RecentIsSuffix(ts, now, k);
  }

  lemma {:induction false} HitIsRead(events: seq<Event>, t: int) returns (i: nat)
    requires t in Hits(events)
    ensures i < |events| && events[i] == NoteRateLimit(t)
  {
    var n := |events| - 1;
    if t in Hits(events[..n]) {
      i := HitIsRead(events[..n], t);
      assert events[..n][i] == events[i];
    } else {
      i := n;
    }
  }

  lemma {:induction false} HitsAscend(events: seq<Event>)
    requires OneClock(events)
    ensures Ascending(Hits(events))
  {
    if events != [] {
      var n := |events| - 1;
      HitsAscend(events[..n]);
      if events[n].NoteRateLimit? {
        forall k | 0 <= k < |Hits(events[..n])|
          ensures Hits(events[..n])[k] <= events[n].now
        {
          var i := HitIsRead(events[..n], Hits(events[..n])[k]);
          assert Clock(events[i]) == Some(Hits(events[..n])[k]);
        }
      }
    }
  }

  lemma HitsSnoc(events: seq<Event>, c: nat, k: nat)
    requires c <= k < |events|
    ensures Hits(events[c..k + 1]) ==
              Hits(events[c..k]) + if events[k].NoteRateLimit? then [events[k].now] else []
  {
    assert events[c..k + 1][..k - c] == events[c..k] && events[c..k + 1][k - c] == events[k];
  }

  /** Event j is neither a success nor a third hit within the window, counted from c. */
  predicate HitFree(events: seq<Event>, c: nat, j: nat)
    requires c <= j < |events|
  {
    !events[j].NoteSuccess? && (events[j].NoteRateLimit? ==> !ThirdHit(Hits(events[c..j + 1])))
  }

  /** From c, where no hits were kept, to k: no success, and no third hit within the window. */
  ghost predicate NoAttempt(states: seq<State>, events: seq<Event>, c: nat, k: nat) {
    && c <= k <= |events| < |states| && states[c].rlHits == []
    && forall j :: c <= j < k ==> HitFree(events, c, j)
  }

  lemma EarlierNoAttempt(states: seq<State>, events: seq<Event>, c: nat, k: nat)
    requires NoAttempt(states, events, c, k)
    ensures NoAttempt(states, events, c, c)
    ensures forall j :: c <= j < k ==> HitFree(events, c, j)
  {
  }

  lemma StepHits(s: State, e: Event)
    requires Possible(s, e) && !e.NoteSuccess? && !e.NoteRateLimit?
    ensures Happen(s, e).rlHits == s.rlHits
  {
  }

  lemma SliceClock(events: seq<Event>, c: nat, k: nat)
    requires OneClock(events) && c <= k <= |events|
    ensures OneClock(events[c..k])
  {
  }

  /** The hits kept are those of the events since c, as far as they are still in the window. */
  ghost predicate HitsKept(states: seq<State>, events: seq<Event>, c: nat, k: nat) {
    c <= k <= |events| && k < |states| && states[k].rlHits == Kept(Hits(events[c..k]))
  }

  lemma RunKeepsHits(states: seq<State>, events: seq<Event>, c: nat, k: nat)
    requires IsRun(states, events) && OneClock(events) && NoAttempt(states, events, c, k)
    ensures HitsKept(states, events, c, k)
  {
    ghost var holds := seq(k + 1, j requires 0 <= j <= k => HitsKept(states, events, c, j));
    EarlierNoAttempt(states, events, c, k);
    NoHitsYet(states, events, c);
    forall j | c <= j < k && holds[j]
      ensures holds[j + 1]
    {
      NextKeepsHits(states, events, c, j);
    }
    Chain(holds, c, k);
  }

  lemma NoHitsYet(states: seq<State>, events: seq<Event>, c: nat)
    requires NoAttempt(states, events, c, c)
    ensures HitsKept(states, events, c, c)
  {
    assert events[c..c] == [];
  }

  lemma NextKeepsHits(states: seq<State>, events: seq<Event>, c: nat, k: nat)
    requires IsRun(states, events) && OneClock(events) && c <= k < |events| && HitFree(events, c, k)
    requires HitsKept(states, events, c, k)
    ensures HitsKept(states, events, c, k + 1)
  {
    if events[k].NoteRateLimit? {
      HitKept(states, events, c, k);
    } else {
      HitsSnoc(events, c, k);
      StepHits(states[k], events[k]);
      assert Hits(events[c..k]) + [] == Hits(events[c..k]);
    }
  }

  /** What the window holds once one more hit has been noted. */
  lemma WindowAfter(states: seq<State>, events: seq<Event>, c: nat, k: nat)
    requires IsRun(states, events) && OneClock(events) && c <= k < |events| && events[k].NoteRateLimit?
    requires HitsKept(states, events, c, k)
    ensures
      var ts := Hits(events[c..k + 1]);
      && ts == Hits(events[c..k]) + [events[k].now]
      && Recent(states[k].rlHits + [events[k].now], events[k].now) == Kept(ts)
      && (|Kept(ts)| >= RL_THRESHOLD <==> ThirdHit(ts))
  {
    HitsSnoc(events, c, k);
    var ts := Hits(events[c..k + 1]);
    assert ts[..|ts| - 1] == Hits(events[c..k]);
    SliceClock(events, c, k + 1);
    HitsAscend(events[c..k + 1]);
    KeptIsWindow(ts);
    KeepsThreeIff(ts);
  }

  lemma HitKept(states: seq<State>, events: seq<Event>, c: nat, k: nat)
    requires IsRun(states, events) && OneClock(events) && c <= k < |events| && events[k].NoteRateLimit?
    requires HitsKept(states, events, c, k) && !ThirdHit(Hits(events[c..k + 1]))
    ensures HitsKept(states, events, c, k + 1)
  {
    WindowAfter(states, events, c, k);
  }

  // ---- When a silent renewal starts

  /** The last recovery, told by its event. */
  lemma {:induction false} LastRecovery(states: seq<State>, events: seq<Event>, n: nat)
    requires IsRun(states, events) && n < |states|
    ensures if forall i :: 0 <= i < n ==> !Recovers(states[i], events[i]) then states[n].recoveredAt == 0
            else exists i :: 0 <= i < n && Recovers(states[i], events[i])
                          && Clock(events[i]) == Some(states[n].recoveredAt)
  {
    if n > 0 {
      LastRecovery(states, events, n - 1);
      RecoveryStep(states[n - 1], events[n - 1]);
    }
  }

  lemma RecoveryStep(s: State, e: Event)
    requires Possible(s, e)
    ensures if Recovers(s, e) then Clock(e) == Some(Happen(s, e).recoveredAt)
            else Happen(s, e).recoveredAt == s.recoveredAt
  {
  }

  /** Five seconds have passed since every recovery, or since time zero when there was none. */
  ghost predicate Cooled(states: seq<State>, events: seq<Event>, n: nat, now: int)
    requires n <= |events| < |states|
  {
    && (forall i :: 0 <= i < n && Recovers(states[i], events[i]) ==> now - Clock(events[i]).value >= 5000)
    && ((forall i :: 0 <= i < n ==> !Recovers(states[i], events[i])) ==> now >= 5000)
  }

  lemma CooledIff(states: seq<State>, events: seq<Event>, n: nat, now: int)
    requires IsRun(states, events) && OneClock(events) && n < |events|
    ensures Cooled(states, events, n, now) <==> now - states[n].recoveredAt >= RECOVERED_COOLDOWN_MS
  {
    LastRecovery(states, events, n);
    forall i | 0 <= i < n && Recovers(states[i], events[i])
      ensures states[n].recoveredAt >= Clock(events[i]).value
    {
      RecoveredAtIsLatest(states, events, i, n);
    }
  }

  /** What asks for a recovery: a gap in the authorisation, or the third rate-limit answer in fifteen seconds. */
  predicate Asks(events: seq<Event>, c: nat, k: nat)
    requires c <= k < |events|
  {
    events[k].NoteAuthGap? || (events[k].NoteRateLimit? && ThirdHit(Hits(events[c..k + 1])))
  }

  lemma StartStep(s: State, e: Event)
    requires Inv(s) && Possible(s, e)
    ensures StartsSilently(s, e) <==>
              && s.pending == {} && s.sessionValid && s.phase == Idle
              && (e.NoteAuthGap? || (e.NoteRateLimit? && |Recent(s.rlHits + [e.now], e.now)| >= RL_THRESHOLD))
              && e.now - s.recoveredAt >= RECOVERED_COOLDOWN_MS
  {
  }

  /**
   * In every run a silent renewal starts if and only if something asks for a recovery while
   * none is unsettled, the session is valid, nothing is shown, and five seconds have passed
   * since every recovery. Hits count from c, the last point at which none were kept.
   */
  lemma SilentStartIff(states: seq<State>, events: seq<Event>, c: nat, k: nat)
    requires IsRun(states, events) && OneClock(events) && k < |events| && NoAttempt(states, events, c, k)
    ensures StartsSilently(states[k], events[k]) <==>
              && states[k].pending == {} && states[k].sessionValid && states[k].phase == Idle
              && Asks(events, c, k) && Cooled(states, events, k, events[k].now)
  {
    RestIsQuiet(states, events, k);
    StartStep(states[k], events[k]);
    if events[k].NoteAuthGap? || events[k].NoteRateLimit? {
      CooledIff(states, events, k, events[k].now);
    }
    if events[k].NoteRateLimit? {
      RunKeepsHits(states, events, c, k);
      WindowAfter(states, events, c, k);
    }
  }

  /** A success, and every third hit, starts the counting of hits anew. */
  lemma HitsForgotten(states: seq<State>, events: seq<Event>, c: nat, k: nat)
    requires IsRun(states, events) && OneClock(events) && k < |events| && NoAttempt(states, events, c, k)
    requires events[k].NoteSuccess? || (events[k].NoteRateLimit? && ThirdHit(Hits(events[c..k + 1])))
    ensures states[k + 1].rlHits == []
  {
    if events[k].NoteRateLimit? {
      RunKeepsHits(states, events, c, k);
      WindowAfter(states, events, c, k);
      AttemptClears(states[k], events[k].now);
    }
  }

  lemma AttemptClears(s: State, now: int)
    requires |Recent(s.rlHits + [now], now)| >= RL_THRESHOLD
    ensures Happen(s, NoteRateLimit(now)).rlHits == []
  {
  }

  // ---- Other events

  /** Asking for a retry starts a renewal exactly when none is unsettled, shown as busy in the phase it was. */
  lemma RetryStarts(s: State)
    requires Inv(s)
    ensures
      var t := Happen(s, RetryRenew);
      if s.pending == {} then t.pending == {t.gen} && t.gen == s.gen + 1 && t.busy && t.phase == s.phase else t == s
  {
  }

  /**
   * A renewal that succeeds, an accepted re-authentication, dismissing the modal, giving the
   * session up, and a request for recovery without a valid session all leave nothing shown.
   */
  lemma LeavesNothingShown(s: State, e: Event)
    requires Inv(s) && Possible(s, e)
    requires e.RenewSucceeded? || (e.CompleteReauth? && e.accepted) || e.Reset? || e.ClearBrokenSession?
          || (e.NoteAuthGap? && !s.sessionValid)
    ensures Happen(s, e).phase == Idle && !Happen(s, e).busy
    ensures Happen(s, e).pending == if e.RenewSucceeded? then {} else s.pending
    ensures Happen(s, e).sessionValid == (e.CompleteReauth? || (s.sessionValid && !e.ClearBrokenSession?))
  {
  }
}
