/** Session recovery: one renewal at a time, cancellable by proof that the session works after all. */
module AuthRecovery {
  import opened Lists

  datatype Phase = Idle | Silent | Modal

  const RL_WINDOW_MS: int := 15_000
  const RL_THRESHOLD: nat := 3
  const RECOVERED_COOLDOWN_MS: int := 5000

  /** The module's variables and the recovery store; `pending` are the renewals that have not settled. */
  datatype State = State(
    phase: Phase,
    busy: bool,
    oauthActive: bool,
    recoveredAt: int,
    rlHits: seq<int>,
    inFlight: Option<nat>,
    gen: nat,
    cancelledGen: int,
    sessionValid: bool,
    pending: set<nat>)

  const START := State(Idle, false, false, 0, [], None, 0, -1, true, {})

  datatype Event =
    | NoteRateLimit(now: int)
    | NoteAuthGap(now: int)
    | NoteSuccess(now: int)
    | RetryRenew
    | RenewSucceeded(g: nat, now: int)
    | RenewFailed(g: nat)
    | CompleteReauth(accepted: bool, now: int)
    | SetOauthActive(active: bool)
    | SessionChanged(valid: bool)
    | Reset
    | ClearBrokenSession

  predicate Possible(s: State, e: Event) {
    match e
    case RenewSucceeded(g, _) => g in s.pending
    case RenewFailed(g) => g in s.pending
    case _ => true
  }

  function MarkRecovered(s: State, now: int): State {
    s.(phase := Idle, busy := false, recoveredAt := now)
  }

  function AfterRenewStart(s: State, manual: bool): State {
    if s.inFlight.Some? then s
    else
      var g := s.gen + 1;
      var t := s.(gen := g, inFlight := Some(g), pending := s.pending + {g});
      if manual then t.(busy := true) else t.(phase := Silent)
  }

  function AfterStartRecovery(s: State, now: int): State {
    if !s.sessionValid then s.(phase := Idle, busy := false)
    else if s.phase != Idle || now - s.recoveredAt < RECOVERED_COOLDOWN_MS then s
    else AfterRenewStart(s, false)
  }

  /** The hits less than a window old. */
  function Recent(hits: seq<int>, now: int): seq<int> {
    if hits == [] then []
    else Recent(hits[..|hits| - 1], now) + if now - hits[|hits| - 1] < RL_WINDOW_MS then [hits[|hits| - 1]] else []
  }

  function AfterRateLimit(s: State, now: int): State {
    var hits := Recent(s.rlHits + [now], now);
    if |hits| >= RL_THRESHOLD then AfterStartRecovery(s.(rlHits := []), now) else s.(rlHits := hits)
  }

  function AfterSuccess(s: State, now: int): State {
    var t := s.(rlHits := []);
    if s.phase == Idle || s.busy || s.oauthActive then t
    else MarkRecovered(t.(cancelledGen := s.gen), now)
  }

  function Settled(s: State, g: nat): State {
    s.(inFlight := None, pending := s.pending - {g})
  }

  function Happen(s: State, e: Event): State
    requires Possible(s, e)
  {
    match e
    case NoteRateLimit(now) => AfterRateLimit(s, now)
    case NoteAuthGap(now) => AfterStartRecovery(s, now)
    case NoteSuccess(now) => AfterSuccess(s, now)
    case RetryRenew => AfterRenewStart(s, true)
    case RenewSucceeded(g, now) => Settled(MarkRecovered(s, now), g)
    case RenewFailed(g) => Settled(if s.cancelledGen == g then s else s.(phase := Modal, busy := false), g)
    case CompleteReauth(accepted, now) => if accepted then MarkRecovered(s.(sessionValid := true), now) else s
    case SetOauthActive(active) => s.(oauthActive := active)
    case SessionChanged(valid) => s.(sessionValid := valid)
    case Reset => s.(phase := Idle, busy := false)
    case ClearBrokenSession => s.(sessionValid := false, phase := Idle, busy := false)
  }

  // ---- Invariant

  /**
   * The flight flag names the one unsettled renewal, which is the latest; with none the
   * store is at rest, and once cancelled the store shows nothing of it.
   */
  predicate Inv(s: State) {
    && s.pending == (if s.inFlight.Some? then {s.inFlight.value} else {})
    && (s.inFlight.Some? ==> s.inFlight.value == s.gen)
    && s.cancelledGen <= s.gen
    && (s.inFlight.None? ==> s.phase != Silent && !s.busy)
    && (s.inFlight.Some? && s.cancelledGen == s.gen ==> s.phase == Idle && !s.busy)
  }

  lemma StepKeepsInv(s: State, e: Event)
    requires Inv(s) && Possible(s, e)
    ensures Inv(Happen(s, e))
  {
  }

  ghost predicate IsRun(states: seq<State>, events: seq<Event>) {
    && |states| == |events| + 1 && states[0] == START
    && forall k :: 0 <= k < |events| ==> Possible(states[k], events[k]) && states[k + 1] == Happen(states[k], events[k])
  }

  /**
   * Over every interleaving: at most one renewal is unsettled, and with none the phase is idle or
   * modal and nothing is busy.
   */
  lemma {:induction false} RestIsQuiet(states: seq<State>, events: seq<Event>, k: nat)
    requires IsRun(states, events) && k < |states|
    ensures Inv(states[k])
    ensures |states[k].pending| <= 1
    ensures states[k].inFlight.None? ==> states[k].phase in {Idle, Modal} && !states[k].busy
  {
    if k > 0 {
      RestIsQuiet(states, events, k - 1);
      StepKeepsInv(states[k - 1], events[k - 1]);
    }
  }

  /** A failed renewal opens the modal exactly when its generation was not cancelled. */
  lemma FailureOpensModalIff(states: seq<State>, events: seq<Event>, k: nat)
    requires IsRun(states, events) && k < |events| && events[k].RenewFailed?
    ensures states[k + 1].phase == Modal <==> states[k].cancelledGen != events[k].g
    ensures states[k].cancelledGen == events[k].g ==> states[k + 1].phase == Idle && !states[k + 1].busy
  {
    RestIsQuiet(states, events, k);
  }

  /** The events by which a renewal settles. */
  predicate Settles(e: Event) {
    e.RenewSucceeded? || e.RenewFailed?
  }

  /** From a success that cancels a renewal until that renewal settles, nothing is shown, whatever else happens. */
  lemma {:induction false} CancelledStaysQuiet(states: seq<State>, events: seq<Event>, k: nat, n: nat)
    requires IsRun(states, events) && k <= n < |states|
    requires states[k].inFlight.Some? && states[k].cancelledGen == states[k].gen
    requires forall i :: k <= i < n ==> !Settles(events[i])
    ensures states[n].inFlight == states[k].inFlight && states[n].cancelledGen == states[k].gen == states[n].gen
    ensures states[n].phase == Idle && !states[n].busy
    decreases n
  {
    RestIsQuiet(states, events, n);
    if k < n {
      CancelledStaysQuiet(states, events, k, n - 1);
      RestIsQuiet(states, events, n - 1);
    }
  }

  /** Re-authentication does not cancel: a renewal begun before it still opens the modal when it fails. */
  lemma ReauthDoesNotCancel(s: State, now: int)
    requires Inv(s) && s.inFlight.Some? && s.cancelledGen != s.gen
    ensures
      var t := Happen(s, CompleteReauth(true, now));
      t.phase == Idle && Possible(t, RenewFailed(s.gen)) && Happen(t, RenewFailed(s.gen)).phase == Modal
  {
  }

  // ---- When recovery starts by itself

  predicate StartsSilently(s: State, e: Event)
    requires Possible(s, e)
  {
    s.inFlight.None? && Happen(s, e).inFlight.Some? && Happen(s, e).phase == Silent
  }

  function Clock(e: Event): Option<int> {
    match e
    case NoteRateLimit(now) => Some(now)
    case NoteAuthGap(now) => Some(now)
    case NoteSuccess(now) => Some(now)
    case RenewSucceeded(_, now) => Some(now)
    case CompleteReauth(_, now) => Some(now)
    case _ => None
  }

  /** One clock: no event reads an earlier time than an event before it. */
  ghost predicate OneClock(events: seq<Event>) {
    forall i, j :: 0 <= i < j < |events| && Clock(events[i]).Some? && Clock(events[j]).Some? ==>
      Clock(events[i]).value <= Clock(events[j]).value
  }

  /** The events that mark a recovery, a success seen while recovering included. */
  predicate Recovers(s: State, e: Event) {
    e.RenewSucceeded? || (e.CompleteReauth? && e.accepted)
    || (e.NoteSuccess? && s.phase != Idle && !s.busy && !s.oauthActive)
  }

  /** The recovery time kept is the latest: every recovery before point n was no later. */
  lemma {:induction false} RecoveredAtIsLatest(states: seq<State>, events: seq<Event>, i: nat, n: nat)
    requires IsRun(states, events) && OneClock(events) && i < n <= |events|
    requires Recovers(states[i], events[i])
    ensures states[n].recoveredAt >= Clock(events[i]).value
    decreases n
  {
    if n > i + 1 {
      RecoveredAtIsLatest(states, events, i, n - 1);
    }
  }

  /** After any recovery no silent renewal starts within the cooldown. */
  lemma NoSilentRenewInCooldown(states: seq<State>, events: seq<Event>, i: nat, j: nat)
    requires IsRun(states, events) && OneClock(events) && i < j < |events|
    requires Recovers(states[i], events[i])
    requires StartsSilently(states[j], events[j])
    ensures Clock(events[j]).Some? && Clock(events[j]).value - Clock(events[i]).value >= RECOVERED_COOLDOWN_MS
  {
    RecoveredAtIsLatest(states, events, i, j);
    RestIsQuiet(states, events, j);
  }

  // ---- The rate-limit window

  predicate Ascending(ts: seq<int>) {
    forall i, j :: 0 <= i < j < |ts| ==> ts[i] <= ts[j]
  }

  /** The kept hits after a burst, as the code keeps them. */
  function Kept(ts: seq<int>): seq<int> {
    if ts == [] then [] else Recent(Kept(ts[..|ts| - 1]) + [ts[|ts| - 1]], ts[|ts| - 1])
  }

  lemma RecentSnoc(hits: seq<int>, t: int, now: int)
    ensures Recent(hits + [t], now) == Recent(hits, now) + if now - t < RL_WINDOW_MS then [t] else []
  {
    assert (hits + [t])[..|hits|] == hits;
  }

  lemma {:induction false} RecentTwice(hits: seq<int>, earlier: int, now: int)
    requires earlier <= now
    ensures Recent(Recent(hits, earlier), now) == Recent(hits, now)
  {
    if hits != [] {
      var n := |hits| - 1;
      RecentTwice(hits[..n], earlier, now);
      if earlier - hits[n] < RL_WINDOW_MS {
        RecentSnoc(Recent(hits[..n], earlier), hits[n], now);
      } else {
        assert Recent(hits[..n], earlier) + [] == Recent(hits[..n], earlier);
      }
    }
  }

  /** Dropping old hits as it goes forgets nothing: the kept hits are all hits of the burst in the last window. */
  lemma {:induction false} KeptIsWindow(ts: seq<int>)
    requires Ascending(ts) && ts != []
    ensures Kept(ts) == Recent(ts, ts[|ts| - 1])
  {
    var n := |ts| - 1;
    RecentSnoc(Kept(ts[..n]), ts[n], ts[n]);
    assert ts == ts[..n] + [ts[n]];
    RecentSnoc(ts[..n], ts[n], ts[n]);
    if n > 0 {
      KeptIsWindow(ts[..n]);
      RecentTwice(ts[..n], ts[n - 1], ts[n]);
    }
  }

  /** Rate-limit answers one after another since the hits were last cleared. */
  ghost predicate Burst(states: seq<State>, ts: seq<int>) {
    && |states| == |ts| + 1 && states[0].rlHits == []
    && forall k :: 0 <= k < |ts| ==> states[k + 1] == Happen(states[k], NoteRateLimit(ts[k]))
  }

  /**
   * In a burst, hit n is the first to attempt recovery exactly when it is the first
   * with three hits in the fifteen seconds up to it.
   */
  lemma {:induction false} ThirdHitInWindow(states: seq<State>, ts: seq<int>, n: nat)
    requires Burst(states, ts) && Ascending(ts) && n <= |ts|
    requires forall k :: 0 <= k < n ==> |Recent(ts[..k + 1], ts[k])| < RL_THRESHOLD
    ensures states[n].rlHits == Kept(ts[..n])
    ensures states[n] == states[0].(rlHits := states[n].rlHits)
    ensures n < |ts| ==>
      states[n + 1] == (if |Recent(ts[..n + 1], ts[n])| >= RL_THRESHOLD
                        then AfterStartRecovery(states[0].(rlHits := []), ts[n])
                        else states[0].(rlHits := Kept(ts[..n + 1])))
  {
    if n > 0 {
      ThirdHitInWindow(states, ts, n - 1);
    } else {
      assert ts[..0] == [];
    }
    if n < |ts| {
      KeptNext(ts, n);
    }
  }

  /** Adding hit n to what was kept, and dropping what is old, leaves the hits of its window. */
  lemma KeptNext(ts: seq<int>, n: nat)
    requires n < |ts| && Ascending(ts)
    ensures Recent(Kept(ts[..n]) + [ts[n]], ts[n]) == Kept(ts[..n + 1]) == Recent(ts[..n + 1], ts[n])
  {
    assert ts[..n + 1][..n] == ts[..n];
    KeptIsWindow(ts[..n + 1]);
  }

  // ---- The module

  class Recovery {
    var phase: Phase
    var busy: bool
    var oauthActive: bool
    var recoveredAt: int
    var rlHits: seq<int>
    var inFlight: Option<nat>
    var gen: nat
    var cancelledGen: int
    var sessionValid: bool
    ghost var pending: set<nat>

    ghost function Now(): State
      reads this
    {
      State(phase, busy, oauthActive, recoveredAt, rlHits, inFlight, gen, cancelledGen, sessionValid, pending)
    }

    constructor ()
      ensures Now() == START
    {
      phase, busy, oauthActive, recoveredAt := Idle, false, false, 0;
      rlHits, inFlight, gen, cancelledGen := [], None, 0, -1;
      sessionValid, pending := true, {};
    }

    method RunRenew(manual: bool)
      modifies this
      ensures Now() == AfterRenewStart(old(Now()), manual)
    {
      if inFlight.Some? { return; }
      gen := gen + 1;
      if manual {
        busy := true;
      } else {
        phase := Silent;
      }
      inFlight := Some(gen);
      pending := pending + {gen};
    }

    /** What the renewal started as myGen does when its request comes back. */
    method RenewSettles(myGen: nat, succeeded: bool, now: int)
      requires myGen in pending
      modifies this
      ensures Now() == Happen(old(Now()), if succeeded then RenewSucceeded(myGen, now) else RenewFailed(myGen))
    {
      if succeeded {
        phase, busy, recoveredAt := Idle, false, now;
      } else if cancelledGen != myGen {
        phase, busy := Modal, false;
      }
      inFlight := None;
      pending := pending - {myGen};
    }

    method StartRecovery(now: int)
      modifies this
      ensures Now() == AfterStartRecovery(old(Now()), now)
    {
      if !sessionValid {
        phase, busy := Idle, false;
        return;
      }
      if phase != Idle { return; }
      if now - recoveredAt < RECOVERED_COOLDOWN_MS { return; }
      RunRenew(false);
    }

    method NoteRateLimit(now: int)
      modifies this
      ensures Now() == AfterRateLimit(old(Now()), now)
    {
      rlHits := rlHits + [now];
      rlHits := Recent(rlHits, now);
      if |rlHits| >= RL_THRESHOLD {
        rlHits := [];
        StartRecovery(now);
      }
    }

    method NoteSuccess(now: int)
      modifies this
      ensures Now() == AfterSuccess(old(Now()), now)
    {
      if |rlHits| > 0 {
        rlHits := [];
      }
      if phase == Idle || busy || oauthActive { return; }
      cancelledGen := gen;
      phase, busy, recoveredAt := Idle, false, now;
    }

    method CompleteReauth(accepted: bool, now: int)
      modifies this
      ensures Now() == Happen(old(Now()), Event.CompleteReauth(accepted, now))
    {
      if !accepted { return; }
      sessionValid := true;
      phase, busy, recoveredAt := Idle, false, now;
    }
  }
}
