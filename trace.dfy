/** Runs of the generator: interleavings of `Generate` calls and runner ticks,
    and the identities a run hands out. */
module Trace {
  import opened Uint64
  import opened Snowflake
  import opened Layout
  import SnowflakeProperties

  /** A call of `Generate` reading `now`, with the timestamps the runner stores
      while it waits, or one tick of the runner storing `reading`. */
  datatype Event = GenerateCall(now: Word, ticks: seq<Word>) | RunnerTick(reading: Word)

  /** The state after one event. */
  function Next(c: Configuration, dc: Word, sid: Word, s: GenState, e: Event): GenState
    requires WellFormed(c)
    requires e.GenerateCall? ==> CanComplete(c, s, e.now, e.ticks)
  {
    match e
    case GenerateCall(now, ticks) => GenerateStep(c, dc, sid, s, now, ticks).state
    case RunnerTick(reading) => GenState(reading, s.curId)
  }

  /** Every call of the run returns: each wait ends. */
  predicate Feasible(c: Configuration, dc: Word, sid: Word, s: GenState, events: seq<Event>)
    requires WellFormed(c)
    decreases |events|
  {
    |events| == 0 ||
    ((events[0].GenerateCall? ==> CanComplete(c, s, events[0].now, events[0].ticks))
     && Feasible(c, dc, sid, Next(c, dc, sid, s, events[0]), events[1..]))
  }

  /** The identities a run hands out, in order. */
  function Issued(c: Configuration, dc: Word, sid: Word, s: GenState, events: seq<Event>): seq<Word>
    requires WellFormed(c) && Feasible(c, dc, sid, s, events)
    decreases |events|
  {
    if |events| == 0 then []
    else
      var rest := Issued(c, dc, sid, Next(c, dc, sid, s, events[0]), events[1..]);
      match events[0]
      case RunnerTick(_) => rest
      case GenerateCall(now, ticks) =>
        var r := GenerateStep(c, dc, sid, s, now, ticks).result;
        if r.Ok? then [r.value.Value()] + rest else rest
  }

  /** A reading no earlier than the epoch and less than `window` after it. */
  predicate InWindow(t: Word, window: nat) {
    SystemStartTime <= t < SystemStartTime + window
  }

  /** A clock that never goes back: every reading is at least the timestamp
      last stored, the readings stored during a wait are at least the call's
      own, and all of them lie in the window. */
  predicate MonotoneClock(c: Configuration, dc: Word, sid: Word, s: GenState, events: seq<Event>, window: nat)
    requires WellFormed(c) && Feasible(c, dc, sid, s, events)
    decreases |events|
  {
    |events| == 0 ||
    ((match events[0]
      case GenerateCall(now, ticks) =>
        && s.curTimestamp <= now && InWindow(now, window)
        && forall j :: 0 <= j < |ticks| ==> now <= ticks[j] && InWindow(ticks[j], window)
      case RunnerTick(reading) => s.curTimestamp <= reading && InWindow(reading, window))
     && MonotoneClock(c, dc, sid, Next(c, dc, sid, s, events[0]), events[1..], window))
  }

  /** State a is before state b: an earlier timestamp, or the same one with a
      smaller sequence number. */
  predicate Before(a: GenState, b: GenState) {
    a.curTimestamp < b.curTimestamp || (a.curTimestamp == b.curTimestamp && a.curId < b.curId)
  }

  /** The word the state's fields pack to. */
  function Key(c: Configuration, dc: Word, sid: Word, s: GenState): Word
    requires WellFormed(c)
  {
    Pack(c, Sub(s.curTimestamp, SystemStartTime), dc, sid, s.curId)
  }

  /** The conditions under which the fields of every state of a run fit. */
  predicate Roomy(c: Configuration, dc: Word, sid: Word, window: nat) {
    && WellFormed(c)
    && c.timestampOffset <= 64
    && window <= Pow2(64 - c.timestampOffset)
    && dc < Pow2(c.timestampOffset - c.dataCenterIdOffset)
    && sid < Pow2(c.dataCenterIdOffset - c.serviceIdOffset)
    && c.maximumId <= Pow2(c.serviceIdOffset)
  }

  /** With a clock that does not go back, a call that gets past the clock check
      moves the state strictly forward. */
  lemma CallMovesForward(c: Configuration, dc: Word, sid: Word, s: GenState, now: Word, ticks: seq<Word>)
    requires WellFormed(c) && CanComplete(c, s, now, ticks) && SequenceInRange(c, s.curId)
    requires s.curTimestamp <= now && forall j :: 0 <= j < |ticks| ==> now <= ticks[j]
    ensures Before(s, GenerateStep(c, dc, sid, s, now, ticks).state)
  {
    if s.curTimestamp == now && Add(s.curId, 1) >= c.maximumId {
      assert WaitFor(now, ticks) in ticks;
    }
  }

  /** In the window the timestamp field is the plain difference. */
  lemma SubInWindow(t: Word, window: nat)
    requires InWindow(t, window)
    ensures Sub(t, SystemStartTime) == t - SystemStartTime
  {
    DivModUnique(t - SystemStartTime, Modulus, 0, t - SystemStartTime);
  }

  /** A state of the run has fields that fit. */
  lemma StateFits(c: Configuration, dc: Word, sid: Word, s: GenState, window: nat)
    requires Roomy(c, dc, sid, window) && SequenceInRange(c, s.curId) && InWindow(s.curTimestamp, window)
    ensures Fits(c, Sub(s.curTimestamp, SystemStartTime), dc, sid, s.curId)
  {
    SubInWindow(s.curTimestamp, window);
  }

  /** In the window, a later state packs to a larger word. */
  lemma KeyMonotone(c: Configuration, dc: Word, sid: Word, a: GenState, b: GenState, window: nat)
    requires Roomy(c, dc, sid, window)
    requires SequenceInRange(c, a.curId) && InWindow(a.curTimestamp, window)
    requires SequenceInRange(c, b.curId) && InWindow(b.curTimestamp, window)
    ensures Before(a, b) ==> Key(c, dc, sid, a) < Key(c, dc, sid, b)
    ensures a.curId == b.curId && a.curTimestamp <= b.curTimestamp ==> Key(c, dc, sid, a) <= Key(c, dc, sid, b)
  {
    StateFits(c, dc, sid, a, window);
    StateFits(c, dc, sid, b, window);
    SubInWindow(a.curTimestamp, window);
    SubInWindow(b.curTimestamp, window);
    var pa, pb := Sub(a.curTimestamp, SystemStartTime), Sub(b.curTimestamp, SystemStartTime);
    if Before(a, b) {
      PackMonotone(c, dc, sid, pa, a.curId, pb, b.curId);
    }
    if a.curId == b.curId && a.curTimestamp < b.curTimestamp {
      PackMonotone(c, dc, sid, pa, a.curId, pb, b.curId);
    }
  }

  /** Every identity in ids lies above k. */
  predicate Above(k: int, ids: seq<Word>) {
    forall i :: 0 <= i < |ids| ==> k < ids[i]
  }

  /** The identities strictly increase, so no two are equal. */
  predicate Increasing(ids: seq<Word>) {
    forall i, j :: 0 <= i < j < |ids| ==> ids[i] < ids[j]
  }

  /** Uniqueness: while the clock does not go back and stays in the window,
      the identities a run hands out strictly increase, and all lie above the
      word the starting state packs to. */
  lemma {:induction false} IssuedIncreasing(c: Configuration, dc: Word, sid: Word, s: GenState,
                                            events: seq<Event>, window: nat)
    requires Roomy(c, dc, sid, window)
    requires SequenceInRange(c, s.curId) && InWindow(s.curTimestamp, window)
    requires Feasible(c, dc, sid, s, events) && MonotoneClock(c, dc, sid, s, events, window)
    ensures Above(Key(c, dc, sid, s), Issued(c, dc, sid, s, events))
    ensures Increasing(Issued(c, dc, sid, s, events))
    decreases |events|
  {
    if |events| > 0 {
      var s' := Next(c, dc, sid, s, events[0]);
      var rest := Issued(c, dc, sid, s', events[1..]);
      StepFacts(c, dc, sid, s, events, window);
      IssuedIncreasing(c, dc, sid, s', events[1..], window);
      var k, k' := Key(c, dc, sid, s), Key(c, dc, sid, s');
      if events[0].GenerateCall? && GenerateStep(c, dc, sid, s, events[0].now, events[0].ticks).result.Ok? {
        Cons(k, k', rest);
      } else {
        assert Issued(c, dc, sid, s, events) == rest;
        Weaken(k, k', rest);
      }
    }
  }

  /** One event of a monotone run: the next state is again a state of the
      run, it packs to at least the word of this one, strictly more after a
      call, and a call that succeeds hands out that word. */
  lemma StepFacts(c: Configuration, dc: Word, sid: Word, s: GenState, events: seq<Event>, window: nat)
    requires Roomy(c, dc, sid, window) && |events| > 0
    requires SequenceInRange(c, s.curId) && InWindow(s.curTimestamp, window)
    requires Feasible(c, dc, sid, s, events) && MonotoneClock(c, dc, sid, s, events, window)
    ensures var s' := Next(c, dc, sid, s, events[0]);
            && SequenceInRange(c, s'.curId) && InWindow(s'.curTimestamp, window)
            && Feasible(c, dc, sid, s', events[1..]) && MonotoneClock(c, dc, sid, s', events[1..], window)
            && Key(c, dc, sid, s) <= Key(c, dc, sid, s')
            && Issued(c, dc, sid, s, events)
               == (if events[0].GenerateCall? && GenerateStep(c, dc, sid, s, events[0].now, events[0].ticks).result.Ok?
                   then [Key(c, dc, sid, s')] else [])
                  + Issued(c, dc, sid, s', events[1..])
            && (events[0].GenerateCall? ==> Key(c, dc, sid, s) < Key(c, dc, sid, s'))
  {
    var s' := Next(c, dc, sid, s, events[0]);
    match events[0]
    case GenerateCall(now, ticks) =>
      SnowflakeProperties.SequenceStaysInRange(c, dc, sid, s, now, ticks);
      NextInWindow(c, dc, sid, s, now, ticks, window);
      CallMovesForward(c, dc, sid, s, now, ticks);
      KeyMonotone(c, dc, sid, s, s', window);
    case RunnerTick(reading) =>
      KeyMonotone(c, dc, sid, s, s', window);
  }

  lemma Cons(k: int, v: Word, rest: seq<Word>)
    requires k < v && Above(v, rest) && Increasing(rest)
    ensures Above(k, [v] + rest) && Increasing([v] + rest)
  {
  }

  lemma Weaken(k: int, k': int, rest: seq<Word>)
    requires k <= k' && Above(k', rest)
    ensures Above(k, rest)
  {
  }

  /** The timestamp a call ends on is one of the readings. */
  lemma NextInWindow(c: Configuration, dc: Word, sid: Word, s: GenState, now: Word, ticks: seq<Word>, window: nat)
    requires WellFormed(c) && CanComplete(c, s, now, ticks)
    requires s.curTimestamp <= now && InWindow(now, window)
    requires forall j :: 0 <= j < |ticks| ==> InWindow(ticks[j], window)
    ensures InWindow(GenerateStep(c, dc, sid, s, now, ticks).state.curTimestamp, window)
  {
    if s.curTimestamp == now && Add(s.curId, 1) >= c.maximumId {
      assert WaitFor(now, ticks) in ticks;
    }
  }

  /** The reference generator (widths 42/5/5, both ids 0) never hands out the
      same identity twice in a run whose clock does not go back, during the
      2^37 milliseconds after the epoch in which its timestamp field fits. */
  lemma ReferenceIdsUnique(s: GenState, events: seq<Event>)
    requires SequenceInRange(SnowflakeProperties.Reference, s.curId)
    requires InWindow(s.curTimestamp, 137438953472)
    requires Feasible(SnowflakeProperties.Reference, 0, 0, s, events)
    requires MonotoneClock(SnowflakeProperties.Reference, 0, 0, s, events, 137438953472)
    ensures var ids := Issued(SnowflakeProperties.Reference, 0, 0, s, events);
            forall i, j :: 0 <= i < j < |ids| ==> ids[i] != ids[j]
  {
    Pow2Values();
    IssuedIncreasing(SnowflakeProperties.Reference, 0, 0, s, events, 137438953472);
  }

  /** Without a monotone clock uniqueness fails: once a call has stored `now`,
      a tick that stores the earlier reading `s.curTimestamp` defeats the clock
      check, and the next call at `now` repeats the identity just handed out,
      whatever the configuration and the ids. */
  lemma RegressedTickRepeatsId(c: Configuration, dc: Word, sid: Word, s: GenState, now: Word)
    requires WellFormed(c)
    requires s.curTimestamp < now && Sub(now, SystemStartTime) <= c.maximumTimestamp
    ensures var events := [GenerateCall(now, []), RunnerTick(s.curTimestamp), GenerateCall(now, [])];
            && Feasible(c, dc, sid, s, events)
            && var ids := Issued(c, dc, sid, s, events);
               |ids| == 2 && ids[0] == ids[1]
  {
    var e0, e1 := GenerateCall(now, []), RunnerTick(s.curTimestamp);
    var events := [e0, e1, e0];
    var s1, s2 := GenState(now, 0), GenState(s.curTimestamp, 0);
    assert Next(c, dc, sid, s, e0) == s1;
    assert Next(c, dc, sid, s1, e1) == s2;
    assert Next(c, dc, sid, s2, e0) == s1;
    assert events[1..] == [e1, e0] && events[1..][1..] == [e0] && [e0][1..] == [];
    assert Feasible(c, dc, sid, s2, [e0]);
    assert Feasible(c, dc, sid, s1, [e1, e0]);
    var k := Key(c, dc, sid, s1);
    assert GenerateStep(c, dc, sid, s, now, []).result.value.Value() == k;
    assert GenerateStep(c, dc, sid, s2, now, []).result.value.Value() == k;
    assert Issued(c, dc, sid, s2, [e0]) == [k];
    assert Issued(c, dc, sid, s1, [e1, e0]) == [k];
    assert Issued(c, dc, sid, s, events) == [k, k];
  }
}
