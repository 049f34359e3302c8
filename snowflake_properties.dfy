/** What the Snowflake generator guarantees, and where it falls short of what
    its layout comment and its tests expect. */
module SnowflakeProperties {
  import opened Errors
  import opened Uint64
  import opened Snowflake
  import opened Layout

  /** The configuration `NewIdGeneratorManager` asks for: widths 42/5/5. */
  const Reference := Configuration(4398046511104, 32, 32, 4096, 27, 22, 17, 12)

  // ---------------------------------------------------------------------------
  // Construction

  /** Widths 42/5/5 pass the checks and give a 2^42 timestamp range, 32 data
      centers, 32 services, 4096 ids per millisecond, and offsets 27/22/17/12. */
  lemma ReferenceConfiguration()
    ensures NewConfiguration(42, 5, 5) == Ok(Reference)
  {
    Pow2Values();
    ShlNoWrap(1, 42);
    ShlNoWrap(1, 5);
    ShlNoWrap(1, 12);
  }

  /** `1 << n` truncated to 64 bits is at most 2^n. */
  lemma ShlOneBelow(n: nat)
    ensures Shl(1, n) <= Pow2(n)
  {
    Pow2Full();
    DivModUnique(Pow2(n), Modulus, Pow2(n) / Modulus, Pow2(n) % Modulus);
    if Pow2(n) / Modulus > 0 {
      MulPositive(Pow2(n) / Modulus, Modulus);
    }
  }

  /** A sequence number in range fits below bit `idOffset`, and so below the
      service id, in every configuration the constructor builds. */
  lemma SequenceFits(t: int, d: int, s: int, id: Word)
    requires NewConfiguration(t, d, s).Ok?
    requires SequenceInRange(NewConfiguration(t, d, s).value, id)
    ensures id < Pow2(NewConfiguration(t, d, s).value.idOffset)
    ensures id < Pow2(NewConfiguration(t, d, s).value.serviceIdOffset)
  {
    var c := NewConfiguration(t, d, s).value;
    BelowOffsets(c.idOffset, c.serviceIdOffset, c.maximumId, id);
  }

  /** A sequence number below `1 << lo` is below 2^lo and 2^hi for hi >= lo. */
  lemma BelowOffsets(lo: nat, hi: nat, maximumId: Word, id: Word)
    requires lo <= hi && maximumId == Shl(1, lo)
    requires id == 0 || id < maximumId
    ensures id < Pow2(lo) && id < Pow2(hi)
  {
    ShlOneBelow(lo);
    Pow2Monotone(lo, hi);
  }

  /** What the code's offsets do to the fields, for any widths it accepts: the
      data-center field ends exactly where the timestamp starts, but the
      timestamp field runs past bit 63 as soon as the data-center id takes a
      bit, and the service field runs into the data-center field exactly when
      it is the wider of the two. */
  lemma AsWrittenLayout(t: int, d: int, s: int)
    requires NewConfiguration(t, d, s).Ok?
    ensures var c := NewConfiguration(t, d, s).value;
            && c.dataCenterIdOffset + d == c.timestampOffset
            && (c.timestampOffset + t <= 64 <==> d == 0)
            && (Overlap(c.serviceIdOffset, s, c.dataCenterIdOffset, d) <==> 0 < d < s)
  {
  }

  /** The bit ranges [lo1, lo1 + w1) and [lo2, lo2 + w2) share a bit. */
  predicate Overlap(lo1: int, w1: int, lo2: int, w2: int) {
    w1 > 0 && w2 > 0 && lo1 < lo2 + w2 && lo2 < lo1 + w1
  }

  /** With widths 42/1/5 the two ids collide: data center 1 and service 2
      pack to the same word. */
  lemma OverlapCollision()
    ensures NewConfiguration(42, 1, 5).Ok?
    ensures var c := NewConfiguration(42, 1, 5).value;
            Pack(c, 0, 1, 0, 0) == Pack(c, 0, 0, 2, 0)
  {
    var c := NewConfiguration(42, 1, 5).value;
    OverlapAt(c);
  }

  /** The collision in any configuration with the service field at bit 21 and
      the data-center field at bit 22. */
  lemma OverlapAt(c: Configuration)
    requires WellFormed(c) && c.serviceIdOffset == 21 && c.dataCenterIdOffset == 22
    ensures Pack(c, 0, 1, 0, 0) == Pack(c, 0, 0, 2, 0)
  {
    ShlZero(c.timestampOffset);
    ShlZero(22);
    ShlZero(21);
    Pow2Add(21, 1);
    assert Shl(1, 22) == Shl(2, 21);
    assert Or(0, 0) == 0;
  }

  // ---------------------------------------------------------------------------
  // One call of Generate

  /** Finding: with no runner storing a new timestamp, the wait never ends. In
      the 42/5/5 configuration the call after sequence number 4095 within one
      millisecond overflows, and however many polls see only `now`, the call
      cannot return. */
  lemma StalledWaitNeverEnds(now: Word, ticks: seq<Word>)
    requires forall k :: 0 <= k < |ticks| ==> ticks[k] == now
    ensures Overflows(Reference, GenState(now, 4095), now)
    ensures !CanComplete(Reference, GenState(now, 4095), now, ticks)
  {
    assert Add(4095, 1) == 4096;
  }

  /** The two clock errors, exactly when they happen: a clock behind the stored
      timestamp leaves the state as it was; exhaustion is reported after the
      state has moved on. */
  lemma GenerateErrors(c: Configuration, dc: Word, sid: Word, s: GenState, now: Word, ticks: seq<Word>)
    requires WellFormed(c) && CanComplete(c, s, now, ticks)
    ensures var o := GenerateStep(c, dc, sid, s, now, ticks);
            && (o.result == Err(ClockMovingBackwards) <==> s.curTimestamp > now)
            && (s.curTimestamp > now ==> o.state == s)
            && (o.result == Err(ClockFailure) <==>
                  s.curTimestamp <= now && Sub(o.state.curTimestamp, SystemStartTime) > c.maximumTimestamp)
            && (o.result.Ok? <==>
                  s.curTimestamp <= now && Sub(o.state.curTimestamp, SystemStartTime) <= c.maximumTimestamp)
  {
  }

  /** A successful call returns the fields of the new state, packed. */
  lemma GenerateResult(c: Configuration, dc: Word, sid: Word, s: GenState, now: Word, ticks: seq<Word>)
    requires WellFormed(c) && CanComplete(c, s, now, ticks)
    ensures var o := GenerateStep(c, dc, sid, s, now, ticks);
            o.result.Ok? ==>
              o.result.value.Value()
              == Pack(c, Sub(o.state.curTimestamp, SystemStartTime), dc, sid, o.state.curId)
  {
  }

  /** `Generate` keeps the sequence number in range. */
  lemma SequenceStaysInRange(c: Configuration, dc: Word, sid: Word, s: GenState, now: Word, ticks: seq<Word>)
    requires WellFormed(c) && CanComplete(c, s, now, ticks) && SequenceInRange(c, s.curId)
    ensures SequenceInRange(c, GenerateStep(c, dc, sid, s, now, ticks).state.curId)
  {
  }

  /** In the same millisecond the sequence number goes up by one, without
      wrapping, while that stays below `maximumId`. */
  lemma SameMillisecond(c: Configuration, dc: Word, sid: Word, s: GenState, now: Word, ticks: seq<Word>)
    requires WellFormed(c) && SequenceInRange(c, s.curId)
    requires s.curTimestamp == now && s.curId + 1 < c.maximumId
    ensures CanComplete(c, s, now, ticks)
    ensures GenerateStep(c, dc, sid, s, now, ticks).state == GenState(now, s.curId + 1)
  {
  }

  /** When the sequence is used up, the call restarts it at 0 and waits: it
      ends on the first timestamp the runner stores that differs from `now`,
      and if the runner's readings are not behind `now` that timestamp is
      later than `now`. */
  lemma SequenceExhausted(c: Configuration, dc: Word, sid: Word, s: GenState, now: Word, ticks: seq<Word>)
    requires WellFormed(c) && SequenceInRange(c, s.curId)
    requires s.curTimestamp == now && s.curId + 1 >= c.maximumId && Advances(ticks, now)
    ensures var next := GenerateStep(c, dc, sid, s, now, ticks).state;
            && next.curId == 0
            && next.curTimestamp != now
            && (exists i :: 0 <= i < |ticks| && ticks[i] == next.curTimestamp
                             && forall j :: 0 <= j < i ==> ticks[j] == now)
            && ((forall j :: 0 <= j < |ticks| ==> ticks[j] >= now) ==> next.curTimestamp > now)
  {
    WaitForIsFirst(now, ticks);
  }

  /** A newer millisecond is adopted with the sequence restarted at 0. */
  lemma NewerMillisecond(c: Configuration, dc: Word, sid: Word, s: GenState, now: Word, ticks: seq<Word>)
    requires WellFormed(c) && s.curTimestamp < now
    ensures CanComplete(c, s, now, ticks)
    ensures GenerateStep(c, dc, sid, s, now, ticks).state == GenState(now, 0)
  {
  }

  /** The stored timestamp never moves back across a call, and after a call
      that got past the clock check it is at least `now`, as long as the
      runner stores no reading behind `now` while the call waits. */
  lemma TimestampNeverDecreases(c: Configuration, dc: Word, sid: Word, s: GenState, now: Word, ticks: seq<Word>)
    requires WellFormed(c) && CanComplete(c, s, now, ticks)
    requires forall j :: 0 <= j < |ticks| ==> ticks[j] >= now
    ensures GenerateStep(c, dc, sid, s, now, ticks).state.curTimestamp >= s.curTimestamp
    ensures s.curTimestamp <= now ==> GenerateStep(c, dc, sid, s, now, ticks).state.curTimestamp >= now
  {
    if s.curTimestamp == now && Add(s.curId, 1) >= c.maximumId {
      assert WaitFor(now, ticks) in ticks;
    }
  }

  /** Exhaustion does not roll back: the call below fails, yet the stored
      timestamp and sequence number have changed. */
  lemma ExhaustionKeepsNewState()
    ensures var s := GenState(SystemStartTime, 5);
            var now := SystemStartTime + 4398046511105;
            var o := GenerateStep(Reference, 0, 0, s, now, []);
            o.result == Err(ClockFailure) && o.state == GenState(now, 0) && o.state != s
  {
  }

  // ---------------------------------------------------------------------------
  // The checks of the tests, on the as-written layout

  /** Every identity the reference generator returns, with both ids 0, passes
      the two masks of the tests: `(id >> 17) & 0x1F == 0` and
      `(id >> 12) & 0x1F == 0`. This holds whatever the clock: the
      timestamp's bits that wrap past bit 63 are simply lost. */
  lemma ReferenceMasksZero(s: GenState, now: Word, ticks: seq<Word>)
    requires SequenceInRange(Reference, s.curId) && CanComplete(Reference, s, now, ticks)
    ensures var o := GenerateStep(Reference, 0, 0, s, now, ticks);
            o.result.Ok? ==>
              && And(Shr(o.result.value.Value(), 17), 31) == 0
              && And(Shr(o.result.value.Value(), 12), 31) == 0
  {
    var o := GenerateStep(Reference, 0, 0, s, now, ticks);
    if o.result.Ok? {
      var v := o.result.value.Value();
      var p := Sub(o.state.curTimestamp, SystemStartTime);
      ReferencePack(p, o.state.curId);
      var q := p % 137438953472;
      MaskedField(v, 17);
      MaskedField(v, 12);
      Pow2Values();
      Fields2(v, q * 1024, o.state.curId, 131072, q * 32, 0, 32);
      Fields2(v, q * 32768, o.state.curId, 4096, q * 1024, 0, 32);
    }
  }

  /** Packing with both ids 0 in the reference layout: the timestamp keeps its
      low 37 bits, above the sequence number. */
  lemma ReferencePack(p: Word, id: Word)
    requires id < 4096
    ensures Pack(Reference, p, 0, 0, id) == (p % 137438953472) * 134217728 + id
  {
    Pow2Values();
    var q := p % 137438953472;
    ShlZero(22);
    ShlZero(17);
    ShlTruncates(p, 137438953472, 134217728);
    assert Shl(p, 27) == q * 134217728;
    OrStacked(q, id, 27);
  }

  /** (x * m) mod (n * m) keeps x mod n. */
  lemma ShlTruncates(x: nat, n: nat, m: nat)
    requires n > 0 && m > 0
    ensures (x * m) % (n * m) == (x % n) * m
  {
    var q, r := x / n, x % n;
    MulLe(r + 1, n, m);
    assert x * m == q * (n * m) + r * m;
    MulNonneg(r, m);
    DivModUnique(x * m, n * m, q, r * m);
  }

  /** Finding: the code puts the service id where the tests read the data
      center. A service id of 1 reads back through the tests' masks as data
      center 1 and service 0. */
  lemma MasksMisreadServiceId()
    ensures var v := Pack(Reference, 0, 0, 1, 0);
            And(Shr(v, 17), 31) == 1 && And(Shr(v, 12), 31) == 0
  {
    var v := Pack(Reference, 0, 0, 1, 0);
    assert v == 131072 by {
      ServiceOneWord();
    }
    assert Pow2(17) == 131072 && Pow2(12) == 4096 by {
      Pow2Values();
    }
    assert And(Shr(v, 17), 31) == (131072 / 131072) % 32 by {
      MaskedField(131072, 17);
    }
    assert And(Shr(v, 12), 31) == (131072 / 4096) % 32 by {
      MaskedField(131072, 12);
    }
  }

  /** Service id 1 alone packs to bit 17. */
  lemma ServiceOneWord()
    ensures Pack(Reference, 0, 0, 1, 0) == 131072
  {
    Pow2Values();
    ShlNoWrap(1, 17);
    ShlZero(27);
    ShlZero(22);
  }

  /** Finding: in the as-written layout the timestamp has only 37 bits below
      bit 64, so 2^37 milliseconds after the epoch (late 2028) the generator
      again returns the identity of the epoch's first millisecond, with no
      clock ever going back. */
  lemma ReferenceTimestampWraps()
    ensures var first := GenerateStep(Reference, 0, 0, GenState(SystemStartTime - 1, 0), SystemStartTime, []);
            var later := GenerateStep(Reference, 0, 0, GenState(SystemStartTime + 137438953471, 0),
                                      SystemStartTime + 137438953472, []);
            first.result.Ok? && later.result.Ok? && first.result == later.result
  {
    Pow2Values();
    ReferencePack(0, 0);
    ReferencePack(137438953472, 0);
  }
}
