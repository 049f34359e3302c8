/** The layout the comment above `SnowflakeIdentity` draws and the tests read:
    | timestamp | data center id | service id | id |, each field directly above
    the next, and a timestamp check that rejects the first value that no longer
    fits. The generator itself follows the code (module Snowflake); these are
    the corrected definitions, with what they guarantee. */
module IntendedLayout {
  import opened Errors
  import opened Uint64
  import opened Snowflake
  import opened Layout
  import SnowflakeProperties

  /** The offset assignments of `NewSnowflakeIdGenerator`, corrected: each offset
      is the previous one plus the width of the field BELOW it. */
  function IntendedConfiguration(timestampBitNum: int, dataCenterBitNum: int, serviceIdBitNum: int)
    : (r: Result<Configuration>)
    ensures !(CheckBitNum(timestampBitNum) && CheckBitNum(dataCenterBitNum) && CheckBitNum(serviceIdBitNum))
            <==> r == Err(IllegalNumberOfBits(timestampBitNum, dataCenterBitNum, serviceIdBitNum))
    ensures r == Err(NegativeShiftCount)
            <==> CheckBitNum(timestampBitNum) && CheckBitNum(dataCenterBitNum) && CheckBitNum(serviceIdBitNum)
                 && timestampBitNum + dataCenterBitNum + serviceIdBitNum > 64
    ensures r.Ok?
            <==> CheckBitNum(timestampBitNum) && CheckBitNum(dataCenterBitNum) && CheckBitNum(serviceIdBitNum)
                 && timestampBitNum + dataCenterBitNum + serviceIdBitNum <= 64
    ensures r.Ok? ==>
              var c := r.value;
              && WellFormed(c)
              && c.idOffset == 64 - timestampBitNum - dataCenterBitNum - serviceIdBitNum
              && c.serviceIdOffset == c.idOffset
              && c.dataCenterIdOffset == c.serviceIdOffset + serviceIdBitNum
              && c.timestampOffset == c.dataCenterIdOffset + dataCenterBitNum
              && c.timestampOffset + timestampBitNum == 64
              && c.maximumTimestamp == Shl(1, timestampBitNum)
              && c.maximumDataCenterId == Shl(1, dataCenterBitNum)
              && c.maximumServiceId == Shl(1, serviceIdBitNum)
              && c.maximumId == Shl(1, c.idOffset)
  {
    if !CheckBitNum(timestampBitNum) || !CheckBitNum(dataCenterBitNum) || !CheckBitNum(serviceIdBitNum) then
      Err(IllegalNumberOfBits(timestampBitNum, dataCenterBitNum, serviceIdBitNum))
    else if timestampBitNum + dataCenterBitNum + serviceIdBitNum > 64 then
      Err(NegativeShiftCount)
    else
      var idOffset := 64 - timestampBitNum - dataCenterBitNum - serviceIdBitNum;
      var serviceIdOffset := idOffset;
      var dataCenterIdOffset := serviceIdOffset + serviceIdBitNum;
      var timestampOffset := dataCenterIdOffset + dataCenterBitNum;
      Ok(Configuration(
           Shl(1, timestampBitNum), Shl(1, dataCenterBitNum), Shl(1, serviceIdBitNum), Shl(1, idOffset),
           timestampOffset, dataCenterIdOffset, serviceIdOffset, idOffset))
  }

  /** The intended 42/5/5 layout: timestamp at 22, data center at 17, service
      at 12, as the tests' masks expect. */
  const IntendedReference := Configuration(4398046511104, 32, 32, 4096, 22, 17, 12, 12)

  lemma IntendedReferenceConfiguration()
    ensures IntendedConfiguration(42, 5, 5) == Ok(IntendedReference)
  {
    Pow2Values();
    ShlNoWrap(1, 42);
    ShlNoWrap(1, 5);
    ShlNoWrap(1, 12);
  }

  /** Corrected `Generate`: a passed time equal to `maximumTimestamp` no longer
      fits in the field and is rejected too. */
  function IntendedStep(c: Configuration, dataCenterId: Word, serviceId: Word,
                        s: GenState, now: Word, ticks: seq<Word>): Outcome
    requires WellFormed(c) && CanComplete(c, s, now, ticks)
  {
    if s.curTimestamp > now then Outcome(s, Err(ClockMovingBackwards))
    else
      var s' := Advance(c, s, now, ticks);
      var passedTime := Sub(s'.curTimestamp, SystemStartTime);
      if passedTime >= c.maximumTimestamp then Outcome(s', Err(ClockFailure))
      else Outcome(s', Ok(SnowflakeIdentity(Pack(c, passedTime, dataCenterId, serviceId, s'.curId))))
  }

  // ---------------------------------------------------------------------------
  // What the corrected layout guarantees

  /** Round trip: in the corrected layout every field value within its width
      comes back out of the packed word. */
  lemma IntendedRoundTrip(t: int, d: int, s: int, p: Word, dc: Word, sid: Word, id: Word)
    requires IntendedConfiguration(t, d, s).Ok?
    requires p < Pow2(t) && dc < Pow2(d) && sid < Pow2(s)
    requires id < Pow2(IntendedConfiguration(t, d, s).value.idOffset)
    ensures var c := IntendedConfiguration(t, d, s).value;
            Unpack(c, Pack(c, p, dc, sid, id)) == Fields(p, dc, sid, id)
  {
    var c := IntendedConfiguration(t, d, s).value;
    assert Fits(c, p, dc, sid, id);
    UnpackPack(c, p, dc, sid, id);
  }

  /** A successful corrected call yields a word from which its passed time,
      both ids and its sequence number can all be read back. */
  lemma IntendedStepRoundTrip(t: int, d: int, s: int, dc: Word, sid: Word,
                              st: GenState, now: Word, ticks: seq<Word>)
    requires IntendedConfiguration(t, d, s).Ok?
    requires dc < Pow2(d) && sid < Pow2(s)
    requires SequenceInRange(IntendedConfiguration(t, d, s).value, st.curId)
    requires CanComplete(IntendedConfiguration(t, d, s).value, st, now, ticks)
    ensures var c := IntendedConfiguration(t, d, s).value;
            var o := IntendedStep(c, dc, sid, st, now, ticks);
            o.result.Ok? ==>
              Unpack(c, o.result.value.Value())
              == Fields(Sub(o.state.curTimestamp, SystemStartTime), dc, sid, o.state.curId)
  {
    var c := IntendedConfiguration(t, d, s).value;
    var o := IntendedStep(c, dc, sid, st, now, ticks);
    if o.result.Ok? {
      SnowflakeProperties.ShlOneBelow(t);
      SnowflakeProperties.ShlOneBelow(c.idOffset);
      IntendedRoundTrip(t, d, s, Sub(o.state.curTimestamp, SystemStartTime), dc, sid, o.state.curId);
    }
  }

  /** Hence two successful corrected calls that return the same identity were
      made in the same millisecond with the same sequence number: no identity
      repeats over the whole timestamp range. */
  lemma IntendedIdsIdentifyState(t: int, d: int, s: int, dc: Word, sid: Word,
                                 st1: GenState, now1: Word, ticks1: seq<Word>,
                                 st2: GenState, now2: Word, ticks2: seq<Word>)
    requires IntendedConfiguration(t, d, s).Ok?
    requires dc < Pow2(d) && sid < Pow2(s)
    requires SequenceInRange(IntendedConfiguration(t, d, s).value, st1.curId)
    requires SequenceInRange(IntendedConfiguration(t, d, s).value, st2.curId)
    requires CanComplete(IntendedConfiguration(t, d, s).value, st1, now1, ticks1)
    requires CanComplete(IntendedConfiguration(t, d, s).value, st2, now2, ticks2)
    ensures var c := IntendedConfiguration(t, d, s).value;
            var o1 := IntendedStep(c, dc, sid, st1, now1, ticks1);
            var o2 := IntendedStep(c, dc, sid, st2, now2, ticks2);
            o1.result.Ok? && o2.result.Ok? && o1.result == o2.result ==>
              && Sub(o1.state.curTimestamp, SystemStartTime) == Sub(o2.state.curTimestamp, SystemStartTime)
              && o1.state.curId == o2.state.curId
  {
    IntendedStepRoundTrip(t, d, s, dc, sid, st1, now1, ticks1);
    IntendedStepRoundTrip(t, d, s, dc, sid, st2, now2, ticks2);
  }

  /** The tests' masks read both ids back in the corrected 42/5/5 layout:
      `(id >> 17) & 0x1F` is the data center and `(id >> 12) & 0x1F` the
      service. */
  lemma TestMasksRecoverIds(p: Word, dc: Word, sid: Word, id: Word)
    requires p < 4398046511104 && dc < 32 && sid < 32 && id < 4096
    ensures var v := Pack(IntendedReference, p, dc, sid, id);
            And(Shr(v, 17), 31) == dc && And(Shr(v, 12), 31) == sid
  {
    Pow2Values();
    IntendedReferenceConfiguration();
    IntendedRoundTrip(42, 5, 5, p, dc, sid, id);
    var v := Pack(IntendedReference, p, dc, sid, id);
    MaskedField(v, 17);
    MaskedField(v, 12);
  }

  // ---------------------------------------------------------------------------
  // The strict check as written

  /** Finding: the code's check `passedTime > maximumTimestamp` lets the passed
      time 2^42 through. In the intended layout its 42 bits then wrap to 0 and
      the call returns the identity of the epoch's first millisecond; the
      corrected check rejects it. */
  lemma StrictCheckAdmitsWrap()
    ensures var first := GenerateStep(IntendedReference, 0, 0, GenState(SystemStartTime - 1, 0), SystemStartTime, []);
            var late := GenState(SystemStartTime + 4398046511103, 0);
            var limit := GenerateStep(IntendedReference, 0, 0, late, SystemStartTime + 4398046511104, []);
            && first.result.Ok? && limit.result.Ok? && first.result == limit.result
            && IntendedStep(IntendedReference, 0, 0, late, SystemStartTime + 4398046511104, []).result
               == Err(ClockFailure)
  {
    Pow2Values();
    ShlZero(17);
    ShlZero(12);
    ShlZero(22);
    ShlBeyond(1, 64);
    Pow2Add(42, 22);
    assert Shl(4398046511104, 22) == Shl(1, 64);
  }
}
