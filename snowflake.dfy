/** The Snowflake identifier generator of service/id_service/server/snowflake_id_generator.go.

    A 64-bit identity packs, from the top down, the milliseconds passed
    since `SystemStartTime`, a data-center id, a service id and a
    per-millisecond sequence number. The bit positions follow the code's
    arithmetic, which is not the layout its comment draws: see
    `NewConfiguration`. */
module Snowflake {
  import opened Errors
  import opened Uint64
  import Decimal

  /** 2024-07-27T00:00:00Z in Unix milliseconds, the origin of the timestamp field. */
  const SystemStartTime: Word := 1722038400000

  /** `SnowflakeConfiguration`: the four field maxima and the four offsets. */
  datatype Configuration = Configuration(
    maximumTimestamp: Word,
    maximumDataCenterId: Word,
    maximumServiceId: Word,
    maximumId: Word,
    timestampOffset: int,
    dataCenterIdOffset: int,
    serviceIdOffset: int,
    idOffset: int)

  /** The offsets are shift counts Go can apply without panicking, in layout order. */
  predicate WellFormed(c: Configuration) {
    0 <= c.idOffset <= c.serviceIdOffset <= c.dataCenterIdOffset <= c.timestampOffset
  }

  /** `checkBitNum`: a width lies in [0, 64]. */
  predicate CheckBitNum(bitNum: int) {
    0 <= bitNum && bitNum <= 64
  }

  /** The configuration `NewSnowflakeIdGenerator` derives from the three widths.
      The service-id and data-center offsets add the width of their OWN field, and
      the timestamp offset adds the data-center width a second time instead of
      the service width, so every field sits one field width higher than the
      layout comment says: for 42/5/5 the service id starts at bit 17, the
      data-center id at 22 and the timestamp at 27. Widths that pass `checkBitNum`
      but add up to more than 64 make `1 << (64 - ...)` a negative shift, which
      panics in Go. */
  function NewConfiguration(timestampBitNum: int, dataCenterBitNum: int, serviceIdBitNum: int): (r: Result<Configuration>)
    ensures !(CheckBitNum(timestampBitNum) && CheckBitNum(dataCenterBitNum) && CheckBitNum(serviceIdBitNum))
            <==> r == Err(IllegalNumberOfBits(timestampBitNum, dataCenterBitNum, serviceIdBitNum))
    ensures r == Err(NegativeShiftCount)
            <==> CheckBitNum(timestampBitNum) && CheckBitNum(dataCenterBitNum) && CheckBitNum(serviceIdBitNum)
                 && timestampBitNum + dataCenterBitNum + serviceIdBitNum > 64
    ensures r.Ok?
            <==> CheckBitNum(timestampBitNum) && CheckBitNum(dataCenterBitNum) && CheckBitNum(serviceIdBitNum)
                 && timestampBitNum + dataCenterBitNum + serviceIdBitNum <= 64
    ensures r.Ok? ==>
              var c := r.value;
              && WellFormed(c)
              && c.idOffset == 64 - timestampBitNum - dataCenterBitNum - serviceIdBitNum
              && c.serviceIdOffset == 64 - timestampBitNum - dataCenterBitNum
              && c.dataCenterIdOffset == 64 - timestampBitNum
              && c.timestampOffset == 64 - timestampBitNum + dataCenterBitNum
              && c.maximumTimestamp == Shl(1, timestampBitNum)
              && c.maximumDataCenterId == Shl(1, dataCenterBitNum)
              && c.maximumServiceId == Shl(1, serviceIdBitNum)
              && c.maximumId == Shl(1, c.idOffset)
  {
    if !CheckBitNum(timestampBitNum) || !CheckBitNum(dataCenterBitNum) || !CheckBitNum(serviceIdBitNum) then
      Err(IllegalNumberOfBits(timestampBitNum, dataCenterBitNum, serviceIdBitNum))
    else if timestampBitNum + dataCenterBitNum + serviceIdBitNum > 64 then
      Err(NegativeShiftCount)
    else
      var idOffset := 64 - timestampBitNum - dataCenterBitNum - serviceIdBitNum;
      var serviceIdOffset := idOffset + serviceIdBitNum;
      var dataCenterIdOffset := serviceIdOffset + dataCenterBitNum;
      var timestampOffset := dataCenterIdOffset + dataCenterBitNum;
      Ok(Configuration(
           Shl(1, timestampBitNum), Shl(1, dataCenterBitNum), Shl(1, serviceIdBitNum), Shl(1, idOffset),
           timestampOffset, dataCenterIdOffset, serviceIdOffset, idOffset))
  }

  // ---------------------------------------------------------------------------
  // Identities

  /** `SnowflakeIdentity`, a named uint64. */
  datatype SnowflakeIdentity = SnowflakeIdentity(bits: Word) {

    /** `Value`: the word itself; it determines the identity. */
    function Value(): (v: Word)
      ensures SnowflakeIdentity(v) == this
    {
      bits
    }

    /** `String`: the value in decimal, as `%d` prints it. */
    function String(): (s: string)
      ensures Decimal.Canonical(s) && Decimal.Parse(s) == Value()
    {
      Decimal.ParseRender(bits);
      Decimal.Render(bits)
    }
  }

  /** The word `Generate` assembles: the four shifted fields OR-ed together,
      each shift truncated to 64 bits as Go does. */
  function Pack(c: Configuration, passedTime: Word, dataCenterId: Word, serviceId: Word, id: Word): Word
    requires WellFormed(c)
  {
    Or(Or(Or(Shl(passedTime, c.timestampOffset), Shl(dataCenterId, c.dataCenterIdOffset)),
          Shl(serviceId, c.serviceIdOffset)),
       id)
  }

  // ---------------------------------------------------------------------------
  // The state machine of `Generate`, as a function of the state and the clock

  /** The two fields `Generate` and the runner update. */
  datatype GenState = GenState(curTimestamp: Word, curId: Word)

  /** The generator's invariant on its sequence number: below `maximumId`, or 0,
      which is the one value left where `maximumId` itself wrapped to 0 (all three
      widths 0). */
  predicate SequenceInRange(c: Configuration, curId: Word) {
    curId == 0 || curId < c.maximumId
  }

  /** A call that finds the clock in its own millisecond with no sequence left
      waits for the runner to store another timestamp. */
  predicate Overflows(c: Configuration, s: GenState, now: Word) {
    s.curTimestamp == now && Add(s.curId, 1) >= c.maximumId
  }

  /** Some timestamp the runner stores during the wait differs from `now`. */
  predicate Advances(ticks: seq<Word>, now: Word) {
    exists k :: 0 <= k < |ticks| && ticks[k] != now
  }

  /** What a call needs from the runner to return at all: the clock moves on
      if the call has to wait for it. */
  predicate CanComplete(c: Configuration, s: GenState, now: Word, ticks: seq<Word>) {
    Overflows(c, s, now) ==> Advances(ticks, now)
  }

  /** The timestamp the wait loop ends on: the first stored value that is not `now`. */
  function WaitFor(now: Word, ticks: seq<Word>): (t: Word)
    requires Advances(ticks, now)
    ensures t != now && t in ticks
    decreases |ticks|
  {
    if ticks[0] != now then ticks[0]
    else
      var k :| 0 <= k < |ticks| && ticks[k] != now;
      assert ticks[1..][k - 1] != now;
      WaitFor(now, ticks[1..])
  }

  /** The wait ends on the first stored value that differs from `now`, and
      every value stored before it equals `now`. */
  lemma {:induction false} WaitForIsFirst(now: Word, ticks: seq<Word>)
    requires Advances(ticks, now)
    ensures exists i :: 0 <= i < |ticks| && ticks[i] == WaitFor(now, ticks) && forall j :: 0 <= j < i ==> ticks[j] == now
    decreases |ticks|
  {
    if ticks[0] == now {
      var k :| 0 <= k < |ticks| && ticks[k] != now;
      assert ticks[1..][k - 1] != now;
      WaitForIsFirst(now, ticks[1..]);
      var i :| 0 <= i < |ticks[1..]| && ticks[1..][i] == WaitFor(now, ticks[1..])
               && forall j :: 0 <= j < i ==> ticks[1..][j] == now;
      forall j | 0 <= j < i + 1 ensures ticks[j] == now {
        if j > 0 { assert ticks[j] == ticks[1..][j - 1]; }
      }
      assert ticks[i + 1] == WaitFor(now, ticks);
    } else {
      assert ticks[0] == WaitFor(now, ticks);
    }
  }

  /** The state after the sequence update of `Generate` (the `curTimestamp == now` branch
      with its wait, or the `else` branch), once the clock check has passed. */
  function Advance(c: Configuration, s: GenState, now: Word, ticks: seq<Word>): GenState
    requires s.curTimestamp <= now && CanComplete(c, s, now, ticks)
  {
    if s.curTimestamp == now then
      if Add(s.curId, 1) >= c.maximumId then GenState(WaitFor(now, ticks), 0)
      else GenState(now, Add(s.curId, 1))
    else GenState(now, 0)
  }

  /** The new state and the result of one `Generate` call. */
  datatype Outcome = Outcome(state: GenState, result: Result<SnowflakeIdentity>)

  /** One `Generate` call on state s with clock reading `now`; `ticks` are the
      timestamps the runner stores while the call waits. */
  function GenerateStep(c: Configuration, dataCenterId: Word, serviceId: Word,
                        s: GenState, now: Word, ticks: seq<Word>): Outcome
    requires WellFormed(c) && CanComplete(c, s, now, ticks)
  {
    if s.curTimestamp > now then Outcome(s, Err(ClockMovingBackwards))
    else
      var s' := Advance(c, s, now, ticks);
      var passedTime := Sub(s'.curTimestamp, SystemStartTime);
      if passedTime > c.maximumTimestamp then Outcome(s', Err(ClockFailure))
      else Outcome(s', Ok(SnowflakeIdentity(Pack(c, passedTime, dataCenterId, serviceId, s'.curId))))
  }

  // ---------------------------------------------------------------------------
  // The generator object

  /** `SnowflakeIdGenerator`. The two mutexes are left out: `Generate` and
      `Tick` are atomic here. */
  class SnowflakeIdGenerator {
    const config: Configuration
    var curTimestamp: Word
    var curId: Word
    var dataCenterId: Word
    var serviceId: Word

    ghost predicate Valid()
      reads this
    {
      WellFormed(config) && SequenceInRange(config, curId)
    }

    function State(): GenState
      reads this
    {
      GenState(curTimestamp, curId)
    }

    /** The generator set up at the end of `NewSnowflakeIdGenerator`: the clock
        reading `now` stands for `time.Now`, and both ids are hard-coded to 0. */
    constructor (config: Configuration, now: Word)
      requires WellFormed(config)
      ensures Valid() && this.config == config
      ensures curTimestamp == now && curId == 0
      ensures dataCenterId == 0 && serviceId == 0
    {
      this.config := config;
      curTimestamp := now;
      curId := 0;
      dataCenterId := 0;
      serviceId := 0;
    }

    /** `Generate` with the clock read as `now`. While the call waits for the next
        millisecond it watches `curTimestamp`; `ticks` are the values the runner
        stores there, one per poll. */
    method Generate(now: Word, ticks: seq<Word>) returns (r: Result<SnowflakeIdentity>)
      requires Valid() && CanComplete(config, State(), now, ticks)
      modifies this`curTimestamp, this`curId
      ensures Valid()
      ensures Outcome(State(), r) == GenerateStep(config, dataCenterId, serviceId, old(State()), now, ticks)
    {
      if curTimestamp > now {
        return Err(ClockMovingBackwards);
      }

      if curTimestamp == now {
        curId := Add(curId, 1);
        if curId >= config.maximumId {
          curId := 0;
          var i := 0;
          while now == curTimestamp
            invariant 0 <= i <= |ticks| && curId == 0
            invariant curTimestamp == now ==> Advances(ticks[i..], now) && WaitFor(now, ticks[i..]) == WaitFor(now, ticks)
            invariant curTimestamp != now ==> curTimestamp == WaitFor(now, ticks)
            decreases |ticks| - i
          {
            assert ticks[i..][0] == ticks[i];
            curTimestamp := ticks[i];
            if curTimestamp == now {
              var k :| 0 <= k < |ticks[i..]| && ticks[i..][k] != now;
              assert ticks[i + 1..][k - 1] != now;
              assert ticks[i..][1..] == ticks[i + 1..];
            }
            i := i + 1;
          }
        }
      } else {
        curTimestamp := now;
        curId := 0;
      }

      var passedTime := Sub(curTimestamp, SystemStartTime);
      if passedTime > config.maximumTimestamp {
        return Err(ClockFailure);
      }

      var identity: Word := 0;
      identity := Or(identity, Shl(passedTime, config.timestampOffset));
      identity := Or(identity, Shl(dataCenterId, config.dataCenterIdOffset));
      identity := Or(identity, Shl(serviceId, config.serviceIdOffset));
      identity := Or(identity, curId);
      r := Ok(SnowflakeIdentity(identity));
    }

    /** One tick of the runner: it stores the clock reading and nothing else. */
    method Tick(now: Word)
      requires Valid()
      modifies this`curTimestamp
      ensures Valid() && curTimestamp == now && curId == old(curId)
    {
      curTimestamp := now;
    }
  }

  /** `NewSnowflakeIdGenerator`, with `now` for the reading of `time.Now` that
      becomes the first `curTimestamp`. */
  method NewSnowflakeIdGenerator(timestampBitNum: int, dataCenterBitNum: int, serviceIdBitNum: int, now: Word)
    returns (r: Result<SnowflakeIdGenerator>)
    ensures r.Ok? <==> NewConfiguration(timestampBitNum, dataCenterBitNum, serviceIdBitNum).Ok?
    ensures r.Err? ==> r.error == NewConfiguration(timestampBitNum, dataCenterBitNum, serviceIdBitNum).error
    ensures r.Ok? ==>
              && fresh(r.value) && r.value.Valid()
              && r.value.config == NewConfiguration(timestampBitNum, dataCenterBitNum, serviceIdBitNum).value
              && r.value.curTimestamp == now && r.value.curId == 0
              && r.value.dataCenterId == 0 && r.value.serviceId == 0
  {
    if !CheckBitNum(timestampBitNum) || !CheckBitNum(dataCenterBitNum) || !CheckBitNum(serviceIdBitNum) {
      return Err(IllegalNumberOfBits(timestampBitNum, dataCenterBitNum, serviceIdBitNum));
    }

    var idOffset := 64 - timestampBitNum - dataCenterBitNum - serviceIdBitNum;
    var serviceIdOffset := idOffset + serviceIdBitNum;
    var dataCenterIdOffset := serviceIdOffset + dataCenterBitNum;
    var timestampOffset := dataCenterIdOffset + dataCenterBitNum;

    var maximumTimestamp := Shl(1, timestampBitNum);
    var maximumDataCenterId := Shl(1, dataCenterBitNum);
    var maximumServiceId := Shl(1, serviceIdBitNum);
    if idOffset < 0 {
      return Err(NegativeShiftCount);
    }
    var maximumId := Shl(1, idOffset);

    var config := Configuration(maximumTimestamp, maximumDataCenterId, maximumServiceId, maximumId,
                                timestampOffset, dataCenterIdOffset, serviceIdOffset, idOffset);
    var generator := new SnowflakeIdGenerator(config, now);
    return Ok(generator);
  }
}
