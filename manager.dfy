/** The manager of service/id_service/server/id_generator_manager.go: dispatch
    by algorithm name, the runner's clock tick, and construction. */
module Manager {
  import opened Errors
  import opened Uint64
  import opened Snowflake
  import SnowflakeProperties

  /** The generators a runner can be handed: the Snowflake generator, or any
      other implementation of the generator interface. */
  datatype IdGenerator = SnowflakeGenerator(snowflake: SnowflakeIdGenerator) | OtherGenerator

  /** What a runner has done: stopped with an error, or still ticking (the
      real runner never returns otherwise). */
  datatype RunnerStatus = Failed(error: Error) | Running

  /** `IdGeneratorManager`. */
  class IdGeneratorManager {
    const snowflake: SnowflakeIdGenerator

    constructor (snowflake: SnowflakeIdGenerator)
      ensures this.snowflake == snowflake
    {
      this.snowflake := snowflake;
    }

    /** `Generate`: the name "snowflake" runs the Snowflake generator's
        `Generate`, with all its effects; any other name is an error and
        touches nothing. */
    method Generate(algorithm: string, now: Word, ticks: seq<Word>) returns (r: Result<SnowflakeIdentity>)
      requires snowflake.Valid()
      requires algorithm == "snowflake" ==> CanComplete(snowflake.config, snowflake.State(), now, ticks)
      modifies snowflake`curTimestamp, snowflake`curId
      ensures snowflake.Valid()
      ensures algorithm == "snowflake" ==>
                Outcome(snowflake.State(), r)
                == GenerateStep(snowflake.config, snowflake.dataCenterId, snowflake.serviceId,
                                old(snowflake.State()), now, ticks)
      ensures algorithm != "snowflake" ==>
                r == Err(NoSuchAlgorithm) && snowflake.State() == old(snowflake.State())
    {
      if algorithm == "snowflake" {
        r := snowflake.Generate(now, ticks);
      } else {
        r := Err(NoSuchAlgorithm);
      }
    }
  }

  /** The runner `getSnowflakeRunner` builds, run over the clock readings of
      its first |readings| ticks: it refuses anything but a Snowflake
      generator, and otherwise stores each reading as the current timestamp. */
  method SnowflakeRunner(generator: IdGenerator, readings: seq<Word>) returns (status: RunnerStatus)
    requires generator.SnowflakeGenerator? ==> generator.snowflake.Valid()
    modifies if generator.SnowflakeGenerator? then {generator.snowflake} else {}
    ensures generator.OtherGenerator? ==> status == Failed(IllegalGeneratorType)
    ensures generator.SnowflakeGenerator? ==>
              var g := generator.snowflake;
              && status == Running
              && g.Valid()
              && g.curTimestamp == (if |readings| == 0 then old(g.curTimestamp) else readings[|readings| - 1])
              && g.curId == old(g.curId)
              && g.dataCenterId == old(g.dataCenterId) && g.serviceId == old(g.serviceId)
  {
    if generator.OtherGenerator? {
      return Failed(IllegalGeneratorType);
    }
    var g := generator.snowflake;
    var i := 0;
    while i < |readings|
      invariant 0 <= i <= |readings|
      invariant g.Valid()
      invariant g.curTimestamp == (if i == 0 then old(g.curTimestamp) else readings[i - 1])
      invariant g.curId == old(g.curId)
      invariant g.dataCenterId == old(g.dataCenterId) && g.serviceId == old(g.serviceId)
    {
      g.Tick(readings[i]);
      i := i + 1;
    }
    return Running;
  }

  /** `NewIdGeneratorManager`, with `now` for the clock reading the generator
      starts from: widths 42/5/5 are always accepted, so it never fails. */
  method NewIdGeneratorManager(now: Word) returns (r: Result<IdGeneratorManager>)
    ensures r.Ok?
    ensures fresh(r.value) && fresh(r.value.snowflake)
    ensures r.value.snowflake.Valid()
    ensures r.value.snowflake.config == SnowflakeProperties.Reference
    ensures r.value.snowflake.State() == GenState(now, 0)
    ensures r.value.snowflake.dataCenterId == 0 && r.value.snowflake.serviceId == 0
  {
    SnowflakeProperties.ReferenceConfiguration();
    var generator := NewSnowflakeIdGenerator(42, 5, 5, now);
    match generator {
      case Err(e) =>
        assert false;
        return Err(e);
      case Ok(g) =>
        var manager := new IdGeneratorManager(g);
        return Ok(manager);
    }
  }
}
