/** numpy's random Generator (`default_rng`) seen from outside: an infinite
    stream of raw draws, consumed one per `choice` call, and a count of the
    calls made so far. How numpy turns its seed into that stream is not
    modelled; the stream is a parameter. */
module Rng {
  import opened Outcomes

  /** The raw outcome of one generator call. A call asking for one value
      uses `first`; a call asking for two values (`size=(2,)`) uses both. */
  datatype Draw = Draw(first: nat, second: nat)

  type Stream = nat -> Draw

  /** The element of `population` that the raw value `raw` selects. */
  function Pick(raw: nat, population: seq<int>): (v: int)
    requires |population| > 0
    ensures v in population
  {
    population[raw % |population|]
  }

  class Generator {
    const stream: Stream
    var calls: nat

    constructor (stream: Stream)
      ensures this.stream == stream && calls == 0
    {
      this.stream := stream;
      calls := 0;
    }

    /** `choice(population)`: one call, one value. An empty population
        raises before the generator moves. */
    method Choice(population: seq<int>) returns (r: Result<int>)
      modifies this
      ensures |population| == 0 ==> r == Err(EmptyPopulation) && calls == old(calls)
      ensures |population| > 0 ==> r == Ok(Pick(stream(old(calls)).first, population))
      ensures |population| > 0 ==> calls == old(calls) + 1
    {
      if |population| == 0 {
        return Err(EmptyPopulation);
      }
      r := Ok(Pick(stream(calls).first, population));
      calls := calls + 1;
    }

    /** `choice(population, size=(2,), replace=True)`: one call, two values. */
    method ChoiceTwo(population: seq<int>) returns (r: Result<(int, int)>)
      modifies this
      ensures |population| == 0 ==> r == Err(EmptyPopulation) && calls == old(calls)
      ensures |population| > 0 ==>
        r == Ok((Pick(stream(old(calls)).first, population), Pick(stream(old(calls)).second, population)))
      ensures |population| > 0 ==> calls == old(calls) + 1
    {
      if |population| == 0 {
        return Err(EmptyPopulation);
      }
      var d := stream(calls);
      r := Ok((Pick(d.first, population), Pick(d.second, population)));
      calls := calls + 1;
    }
  }
}
