/**
 * The frame time of the engine (src/Timestep.h): stored in milliseconds;
 * its implicit conversion to `float` gives the milliseconds.
 */
module Timesteps {

  datatype Timestep = Timestep(timeMs: real)

  /** `getSeconds`: the time in seconds. */
  function Seconds(t: Timestep): (s: real)
    ensures s * 1000.0 == t.timeMs
  {
    t.timeMs / 1000.0
  }

  /** `getMilliseconds`: the time in milliseconds. */
  function Milliseconds(t: Timestep): (ms: real)
    ensures ms == 1000.0 * Seconds(t)
  {
    t.timeMs
  }

  /** `operator float`: the milliseconds, a thousand times the seconds. */
  function AsFloat(t: Timestep): (f: real)
    ensures f == Milliseconds(t) && f == 1000.0 * Seconds(t)
  {
    t.timeMs
  }

  /** Milliseconds and seconds describe the same time: converting back recovers the stored value. */
  lemma UnitsRoundTrip(ms: real)
    ensures Timestep(Seconds(Timestep(ms)) * 1000.0) == Timestep(ms)
    ensures Timestep(Milliseconds(Timestep(ms))) == Timestep(ms)
  {
  }
}

/**
 * The frame time of the atom viewer (PBRApp/src/Core/Timestep.h): stored in
 * milliseconds; its implicit conversion to `float` gives the seconds.
 */
module CoreTimesteps {

  datatype Timestep = Timestep(timeMs: real)

  /** `GetSeconds`: the time in seconds. */
  function Seconds(t: Timestep): (s: real)
    ensures s * 1000.0 == t.timeMs
  {
    t.timeMs / 1000.0
  }

  /** `GetMilliseconds`: the time in milliseconds. */
  function Milliseconds(t: Timestep): (ms: real)
    ensures ms == 1000.0 * Seconds(t)
  {
    t.timeMs
  }

  /** `operator float`: the seconds, the same as `GetSeconds`. */
  function AsFloat(t: Timestep): (f: real)
    ensures f == Seconds(t) && 1000.0 * f == Milliseconds(t)
  {
    t.timeMs / 1000.0
  }

}
