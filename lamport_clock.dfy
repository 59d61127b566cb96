/** The orchestrator's Lamport logical clock (orchestrator/lamport_clock.py).
    Each method of the Python class runs under the clock's lock and is one atomic step here. */
module Lamport {

  function Max(a: int, b: int): (m: int)
    ensures m >= a && m >= b
    ensures m == a || m == b
  {
    if a >= b then a else b
  }

  class LamportClock {
    var time: int

    /** A fresh clock reads 0. */
    constructor ()
      ensures time == 0
    {
      time := 0;
    }

    /** Rule 1, for a local event: advance by one and return the new value. */
    method Increment() returns (t: int)
      modifies this
      ensures time == old(time) + 1
      ensures t == time
    {
      time := time + 1;
      t := time;
    }

    /** Rule 2, on receipt of a message stamped `receivedTime`: the new value is past both. */
    method Update(receivedTime: int) returns (t: int)
      modifies this
      ensures time == Max(old(time), receivedTime) + 1
      ensures t == time
      ensures t > old(time) && t > receivedTime
    {
      time := Max(time, receivedTime) + 1;
      t := time;
    }

    method GetTime() returns (t: int)
      ensures t == time
    {
      t := time;
    }

    /** Overwrite the clock. Nothing stops the new value from being below the old one. */
    method SetTime(newTime: int)
      modifies this
      ensures time == newTime
    {
      time := newTime;
    }
  }
}
