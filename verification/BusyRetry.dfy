/**
 The busy handler that `Database#busy_handler_timeout=` installs (lib/sqlite3/database.rb). SQLite
 calls it with a count that starts at 0 whenever a lock is refused, and gives up on the first refusal.
 Clock readings and the timeout are in milliseconds.
 */
module BusyRetry {

  class TimeoutHandler {
    const timeout: real
    var deadline: real

    constructor (milliseconds: real)
      ensures timeout == milliseconds
    {
      timeout := milliseconds;
      deadline := 0.0;
    }

    /** The block of `busy_handler_timeout=`: anything but `false` asks SQLite to retry. The sleep that
        precedes a retry shows in the next clock reading. */
    method Call(count: nat, now: real) returns (retry: bool)
      modifies this
      ensures deadline == if count == 0 then now + timeout else old(deadline)
      ensures retry <==> count == 0 || now <= old(deadline)
    {
      if count == 0 {
        deadline := now + timeout;
      } else if now > deadline {
        return false;
      }
      return true;
    }

    /** One lock refusal: SQLite retries until the handler refuses, here for as many calls as the
        clock has readings. Returns the number of retries granted. */
    method Episode(times: seq<real>) returns (granted: nat)
      modifies this
      ensures granted == LongestGranted(times, timeout)
    {
      granted := 0;
      while granted < |times|
        invariant granted <= |times|
        invariant granted > 0 ==> deadline == times[0] + timeout
        invariant forall i :: 0 <= i < granted ==> InTime(times, timeout, i)
      {
        var retry := Call(granted, times[granted]);
        if !retry { break; }
        granted := granted + 1;
      }
      LongestGrantedIs(times, timeout, granted);
    }
  }

  /** The call with this count comes no later than the first call's time plus the timeout. */
  predicate InTime(times: seq<real>, timeout: real, count: nat)
    requires count < |times|
  {
    count == 0 || times[count] <= times[0] + timeout
  }

  /** Length of the longest prefix of calls that are all in time. */
  function LongestGranted(times: seq<real>, timeout: real): (n: nat)
    ensures n <= |times|
    ensures forall i :: 0 <= i < n ==> InTime(times, timeout, i)
    ensures n < |times| ==> !InTime(times, timeout, n)
  {
    GrantedFrom(times, timeout, 0)
  }

  function GrantedFrom(times: seq<real>, timeout: real, i: nat): (n: nat)
    requires i <= |times|
    ensures i <= n <= |times|
    ensures forall j :: i <= j < n ==> InTime(times, timeout, j)
    ensures n < |times| ==> !InTime(times, timeout, n)
    decreases |times| - i
  {
    if i < |times| && InTime(times, timeout, i) then GrantedFrom(times, timeout, i + 1) else i
  }

  lemma LongestGrantedIs(times: seq<real>, timeout: real, n: nat)
    requires n <= |times|
    requires forall i :: 0 <= i < n ==> InTime(times, timeout, i)
    requires n < |times| ==> !InTime(times, timeout, n)
    ensures LongestGranted(times, timeout) == n
  {
  }

  ghost predicate NonDecreasing(times: seq<real>) {
    forall i, j :: 0 <= i <= j < |times| ==> times[i] <= times[j]
  }

  /** From the second call on, a granted call sleeps a millisecond or more before SQLite calls again. */
  ghost predicate Sleeps(times: seq<real>) {
    forall i :: 0 < i < |times| - 1 ==> times[i + 1] >= times[i] + 1.0
  }

  lemma {:induction false} SleepsAddUp(times: seq<real>, i: nat)
    requires Sleeps(times) && 0 < i < |times|
    ensures times[i] >= times[1] + (i - 1) as real
  {
    if i > 1 {
      SleepsAddUp(times, i - 1);
      assert times[i - 1 + 1] >= times[i - 1] + 1.0;
    }
  }

  /** On a clock that never runs backwards the handler grants, besides the first call, exactly the
      calls that come within the timeout; and with sleeps of a millisecond at least, no more than the
      timeout in milliseconds plus two. */
  lemma RetriesBounded(times: seq<real>, milliseconds: nat, timeout: real)
    requires NonDecreasing(times) && timeout == milliseconds as real
    ensures forall i: nat :: i < |times| ==> (i < LongestGranted(times, timeout) <==> InTime(times, timeout, i))
    ensures Sleeps(times) ==> LongestGranted(times, timeout) <= milliseconds + 2
  {
    var last := milliseconds + 2;
    if Sleeps(times) && last < |times| {
      SleepsAddUp(times, last);
      assert times[0] <= times[1];
      assert !InTime(times, timeout, last);
    }
  }

  /** The bound is reached: sleeps of exactly a millisecond after a first refusal that takes no time. */
  lemma BoundIsReached(milliseconds: nat) returns (times: seq<real>)
    ensures NonDecreasing(times) && Sleeps(times)
    ensures LongestGranted(times, milliseconds as real) == milliseconds + 2 < |times|
  {
    times := seq(milliseconds + 3, i requires i >= 0 => if i == 0 then 0.0 else (i - 1) as real);
    var n := milliseconds + 2;
    assert times[n] == milliseconds as real + 1.0;
    LongestGrantedIs(times, milliseconds as real, n);
  }
}
