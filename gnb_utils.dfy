/**
 * `GnbUtils` of the navigation bar: the mobile breakpoint test and the `debounce` and
 * `throttle` wrappers. Time is an explicit integer in milliseconds: `Tick(now)` is the
 * step in which the clock reaches `now` and the browser runs every timeout due by then,
 * and a call at `now` happens after that step.
 */
module GnbUtils {
  import opened Wrappers

  /** `GNB_CONFIG.BREAKPOINTS.MOBILE`. */
  const MobileBreakpoint: int := 1024

  /** `getCurrentWidth`: the larger of `window.innerWidth` and the document's client width. */
  function CurrentWidth(innerWidth: int, clientWidth: int): int {
    if innerWidth < clientWidth then clientWidth else innerWidth
  }

  /** The breakpoint test used at start-up and after a resize: the view is mobile when both widths are at most 1024. */
  function IsMobileView(innerWidth: int, clientWidth: int): (mobile: bool)
    ensures mobile <==> innerWidth <= MobileBreakpoint && clientWidth <= MobileBreakpoint
  {
    CurrentWidth(innerWidth, clientWidth) <= MobileBreakpoint
  }

  // ------------------------------------------------------------------
  // debounce
  // ------------------------------------------------------------------

  /** The pending `later` of a debounced function: when it is due and the arguments it will pass. */
  datatype Due<A> = Due(at: int, args: A)

  /** A call clears the pending timeout and schedules a new one `wait` ms from now with the new arguments. */
  function DebounceCall<A>(wait: nat, now: int, args: A): Option<Due<A>> {
    Some(Due(now + wait, args))
  }

  /** The clock reaches `now`: a pending call that is due runs, with the arguments of the call that scheduled it. */
  function DebounceTick<A>(pending: Option<Due<A>>, now: int): (Option<Due<A>>, Option<A>) {
    if pending.Some? && pending.value.at <= now then (None, Some(pending.value.args))
    else (pending, None)
  }

  /**
   * A run of calls `(time, args)`: before each call the clock reaches its time. The
   * result is the final pending state and the arguments of every invocation, in order.
   */
  function DebounceRun<A>(pending: Option<Due<A>>, wait: nat, calls: seq<(int, A)>): (Option<Due<A>>, seq<A>)
    decreases |calls|
  {
    if calls == [] then (pending, [])
    else
      var fired := DebounceTick(pending, calls[0].0).1;
      var rest := DebounceRun(DebounceCall(wait, calls[0].0, calls[0].1), wait, calls[1..]);
      (rest.0, (if fired.Some? then [fired.value] else []) + rest.1)
  }

  /** Consecutive calls come less than `wait` apart, in time order. */
  ghost predicate Burst<A>(wait: nat, calls: seq<(int, A)>) {
    forall i :: 0 < i < |calls| ==> calls[i - 1].0 <= calls[i].0 < calls[i - 1].0 + wait
  }

  /**
   * A burst of calls, started when nothing is due, invokes nothing while it lasts; the
   * single pending invocation is due `wait` ms after the last call, with its arguments.
   */
  lemma {:induction false} DebounceBurstCoalesces<A>(pending: Option<Due<A>>, wait: nat, calls: seq<(int, A)>)
    requires calls != [] && Burst(wait, calls)
    requires pending.Some? ==> calls[0].0 < pending.value.at
    ensures DebounceRun(pending, wait, calls) == (Some(Due(calls[|calls| - 1].0 + wait, calls[|calls| - 1].1)), [])
    decreases |calls|
  {
    if |calls| > 1 {
      assert Burst(wait, calls[1..]) by {
        forall i | 0 < i < |calls[1..]| ensures calls[1..][i - 1].0 <= calls[1..][i].0 < calls[1..][i - 1].0 + wait {
          assert calls[1..][i - 1] == calls[i] && calls[1..][i] == calls[i + 1];
        }
      }
      assert calls[1].0 < calls[0].0 + wait;
      DebounceBurstCoalesces(DebounceCall(wait, calls[0].0, calls[0].1), wait, calls[1..]);
      assert calls[1..][|calls[1..]| - 1] == calls[|calls| - 1];
    } else {
      assert calls[1..] == [];
      assert DebounceRun(pending, wait, calls).1 == [];
    }
  }

  /** After the burst, the pending invocation runs exactly once, once the clock reaches its due time. */
  lemma DebounceFiresOnceAfterQuiet<A>(d: Due<A>, now: int, later: int)
    requires d.at <= now
    ensures DebounceTick(Some(d), now) == (None, Some(d.args))
    ensures DebounceTick(DebounceTick(Some(d), now).0, later).1 == None
  {
  }

  class Debouncer<A> {
    const wait: nat
    /** The pending `setTimeout(later, wait)`, if any. */
    var timeout: Option<Due<A>>

    constructor (wait: nat)
      ensures this.wait == wait && timeout == None
    {
      this.wait := wait;
      timeout := None;
    }

    /** `executedFunction(...args)`: `clearTimeout(timeout)`, then `timeout = setTimeout(later, wait)`. */
    method Call(now: int, args: A)
      modifies this
      ensures timeout == DebounceCall(wait, now, args)
    {
      timeout := Some(Due(now + wait, args));
    }

    /** The clock reaches `now`; `invoked` holds the arguments `func` runs with, if `later` was due. */
    method Tick(now: int) returns (invoked: Option<A>)
      modifies this
      ensures (timeout, invoked) == DebounceTick(old(timeout), now)
    {
      if timeout.Some? && timeout.value.at <= now {
        invoked := Some(timeout.value.args);
        timeout := None;
      } else {
        invoked := None;
      }
    }
  }

  // ------------------------------------------------------------------
  // throttle
  // ------------------------------------------------------------------

  /** Throttle state: `Some(t)` while `inThrottle` holds, `t` being when the reset timeout is due. */
  type ThrottleState = Option<int>

  /** A call runs the function only when not in throttle, and then sets `inThrottle` for `limit` ms. */
  function ThrottleCall(s: ThrottleState, limit: nat, now: int): (ThrottleState, bool) {
    if s.None? then (Some(now + limit), true) else (s, false)
  }

  /** The clock reaches `now`: the timeout resetting `inThrottle` runs if it is due. */
  function ThrottleTick(s: ThrottleState, now: int): ThrottleState {
    if s.Some? && s.value <= now then None else s
  }

  /** The times, among `times`, at which the throttled function actually runs. */
  function ThrottleRun(s: ThrottleState, limit: nat, times: seq<int>): seq<int>
    decreases |times|
  {
    if times == [] then []
    else
      var step := ThrottleCall(ThrottleTick(s, times[0]), limit, times[0]);
      (if step.1 then [times[0]] else []) + ThrottleRun(step.0, limit, times[1..])
  }

  ghost predicate Sorted(times: seq<int>) {
    forall i :: 0 < i < |times| ==> times[i - 1] <= times[i]
  }

  /**
   * Throttling: runs are at least `limit` ms apart, none happens before a pending
   * reset is due, each is one of the calls, and a first call with no throttle pending runs.
   */
  lemma {:induction false} ThrottleSpacing(s: ThrottleState, limit: nat, times: seq<int>)
    requires Sorted(times)
    ensures forall i :: 0 < i < |ThrottleRun(s, limit, times)| ==>
      ThrottleRun(s, limit, times)[i - 1] + limit <= ThrottleRun(s, limit, times)[i]
    ensures s.Some? ==> forall i :: 0 <= i < |ThrottleRun(s, limit, times)| ==> s.value <= ThrottleRun(s, limit, times)[i]
    ensures forall i :: 0 <= i < |ThrottleRun(s, limit, times)| ==> ThrottleRun(s, limit, times)[i] in times
    ensures times != [] && s.None? ==> ThrottleRun(s, limit, times) != [] && ThrottleRun(s, limit, times)[0] == times[0]
    decreases |times|
  {
    if times != [] {
      var step := ThrottleCall(ThrottleTick(s, times[0]), limit, times[0]);
      var s', ran := step.0, step.1;
      assert Sorted(times[1..]) by {
        forall i | 0 < i < |times[1..]| ensures times[1..][i - 1] <= times[1..][i] {
          assert times[1..][i - 1] == times[i];
        }
      }
      ThrottleSpacing(s', limit, times[1..]);
      var rest := ThrottleRun(s', limit, times[1..]);
      if ran {
        assert s' == Some(times[0] + limit);
      } else {
        assert s'.Some? && s == s' && times[0] < s.value;
      }
      forall i | 0 <= i < |rest| ensures rest[i] in times {
        assert rest[i] in times[1..];
      }
    }
  }

  /** The throttle state after the calls at `times`, step by step as `ThrottleRun` takes them. */
  function ThrottleAfter(s: ThrottleState, limit: nat, times: seq<int>): ThrottleState
    decreases |times|
  {
    if times == [] then s
    else ThrottleAfter(ThrottleCall(ThrottleTick(s, times[0]), limit, times[0]).0, limit, times[1..])
  }

  /** One more call: the earlier runs stay, and the new call is decided by the state they left. */
  lemma {:induction false} ThrottleRunSnoc(s: ThrottleState, limit: nat, a: seq<int>, t: int)
    ensures var step := ThrottleCall(ThrottleTick(ThrottleAfter(s, limit, a), t), limit, t);
      && ThrottleRun(s, limit, a + [t]) == ThrottleRun(s, limit, a) + (if step.1 then [t] else [])
      && ThrottleAfter(s, limit, a + [t]) == step.0
    decreases |a|
  {
    if a == [] {
      assert a + [t] == [t];
      assert [t][1..] == [];
    } else {
      var s' := ThrottleCall(ThrottleTick(s, a[0]), limit, a[0]).0;
      assert (a + [t])[0] == a[0];
      assert (a + [t])[1..] == a[1..] + [t];
      ThrottleRunSnoc(s', limit, a[1..], t);
    }
  }

  /**
   * After a run of calls the throttle is still in its initial state if nothing ran, and
   * otherwise in throttle until `limit` ms after the last run.
   */
  lemma {:induction false} ThrottleAfterShape(s: ThrottleState, limit: nat, a: seq<int>)
    ensures var r := ThrottleRun(s, limit, a);
      && (r == [] ==> ThrottleAfter(s, limit, a) == s)
      && (r != [] ==> ThrottleAfter(s, limit, a) == Some(r[|r| - 1] + limit))
    decreases |a|
  {
    if a != [] {
      var a', t := a[..|a| - 1], a[|a| - 1];
      assert a == a' + [t];
      ThrottleAfterShape(s, limit, a');
      ThrottleRunSnoc(s, limit, a', t);
      var r' := ThrottleRun(s, limit, a');
      var step := ThrottleCall(ThrottleTick(ThrottleAfter(s, limit, a'), t), limit, t);
      if step.1 {
        assert ThrottleRun(s, limit, a) == r' + [t];
        assert ThrottleAfter(s, limit, a) == Some(t + limit);
      } else {
        assert ThrottleRun(s, limit, a) == r';
        assert ThrottleAfter(s, limit, a) == ThrottleAfter(s, limit, a');
      }
    }
  }

  /**
   * Whether a call runs: after any run of calls, a call at `t` runs exactly when the window
   * has passed, that is when `t` is at least `limit` ms after the last run (or, when nothing
   * ran yet, when the initial throttle has been released by `t`). So a handler throttled
   * to 16 ms keeps running for calls spaced that far apart.
   */
  lemma ThrottleNextCall(s: ThrottleState, limit: nat, a: seq<int>, t: int)
    ensures var r := ThrottleRun(s, limit, a);
      var open := if r == [] then s.None? || s.value <= t else r[|r| - 1] + limit <= t;
      ThrottleRun(s, limit, a + [t]) == r + (if open then [t] else [])
  {
    ThrottleAfterShape(s, limit, a);
    ThrottleRunSnoc(s, limit, a, t);
  }

  class Throttler {
    const limit: nat
    var inThrottle: bool
    /** When the pending `setTimeout(() => inThrottle = false, limit)` is due. */
    var releaseAt: int

    function Model(): ThrottleState
      reads this
    {
      if inThrottle then Some(releaseAt) else None
    }

    constructor (limit: nat)
      ensures this.limit == limit && Model() == None
    {
      this.limit := limit;
      inThrottle := false;
      releaseAt := 0;
    }

    /** The throttled wrapper is called; `ran` tells whether `func` ran. */
    method Call(now: int) returns (ran: bool)
      modifies this
      ensures (Model(), ran) == ThrottleCall(old(Model()), limit, now)
    {
      ran := !inThrottle;
      if ran {
        inThrottle := true;
        releaseAt := now + limit;
      }
    }

    /** The clock reaches `now`; the reset timeout runs if due. */
    method Tick(now: int)
      modifies this
      ensures Model() == ThrottleTick(old(Model()), now)
    {
      if inThrottle && releaseAt <= now {
        inThrottle := false;
      }
    }
  }
}
