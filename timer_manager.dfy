/**
 * `TimerManager` as the navigation bar uses it: a class whose `timers` map is updated
 * in place. `live` and `nextHandle` stand for the browser's timeout table
 * (`setTimeout`/`clearTimeout`); each method is proved against the value-level
 * registry of module TimerSpec, where its properties are stated.
 */
module Timers {
  import opened Wrappers
  import TimerSpec

  /** Removing two sets of handles one after the other removes their union. */
  lemma LiveMinus<S>(live: map<nat, S>, a: set<nat>, b: set<nat>)
    ensures live - a - b == live - (a + b)
  {
  }

  class TimerManager<Cb> {
    var timers: map<string, TimerSpec.Timer<Cb>>
    var live: map<nat, TimerSpec.Scheduled<Cb>>
    var nextHandle: nat

    /** The registry this object currently represents. */
    function Model(): TimerSpec.Registry<Cb>
      reads this
    {
      TimerSpec.Registry(timers, live, nextHandle)
    }

    constructor ()
      ensures Model() == TimerSpec.Empty() && TimerSpec.Inv(Model())
    {
      timers := map[];
      live := map[];
      nextHandle := 1;
    }

    method Create(name: string, callback: Cb, delay: int)
      modifies this
      ensures Model() == TimerSpec.Create(old(Model()), name, callback, delay)
    {
      timers := timers[name := TimerSpec.Timer(callback, delay, None)];
    }

    method Stop(name: string)
      modifies this
      ensures Model() == TimerSpec.Stop(old(Model()), name)
    {
      if name in timers {
        var timer := timers[name];
        if timer.timeout.Some? {
          live := live - {timer.timeout.value};
          timers := timers[name := timer.(timeout := None)];
        }
      }
    }

    /** `setTimeout`: a fresh handle enters the browser's table. */
    method SetTimeout(name: string, callback: Cb) returns (h: nat)
      modifies this
      ensures h == old(nextHandle) && nextHandle == h + 1
      ensures live == old(live)[h := TimerSpec.Scheduled(name, callback)] && timers == old(timers)
    {
      h := nextHandle;
      live := live[h := TimerSpec.Scheduled(name, callback)];
      nextHandle := nextHandle + 1;
    }

    method Start(name: string)
      modifies this
      ensures Model() == TimerSpec.Start(old(Model()), name)
    {
      if name in timers {
        Stop(name);
        var timer := timers[name];
        var h := SetTimeout(name, timer.callback);
        timers := timers[name := timer.(timeout := Some(h))];
      }
    }

    /** `stopAll`: `forEach` over the entries, stopping each one. */
    method StopAll()
      modifies this
      ensures Model() == TimerSpec.StopAll(old(Model()))
    {
      ghost var t0 := timers;
      var names := timers.Keys;
      while names != {}
        invariant names <= t0.Keys && timers.Keys == t0.Keys && nextHandle == old(nextHandle)
        invariant forall n :: n in timers ==>
          timers[n] == if n in names then t0[n] else t0[n].(timeout := None)
        invariant live == old(live) - TimerSpec.Handles(t0, t0.Keys - names)
        decreases names
      {
        var n :| n in names;
        ghost var before := live;
        Stop(n);
        TimerSpec.HandlesOne(t0, n);
        assert t0[n].(timeout := None) == if t0[n].timeout.Some? then timers[n] else t0[n];
        assert live == before - TimerSpec.Handles(t0, {n});
        assert t0.Keys - (names - {n}) == (t0.Keys - names) + {n};
        TimerSpec.HandlesAdd(t0, t0.Keys - names, n);
        LiveMinus(old(live), TimerSpec.Handles(t0, t0.Keys - names), TimerSpec.Handles(t0, {n}));
        names := names - {n};
      }
      assert t0.Keys - names == t0.Keys;
      assert timers == map n | n in t0 :: t0[n].(timeout := None);
    }

    method Destroy()
      modifies this
      ensures Model() == TimerSpec.Destroy(old(Model()))
    {
      StopAll();
      timers := map[];
    }

    /** The browser fires timeout `h`; `ran` is the callback it runs, if the timeout was still live. */
    method Fire(h: nat) returns (ran: Option<Cb>)
      modifies this
      ensures (Model(), ran) == TimerSpec.Fire(old(Model()), h)
    {
      if h in live {
        ran := Some(live[h].callback);
        live := live - {h};
      } else {
        ran := None;
      }
    }
  }
}
