/**
 * The named-timer registry of the navigation bar (`TimerManager`), stated on values.
 *
 * The registry maps a name to its callback, its delay and the handle of the last
 * `setTimeout` it scheduled. The browser's own table of scheduled timeouts is part of
 * the state (`live`): a handle stays there until it is cleared or until the browser
 * fires it, which `Fire` models as an explicit step. Handles come from a counter that
 * starts at 1, as browsers hand out positive ids, so the source's truthiness test on a
 * handle is a test for `Some`.
 */
module TimerSpec {
  import opened Wrappers

  /** One registry entry; `timeout` is `None` where the source holds `null`. */
  datatype Timer<Cb> = Timer(callback: Cb, delay: int, timeout: Option<nat>)

  /** A timeout the browser still holds: the registry name that scheduled it and what it runs. */
  datatype Scheduled<Cb> = Scheduled(name: string, callback: Cb)

  datatype Registry<Cb> = Registry(
    timers: map<string, Timer<Cb>>,
    live: map<nat, Scheduled<Cb>>,
    next: nat)

  /** A fresh `TimerManager`: no entries and no timeouts. */
  function Empty<Cb>(): Registry<Cb> {
    Registry(map[], map[], 1)
  }

  /** Handles are positive, already issued, and no two entries share one. */
  ghost predicate Valid<Cb>(r: Registry<Cb>) {
    && 0 < r.next
    && (forall n :: n in r.timers && r.timers[n].timeout.Some? ==> 0 < r.timers[n].timeout.value < r.next)
    && (forall h :: h in r.live ==> 0 < h < r.next)
    && (forall n, m :: n in r.timers && m in r.timers && n != m && r.timers[n].timeout.Some? ==>
          r.timers[m].timeout != r.timers[n].timeout)
  }

  /** Every live timeout is the current handle of the entry whose name scheduled it. */
  ghost predicate Tracked<Cb>(r: Registry<Cb>) {
    forall h :: h in r.live ==> r.live[h].name in r.timers && r.timers[r.live[h].name].timeout == Some(h)
  }

  ghost predicate Inv<Cb>(r: Registry<Cb>) {
    Valid(r) && Tracked(r)
  }

  /** The live timeouts that `name` scheduled. */
  ghost function LiveOf<Cb>(r: Registry<Cb>, name: string): set<nat> {
    set h | h in r.live && r.live[h].name == name
  }

  /** `create`: the entry under `name` is replaced; a timeout the old entry scheduled is not cleared. */
  function Create<Cb>(r: Registry<Cb>, name: string, callback: Cb, delay: int): Registry<Cb> {
    r.(timers := r.timers[name := Timer(callback, delay, None)])
  }

  /** `stop`: clear the entry's pending timeout, if it has one; unknown names are ignored. */
  function Stop<Cb>(r: Registry<Cb>, name: string): Registry<Cb> {
    if name in r.timers && r.timers[name].timeout.Some? then
      Registry(
        r.timers[name := r.timers[name].(timeout := None)],
        r.live - {r.timers[name].timeout.value},
        r.next)
    else
      r
  }

  /** `start`: stop the entry, then schedule its callback under a fresh handle; unknown names are ignored. */
  function Start<Cb>(r: Registry<Cb>, name: string): Registry<Cb> {
    if name !in r.timers then
      r
    else
      var s := Stop(r, name);
      var t := s.timers[name];
      Registry(
        s.timers[name := t.(timeout := Some(s.next))],
        s.live[s.next := Scheduled(name, t.callback)],
        s.next + 1)
  }

  /** The handles that the entries named in `names` hold. */
  function Handles<Cb>(timers: map<string, Timer<Cb>>, names: set<string>): set<nat> {
    set n | n in names && n in timers && timers[n].timeout.Some? :: timers[n].timeout.value
  }

  /** The handles of a set of names, one more name at a time. */
  lemma HandlesAdd<Cb>(timers: map<string, Timer<Cb>>, names: set<string>, n: string)
    ensures Handles(timers, names + {n}) == Handles(timers, names) + Handles(timers, {n})
  {
  }

  /** Stopping an entry removes from `live` exactly the handle it holds. */
  lemma HandlesOne<Cb>(timers: map<string, Timer<Cb>>, n: string)
    requires n in timers
    ensures Handles(timers, {n}) == if timers[n].timeout.Some? then {timers[n].timeout.value} else {}
  {
  }

  /** `stopAll`: every entry is stopped; the entries themselves stay. */
  function StopAll<Cb>(r: Registry<Cb>): Registry<Cb> {
    Registry(
      map n | n in r.timers :: r.timers[n].(timeout := None),
      r.live - Handles(r.timers, r.timers.Keys),
      r.next)
  }

  /** `destroy`: `stopAll`, then forget every entry. */
  function Destroy<Cb>(r: Registry<Cb>): Registry<Cb> {
    StopAll(r).(timers := map[])
  }

  /**
   * The browser fires timeout `h`: if it is still live it leaves the table and its
   * callback runs. The entry that scheduled it keeps the handle; nothing resets it.
   */
  function Fire<Cb>(r: Registry<Cb>, h: nat): (Registry<Cb>, Option<Cb>) {
    if h in r.live then (r.(live := r.live - {h}), Some(r.live[h].callback))
    else (r, None)
  }

  // ------------------------------------------------------------------
  // Properties
  // ------------------------------------------------------------------

  lemma EmptyInv<Cb>()
    ensures Inv(Empty<Cb>())
  {
  }

  /** `start` and `stop` on a name that was never created change nothing. */
  lemma UnknownNameIgnored<Cb>(r: Registry<Cb>, name: string)
    requires name !in r.timers
    ensures Start(r, name) == r && Stop(r, name) == r
  {
  }

  /** `stop` is idempotent. */
  lemma StopIdempotent<Cb>(r: Registry<Cb>, name: string)
    ensures Stop(Stop(r, name), name) == Stop(r, name)
  {
  }

  /**
   * `start` clears the entry's previous timeout before scheduling, so afterwards the
   * only live timeout of that name is the one just scheduled, and no other entry and
   * no other live timeout is touched.
   */
  lemma StartSchedulesOnlyNewTimeout<Cb>(r: Registry<Cb>, name: string)
    requires Inv(r) && name in r.timers
    ensures var r' := Start(r, name);
      && r'.timers[name].timeout == Some(r.next)
      && r'.timers[name].callback == r.timers[name].callback
      && r'.live[r.next] == Scheduled(name, r.timers[name].callback)
      && LiveOf(r', name) == {r.next}
      && (forall n :: n in r.timers && n != name ==> n in r'.timers && r'.timers[n] == r.timers[n])
      && (forall h :: h in r.live && r.live[h].name != name ==> h in r'.live && r'.live[h] == r.live[h])
      && r'.timers.Keys == r.timers.Keys
  {
  }

  lemma StopPreservesInv<Cb>(r: Registry<Cb>, name: string)
    requires Inv(r)
    ensures Inv(Stop(r, name))
  {
  }

  lemma StartPreservesInv<Cb>(r: Registry<Cb>, name: string)
    requires Inv(r)
    ensures Inv(Start(r, name))
  {
    if name in r.timers {
      var s := Stop(r, name);
      StopPreservesInv(r, name);
      var r' := Start(r, name);
      forall n, m | n in r'.timers && m in r'.timers && n != m && r'.timers[n].timeout.Some?
        ensures r'.timers[m].timeout != r'.timers[n].timeout
      {
        if n != name && m != name {
          assert r'.timers[n] == s.timers[n] && r'.timers[m] == s.timers[m];
        }
      }
    }
  }

  /** Firing keeps the invariant: the entry keeps its handle, which is simply no longer live. */
  lemma FirePreservesInv<Cb>(r: Registry<Cb>, h: nat)
    requires Inv(r)
    ensures Inv(Fire(r, h).0) && Fire(r, h).0.timers == r.timers
    ensures Fire(r, h).1.Some? <==> h in r.live
  {
  }

  /** Creating a name that is not registered, or whose entry has no live timeout, keeps the invariant. */
  lemma CreatePreservesInv<Cb>(r: Registry<Cb>, name: string, callback: Cb, delay: int)
    requires Inv(r)
    requires name in r.timers ==> LiveOf(r, name) == {}
    ensures Inv(Create(r, name, callback, delay))
  {
    var r' := Create(r, name, callback, delay);
    forall h | h in r'.live
      ensures r'.live[h].name in r'.timers && r'.timers[r'.live[h].name].timeout == Some(h)
    {
      assert h in LiveOf(r, r.live[h].name);
    }
  }

  /** A name never has two live timeouts while the invariant holds. */
  lemma AtMostOneLivePerName<Cb>(r: Registry<Cb>, h1: nat, h2: nat)
    requires Tracked(r)
    requires h1 in r.live && h2 in r.live && r.live[h1].name == r.live[h2].name
    ensures h1 == h2
  {
  }

  /**
   * Calling `start` twice leaves exactly one live timeout for that name, the one of
   * the second call: the first can no longer fire.
   */
  lemma {:induction false} DoubleStartFiresOnce<Cb>(r: Registry<Cb>, name: string)
    requires Inv(r) && name in r.timers
    ensures var r1 := Start(r, name);
      var r2 := Start(r1, name);
      && LiveOf(r2, name) == {r1.next}
      && Fire(r2, r.next).1 == None
      && Fire(r2, r1.next).1 == Some(r.timers[name].callback)
  {
    var r1 := Start(r, name);
    StartSchedulesOnlyNewTimeout(r, name);
    StartPreservesInv(r, name);
    StartSchedulesOnlyNewTimeout(r1, name);
    assert r.next !in LiveOf(Start(r1, name), name);
  }

  /**
   * Hover intent: a `start` followed by a `stop` before the timeout fires leaves the
   * browser's table as a lone `stop` would.
   */
  lemma StartThenStopCancels<Cb>(r: Registry<Cb>, name: string)
    requires Inv(r)
    ensures Stop(Start(r, name), name).live == Stop(r, name).live
    ensures Stop(Start(r, name), name).timers == Stop(r, name).timers
  {
    if name in r.timers {
      var s := Stop(r, name);
      assert r.next !in s.live;
      assert s.live[s.next := Scheduled(name, s.timers[name].callback)] - {s.next} == s.live;
    }
  }

  lemma HandlesOfAll<Cb>(r: Registry<Cb>, h: nat)
    requires Tracked(r) && h in r.live
    ensures h in Handles(r.timers, r.timers.Keys)
  {
    var n := r.live[h].name;
    assert r.timers[n].timeout == Some(h);
  }

  /**
   * `stopAll` keeps every registered name, leaves none of them with a handle, and
   * clears every live timeout of the registry.
   */
  lemma StopAllClears<Cb>(r: Registry<Cb>)
    requires Inv(r)
    ensures var r' := StopAll(r);
      && r'.timers.Keys == r.timers.Keys
      && (forall n :: n in r'.timers ==> r'.timers[n].timeout == None && r'.timers[n].callback == r.timers[n].callback)
      && r'.live == map[]
      && Inv(r')
  {
    var r' := StopAll(r);
    forall h | h in r.live ensures h !in r'.live {
      HandlesOfAll(r, h);
    }
  }

  /** `destroy` stops everything and empties the registry. */
  lemma DestroyEmpties<Cb>(r: Registry<Cb>)
    requires Inv(r)
    ensures Destroy(r).timers == map[] && Destroy(r).live == map[] && Inv(Destroy(r))
  {
    StopAllClears(r);
  }

  /**
   * `create` over a name whose timeout is still pending does not clear that timeout:
   * after a `start` the name has two live timeouts, and both callbacks will run.
   */
  lemma CreateOverPendingLeaksTimeout<Cb>(r: Registry<Cb>, name: string, callback: Cb, delay: int, h: nat)
    requires Inv(r) && name in r.timers && r.timers[name].timeout == Some(h) && h in r.live
    ensures var r' := Start(Create(r, name, callback, delay), name);
      && h in LiveOf(r', name) && r.next in LiveOf(r', name) && h != r.next
  {
  }
}
