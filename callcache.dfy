/** A per-key result cache with expiration and background refresh.

    The clock is an explicit `now` argument (nanoseconds), and the caller's
    function is an oracle: the `Reply` it would give if it were called. Every
    step reports, in a ghost flag, whether that function was consulted.
 */
module CallCache {

  /** An `interface{}` value: nil, or some value of the caller's type. */
  datatype Value<V> = Nil | Val(v: V)

  /** A Go `error`: nil, or a failure. */
  datatype Error = NoError | Failed(reason: string)

  /** What the caller's function returns, and what `Do` returns: a value and an error. */
  datatype Reply<V> = Reply(value: Value<V>, err: Error)

  /** The two durations every entry of a dispatcher shares, in nanoseconds. */
  datatype Config = Config(expiration: int, updateInterval: int)

  /** The cached part of an entry: the last stored result and when it was stored. */
  datatype Entry<V> = Entry(result: Value<V>, lastUpdate: int)

  /** What `do` decided: a synchronous update, a background update, or neither. */
  datatype Action = Sync | Background | Serve

  /** The result of one `update`: the new entry, the reply, and whether the function ran. */
  datatype UpdateResult<V> = UpdateResult(state: Entry<V>, reply: Reply<V>, invoked: bool)

  /** The result of one `do`: as for `update`, plus the action taken. */
  datatype DoResult<V> = DoResult(state: Entry<V>, reply: Reply<V>, action: Action, invoked: bool)

  /** An entry that has never been populated. */
  function Empty<V>(): Entry<V> {
    Entry(Nil, 0)
  }

  /** The double check inside `update`: the entry is young enough that no refresh is due. */
  predicate IsFresh(cfg: Config, elapsed: int) {
    elapsed < cfg.expiration && (cfg.updateInterval == 0 || elapsed < cfg.updateInterval)
  }

  /** The decision `do` takes from the time elapsed since the last update. */
  function Classify(cfg: Config, elapsed: int): Action {
    if elapsed > cfg.expiration then Sync
    else if cfg.updateInterval > 0 && elapsed > cfg.updateInterval then Background
    else Serve
  }

  /** One run of `update` at time `now` with the function answering `fn`. */
  function UpdateStep<V>(cfg: Config, s: Entry<V>, now: int, fn: Reply<V>): (u: UpdateResult<V>)
    // the function is skipped exactly when the entry is still fresh, and then nothing changes
    ensures !u.invoked <==> IsFresh(cfg, now - s.lastUpdate)
    ensures !u.invoked ==> u.state == s && u.reply == Reply(s.result, NoError)
    // when it runs, its reply is passed on as it is, value and error alike
    ensures u.invoked ==> u.reply == fn
    // only a success writes, and it writes the function's value stamped with `now`
    ensures u.state == s || (u.invoked && fn.err == NoError && u.state == Entry(fn.value, now))
    ensures u.invoked && fn.err == NoError ==> u.state == Entry(fn.value, now)
    // the stamp never moves backwards, nor beyond the clock
    ensures s.lastUpdate <= now ==> s.lastUpdate <= u.state.lastUpdate <= now
  {
    if IsFresh(cfg, now - s.lastUpdate) then
      UpdateResult(s, Reply(s.result, NoError), false)
    else if fn.err == NoError then
      UpdateResult(Entry(fn.value, now), fn, true)
    else
      UpdateResult(s, fn, true)
  }

  /** One run of `do` at time `now`; a background update is only requested, not run. */
  function DoStep<V>(cfg: Config, s: Entry<V>, now: int, fn: Reply<V>): (d: DoResult<V>)
    // expired (strictly older than the expiration): the function runs and its reply is returned
    ensures d.action == Sync <==> now - s.lastUpdate > cfg.expiration
    ensures d.action == Sync ==> d.invoked && d.reply == fn
    ensures d.action == Sync ==> d.state == (if fn.err == NoError then Entry(fn.value, now) else s)
    // a background update is requested iff the interval is set and exceeded, short of expiry
    ensures d.action == Background <==>
              now - s.lastUpdate <= cfg.expiration && cfg.updateInterval > 0 && now - s.lastUpdate > cfg.updateInterval
    // otherwise the cached value is served with a nil error and nothing runs or changes
    ensures d.action != Sync ==> !d.invoked && d.state == s && d.reply == Reply(s.result, NoError)
    ensures s.lastUpdate <= now ==> s.lastUpdate <= d.state.lastUpdate <= now
  {
    var elapsed := now - s.lastUpdate;
    match Classify(cfg, elapsed)
    case Sync =>
      var u := UpdateStep(cfg, s, now, fn);
      DoResult(u.state, u.reply, Sync, u.invoked)
    case Background => DoResult(s, Reply(s.result, NoError), Background, false)
    case Serve => DoResult(s, Reply(s.result, NoError), Serve, false)
  }

  /** A first call on a new entry runs the function and returns its reply, once the clock is past the expiration. */
  lemma FirstCallInvokes<V>(cfg: Config, now: int, fn: Reply<V>)
    requires now > cfg.expiration
    ensures DoStep(cfg, Empty(), now, fn).invoked
    ensures DoStep(cfg, Empty(), now, fn).reply == fn
  {
  }

  /** With an expiration reaching back past time zero, a first call returns nil at once without
      running the function; past a set interval it also requests a background update. */
  lemma FirstCallWithinExpirationServesNil<V>(cfg: Config, now: int, fn: Reply<V>)
    requires 0 <= now <= cfg.expiration
    ensures !DoStep(cfg, Empty(), now, fn).invoked
    ensures DoStep(cfg, Empty(), now, fn).reply == Reply(Nil, NoError)
    ensures DoStep(cfg, Empty(), now, fn).action ==
              (if cfg.updateInterval > 0 && now > cfg.updateInterval then Background else Serve)
    ensures DoStep(cfg, Empty(), now, fn).action == Background ==> UpdateStep(cfg, Empty(), now, fn).invoked
  {
  }

  /** A failed synchronous update stores nothing, so any later call is expired again and runs the function. */
  lemma FailedSyncStaysExpired<V>(cfg: Config, s: Entry<V>, now: int, fn: Reply<V>, later: int, fn': Reply<V>)
    requires DoStep(cfg, s, now, fn).action == Sync && fn.err != NoError
    requires now <= later
    ensures DoStep(cfg, s, now, fn).state == s
    ensures DoStep(cfg, s, later, fn').action == Sync && DoStep(cfg, s, later, fn').invoked
  {
  }

  /** After a successful update at `t`, an update that is due no earlier than `t` is skipped
      while the entry is fresh: the double check. */
  lemma RefreshAfterRefreshSkipped<V>(cfg: Config, s: Entry<V>, t: int, fn: Reply<V>, t': int, fn': Reply<V>)
    requires UpdateStep(cfg, s, t, fn).invoked && fn.err == NoError
    requires t <= t' && IsFresh(cfg, t' - t)
    ensures var s' := UpdateStep(cfg, s, t, fn).state;
            UpdateStep(cfg, s', t', fn') == UpdateResult(s', Reply(fn.value, NoError), false)
  {
  }

  // ---------------------------------------------------------------------------
  // Objects

  /** The state of one key: fixed durations, the cached result and its time stamp. */
  class Call<V> {
    const expiration: int
    const updateInterval: int
    var result: Value<V>
    var lastUpdate: int

    constructor (expiration: int, updateInterval: int)
      ensures this.expiration == expiration && this.updateInterval == updateInterval
      ensures State() == Empty()
    {
      this.expiration := expiration;
      this.updateInterval := updateInterval;
      result := Nil;
      lastUpdate := 0;
    }

    function Durations(): Config {
      Config(expiration, updateInterval)
    }

    function State(): Entry<V>
      reads this
    {
      Entry(result, lastUpdate)
    }

    /** Serves the cached result, or updates synchronously if it is expired; a due
        background update is returned as `Background` for the caller to run later. */
    method Do(now: int, fn: Reply<V>) returns (r: Reply<V>, action: Action, ghost invoked: bool)
      modifies this
      ensures var d := DoStep(Durations(), old(State()), now, fn);
              State() == d.state && r == d.reply && action == d.action && invoked == d.invoked
    {
      var v := result;
      var t := now - lastUpdate;
      if t > expiration {
        r, invoked := Update(now, fn);
        action := Sync;
        return;
      }
      if updateInterval > 0 && t > updateInterval {
        action := Background;
      } else {
        action := Serve;
      }
      r, invoked := Reply(v, NoError), false;
    }

    /** Runs the function unless the entry is still fresh; stores its value only on success. */
    method Update(now: int, fn: Reply<V>) returns (r: Reply<V>, ghost invoked: bool)
      modifies this
      ensures var u := UpdateStep(Durations(), old(State()), now, fn);
              State() == u.state && r == u.reply && invoked == u.invoked
    {
      var t := now - lastUpdate;
      if t < expiration && (updateInterval == 0 || t < updateInterval) {
        return Reply(result, NoError), false;
      }
      invoked := true;
      if fn.err == NoError {
        result := fn.value;
        lastUpdate := now;
      }
      r := fn;
    }
  }

  /** The registry: one `Call` per key, created on first use and dropped by `Remove`. */
  class Dispatcher<V> {
    const expiration: int
    const updateInterval: int
    var calls: map<string, Call<V>>
    ghost var Repr: set<object>

    /** Every entry lives in `Repr`, carries the dispatcher's durations, and no two keys share one. */
    ghost predicate Valid()
      reads this, Repr
    {
      this in Repr &&
      (forall k | k in calls ::
         calls[k] in Repr && calls[k].expiration == expiration && calls[k].updateInterval == updateInterval) &&
      (forall k, k' | k in calls && k' in calls && k != k' :: calls[k] != calls[k'])
    }

    /** The cached state of every key that has an entry. */
    ghost function Entries(): map<string, Entry<V>>
      reads this, Repr
      requires Valid()
    {
      map k | k in calls :: calls[k].State()
    }

    function Durations(): Config {
      Config(expiration, updateInterval)
    }

    constructor (expiration: int, updateInterval: int)
      ensures Valid() && fresh(Repr)
      ensures this.expiration == expiration && this.updateInterval == updateInterval
      ensures calls == map[] && Entries() == map[]
    {
      this.expiration := expiration;
      this.updateInterval := updateInterval;
      calls := map[];
      Repr := {this};
    }

    /** Creates the key's entry if it has none, then runs `Do` on it. The entry is
        returned so that a requested background update can be run on it later. */
    method Do(key: string, now: int, fn: Reply<V>) returns (r: Reply<V>, action: Action, entry: Call<V>, ghost invoked: bool)
      requires Valid()
      modifies this, if key in calls then {calls[key]} else {}
      ensures Valid() && fresh(Repr - old(Repr))
      ensures calls == old(calls)[key := entry]
      ensures key in old(calls) ==> entry == old(calls[key])
      ensures key !in old(calls) ==> fresh(entry)
      ensures var s := if key in old(calls) then old(Entries())[key] else Empty();
              var d := DoStep(Durations(), s, now, fn);
              r == d.reply && action == d.action && invoked == d.invoked &&
              Entries() == old(Entries())[key := d.state]
    {
      entry := EntryFor(key);
      r, action, invoked := Step(key, now, fn);
    }

    /** The unlocked part of `Do`: one `Call.Do` on the key's existing entry. */
    method Step(key: string, now: int, fn: Reply<V>) returns (r: Reply<V>, action: Action, ghost invoked: bool)
      requires Valid() && key in calls
      modifies calls[key]
      ensures Valid() && unchanged(this)
      ensures var d := DoStep(Durations(), old(Entries())[key], now, fn);
              r == d.reply && action == d.action && invoked == d.invoked &&
              Entries() == old(Entries())[key := d.state]
    {
      label before:
      r, action, invoked := calls[key].Do(now, fn);
      EntryStepped@before(key);
    }

    /** When only the entry of `key` has changed, the view changes at `key` alone. */
    twostate lemma EntryStepped(key: string)
      requires old(Valid()) && key in old(calls)
      requires unchanged(this)
      requires forall o: object | o in Repr && o != calls[key] :: unchanged(o)
      ensures Valid()
      ensures Entries() == old(Entries())[key := calls[key].State()]
    {
      forall k | k in calls && k != key ensures calls[k].State() == old(calls[k].State()) {
        assert calls[k] != calls[key] && calls[k] in Repr;
        assert unchanged(calls[k]);
      }
    }

    /** The locked part of `Do`: the key's entry, created empty if it has none. */
    method EntryFor(key: string) returns (entry: Call<V>)
      requires Valid()
      modifies this
      ensures Valid() && fresh(Repr - old(Repr))
      ensures calls == old(calls)[key := entry]
      ensures key in old(calls) ==> entry == old(calls[key])
      ensures key !in old(calls) ==> fresh(entry)
      ensures Entries() == old(Entries())[key := if key in old(calls) then old(Entries())[key] else Empty()]
    {
      if key !in calls {
        entry := new Call(expiration, updateInterval);
        calls := calls[key := entry];
        Repr := Repr + {entry};
      } else {
        entry := calls[key];
      }
    }

    /** Drops the key's entry; nothing happens if it has none. */
    method Remove(key: string)
      requires Valid()
      modifies this
      ensures Valid() && Repr == old(Repr)
      ensures calls == old(calls) - {key}
      ensures Entries() == old(Entries()) - {key}
    {
      calls := calls - {key};
    }
  }

  // ---------------------------------------------------------------------------
  // Sequences of steps on one entry

  /** A call of `do` at a time, or a background `update` that a call requested, run at a time. */
  datatype Event<V> = Invoke(now: int, fn: Reply<V>) | Refresh(now: int, fn: Reply<V>)

  /** The entry after a sequence of events, every reply in order, and how often the function ran. */
  datatype Trace<V> = Trace(state: Entry<V>, replies: seq<Reply<V>>, invocations: nat)

  function Apply<V>(cfg: Config, s: Entry<V>, e: Event<V>): UpdateResult<V> {
    match e
    case Invoke(now, fn) =>
      var d := DoStep(cfg, s, now, fn);
      UpdateResult(d.state, d.reply, d.invoked)
    case Refresh(now, fn) => UpdateStep(cfg, s, now, fn)
  }

  function Run<V>(cfg: Config, s: Entry<V>, events: seq<Event<V>>): (t: Trace<V>)
    // one reply per event, and the function runs at most once per event
    ensures |t.replies| == |events|
    ensures t.invocations <= |events|
    decreases |events|
  {
    if events == [] then Trace(s, [], 0)
    else
      var step := Apply(cfg, s, events[0]);
      var rest := Run(cfg, step.state, events[1..]);
      Trace(rest.state, [step.reply] + rest.replies, (if step.invoked then 1 else 0) + rest.invocations)
  }

  /** Events in non-decreasing time order, none earlier than `since`. */
  predicate Chronological<V>(since: int, events: seq<Event<V>>) {
    (forall i, j | 0 <= i < j < |events| :: events[i].now <= events[j].now) &&
    (|events| > 0 ==> since <= events[0].now)
  }

  /** Running two sequences one after the other is running their concatenation. */
  lemma {:induction false} RunSplit<V>(cfg: Config, s: Entry<V>, a: seq<Event<V>>, b: seq<Event<V>>)
    ensures var ra := Run(cfg, s, a);
            var rb := Run(cfg, ra.state, b);
            Run(cfg, s, a + b) == Trace(rb.state, ra.replies + rb.replies, ra.invocations + rb.invocations)
    decreases |a|
  {
    if a != [] {
      assert (a + b)[0] == a[0];
      assert (a + b)[1..] == a[1..] + b;
      RunSplit(cfg, Apply(cfg, s, a[0]).state, a[1..], b);
    } else {
      assert a + b == b;
    }
  }

  /** With a clock that never goes back, the stamp never goes back and never passes the clock. */
  lemma {:induction false} RunMonotone<V>(cfg: Config, s: Entry<V>, events: seq<Event<V>>)
    requires Chronological(s.lastUpdate, events)
    ensures s.lastUpdate <= Run(cfg, s, events).state.lastUpdate
    ensures |events| > 0 ==> Run(cfg, s, events).state.lastUpdate <= events[|events| - 1].now
    decreases |events|
  {
    if events != [] {
      var s1 := Apply(cfg, s, events[0]).state;
      assert s.lastUpdate <= s1.lastUpdate <= events[0].now;
      if |events| > 1 {
        assert events[0].now <= events[1].now;
      }
      RunMonotone(cfg, s1, events[1..]);
    }
  }

  /** A slice of a chronological sequence is chronological from any start no later than its first event. */
  lemma ChronologicalSlice<V>(since: int, events: seq<Event<V>>, i: nat, j: nat, since': int)
    requires Chronological(since, events) && i <= j <= |events|
    requires i < j ==> since' <= events[i].now
    ensures Chronological(since', events[i..j])
  {
    forall a, b | 0 <= a < b < j - i ensures events[i..j][a].now <= events[i..j][b].now {
      assert events[i..j][a] == events[i + a] && events[i..j][b] == events[i + b];
    }
  }

  /** Between any two points of a chronological sequence, `lastUpdate` does not decrease. */
  lemma LastUpdateNeverDecreases<V>(cfg: Config, s: Entry<V>, events: seq<Event<V>>, i: nat, j: nat)
    requires Chronological(s.lastUpdate, events)
    requires i <= j <= |events|
    ensures Run(cfg, s, events[..i]).state.lastUpdate <= Run(cfg, s, events[..j]).state.lastUpdate
  {
    var pre, post := events[..i], events[i..j];
    assert pre == events[0..i];
    ChronologicalSlice(s.lastUpdate, events, 0, i, s.lastUpdate);
    RunMonotone(cfg, s, pre);
    var mid := Run(cfg, s, pre).state;
    if 0 < i < j {
      assert pre[i - 1] == events[i - 1];
      assert events[i - 1].now <= events[i].now;
    }
    ChronologicalSlice(s.lastUpdate, events, i, j, mid.lastUpdate);
    RunMonotone(cfg, mid, post);
    assert events[..j] == pre + post;
    RunSplit(cfg, s, pre, post);
  }

  /** The cached entry is only ever what a successful run of the function wrote, with its time:
      either nothing was written, or some event ran the function, it succeeded, and its value
      and clock reading are what the entry holds. */
  lemma {:induction false} RunStoresOnlySuccesses<V>(cfg: Config, s: Entry<V>, events: seq<Event<V>>)
    ensures var t := Run(cfg, s, events);
            t.state == s ||
            exists i | 0 <= i < |events| ::
              Apply(cfg, Run(cfg, s, events[..i]).state, events[i]).invoked &&
              events[i].fn.err == NoError && t.state == Entry(events[i].fn.value, events[i].now)
    decreases |events|
  {
    if events != [] {
      var s1 := Apply(cfg, s, events[0]).state;
      var t := Run(cfg, s, events);
      RunStoresOnlySuccesses(cfg, s1, events[1..]);
      if t.state != s1 {
        var rest := events[1..];
        var i :| 0 <= i < |rest| &&
                 Apply(cfg, Run(cfg, s1, rest[..i]).state, rest[i]).invoked &&
                 rest[i].fn.err == NoError && t.state == Entry(rest[i].fn.value, rest[i].now);
        assert events[i + 1] == rest[i];
        assert events[..i + 1][0] == events[0] && events[..i + 1][1..] == rest[..i];
        assert Run(cfg, s, events[..i + 1]).state == Run(cfg, s1, rest[..i]).state;
      } else if s1 != s {
        assert events[..0] == [];
        assert Apply(cfg, s, events[0]).invoked;
        assert events[0].fn.err == NoError && s1 == Entry(events[0].fn.value, events[0].now);
      }
    }
  }

  /** Every event inside the freshness window of the entry serves the cached value without running the function. */
  lemma {:induction false} RunWithinWindow<V>(cfg: Config, s: Entry<V>, events: seq<Event<V>>)
    requires forall i | 0 <= i < |events| :: IsFresh(cfg, events[i].now - s.lastUpdate)
    ensures var t := Run(cfg, s, events);
            t.state == s && t.invocations == 0 &&
            forall i | 0 <= i < |events| :: t.replies[i] == Reply(s.result, NoError)
    decreases |events|
  {
    if events != [] {
      assert IsFresh(cfg, events[0].now - s.lastUpdate);
      assert Apply(cfg, s, events[0]) == UpdateResult(s, Reply(s.result, NoError), false);
      forall i | 0 <= i < |events[1..]| ensures IsFresh(cfg, events[1..][i].now - s.lastUpdate) {
        assert events[1..][i] == events[i + 1];
      }
      RunWithinWindow(cfg, s, events[1..]);
    }
  }

  /** Every call that `do` serves from the cache (neither expired nor past a set interval,
      bounds included) returns `(result, nil)`, runs nothing and changes nothing. */
  lemma {:induction false} RunServedCalls<V>(cfg: Config, s: Entry<V>, events: seq<Event<V>>)
    requires forall i | 0 <= i < |events| :: events[i].Invoke? && Classify(cfg, events[i].now - s.lastUpdate) == Serve
    ensures var t := Run(cfg, s, events);
            t.state == s && t.invocations == 0 &&
            forall i | 0 <= i < |events| :: t.replies[i] == Reply(s.result, NoError)
    decreases |events|
  {
    if events != [] {
      assert Apply(cfg, s, events[0]) == UpdateResult(s, Reply(s.result, NoError), false);
      forall i | 0 <= i < |events[1..]|
        ensures events[1..][i].Invoke? && Classify(cfg, events[1..][i].now - s.lastUpdate) == Serve
      {
        assert events[1..][i] == events[i + 1];
      }
      RunServedCalls(cfg, s, events[1..]);
    }
  }

  /** A new entry whose first call succeeds runs the function exactly once while the
      later calls stay inside the window, and every call gets the first reply. */
  lemma OneInvocationPerWindow<V>(cfg: Config, first: Reply<V>, t0: int, rest: seq<Event<V>>)
    requires t0 > cfg.expiration && first.err == NoError
    requires forall i | 0 <= i < |rest| :: IsFresh(cfg, rest[i].now - t0)
    ensures var t := Run(cfg, Empty(), [Invoke(t0, first)] + rest);
            t.invocations == 1 && t.state == Entry(first.value, t0) &&
            forall i | 0 <= i < |t.replies| :: t.replies[i] == first
  {
    var s1 := Entry(first.value, t0);
    assert Apply(cfg, Empty(), Invoke(t0, first)) == UpdateResult(s1, first, true);
    RunSplit(cfg, Empty(), [Invoke(t0, first)], rest);
    RunWithinWindow(cfg, s1, rest);
  }

  /** The same for calls only, with the window's bounds as `do` draws them: every later call
      that is neither expired nor past a set interval runs nothing and gets the first reply. */
  lemma OneInvocationPerServeWindow<V>(cfg: Config, first: Reply<V>, t0: int, rest: seq<Event<V>>)
    requires t0 > cfg.expiration && first.err == NoError
    requires forall i | 0 <= i < |rest| :: rest[i].Invoke? && Classify(cfg, rest[i].now - t0) == Serve
    ensures var t := Run(cfg, Empty(), [Invoke(t0, first)] + rest);
            t.invocations == 1 && t.state == Entry(first.value, t0) &&
            forall i | 0 <= i < |t.replies| :: t.replies[i] == first
  {
    var s1 := Entry(first.value, t0);
    assert Apply(cfg, Empty(), Invoke(t0, first)) == UpdateResult(s1, first, true);
    RunSplit(cfg, Empty(), [Invoke(t0, first)], rest);
    RunServedCalls(cfg, s1, rest);
  }
}
