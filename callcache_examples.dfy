/** The documented usage scenarios, as clients of `Dispatcher`.

    Each scenario takes the clock readings as parameters and states, in its
    requires clause, only how far apart they are. A background update that a
    call requests is run by the client as a separate, later step on the entry
    that call returned. `runs` counts how often the caller's function ran.
 */
module CallCacheExamples {
  import opened CallCache

  const SECOND := 1_000_000_000
  const MINUTE := 60 * SECOND

  function Returning<V>(v: V): Reply<V> {
    Reply(Val(v), NoError)
  }

  /** 1 if the caller's function ran, else 0. */
  function Count(ran: bool): nat {
    if ran then 1 else 0
  }

  /** A first call returns the function's result with a nil error. */
  method ExampleDispatcher(now: int) returns (r: Reply<string>, ghost runs: nat)
    requires now > MINUTE
    ensures r == Reply(Val("example"), NoError) && runs == 1
  {
    var d := new Dispatcher<string>(MINUTE, 10 * SECOND);
    var action, entry;
    ghost var ran;
    r, action, entry, ran := d.Do("key", now, Returning("example"));
    runs := Count(ran);
  }

  /** With a one-nanosecond expiration and no interval, every later call recomputes: 1, 2, 3. */
  method ExampleExpiration(t1: int, t2: int, t3: int) returns (results: seq<Value<int>>, ghost runs: nat)
    requires t1 > 1 && t2 > t1 + 1 && t3 > t2 + 1
    ensures results == [Val(1), Val(2), Val(3)] && runs == 3
  {
    var d := new Dispatcher<int>(1, 0);
    var r1, a1, e1, ran1 := d.Do("key", t1, Returning(1));
    var r2, a2, e2, ran2 := d.Do("key", t2, Returning(2));
    var r3, a3, e3, ran3 := d.Do("key", t3, Returning(3));
    results := [r1.value, r2.value, r3.value];
    runs := Count(ran1) + Count(ran2) + Count(ran3);
  }

  /** With a one-nanosecond interval and a long expiration, each later call serves the
      previous value while its background update (run at `u2`, `u3`) stores the next: 1, 1, 2. */
  method ExampleUpdateInterval(t1: int, t2: int, u2: int, t3: int, u3: int)
    returns (results: seq<Value<int>>, ghost runs: nat)
    requires t1 > MINUTE
    requires t1 + 1 < t2 <= u2 && u2 + 1 < t3 <= u3 && t3 - u2 <= MINUTE && t2 - t1 <= MINUTE
    ensures results == [Val(1), Val(1), Val(2)] && runs == 3
  {
    var d := new Dispatcher<int>(MINUTE, 1);
    var r1, a1, e1, ran1 := d.Do("key", t1, Returning(1));
    runs := Count(ran1);

    var r2, a2, e2, ran2 := d.Do("key", t2, Returning(2));
    if a2 == Background {
      var _, ranLater := e2.Update(u2, Returning(2));
      runs := runs + Count(ranLater);
    }

    var r3, a3, e3, ran3 := d.Do("key", t3, Returning(3));
    if a3 == Background {
      var _, ranLater := e3.Update(u3, Returning(3));
      runs := runs + Count(ranLater);
    }
    results := [r1.value, r2.value, r3.value];
  }

  /** Calls in quick succession run the function once and all get its result: 1, 1, 1. */
  method ExampleMultiple(t1: int, t2: int, t3: int) returns (results: seq<Value<int>>, ghost runs: nat)
    requires t1 > MINUTE && t1 <= t2 <= t3 <= t1 + 10 * SECOND
    ensures results == [Val(1), Val(1), Val(1)] && runs == 1
  {
    var d := new Dispatcher<int>(MINUTE, 10 * SECOND);
    var r1, a1, e1, ran1 := d.Do("key", t1, Returning(1));
    var r2, a2, e2, ran2 := d.Do("key", t2, Returning(2));
    var r3, a3, e3, ran3 := d.Do("key", t3, Returning(3));
    results := [r1.value, r2.value, r3.value];
    runs := Count(ran1) + Count(ran2) + Count(ran3);
  }

  /** Distinct keys have independent entries: each first call runs its own function: 1, 2, 3. */
  method ExampleDifferentKeys(t1: int, t2: int, t3: int) returns (results: seq<Value<int>>, ghost runs: nat)
    requires t1 > MINUTE && t1 <= t2 <= t3
    ensures results == [Val(1), Val(2), Val(3)] && runs == 3
  {
    var d := new Dispatcher<int>(MINUTE, 10 * SECOND);
    var r1, a1, e1, ran1 := d.Do("key1", t1, Returning(1));
    var r2, a2, e2, ran2 := d.Do("key2", t2, Returning(2));
    var r3, a3, e3, ran3 := d.Do("key3", t3, Returning(3));
    results := [r1.value, r2.value, r3.value];
    runs := Count(ran1) + Count(ran2) + Count(ran3);
  }

  /** After `Remove`, the next call runs the function again however recent the old entry was: 1, 2. */
  method ExampleRemove(t1: int, t2: int) returns (results: seq<Value<int>>, ghost runs: nat)
    requires t1 > MINUTE && t1 <= t2
    ensures results == [Val(1), Val(2)] && runs == 2
  {
    var d := new Dispatcher<int>(MINUTE, 10 * SECOND);
    var r1, a1, e1, ran1 := d.Do("key", t1, Returning(1));
    d.Remove("key");
    var r2, a2, e2, ran2 := d.Do("key", t2, Returning(2));
    results := [r1.value, r2.value];
    runs := Count(ran1) + Count(ran2);
  }

  /** A background update requested before `Remove` runs later on the entry that `Remove`
      dropped: it stores its value there, and the key's new entry neither sees it nor
      disturbs it: 1, 1, 2, 2. */
  method ExampleOrphanedRefresh(t1: int, t1': int, t2: int, u: int, t3: int)
    returns (results: seq<Value<int>>, ghost runs: nat, ghost orphan: Entry<int>)
    requires t1 > MINUTE && t1 + 10 * SECOND < t1' <= t1 + MINUTE
    requires t1' <= t2 <= t3 <= t2 + 10 * SECOND && t1' <= u
    ensures results == [Val(1), Val(1), Val(2), Val(2)] && runs == 3
    ensures orphan == Entry(Val(3), u)
  {
    var d := new Dispatcher<int>(MINUTE, 10 * SECOND);
    var r1, a1, e1, ran1 := d.Do("key", t1, Returning(1));
    var r1', a1', e1', ran1' := d.Do("key", t1', Returning(3));
    d.Remove("key");
    var r2, a2, e2, ran2 := d.Do("key", t2, Returning(2));
    runs := Count(ran1) + Count(ran1') + Count(ran2);
    if a1' == Background {
      var _, ranLater := e1'.Update(u, Returning(3));
      runs := runs + Count(ranLater);
    }
    var r3, a3, e3, ran3 := d.Do("key", t3, Returning(4));
    results := [r1.value, r1'.value, r2.value, r3.value];
    runs := runs + Count(ran3);
    orphan := e1'.State();
  }
}
