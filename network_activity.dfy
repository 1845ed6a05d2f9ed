/** The pending-request counter behind the global loading overlay: a count of
    requests in flight, a set of subscribed listeners that are told every new
    count, and for each request a finish callback that may run only once. */
module NetworkActivity {

  /** A listener function, identified by an opaque number. */
  type Listener = nat

  /** One call `listener(count)`. */
  datatype Delivery = Delivery(listener: Listener, count: int)

  /** The calls `notify` makes, in the iteration order of the listener set. */
  function Deliveries(listeners: seq<Listener>, count: int): (r: seq<Delivery>)
    ensures |r| == |listeners|
    ensures forall k :: 0 <= k < |r| ==> r[k] == Delivery(listeners[k], count)
  {
    seq(|listeners|, k requires 0 <= k < |listeners| => Delivery(listeners[k], count))
  }

  /** `s` with every occurrence of `x` removed. */
  function Without(s: seq<Listener>, x: Listener): (r: seq<Listener>)
    ensures x !in r
    ensures forall y :: y != x ==> (y in r <==> y in s)
    ensures |r| <= |s|
  {
    if s == [] then []
    else (if s[0] == x then [] else [s[0]]) + Without(s[1..], x)
  }

  predicate NoDuplicates(s: seq<Listener>) {
    forall i, j :: 0 <= i < j < |s| ==> s[i] != s[j]
  }

  /** Removing a listener keeps the others distinct. */
  lemma {:induction false} WithoutNoDuplicates(s: seq<Listener>, x: Listener)
    requires NoDuplicates(s)
    ensures NoDuplicates(Without(s, x))
  {
    if s != [] {
      assert NoDuplicates(s[1..]) by {
        forall i, j | 0 <= i < j < |s| - 1 ensures s[1..][i] != s[1..][j] {
          assert s[1..][i] == s[i + 1] && s[1..][j] == s[j + 1];
        }
      }
      WithoutNoDuplicates(s[1..], x);
      var rest := Without(s[1..], x);
      assert s[0] !in s[1..] by {
        forall j | 0 <= j < |s| - 1 ensures s[1..][j] != s[0] {
          assert s[1..][j] == s[j + 1];
        }
      }
      assert s[0] !in rest;
    }
  }

  /** The counter after one `finish`: one less, but never below zero. */
  function Decremented(count: int): (r: int)
    ensures r >= 0
    ensures count >= 1 ==> r == count - 1
    ensures count <= 0 ==> r == 0
  {
    if 0 > count - 1 then 0 else count - 1
  }

  /** The count after `n` requests begin and then `n` of them finish. */
  function BeginThenFinish(count: int, n: nat): int {
    Finishes(count + n, n)
  }

  function Finishes(count: int, n: nat): int
    decreases n
  {
    if n == 0 then count else Finishes(Decremented(count), n - 1)
  }

  /** Requests that each finish once bring a non-negative count back to
      where it started, however many were in flight at once. */
  lemma {:induction false} BeginThenFinishRestores(count: int, n: nat)
    requires count >= 0
    ensures BeginThenFinish(count, n) == count
  {
    FinishesFrom(count, n);
  }

  lemma {:induction false} FinishesFrom(count: int, n: nat)
    requires count >= 0
    ensures Finishes(count + n, n) == count
  {
    if n > 0 {
      assert Decremented(count + n) == count + (n - 1);
      FinishesFrom(count, n - 1);
    }
  }

  /** The module-level state of `networkActivity`. */
  class Activity {
    var pendingCount: int
    /** The listener set, in insertion order (the iteration order of a JS `Set`). */
    var listeners: seq<Listener>
    /** Every listener call made so far, oldest first. */
    var delivered: seq<Delivery>

    ghost predicate Valid()
      reads this
    {
      pendingCount >= 0 && NoDuplicates(listeners)
    }

    constructor ()
      ensures Valid()
      ensures pendingCount == 0 && listeners == [] && delivered == []
    {
      pendingCount := 0;
      listeners := [];
      delivered := [];
    }

    /** `notify`: tells every listener the current count. */
    method Notify()
      modifies this
      ensures delivered == old(delivered) + Deliveries(listeners, pendingCount)
      ensures pendingCount == old(pendingCount) && listeners == old(listeners)
    {
      var i := 0;
      while i < |listeners|
        invariant 0 <= i <= |listeners|
        invariant pendingCount == old(pendingCount) && listeners == old(listeners)
        invariant delivered == old(delivered) + Deliveries(listeners[..i], pendingCount)
      {
        assert listeners[..i + 1] == listeners[..i] + [listeners[i]];
        delivered := delivered + [Delivery(listeners[i], pendingCount)];
        i := i + 1;
      }
      assert listeners[..i] == listeners;
    }

    /** `getPendingCount`: reads the counter and changes nothing. */
    method GetPendingCount() returns (n: int)
      requires Valid()
      ensures n == pendingCount && n >= 0
    {
      n := pendingCount;
    }

    /** `beginRequest`: one more request in flight, every listener told, and
        a fresh finish callback returned. */
    method BeginRequest() returns (finish: Finish)
      requires Valid()
      modifies this
      ensures Valid()
      ensures pendingCount == old(pendingCount) + 1
      ensures listeners == old(listeners)
      ensures delivered == old(delivered) + Deliveries(listeners, pendingCount)
      ensures fresh(finish) && !finish.done && finish.activity == this
    {
      pendingCount := pendingCount + 1;
      Notify();
      finish := new Finish(this);
    }

    /** `subscribe`: adds the listener (a no-op for the set when it is
        already there) and calls it once with the current count. */
    method Subscribe(listener: Listener)
      requires Valid()
      modifies this
      ensures Valid()
      ensures listener in listeners
      ensures listeners == if listener in old(listeners) then old(listeners) else old(listeners) + [listener]
      ensures pendingCount == old(pendingCount)
      ensures delivered == old(delivered) + [Delivery(listener, pendingCount)]
    {
      if listener !in listeners {
        listeners := listeners + [listener];
      }
      delivered := delivered + [Delivery(listener, pendingCount)];
    }

    /** The callback `subscribe` returns: removes only that listener. */
    method Unsubscribe(listener: Listener)
      requires Valid()
      modifies this
      ensures Valid()
      ensures listeners == Without(old(listeners), listener)
      ensures listener !in listeners
      ensures forall other :: other != listener ==> (other in listeners <==> other in old(listeners))
      ensures pendingCount == old(pendingCount) && delivered == old(delivered)
    {
      WithoutNoDuplicates(listeners, listener);
      listeners := Without(listeners, listener);
    }

    /** `trackedFetch` in the browser: the request is begun, the fetch (not
        modelled) runs, and the finish callback runs in `finally`. */
    method TrackedFetch()
      requires Valid()
      modifies this
      ensures Valid()
      ensures pendingCount == old(pendingCount) && listeners == old(listeners)
      ensures delivered == old(delivered)
                           + Deliveries(listeners, old(pendingCount) + 1)
                           + Deliveries(listeners, old(pendingCount))
    {
      var finish := BeginRequest();
      finish.Run();
    }
  }

  /** The finish callback of one request and its `done` flag. */
  class Finish {
    var done: bool
    const activity: Activity

    constructor (activity: Activity)
      ensures !done && this.activity == activity
    {
      done := false;
      this.activity := activity;
    }

    /** The first call lowers the count (never below zero) and tells every
        listener; any later call changes nothing. */
    method Run()
      requires activity.Valid()
      modifies this, activity
      ensures activity.Valid()
      ensures done
      ensures activity.listeners == old(activity.listeners)
      ensures old(done) ==>
        activity.pendingCount == old(activity.pendingCount) && activity.delivered == old(activity.delivered)
      ensures !old(done) ==> activity.pendingCount == Decremented(old(activity.pendingCount))
      ensures !old(done) ==>
        activity.delivered == old(activity.delivered) + Deliveries(activity.listeners, activity.pendingCount)
    {
      if done {
        return;
      }
      done := true;
      activity.pendingCount := Decremented(activity.pendingCount);
      activity.Notify();
    }
  }
}
