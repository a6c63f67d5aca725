/** The `debounce` helper of pages/content/lib/util.ts: the function it
    returns keeps one `handler` slot; each call cancels the timer in the
    slot, if any, and schedules `cb` with this call's arguments after
    `wait` milliseconds. The browser's timer table is modelled as a map
    from handles to the timers still pending. */
module Debounce {
  import opened Seqs

  /** The default delay, in milliseconds. */
  const DefaultWait: nat := 100

  /** A pending `setTimeout(() => cb(...args), wait)`. */
  datatype Timer<A> = Timer(args: A, delay: nat)

  class Debouncer<A> {
    /** The delay every timer is scheduled with. */
    const wait: nat
    /** The closure's `handler`: the last handle `setTimeout` returned,
        or null before the first call. Never reset after a timer fires. */
    var handler: Option<nat>
    /** The timers of this debouncer that have not fired or been
        cleared, by handle. */
    var pending: map<nat, Timer<A>>
    /** The handle `setTimeout` returns next; browsers hand out positive
        handles, so a set `handler` is always truthy. */
    var nextHandle: nat

    /** At most one timer is pending, and it is the one in the slot. */
    predicate Valid()
      reads this
    {
      && 1 <= nextHandle
      && (handler.None? ==> pending == map[])
      && (handler.Some? ==> 1 <= handler.value < nextHandle && pending.Keys <= {handler.value})
      && (forall h :: h in pending ==> pending[h].delay == wait)
    }

    /** `debounce(cb, wait)`: an omitted `wait` is 100. */
    constructor (wait: Option<nat>)
      ensures Valid()
      ensures this.wait == if wait.Some? then wait.value else DefaultWait
      ensures handler.None? && pending == map[]
    {
      this.wait := if wait.Some? then wait.value else DefaultWait;
      handler := None;
      pending := map[];
      nextHandle := 1;
    }

    /** `callable(...args)`: clears the timer in the slot, then schedules
        a new one with these arguments and keeps its handle. */
    method Call(args: A) returns (h: nat)
      requires Valid()
      modifies this
      ensures Valid()
      ensures h == old(nextHandle) && h !in old(pending)
      ensures handler == Some(h)
      ensures pending == map[h := Timer(args, wait)]
    {
      if handler.Some? {
        pending := pending - {handler.value};
      }
      h := nextHandle;
      nextHandle := nextHandle + 1;
      pending := pending[h := Timer(args, wait)];
      handler := Some(h);
    }

    /** A pending timer fires: `cb` runs with the arguments of the call
        that scheduled it. The slot keeps the spent handle. */
    method Fire(h: nat) returns (args: A)
      requires Valid() && h in pending
      modifies this
      ensures Valid()
      ensures args == old(pending)[h].args
      ensures old(handler) == Some(h)
      ensures pending == map[] && handler == old(handler)
    {
      args := pending[h].args;
      pending := pending - {h};
    }
  }

  /** A burst of calls with no timer firing in between, then the one
      pending timer fires: `cb` runs once, with the last call's
      arguments, after the configured delay. */
  method Burst<A>(wait: Option<nat>, calls: seq<A>) returns (delivered: Option<A>, delay: nat)
    ensures delivered.Some? <==> calls != []
    ensures calls != [] ==> delivered.value == calls[|calls| - 1]
    ensures delay == if wait.Some? then wait.value else DefaultWait
  {
    var d := new Debouncer<A>(wait);
    delay := d.wait;
    var i := 0;
    while i < |calls|
      invariant i <= |calls| && d.Valid()
      invariant d.wait == delay
      invariant i == 0 ==> d.pending == map[]
      invariant i > 0 ==> d.handler.Some? && d.pending == map[d.handler.value := Timer(calls[i - 1], delay)]
    {
      var _ := d.Call(calls[i]);
      i := i + 1;
    }
    if d.handler.Some? && d.handler.value in d.pending {
      var args := d.Fire(d.handler.value);
      delivered := Some(args);
    } else {
      delivered := None;
    }
  }

  /** After the pending timer has fired the slot still holds its handle,
      so the next call clears a timer that is gone, which changes nothing,
      and schedules the new one: exactly one timer is pending again, with
      the second call's arguments and the default delay. */
  method FireThenCall<A>(first: A, second: A) returns (out: A, h2: nat, spent: nat, d: Debouncer<A>)
    ensures out == first
    ensures spent != h2 && spent !in d.pending
    ensures d.handler == Some(h2)
    ensures d.pending == map[h2 := Timer(second, DefaultWait)]
  {
    d := new Debouncer<A>(None);
    var h1 := d.Call(first);
    out := d.Fire(h1);
    spent := d.handler.value;
    h2 := d.Call(second);
  }
}
