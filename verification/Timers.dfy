/** The timer service of src/kerchunk_timer.c: live timers by id, each with its callback and its delay. */
module Timers {
  datatype Timers<C> = Timers(armed: map<int, C>, delays: map<int, int>, nextId: int)

  /** Ids are handed out in order from 1, so none is reused. */
  ghost predicate Sound<C(!new)>(t: Timers<C>) {
    t.nextId >= 1 && forall id :: id in t.armed ==> 1 <= id < t.nextId
  }

  function Init<C>(): Timers<C> {
    Timers(map[], map[], 1)
  }

  /** Creating with no positive delay fails with -1; a free slot is assumed otherwise. */
  function Create<C>(t: Timers<C>, ms: int, callback: C): (r: (Timers<C>, int)) {
    if ms <= 0 then (t, -1)
    else (Timers(t.armed[t.nextId := callback], t.delays[t.nextId := ms], t.nextId + 1), t.nextId)
  }

  /** Cancelling an id that is not live does nothing. */
  function Cancel<C>(t: Timers<C>, id: int): Timers<C> {
    t.(armed := t.armed - {id}, delays := t.delays - {id})
  }

  /** The timer is live and was created with that delay. */
  predicate Runs<C>(t: Timers<C>, id: int, ms: int) {
    id in t.armed && id in t.delays && t.delays[id] == ms
  }
}
