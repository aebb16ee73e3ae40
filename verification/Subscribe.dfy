/** The rendezvous channel of ui/stream/subscribe.js: one consumer, any number of producers. */
module Subscribe {
  /**
   * `waiter`: the consumer's promise is open (`res` and `rej` are set). `handed` is the value an
   * open promise was settled with, until the consumer resumes; `pending` is the queue.
   */
  class Subscribe<T> {
    var waiter: bool
    var handed: seq<T>
    var pending: seq<T>

    /** A promise is open only while there is nothing to take. */
    ghost predicate Valid()
      reads this
    {
      |handed| + (if waiter then 1 else 0) <= 1 && (waiter ==> pending == [])
    }

    /** What the consumer will get, in order. */
    ghost function Contents(): seq<T>
      reads this
    {
      handed + pending
    }

    constructor ()
      ensures Valid() && Contents() == [] && !waiter && handed == []
    {
      waiter, handed, pending := false, [], [];
    }

    /** `resolve` and `reject`: the value goes to the open promise, or to the end of the queue. */
    method Produce(d: T)
      requires Valid()
      modifies this
      ensures Valid() && Contents() == old(Contents()) + [d]
      ensures old(waiter) || old(handed) != [] <==> waiter || handed != []
    {
      if waiter {
        waiter, handed := false, [d];
      } else {
        pending := pending + [d];
      }
    }

    /** `subscribe`: the head of the queue at once, or an open promise. */
    method Subscribe()
      requires Valid() && !waiter && handed == []
      modifies this
      ensures Valid() && Contents() == old(Contents())
      ensures waiter <==> Contents() == []
      ensures waiter || handed != []
    {
      if |pending| > 0 {
        handed, pending := [pending[0]], pending[1..];
      } else {
        waiter := true;
      }
    }

    /** The consumer resumes with the value of its promise. */
    method Resume() returns (d: T)
      requires Valid() && handed != []
      modifies this
      ensures Valid() && !waiter && handed == []
      ensures old(Contents()) == [d] + Contents()
    {
      d := handed[0];
      handed := [];
    }
  }
}
