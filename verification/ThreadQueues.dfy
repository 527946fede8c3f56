/** The queues between threads. Every operation runs under the queue's lock, so it is one step. */
module ThreadQueues {

  datatype Queue<T> = Queue(items: seq<T>, closed: bool) {
    function Push(x: T): Queue<T> {
      this.(items := items + [x])
    }

    function Close(): Queue<T> {
      this.(closed := true)
    }

    function Front(): T
      requires items != []
    {
      items[0]
    }

    function Rest(): Queue<T>
      requires items != []
    {
      this.(items := items[1..])
    }
  }

  /** The queue itself: its operations are those of its contents, and keep the order in which things came. */
  class ThreadQueue<T> {
    var items: seq<T>
    var closed: bool
    /** History: everything pushed, and everything popped. */
    ghost var pushed: seq<T>
    ghost var popped: seq<T>

    constructor ()
      ensures Valid() && Contents() == Queue([], false) && popped == []
    {
      items, closed, pushed, popped := [], false, [], [];
    }

    /** What has been pushed has been popped or is still there, in order. */
    ghost predicate Valid()
      reads this
    {
      pushed == popped + items
    }

    function Contents(): Queue<T>
      reads this
    {
      Queue(items, closed)
    }

    method Push(x: T)
      requires Valid()
      modifies this
      ensures Valid() && Contents() == old(Contents()).Push(x)
      ensures pushed == old(pushed) + [x] && popped == old(popped)
    {
      items, pushed := items + [x], pushed + [x];
    }

    method Close()
      requires Valid()
      modifies this
      ensures Valid() && Contents() == old(Contents()).Close()
      ensures pushed == old(pushed) && popped == old(popped)
    {
      closed := true;
    }

    /** What `pop` does once it is done waiting: there is an element, or there will be none. */
    method Pop() returns (out: seq<T>)
      requires Valid() && (items != [] || closed)
      modifies this
      ensures Valid() && pushed == old(pushed) && popped == old(popped) + out
      ensures if old(items) == [] then out == [] && Contents() == old(Contents())
        else out == [old(Contents()).Front()] && Contents() == old(Contents()).Rest()
    {
      out := TryPop();
    }

    /** `try_pop` does not wait. */
    method TryPop() returns (out: seq<T>)
      requires Valid()
      modifies this
      ensures Valid() && pushed == old(pushed) && popped == old(popped) + out
      ensures if old(items) == [] then out == [] && Contents() == old(Contents())
        else out == [old(Contents()).Front()] && Contents() == old(Contents()).Rest()
    {
      if items == [] {
        return [];
      }
      out := [items[0]];
      items, popped := items[1..], popped + out;
    }
  }
}
