/** The bounded event queue (`daemon/queue.py`): first in, first out, dropping the newest when full. */
module EventQueue {
  import opened ControlModel

  type Events = seq<OfficialControlEvent>

  class DropNewestEventQueue {
    const capacity: nat
    var items: Events
    var droppedCount: nat

    constructor (capacity: nat)
      ensures this.capacity == capacity && items == [] && droppedCount == 0
    {
      this.capacity := capacity;
      items := [];
      droppedCount := 0;
    }

    method Enqueue(e: OfficialControlEvent) returns (accepted: bool)
      modifies this
      ensures accepted <==> |old(items)| < capacity
      ensures accepted ==> items == old(items) + [e] && droppedCount == old(droppedCount)
      ensures !accepted ==> items == old(items) && droppedCount == old(droppedCount) + 1
    {
      if |items| >= capacity {
        droppedCount := droppedCount + 1;
        return false;
      }
      items := items + [e];
      return true;
    }

    method Dequeue() returns (e: OfficialControlEvent)
      requires items != []
      modifies this`items
      ensures [e] + items == old(items)
    {
      e := items[0];
      items := items[1..];
    }

    /** `get_all_nowait` */
    method GetAllNowait() returns (all: Events)
      modifies this`items
      ensures all == old(items) && items == []
    {
      all := [];
      while items != []
        invariant all + items == old(items)
        decreases |items|
      {
        var e := Dequeue();
        all := all + [e];
      }
    }
  }
}
