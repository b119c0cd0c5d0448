/** The two pieces the three threads share: unbounded FIFO queues and the stop flag. */
module Pipeline {
  import opened Wrappers

  /** An unbounded FIFO queue (`queue.Queue`), read with the non-blocking `get(False)`. */
  class Fifo<T> {
    var items: seq<T>

    constructor ()
      ensures items == []
    {
      items := [];
    }

    method Put(x: T)
      modifies this
      ensures items == old(items) + [x]
    {
      items := items + [x];
    }

    /** `get(False)`: the oldest item, or `None` where the source raises queue.Empty. */
    method Get() returns (r: Option<T>)
      modifies this
      ensures old(items) == [] ==> r == None && items == []
      ensures old(items) != [] ==> r == Some(old(items)[0]) && items == old(items)[1..]
    {
      if items == [] {
        return None;
      }
      r := Some(items[0]);
      items := items[1..];
    }
  }

  /** The `threading.Event` every stage polls; it is set and never cleared. */
  class StopSignal {
    var isSet: bool

    constructor ()
      ensures !isSet
    {
      isSet := false;
    }

    method Set()
      modifies this
      ensures isSet
    {
      isSet := true;
    }
  }
}
