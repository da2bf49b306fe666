/** The deduplicating work queue of pkg/workqueue/workqueue.go.

    `State` is the queue's abstract value, the functions on it say what each critical
    section does, and the class `Queue` is the mutable object itself.  Blocking is not
    in this module: `Get` is the part of the Go method that runs once it no longer
    waits (see module Consumers for the waiting).
  */
module WorkQueue {

  datatype State<T(==)> = State(added: set<T>, processing: set<T>, closed: bool, queue: seq<T>)

  /** What Get returns: an item, or `(nil, quit)`. */
  datatype Got<T> = Item(item: T) | Nothing(quit: bool)

  function Empty<T>(): State<T> {
    State({}, {}, false, [])
  }

  function Added<T>(s: State<T>, x: T): State<T> {
    if s.closed || x in s.added then s
    else if x in s.processing then s.(added := s.added + {x})
    else s.(added := s.added + {x}, queue := s.queue + [x])
  }

  /** Drops the leading entries that were removed after they had been queued. */
  function DropStale<T>(s: State<T>): (r: State<T>)
    ensures r == s.(queue := r.queue)
    ensures r.queue != [] ==> r.queue[0] in s.added
    decreases |s.queue|
  {
    if s.queue != [] && s.queue[0] !in s.added then DropStale(s.(queue := s.queue[1..])) else s
  }

  /** What is dropped is a prefix without a single pending item. */
  lemma {:induction false} DropsOnlyStale<T>(s: State<T>)
    ensures var r, k := DropStale(s), |s.queue| - |DropStale(s).queue|;
            && 0 <= k <= |s.queue| && r.queue == s.queue[k..]
            && forall i :: 0 <= i < k ==> s.queue[i] !in s.added
    decreases |s.queue|
  {
    if s.queue != [] && s.queue[0] !in s.added {
      var u := s.(queue := s.queue[1..]);
      DropsOnlyStale(u);
      var k := |u.queue| - |DropStale(u).queue|;
      assert u.queue[k..] == s.queue[k + 1..];
      assert forall i :: 0 < i <= k ==> s.queue[i] == u.queue[i - 1];
    }
  }

  function Taken<T>(s: State<T>): (Got<T>, State<T>) {
    var t := DropStale(s);
    if t.queue == [] then (Nothing(s.closed), t)
    else
      var x := t.queue[0];
      (Item(x), State(s.added - {x}, s.processing + {x}, s.closed, t.queue[1..]))
  }

  function Finished<T>(s: State<T>, x: T): State<T> {
    var t := s.(processing := s.processing - {x});
    if x in s.added then t.(queue := s.queue + [x]) else t
  }

  function Removed<T>(s: State<T>, x: T): State<T> {
    s.(added := s.added - {x})
  }

  function Closed<T>(s: State<T>): State<T> {
    s.(closed := true)
  }

  /** One call of Process: `nil` stands for the item when there is nothing to take. */
  function Processed<T>(s: State<T>, nil: T, fails: T -> bool): State<T> {
    var (got, t) := Taken(s);
    var x := if got.Item? then got.item else nil;
    Finished(if fails(x) then Added(t, x) else t, x)
  }

  class Queue<T(==)> {
    var added: set<T>
    var processing: set<T>
    var closed: bool
    var queue: seq<T>

    function View(): State<T>
      reads this
    {
      State(added, processing, closed, queue)
    }

    constructor ()
      ensures View() == Empty()
    {
      added, processing, closed, queue := {}, {}, false, [];
    }

    method Add(item: T)
      modifies this
      ensures View() == Added(old(View()), item)
    {
      if closed {
        return;
      }
      if item in added {
        return;
      }
      added := added + {item};
      if item in processing {
        return;
      }
      queue := queue + [item];
    }

    method Len() returns (n: nat)
      ensures n == |View().queue|
    {
      n := |queue|;
    }

    method Close()
      modifies this
      ensures View() == Closed(old(View()))
    {
      closed := true;
    }

    method Get() returns (got: Got<T>)
      modifies this
      ensures (got, View()) == Taken(old(View()))
    {
      if |queue| == 0 {
        return Nothing(closed);
      }
      var item: T;
      while true
        invariant queue != []
        invariant View() == old(View()).(queue := queue)
        invariant DropStale(View()) == DropStale(old(View()))
        decreases |queue|
      {
        item, queue := queue[0], queue[1..];
        if item !in added {
          if |queue| == 0 {
            return Nothing(closed);
          }
          continue;
        }
        break;
      }
      processing := processing + {item};
      added := added - {item};
      return Item(item);
    }

    method Done(item: T)
      modifies this
      ensures View() == Finished(old(View()), item)
    {
      processing := processing - {item};
      if item in added {
        queue := queue + [item];
      }
    }

    method Remove(item: T)
      modifies this
      ensures View() == Removed(old(View()), item)
    {
      if item in added {
        added := added - {item};
      }
    }

    /** ProcessingQueue.Process; `nil` is Go's nil item. */
    method Process(nil: T, fails: T -> bool) returns (err: bool)
      modifies this
      ensures View() == Processed(old(View()), nil, fails)
      ensures err == fails(if Taken(old(View())).0.Item? then Taken(old(View())).0.item else nil)
    {
      var got := Get();
      var item := if got.Item? then got.item else nil;
      err := fails(item);
      if err {
        Add(item);
      }
      Done(item);
    }
  }
}
