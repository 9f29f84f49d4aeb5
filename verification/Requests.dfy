/** The requests a record store has received, and how they were answered. */
module Requests {
  import opened Zones

  /** `done` says that the caller was told of success. */
  datatype Request =
    | Read(done: bool)
    | Set(key: Key, entry: Entry, done: bool)
    | Unset(key: Key, done: bool)

  predicate AllDone(log: seq<Request>) {
    log == [] || (AllDone(log[..|log| - 1]) && log[|log| - 1].done)
  }

  /** The requests that ask for a change, in order. */
  function Writes(log: seq<Request>): (w: seq<Request>)
    ensures |w| <= |log|
  {
    if log == [] then []
    else Writes(log[..|log| - 1]) + if log[|log| - 1].Read? then [] else [log[|log| - 1]]
  }

  lemma {:induction false} LogsJoin(log: seq<Request>, more: seq<Request>)
    ensures AllDone(log + more) <==> AllDone(log) && AllDone(more)
    ensures Writes(log + more) == Writes(log) + Writes(more)
  {
    if more == [] {
      assert log + more == log;
    } else {
      LogsJoin(log, more[..|more| - 1]);
      assert (log + more)[..|log + more| - 1] == log + more[..|more| - 1];
    }
  }

  lemma OneRequest(r: Request)
    ensures AllDone([r]) <==> r.done
    ensures Writes([r]) == if r.Read? then [] else [r]
  {
    assert [r][..0] == [];
  }

  lemma ReadThenWrite(read: Request, write: Request)
    requires read.Read? && !write.Read?
    ensures AllDone([read, write]) <==> read.done && write.done
    ensures Writes([read, write]) == [write]
  {
    assert [read, write] == [read] + [write];
    LogsJoin([read], [write]);
    OneRequest(read);
    OneRequest(write);
  }

  lemma Grouping<T>(a: seq<T>, b: seq<T>, c: seq<T>)
    ensures (a + b) + c == a + (b + c)
  {
  }

  // ---------------------------------------------------------------- going through a set

  /** `order` names the elements of a set, each once. */
  ghost predicate Enumerates<T(!new)>(order: seq<T>, all: set<T>) {
    if order == [] then all == {}
    else
      var last := order[|order| - 1];
      last in all && Enumerates(order[..|order| - 1], all - {last})
  }

  lemma EnumeratesOneMore<T(!new)>(order: seq<T>, all: set<T>, x: T)
    requires Enumerates(order, all) && x !in all
    ensures Enumerates(order + [x], all + {x})
  {
    assert (order + [x])[..|order|] == order && all + {x} - {x} == all;
  }

  lemma {:induction false} EnumeratesMeans<T(!new)>(order: seq<T>, all: set<T>)
    requires Enumerates(order, all)
    ensures |order| == |all| && forall x :: x in order <==> x in all
    ensures forall i, j :: 0 <= i < j < |order| ==> order[i] != order[j]
    decreases |order|
  {
    if order != [] {
      var n := |order| - 1;
      EnumeratesMeans(order[..n], all - {order[n]});
      assert order == order[..n] + [order[n]] && all == all - {order[n]} + {order[n]};
      assert forall i :: 0 <= i < n ==> order[i] in order[..n];
    }
  }
}
