/** The in-page log bus (calsnap/src/lib/logger.ts): a set of listeners and
    a `log` call that hands one entry to each of them. Listeners are named
    by an identity; the set keeps insertion order, which is the order its
    `forEach` visits them, so it is a sequence without repeats. What each
    listener is handed is recorded as a delivery. The entry's random id and
    its timestamp are parameters. */
module Logger {
  datatype LogType = Info | Success | Error | Warning

  /** The type's name as the entry carries it. */
  function TypeName(t: LogType): (name: string)
    ensures forall i :: 0 <= i < |name| ==> 'a' <= name[i] <= 'z'
  {
    match t
    case Info => "info"
    case Success => "success"
    case Error => "error"
    case Warning => "warning"
  }

  lemma TypeNamesDistinct(t: LogType, u: LogType)
    ensures TypeName(t) == TypeName(u) <==> t == u
  {
  }

  datatype LogEntry = LogEntry(id: string, timestamp: int, message: string, logType: LogType)

  type ListenerId = nat

  datatype Delivery = Delivery(listener: ListenerId, entry: LogEntry)

  /** The deliveries of one entry to the listeners `ls`, in order. */
  function FanOut(ls: seq<ListenerId>, e: LogEntry): (ds: seq<Delivery>)
    ensures |ds| == |ls|
    ensures forall i :: 0 <= i < |ls| ==> ds[i] == Delivery(ls[i], e)
  {
    if ls == [] then [] else FanOut(ls[..|ls| - 1], e) + [Delivery(ls[|ls| - 1], e)]
  }

  predicate NoRepeats(ls: seq<ListenerId>) {
    forall i, j :: 0 <= i < j < |ls| ==> ls[i] != ls[j]
  }

  /** `listeners.add(l)` */
  function WithListener(ls: seq<ListenerId>, l: ListenerId): (r: seq<ListenerId>)
    ensures NoRepeats(ls) ==> NoRepeats(r)
    ensures forall x :: x in r <==> x in ls || x == l
  {
    if l in ls then ls else ls + [l]
  }

  /** `listeners.delete(l)` */
  function WithoutListener(ls: seq<ListenerId>, l: ListenerId): (r: seq<ListenerId>)
    ensures |r| <= |ls|
    ensures forall x :: x in r <==> x in ls && x != l
  {
    if ls == [] then []
    else if ls[0] == l then WithoutListener(ls[1..], l)
    else [ls[0]] + WithoutListener(ls[1..], l)
  }

  /** Removing a listener keeps the set free of repeats. */
  lemma {:induction false} WithoutKeepsNoRepeats(ls: seq<ListenerId>, l: ListenerId)
    requires NoRepeats(ls)
    ensures NoRepeats(WithoutListener(ls, l))
  {
    if ls != [] {
      var tail := ls[1..];
      assert NoRepeats(tail) by {
        forall i, j | 0 <= i < j < |tail| ensures tail[i] != tail[j] {
          assert tail[i] == ls[i + 1] && tail[j] == ls[j + 1];
        }
      }
      WithoutKeepsNoRepeats(tail, l);
      if ls[0] != l {
        var rest := WithoutListener(tail, l);
        var r := [ls[0]] + rest;
        assert ls[0] !in tail by {
          forall k | 0 <= k < |tail| ensures tail[k] != ls[0] {
            assert tail[k] == ls[k + 1];
          }
        }
        forall i, j | 0 <= i < j < |r| ensures r[i] != r[j] {
          if i == 0 {
            assert r[j] == rest[j - 1] && rest[j - 1] in rest;
          } else {
            assert r[i] == rest[i - 1] && r[j] == rest[j - 1];
          }
        }
      }
    }
  }

  /** Adding a listener that is already there is a no-op, so adding twice is adding once. */
  lemma SubscribeTwice(ls: seq<ListenerId>, l: ListenerId)
    ensures WithListener(WithListener(ls, l), l) == WithListener(ls, l)
  {
  }

  /** Once removed, a listener receives nothing from a later `log`, and the
      others still receive it. */
  lemma {:induction false} RemovedHearsNothing(ls: seq<ListenerId>, l: ListenerId, e: LogEntry)
    ensures forall d :: d in FanOut(WithoutListener(ls, l), e) ==> d.listener != l
    ensures forall x :: x in ls && x != l ==> Delivery(x, e) in FanOut(WithoutListener(ls, l), e)
  {
    var r := WithoutListener(ls, l);
    var ds := FanOut(r, e);
    forall d | d in ds ensures d.listener != l {
      var k :| 0 <= k < |ds| && ds[k] == d;
      assert d.listener == r[k] && r[k] in r;
    }
    forall x | x in ls && x != l ensures Delivery(x, e) in ds {
      var k :| 0 <= k < |r| && r[k] == x;
      assert ds[k] == Delivery(x, e);
    }
  }

  class Bus {
    var listeners: seq<ListenerId>
    /** Every entry handed to a listener so far, oldest first. */
    var deliveries: seq<Delivery>

    predicate Valid()
      reads this
    {
      NoRepeats(listeners)
    }

    constructor ()
      ensures Valid() && listeners == [] && deliveries == []
    {
      listeners := [];
      deliveries := [];
    }

    /** `log(message, type = 'info')`: one entry, handed unchanged to every
      listener subscribed at the time, in subscription order. */
    method Log(message: string, id: string, timestamp: int, logType: LogType := Info)
      returns (entry: LogEntry)
      requires Valid()
      modifies this
      ensures Valid() && listeners == old(listeners)
      ensures entry.message == message && entry.logType == logType
      ensures entry.id == id && entry.timestamp == timestamp
      ensures deliveries == old(deliveries) + FanOut(listeners, entry)
    {
      entry := LogEntry(id, timestamp, message, logType);
      var i := 0;
      while i < |listeners|
        invariant 0 <= i <= |listeners| && listeners == old(listeners)
        invariant deliveries == old(deliveries) + FanOut(listeners[..i], entry)
      {
        assert listeners[..i + 1][..i] == listeners[..i];
        deliveries := deliveries + [Delivery(listeners[i], entry)];
        i := i + 1;
      }
      assert listeners[..i] == listeners;
    }

    method LogInfo(message: string, id: string, timestamp: int) returns (entry: LogEntry)
      requires Valid()
      modifies this
      ensures Valid() && listeners == old(listeners)
      ensures entry == LogEntry(id, timestamp, message, Info)
      ensures deliveries == old(deliveries) + FanOut(listeners, entry)
    {
      entry := Log(message, id, timestamp, Info);
    }

    method LogSuccess(message: string, id: string, timestamp: int) returns (entry: LogEntry)
      requires Valid()
      modifies this
      ensures Valid() && listeners == old(listeners)
      ensures entry == LogEntry(id, timestamp, message, Success)
      ensures deliveries == old(deliveries) + FanOut(listeners, entry)
    {
      entry := Log(message, id, timestamp, Success);
    }

    method LogError(message: string, id: string, timestamp: int) returns (entry: LogEntry)
      requires Valid()
      modifies this
      ensures Valid() && listeners == old(listeners)
      ensures entry == LogEntry(id, timestamp, message, Error)
      ensures deliveries == old(deliveries) + FanOut(listeners, entry)
    {
      entry := Log(message, id, timestamp, Error);
    }

    method LogWarning(message: string, id: string, timestamp: int) returns (entry: LogEntry)
      requires Valid()
      modifies this
      ensures Valid() && listeners == old(listeners)
      ensures entry == LogEntry(id, timestamp, message, Warning)
      ensures deliveries == old(deliveries) + FanOut(listeners, entry)
    {
      entry := Log(message, id, timestamp, Warning);
    }

    /** `subscribe(l)`: the listener joins the set, at most once. */
    method Subscribe(l: ListenerId)
      requires Valid()
      modifies this
      ensures Valid() && listeners == WithListener(old(listeners), l)
      ensures deliveries == old(deliveries)
    {
      if l !in listeners {
        listeners := listeners + [l];
      }
    }

    /** The function `subscribe` returns: that listener leaves the set. */
    method Unsubscribe(l: ListenerId)
      requires Valid()
      modifies this
      ensures Valid() && listeners == WithoutListener(old(listeners), l)
      ensures deliveries == old(deliveries)
    {
      WithoutKeepsNoRepeats(listeners, l);
      listeners := WithoutListener(listeners, l);
    }
  }
}
