/** The client's call table as it is kept: an array that grows by 16, appended to, searched and closed up in place. */
module InvokeClient {
  import opened Bytes
  import opened Invoke
  import opened InvokeSequence

  /** Entries the table must have room for before it is next enlarged. */
  function Room(numCalls: nat): nat {
    (numCalls + 15) / 16 * 16
  }

  lemma RoomFits(n: nat)
    ensures n <= Room(n) <= Room(n + 1)
    ensures if n % 16 == 0 then Room(n + 1) == n + 16 else n < Room(n) == Room(n + 1)
  {
  }

  /** The first entries of a table whose later ones have moved down by one. */
  lemma ClosedUp<T>(now: seq<T>, table: seq<T>, before: seq<T>, i: nat)
    requires i < |before| == |now| + 1 && before <= table
    requires forall j :: 0 <= j < |now| ==> now[j] == table[if i <= j then j + 1 else j]
    ensures now == Remove(before, i)
  {
    forall j | 0 <= j < |now|
      ensures now[j] == Remove(before, i)[j]
    {
      assert before[if i <= j then j + 1 else j] == table[if i <= j then j + 1 else j];
    }
  }

  class Client {
    var open: bool
    var numInvokes: nat
    var numCalls: nat
    var methodCalls: array?<Method>
    var streamId: int
    var playing: bool
    /** What happened since the connection was last closed. */
    ghost var log: seq<Entry>

    ghost predicate Valid()
      reads this, methodCalls
    {
      if methodCalls == null then numCalls == 0 else Room(numCalls) <= methodCalls.Length
    }

    ghost function Pending(): seq<Method>
      reads this, methodCalls
      requires Valid()
    {
      if methodCalls == null then [] else methodCalls[..numCalls]
    }

    ghost function State(): Session
      reads this, methodCalls
      requires Valid()
    {
      Session(open, numInvokes, Pending(), streamId, playing, log)
    }

    constructor ()
      ensures Valid() && State() == CLOSED && methodCalls == null
    {
      open, numInvokes, numCalls, methodCalls := false, 0, 0, null;
      streamId, playing, log := -1, false, [];
    }

    method Close()
      modifies this
      ensures Valid() && State() == CLOSED && methodCalls == null
    {
      open, numInvokes, numCalls, methodCalls := false, 0, 0, null;
      streamId, playing, log := -1, false, [];
    }

    /** The table with room for `size` entries, the old ones kept as far as they fit. */
    method Realloc(size: nat) returns (table: array<Method>)
      ensures fresh(table) && table.Length == size
      ensures
        methodCalls != null ==>
          forall k :: 0 <= k < size && k < methodCalls.Length ==> table[k] == methodCalls[k]
    {
      table := new Method[size](_ => Method("", 0));
      if methodCalls != null {
        var n := Min(size, methodCalls.Length);
        for i := 0 to n
          invariant forall k :: 0 <= k < i ==> table[k] == methodCalls[k]
        {
          table[i] := methodCalls[i];
        }
      }
    }

    /** Appends a call, making room for sixteen more whenever the count is a multiple of sixteen. */
    method QueueCall(name: string, txn: int)
      requires Valid()
      modifies this`methodCalls, this`numCalls, methodCalls
      ensures Valid() && Pending() == old(Pending()) + [Method(name, txn)]
      ensures methodCalls == old(methodCalls) || fresh(methodCalls)
    {
      hide Room;
      RoomFits(numCalls);
      ghost var before := Pending();
      if numCalls % 16 == 0 {
        methodCalls := Realloc(numCalls + 16);
      }
      assert methodCalls != null && methodCalls[..numCalls] == before;
      methodCalls[numCalls] := Method(name, txn);
      numCalls := numCalls + 1;
      assert methodCalls[..numCalls] == before + [Method(name, txn)];
    }

    /** Closes the table up over entry `i` and clears the entry that falls free. */
    method EraseCall(i: nat)
      requires Valid() && i < numCalls
      modifies this`numCalls, methodCalls
      ensures Valid() && Pending() == Remove(old(Pending()), i)
      ensures methodCalls != null && methodCalls[numCalls] == Method("", 0)
    {
      ghost var before, pending := methodCalls[..], Pending();
      hide Remove;
      RoomFits(numCalls - 1);
      hide Room;
      numCalls := numCalls - 1;
      var n, k := numCalls, i;
      assert numCalls < methodCalls.Length;
      while k < numCalls
        invariant i <= k <= n && numCalls == n < methodCalls.Length
        invariant forall j :: 0 <= j < methodCalls.Length ==> methodCalls[j] == before[if i <= j < k then j + 1 else j]
      {
        methodCalls[k] := methodCalls[k + 1];
        k := k + 1;
      }
      methodCalls[k] := Method("", 0);
      ClosedUp(methodCalls[..k], before, pending, i);
    }

    /** Sends an invoke: the id is used up whatever happens, a failed write closes the connection. */
    method Send(name: string, queued: bool, o: Outcome)
      requires Valid()
      modifies this, methodCalls
      ensures Valid() && State() == Call(old(State()), name, queued, o)
      ensures methodCalls == null || methodCalls == old(methodCalls) || fresh(methodCalls)
    {
      numInvokes := numInvokes + 1;
      if o.Refused? {
        return;
      }
      if o.Broken? || !open {
        Close();
        return;
      }
      log := log + [Called(name, numInvokes, queued)];
      if queued {
        QueueCall(name, numInvokes);
      }
    }

    /** A packet without a transaction id. */
    method SendPlain(o: Outcome)
      requires Valid()
      modifies this
      ensures Valid() && State() == Notify(old(State()), o)
      ensures methodCalls == null || methodCalls == old(methodCalls)
    {
      if o.Broken? || (o.Delivered? && !open) {
        Close();
      }
    }

    /** The entry waiting under an id, or the number of entries. */
    method Search(txn: int) returns (i: nat)
      requires Valid()
      ensures i == FindNum(Pending(), txn)
    {
      hide FindNum;
      i := 0;
      while i < numCalls
        invariant i <= numCalls && forall k :: 0 <= k < i ==> Pending()[k].num != txn
      {
        if methodCalls[i].num == txn {
          break;
        }
        i := i + 1;
      }
    }

    method ForgetCall(name: string)
      requires Valid()
      modifies this, methodCalls
      ensures Valid() && State() == Forget(old(State()), name) && methodCalls == old(methodCalls)
    {
      hide FindName;
      var i := 0;
      while i < numCalls
        invariant i <= numCalls && forall k :: 0 <= k < i ==> Pending()[k].name != name
      {
        if methodCalls[i].name == name {
          log := log + [Erased(name, methodCalls[i].num)];
          EraseCall(i);
          return;
        }
        i := i + 1;
      }
    }

    method Established(secured: bool, o: Sends)
      requires Valid()
      modifies this, methodCalls
      ensures Valid() && State() == OnConnected(old(State()), secured, o)
      ensures methodCalls == null || methodCalls == old(methodCalls) || fresh(methodCalls)
    {
      hide Call, Notify, Valid, State;
      if secured {
        SendPlain(o.token);
      }
      Send("releaseStream", false, o.release);
      Send("FCPublish", false, o.fcPublish);
      Send("createStream", true, o.last);
    }

    method Start(o: Outcome)
      requires Valid()
      modifies this, methodCalls
      ensures Valid() && State() == Connect(old(State()), o)
      ensures methodCalls == null || methodCalls == old(methodCalls) || fresh(methodCalls)
    {
      hide Call;
      open := true;
      Send("connect", true, o);
    }

    method Playing(name: string)
      requires Valid()
      modifies this, methodCalls
      ensures Valid() && State() == Forget(old(State()).(playing := true), name)
      ensures methodCalls == old(methodCalls)
    {
      hide Forget;
      playing := true;
      ForgetCall(name);
    }

    /** A result: the call it answers leaves the table, and connect and createStream are followed up. */
    method HandleResult(txn: int, id: int, secured: bool, o: Sends)
      requires Valid()
      modifies this, methodCalls
      ensures Valid() && State() == OnResult(old(State()), txn, id, secured, o)
      ensures methodCalls == null || methodCalls == old(methodCalls) || fresh(methodCalls)
    {
      hide FindNum, Call, OnConnected, Remove;
      var i := Search(txn);
      if i == numCalls {
        return;
      }
      var name := methodCalls[i].name;
      log := log + [Answered(name, methodCalls[i].num)];
      EraseCall(i);
      if name == "connect" {
        Established(secured, o);
      } else if name == "createStream" {
        streamId := id;
        Send("publish", true, o.last);
      } else if name == "play" || name == "publish" {
        playing := true;
      }
    }

    /** An error reply; a challenged connect closes the connection and connects again. */
    method HandleError(txn: int, challenged: bool, o: Outcome)
      requires Valid()
      modifies this, methodCalls
      ensures Valid() && State() == OnError(old(State()), txn, challenged, o)
      ensures methodCalls == null || methodCalls == old(methodCalls) || fresh(methodCalls)
    {
      hide FindNum, Call, Remove;
      var i := Search(txn);
      if i == numCalls {
        return;
      }
      var name := methodCalls[i].name;
      log := log + [Rejected(name, methodCalls[i].num)];
      EraseCall(i);
      if name == "connect" && challenged {
        Close();
        Start(o);
      }
    }

    method Handle(e: Event)
      requires Valid()
      modifies this, methodCalls
      ensures Valid() && State() == Happens(old(State()), e)
      ensures methodCalls == null || methodCalls == old(methodCalls) || fresh(methodCalls)
    {
      hide Call, Forget, OnResult, OnError, Valid, Pending;
      match e
      case Open(o) => Start(o);
      case Result(txn, id, secured, o) => HandleResult(txn, id, secured, o);
      case ErrorReply(txn, challenged, o) => HandleError(txn, challenged, o);
      case BandwidthCheck(o) => Send("_checkbw", false, o);
      case BandwidthDone => ForgetCall("_checkbw");
      case PublishStarted => Playing("publish");
      case PlayStarted => Playing("play");
      case PlaylistReady => ForgetCall("set_playlist");
      case OtherCall(name, queued, o) => Send(name, queued, o);
      case Close => Close();
    }
  }

  /** A whole life of a client, any server and any failures: every access to the table is in bounds, and the pending
    * calls are tracked and in sequence throughout. */
  method Live(es: seq<Event>) returns (c: Client)
    requires AllAllowed(es)
    ensures c.Valid() && c.State() == Life(es) && Ordered(c.State())
  {
    hide Happens, Ordered;
    c := new Client();
    for i := 0 to |es|
      invariant c.Valid() && fresh(c) && (c.methodCalls != null ==> fresh(c.methodCalls)) && c.State() == Life(es[..i])
    {
      assert es[..i + 1][..i] == es[..i];
      c.Handle(es[i]);
    }
    assert es[..|es|] == es;
    AlwaysOrdered(es);
  }
}
