/** Remote calls of a publishing client: the table of pending calls and the sequence connect, createStream, publish. */
module Invoke {

  /** A call waiting for its result. */
  datatype Method = Method(name: string, num: int)

  /** How sending a packet ends: written; given up before writing; or failed, which closes the connection. */
  datatype Outcome = Delivered | Refused | Broken

  datatype Entry =
    | Called(name: string, id: int, queued: bool)
    | Answered(name: string, id: int)
    | Rejected(name: string, id: int)
    | Erased(name: string, id: int)

  /** The client; `log` is what happened since the connection was last closed. */
  datatype Session = Session(open: bool, numInvokes: nat, calls: seq<Method>, streamId: int, playing: bool,
                             log: seq<Entry>)

  const CLOSED := Session(false, 0, [], -1, false, [])

  /** Sends an invoke under the next transaction id; a queued one waits in the table once written. */
  function Call(s: Session, name: string, queued: bool, o: Outcome): Session {
    var id := s.numInvokes + 1;
    if o.Refused? then s.(numInvokes := id)
    else if o.Broken? || !s.open then CLOSED
    else
      s.(numInvokes := id, calls := if queued then s.calls + [Method(name, id)] else s.calls,
         log := s.log + [Called(name, id, queued)])
  }

  /** Sends a packet that carries no transaction id of its own. */
  function Notify(s: Session, o: Outcome): Session {
    if o.Refused? then s else if o.Broken? || !s.open then CLOSED else s
  }

  function Remove<T>(xs: seq<T>, i: nat): seq<T>
    requires i < |xs|
  {
    xs[..i] + xs[i + 1..]
  }

  /** The first pending call under an id, or the number of pending calls. */
  function FindNum(calls: seq<Method>, num: int): (i: nat)
    ensures i <= |calls| && (i < |calls| ==> calls[i].num == num)
    ensures forall k :: 0 <= k < i ==> calls[k].num != num
  {
    if calls == [] || calls[0].num == num then 0 else 1 + FindNum(calls[1..], num)
  }

  function FindName(calls: seq<Method>, name: string): (i: nat)
    ensures i <= |calls| && (i < |calls| ==> calls[i].name == name)
    ensures forall k :: 0 <= k < i ==> calls[k].name != name
  {
    if calls == [] || calls[0].name == name then 0 else 1 + FindName(calls[1..], name)
  }

  /** Takes a pending call out of the table because its result arrived. */
  function Answer(s: Session, i: nat): Session
    requires i < |s.calls|
  {
    s.(calls := Remove(s.calls, i), log := s.log + [Answered(s.calls[i].name, s.calls[i].num)])
  }

  /** Takes a pending call out of the table because an error came back. */
  function Reject(s: Session, i: nat): Session
    requires i < |s.calls|
  {
    s.(calls := Remove(s.calls, i), log := s.log + [Rejected(s.calls[i].name, s.calls[i].num)])
  }

  /** Takes the first pending call of a name out of the table, if there is one, without acting on it. */
  function Forget(s: Session, name: string): Session {
    var i := FindName(s.calls, name);
    if i == |s.calls| then s
    else s.(calls := Remove(s.calls, i), log := s.log + [Erased(name, s.calls[i].num)])
  }

  /** Outcomes of the packets a result may make the client send. */
  datatype Sends = Sends(token: Outcome, release: Outcome, fcPublish: Outcome, last: Outcome)

  function OnConnected(s: Session, secured: bool, o: Sends): Session {
    var s := if secured then Notify(s, o.token) else s;
    Call(Call(Call(s, "releaseStream", false, o.release), "FCPublish", false, o.fcPublish), "createStream", true,
         o.last)
  }

  function OnResult(s: Session, txn: int, streamId: int, secured: bool, o: Sends): Session {
    var i := FindNum(s.calls, txn);
    if i == |s.calls| then s
    else
      var name, r := s.calls[i].name, Answer(s, i);
      if name == "connect" then OnConnected(r, secured, o)
      else if name == "createStream" then Call(r.(streamId := streamId), "publish", true, o.last)
      else if name == "play" || name == "publish" then r.(playing := true)
      else r
  }

  /** Opens the connection and sends the connect call. */
  function Connect(s: Session, o: Outcome): Session {
    Call(s.(open := true), "connect", true, o)
  }

  /** An error reply; an authentication challenge to connect makes the client close and connect again. */
  function OnError(s: Session, txn: int, challenged: bool, o: Outcome): Session {
    var i := FindNum(s.calls, txn);
    if i == |s.calls| then s
    else if s.calls[i].name == "connect" && challenged then Connect(CLOSED, o)
    else Reject(s, i)
  }

  /** Anything the application or the server does; other calls of the application are neither connect, createStream nor
    * publish. */
  datatype Event =
    | Open(o: Outcome)
    | Result(txn: int, streamId: int, secured: bool, sends: Sends)
    | ErrorReply(txn: int, challenged: bool, o: Outcome)
    | BandwidthCheck(o: Outcome) | BandwidthDone
    | PublishStarted | PlayStarted | PlaylistReady
    | OtherCall(name: string, queued: bool, o: Outcome)
    | Close

  predicate Allowed(e: Event) {
    e.OtherCall? ==> e.name != "connect" && e.name != "createStream" && e.name != "publish"
  }

  function Happens(s: Session, e: Event): Session {
    match e
    case Open(o) => Connect(s, o)
    case Result(txn, streamId, secured, sends) => OnResult(s, txn, streamId, secured, sends)
    case ErrorReply(txn, challenged, o) => OnError(s, txn, challenged, o)
    case BandwidthCheck(o) => Call(s, "_checkbw", false, o)
    case BandwidthDone => Forget(s, "_checkbw")
    case PublishStarted => Forget(s.(playing := true), "publish")
    case PlayStarted => Forget(s.(playing := true), "play")
    case PlaylistReady => Forget(s, "set_playlist")
    case OtherCall(name, queued, o) => Call(s, name, queued, o)
    case Close => CLOSED
  }

  function Life(es: seq<Event>): Session {
    if es == [] then CLOSED else Happens(Life(es[..|es| - 1]), es[|es| - 1])
  }

  predicate AllAllowed(es: seq<Event>) {
    forall i :: 0 <= i < |es| ==> Allowed(es[i])
  }
}
