/** What holds of the pending calls against any server: distinct ids, one completion each, and every call has its
  * cause. */
module InvokeSequence {
  import opened Invoke

  /** Queued calls under an id, completions of an id, and pending calls under an id. */
  function Queued(log: seq<Entry>, id: int): nat {
    if log == [] then 0
    else
      var e := log[|log| - 1];
      Queued(log[..|log| - 1], id) + if e.Called? && e.queued && e.id == id then 1 else 0
  }

  function Finished(log: seq<Entry>, id: int): nat {
    if log == [] then 0
    else
      var e := log[|log| - 1];
      Finished(log[..|log| - 1], id) + if !e.Called? && e.id == id then 1 else 0
  }

  function Waiting(calls: seq<Method>, id: int): nat {
    if calls == [] then 0
    else Waiting(calls[..|calls| - 1], id) + if calls[|calls| - 1].num == id then 1 else 0
  }

  /** Calls of a name, its queued calls, its answers, its completions of either kind, and its pending calls. */
  function CalledAs(log: seq<Entry>, name: string): nat {
    if log == [] then 0
    else
      var e := log[|log| - 1];
      CalledAs(log[..|log| - 1], name) + if e.Called? && e.name == name then 1 else 0
  }

  function QueuedAs(log: seq<Entry>, name: string): nat {
    if log == [] then 0
    else
      var e := log[|log| - 1];
      QueuedAs(log[..|log| - 1], name) + if e.Called? && e.queued && e.name == name then 1 else 0
  }

  function AnsweredAs(log: seq<Entry>, name: string): nat {
    if log == [] then 0
    else
      var e := log[|log| - 1];
      AnsweredAs(log[..|log| - 1], name) + if e.Answered? && e.name == name then 1 else 0
  }

  function DoneAs(log: seq<Entry>, name: string): nat {
    if log == [] then 0
    else
      var e := log[|log| - 1];
      DoneAs(log[..|log| - 1], name) + if !e.Called? && e.name == name then 1 else 0
  }

  function PendingAs(calls: seq<Method>, name: string): nat {
    if calls == [] then 0
    else PendingAs(calls[..|calls| - 1], name) + if calls[|calls| - 1].name == name then 1 else 0
  }

  /** Publishing is never ahead of its causes. */
  predicate InSequence(log: seq<Entry>) {
    CalledAs(log, "publish") <= AnsweredAs(log, "createStream") <= CalledAs(log, "createStream")
    <= AnsweredAs(log, "connect") <= CalledAs(log, "connect")
  }

  /** At every moment since the connection was opened. */
  predicate AlwaysInSequence(log: seq<Entry>) {
    InSequence(log) && (log != [] ==> AlwaysInSequence(log[..|log| - 1]))
  }

  /** An answer to a call of `cause` has arrived since the last call of `name`. */
  predicate Unspent(log: seq<Entry>, name: string, cause: string) {
    log != [] &&
    var e := log[|log| - 1];
    if e.Called? && e.name == name then false
    else (e.Answered? && e.name == cause) || Unspent(log[..|log| - 1], name, cause)
  }

  /** Every call of `name` has its own answer to a call of `cause` before it. */
  predicate Caused(log: seq<Entry>, name: string, cause: string) {
    log == [] ||
    var before, e := log[..|log| - 1], log[|log| - 1];
    Caused(before, name, cause) && (e.Called? && e.name == name ==> Unspent(before, name, cause))
  }

  ghost predicate Distinct(calls: seq<Method>, last: int) {
    && (forall i :: 0 <= i < |calls| ==> 0 < calls[i].num <= last)
    && (forall i, j :: 0 <= i < j < |calls| ==> calls[i].num < calls[j].num)
  }

  /** Every queued call is pending or completed, exactly once, under its own name. */
  ghost predicate Matched(log: seq<Entry>, calls: seq<Method>) {
    && (forall id {:trigger Queued(log, id)} :: Queued(log, id) == Waiting(calls, id) + Finished(log, id) <= 1)
    && (forall name {:trigger QueuedAs(log, name)} :: QueuedAs(log, name) == PendingAs(calls, name) + DoneAs(log, name))
    && (forall i :: 0 <= i < |calls| ==> Called(calls[i].name, calls[i].num, true) in log)
    && (forall j :: 0 <= j < |log| && !log[j].Called? ==> Called(log[j].name, log[j].id, true) in log[..j])
  }

  ghost predicate Tracked(s: Session) {
    Matched(s.log, s.calls) && forall i :: 0 <= i < |s.log| ==> s.log[i].id <= s.numInvokes
  }

  ghost predicate Ordered(s: Session) {
    && Distinct(s.calls, s.numInvokes) && Tracked(s) && AlwaysInSequence(s.log)
    && Caused(s.log, "createStream", "connect") && Caused(s.log, "publish", "createStream")
  }

  lemma LogGrows(log: seq<Entry>, e: Entry)
    ensures forall id :: Queued(log + [e], id) == Queued(log, id) + if e.Called? && e.queued && e.id == id then 1 else 0
    ensures forall id :: Finished(log + [e], id) == Finished(log, id) + if !e.Called? && e.id == id then 1 else 0
    ensures
      forall name :: CalledAs(log + [e], name) == CalledAs(log, name) + if e.Called? && e.name == name then 1 else 0
    ensures
      forall name ::
        QueuedAs(log + [e], name) == QueuedAs(log, name) + if e.Called? && e.queued && e.name == name then 1 else 0
    ensures
      forall name ::
        AnsweredAs(log + [e], name) == AnsweredAs(log, name) + if e.Answered? && e.name == name then 1 else 0
    ensures forall name :: DoneAs(log + [e], name) == DoneAs(log, name) + if !e.Called? && e.name == name then 1 else 0
  {
    assert (log + [e])[..|log|] == log;
  }

  lemma CallsGrow(calls: seq<Method>, m: Method)
    ensures forall id :: Waiting(calls + [m], id) == Waiting(calls, id) + if m.num == id then 1 else 0
    ensures forall name :: PendingAs(calls + [m], name) == PendingAs(calls, name) + if m.name == name then 1 else 0
  {
    assert (calls + [m])[..|calls|] == calls;
  }

  lemma {:induction false} CallsShrink(calls: seq<Method>, i: nat)
    requires i < |calls|
    ensures forall id :: Waiting(calls, id) == Waiting(Remove(calls, i), id) + if calls[i].num == id then 1 else 0
    ensures
      forall name ::
        PendingAs(calls, name) == PendingAs(Remove(calls, i), name) + if calls[i].name == name then 1 else 0
  {
    var n := |calls| - 1;
    if i == n {
      assert Remove(calls, i) == calls[..n];
    } else {
      CallsShrink(calls[..n], i);
      assert Remove(calls, i) == Remove(calls[..n], i) + [calls[n]];
      CallsGrow(Remove(calls[..n], i), calls[n]);
    }
  }

  lemma {:induction false} NotYetCalled(log: seq<Entry>, id: int)
    requires forall i :: 0 <= i < |log| ==> log[i].id < id
    ensures Queued(log, id) == 0 && Finished(log, id) == 0
  {
    if log != [] {
      NotYetCalled(log[..|log| - 1], id);
    }
  }

  lemma {:induction false} CountsNest(log: seq<Entry>, name: string)
    ensures AnsweredAs(log, name) <= DoneAs(log, name) && QueuedAs(log, name) <= CalledAs(log, name)
  {
    if log != [] {
      CountsNest(log[..|log| - 1], name);
    }
  }

  /** One call per answer: an unspent answer is one more. */
  lemma {:induction false} CausedCounts(log: seq<Entry>, name: string, cause: string)
    requires Caused(log, name, cause)
    ensures CalledAs(log, name) + (if Unspent(log, name, cause) then 1 else 0) <= AnsweredAs(log, cause)
  {
    if log != [] {
      CausedCounts(log[..|log| - 1], name, cause);
    }
  }

  /** Tracking and causes put the counts in sequence. */
  lemma CausesGiveSequence(s: Session)
    requires Tracked(s) && Caused(s.log, "createStream", "connect") && Caused(s.log, "publish", "createStream")
    ensures InSequence(s.log)
  {
    CompletedWereQueued(s, "createStream");
    CompletedWereQueued(s, "connect");
    hide Tracked, QueuedAs, DoneAs, CalledAs, AnsweredAs;
    CausedCounts(s.log, "createStream", "connect");
    CausedCounts(s.log, "publish", "createStream");
    CountsNest(s.log, "createStream");
    CountsNest(s.log, "connect");
  }

  lemma CompletedWereQueued(s: Session, name: string)
    requires Tracked(s)
    ensures DoneAs(s.log, name) <= QueuedAs(s.log, name)
  {
    hide QueuedAs, DoneAs, PendingAs, Queued, Waiting, Finished;
    assert QueuedAs(s.log, name) == PendingAs(s.calls, name) + DoneAs(s.log, name);
  }

  lemma CausedGrows(log: seq<Entry>, e: Entry, name: string, cause: string)
    requires Caused(log, name, cause) && (e.Called? && e.name == name ==> Unspent(log, name, cause))
    ensures Caused(log + [e], name, cause)
    ensures !(e.Called? && e.name == name) && Unspent(log, name, cause) ==> Unspent(log + [e], name, cause)
    ensures e.Answered? && e.name == cause ==> Unspent(log + [e], name, cause)
  {
    assert (log + [e])[..|log|] == log;
  }

  /** A call keeps everything tracked. */
  lemma CallTracked(s: Session, name: string, queued: bool)
    requires Distinct(s.calls, s.numInvokes) && Tracked(s) && s.open
    ensures
      var r := Call(s, name, queued, Delivered);
      Distinct(r.calls, r.numInvokes) && Tracked(r)
  {
    hide Queued, Finished, Waiting, QueuedAs, DoneAs, PendingAs;
    var id := s.numInvokes + 1;
    var e, r := Called(name, id, queued), Call(s, name, queued, Delivered);
    LogGrows(s.log, e);
    CallsGrow(s.calls, Method(name, id));
    NotYetCalled(s.log, id);
    assert e in r.log by { assert r.log[|s.log|] == e; }
    forall id: int
      ensures Queued(r.log, id) == Waiting(r.calls, id) + Finished(r.log, id) <= 1
    {
      assert Queued(s.log, id) == Waiting(s.calls, id) + Finished(s.log, id) <= 1;
    }
    forall name: string
      ensures QueuedAs(r.log, name) == PendingAs(r.calls, name) + DoneAs(r.log, name)
    {
      assert QueuedAs(s.log, name) == PendingAs(s.calls, name) + DoneAs(s.log, name);
    }
    forall i | 0 <= i < |r.calls|
      ensures Called(r.calls[i].name, r.calls[i].num, true) in r.log
    {
      if i < |s.calls| {
        assert Called(s.calls[i].name, s.calls[i].num, true) in s.log;
      }
    }
    forall j | 0 <= j < |r.log| && !r.log[j].Called?
      ensures Called(r.log[j].name, r.log[j].id, true) in r.log[..j]
    {
      assert r.log[..j] == s.log[..j];
    }
  }

  lemma CallOrdered(s: Session, name: string, queued: bool, o: Outcome)
    requires Ordered(s)
    requires name == "createStream" ==> Unspent(s.log, "createStream", "connect")
    requires name == "publish" ==> Unspent(s.log, "publish", "createStream")
    ensures Ordered(Call(s, name, queued, o))
  {
    hide Distinct, Tracked, InSequence, Caused, Unspent;
    var r := Call(s, name, queued, o);
    if o.Refused? {
      StillTracked(s, r);
    } else if o.Broken? || !s.open {
      ClosedOrdered();
    } else {
      var e := Called(name, s.numInvokes + 1, queued);
      CallTracked(s, name, queued);
      CausedGrows(s.log, e, "createStream", "connect");
      CausedGrows(s.log, e, "publish", "createStream");
      CausesGiveSequence(r);
      assert (s.log + [e])[..|s.log|] == s.log;
    }
  }

  lemma StillTracked(s: Session, r: Session)
    requires Distinct(s.calls, s.numInvokes) && Tracked(s)
    requires r.calls == s.calls && r.log == s.log && r.numInvokes >= s.numInvokes
    ensures Distinct(r.calls, r.numInvokes) && Tracked(r)
  {
    hide Matched;
  }

  lemma NothingMatched()
    ensures Matched([], [])
  {
  }

  lemma ClosedOrdered()
    ensures Ordered(CLOSED)
  {
    hide Unspent, Matched;
    NothingMatched();
    assert InSequence([]) && AlwaysInSequence(CLOSED.log);
    assert Caused(CLOSED.log, "createStream", "connect") && Caused(CLOSED.log, "publish", "createStream");
  }

  /** Taking a pending call out of the table, answered or not, keeps everything tracked. */
  lemma RemovalTracked(s: Session, i: nat, e: Entry)
    requires Distinct(s.calls, s.numInvokes) && Tracked(s) && i < |s.calls|
    requires !e.Called? && e.name == s.calls[i].name && e.id == s.calls[i].num
    ensures
      var r := s.(calls := Remove(s.calls, i), log := s.log + [e]);
      Distinct(r.calls, r.numInvokes) && Tracked(r)
  {
    hide Queued, Finished, Waiting, QueuedAs, DoneAs, PendingAs;
    var r := s.(calls := Remove(s.calls, i), log := s.log + [e]);
    LogGrows(s.log, e);
    CallsShrink(s.calls, i);
    forall id: int
      ensures Queued(r.log, id) == Waiting(r.calls, id) + Finished(r.log, id) <= 1
    {
      assert Queued(s.log, id) == Waiting(s.calls, id) + Finished(s.log, id) <= 1;
    }
    forall name: string
      ensures QueuedAs(r.log, name) == PendingAs(r.calls, name) + DoneAs(r.log, name)
    {
      assert QueuedAs(s.log, name) == PendingAs(s.calls, name) + DoneAs(s.log, name);
    }
    forall k | 0 <= k < |r.calls|
      ensures Called(r.calls[k].name, r.calls[k].num, true) in r.log && 0 < r.calls[k].num <= r.numInvokes
    {
      assert r.calls[k] == s.calls[if k < i then k else k + 1];
    }
    forall j | 0 <= j < |r.log| && !r.log[j].Called?
      ensures Called(r.log[j].name, r.log[j].id, true) in r.log[..j]
    {
      assert r.log[..j] == s.log[..j];
    }
  }

  lemma RemovalOrdered(s: Session, i: nat, e: Entry)
    requires Ordered(s) && i < |s.calls|
    requires !e.Called? && e.name == s.calls[i].name && e.id == s.calls[i].num
    ensures
      var r := s.(calls := Remove(s.calls, i), log := s.log + [e]);
      && Ordered(r)
      && (e == Answered("connect", e.id) ==> Unspent(r.log, "createStream", "connect"))
      && (e == Answered("createStream", e.id) ==> Unspent(r.log, "publish", "createStream"))
  {
    hide Distinct, Tracked, InSequence, Caused, Unspent;
    var r := s.(calls := Remove(s.calls, i), log := s.log + [e]);
    RemovalTracked(s, i, e);
    CausedGrows(s.log, e, "createStream", "connect");
    CausedGrows(s.log, e, "publish", "createStream");
    CausesGiveSequence(r);
    assert (s.log + [e])[..|s.log|] == s.log;
  }

  /** Fields other than the table, the counter and the log do not matter. */
  lemma SameOrdered(s: Session, r: Session)
    requires Ordered(s) && r.calls == s.calls && r.log == s.log && r.numInvokes == s.numInvokes
    ensures Ordered(r)
  {
    StillTracked(s, r);
    hide Distinct, Tracked, AlwaysInSequence, Caused;
  }

  lemma ForgetOrdered(s: Session, name: string)
    requires Ordered(s)
    ensures Ordered(Forget(s, name))
  {
    hide Ordered;
    var i := FindName(s.calls, name);
    if i < |s.calls| {
      RemovalOrdered(s, i, Erased(name, s.calls[i].num));
    }
  }

  /** A call of another name leaves an answer to connect unspent. */
  lemma CallKeepsUnspent(s: Session, name: string, queued: bool, o: Outcome)
    requires Unspent(s.log, "createStream", "connect") && name != "createStream"
    ensures
      var r := Call(s, name, queued, o);
      r == CLOSED || Unspent(r.log, "createStream", "connect")
  {
    assert (s.log + [Called(name, s.numInvokes + 1, queued)])[..|s.log|] == s.log;
  }

  lemma ConnectedOrdered(s: Session, secured: bool, o: Sends)
    requires Ordered(s) && Unspent(s.log, "createStream", "connect")
    ensures Ordered(OnConnected(s, secured, o))
  {
    hide Ordered, Unspent, Call;
    ClosedOrdered();
    var s1 := if secured then Notify(s, o.token) else s;
    var s2 := Call(s1, "releaseStream", false, o.release);
    CallOrdered(s1, "releaseStream", false, o.release);
    var s3 := Call(s2, "FCPublish", false, o.fcPublish);
    CallOrdered(s2, "FCPublish", false, o.fcPublish);
    CreateStreamAllowed(s1, s2, s3, o);
    if s3.open {
      CallOrdered(s3, "createStream", true, o.last);
    } else {
      ShutCall(s3, "createStream", true, o.last);
    }
  }

  /** Once closed, a client has no log, and sending keeps it so. */
  lemma ShutCall(s: Session, name: string, queued: bool, o: Outcome)
    requires Ordered(s) && !s.open
    ensures Ordered(Call(s, name, queued, o)) && !Call(s, name, queued, o).open
  {
    hide Distinct, Tracked, InSequence, Caused;
    ClosedOrdered();
    if o.Refused? {
      StillTracked(s, Call(s, name, queued, o));
    }
  }

  lemma CreateStreamAllowed(s1: Session, s2: Session, s3: Session, o: Sends)
    requires s1.open ==> Unspent(s1.log, "createStream", "connect")
    requires s2 == Call(s1, "releaseStream", false, o.release) && s3 == Call(s2, "FCPublish", false, o.fcPublish)
    ensures s3.open ==> Unspent(s3.log, "createStream", "connect")
  {
    hide Unspent;
    if s1.open {
      CallKeepsUnspent(s1, "releaseStream", false, o.release);
      if s2.open {
        CallKeepsUnspent(s2, "FCPublish", false, o.fcPublish);
      }
    }
  }

  lemma ResultOrdered(s: Session, txn: int, streamId: int, secured: bool, o: Sends)
    requires Ordered(s)
    ensures Ordered(OnResult(s, txn, streamId, secured, o))
  {
    hide Ordered, Unspent, Call, OnConnected, FindNum;
    var i := FindNum(s.calls, txn);
    if i < |s.calls| {
      var name, r := s.calls[i].name, Answer(s, i);
      RemovalOrdered(s, i, Answered(name, s.calls[i].num));
      if name == "connect" {
        ConnectedOrdered(r, secured, o);
      } else if name == "createStream" {
        SameOrdered(r, r.(streamId := streamId));
        CallOrdered(r.(streamId := streamId), "publish", true, o.last);
      } else {
        SameOrdered(r, r.(playing := true));
      }
    }
  }

  lemma ConnectOrdered(s: Session, o: Outcome)
    requires Ordered(s)
    ensures Ordered(Connect(s, o))
  {
    hide Ordered, Call;
    SameOrdered(s, s.(open := true));
    CallOrdered(s.(open := true), "connect", true, o);
  }

  lemma ErrorOrdered(s: Session, txn: int, challenged: bool, o: Outcome)
    requires Ordered(s)
    ensures Ordered(OnError(s, txn, challenged, o))
  {
    hide Ordered, Connect, FindNum;
    var i := FindNum(s.calls, txn);
    if i < |s.calls| {
      RemovalOrdered(s, i, Rejected(s.calls[i].name, s.calls[i].num));
      ClosedOrdered();
      ConnectOrdered(CLOSED, o);
    }
  }

  lemma EventOrdered(s: Session, e: Event)
    requires Ordered(s) && Allowed(e)
    ensures Ordered(Happens(s, e))
  {
    hide Ordered, Call, Connect, OnResult, OnError, Forget;
    match e
    case Open(o) => ConnectOrdered(s, o);
    case Result(txn, streamId, secured, sends) => ResultOrdered(s, txn, streamId, secured, sends);
    case ErrorReply(txn, challenged, o) => ErrorOrdered(s, txn, challenged, o);
    case BandwidthCheck(o) => CallOrdered(s, "_checkbw", false, o);
    case BandwidthDone => ForgetOrdered(s, "_checkbw");
    case PublishStarted => SameOrdered(s, s.(playing := true)); ForgetOrdered(s.(playing := true), "publish");
    case PlayStarted => SameOrdered(s, s.(playing := true)); ForgetOrdered(s.(playing := true), "play");
    case PlaylistReady => ForgetOrdered(s, "set_playlist");
    case OtherCall(name, queued, o) => CallOrdered(s, name, queued, o);
    case Close => ClosedOrdered();
  }

  /** Whatever the server says and whenever sending fails: pending ids are distinct and increasing, each queued call is
    * completed at most once and otherwise still pending, and publish, createStream and connect come in sequence, each
    * createStream after its own answer to connect and each publish after its own answer to createStream. */
  lemma {:induction false} AlwaysOrdered(es: seq<Event>)
    requires AllAllowed(es)
    ensures Ordered(Life(es))
  {
    hide Ordered, Happens;
    if es == [] {
      ClosedOrdered();
    } else {
      var before := es[..|es| - 1];
      assert AllAllowed(before) && Allowed(es[|es| - 1]);
      AlwaysOrdered(before);
      EventOrdered(Life(before), es[|es| - 1]);
    }
  }
}
