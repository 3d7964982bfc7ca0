/** What a publishing client gets done while nothing fails: every answer is followed up, down to the publish. */
module InvokeProgress {
  import opened Invoke
  import opened InvokeSequence

  /** Every packet that the event makes the client send is written. */
  predicate Written(e: Event) {
    match e
    case Open(o) => o.Delivered?
    case Result(_, _, _, o) => o.token.Delivered? && o.release.Delivered? && o.fcPublish.Delivered? && o.last.Delivered?
    case ErrorReply(_, _, o) => o.Delivered?
    case BandwidthCheck(o) => o.Delivered?
    case OtherCall(_, _, o) => o.Delivered?
    case _ => true
  }

  predicate AllWritten(es: seq<Event>) {
    forall i :: 0 <= i < |es| ==> Written(es[i])
  }

  /** An answered connect is followed at once by releaseStream, FCPublish and createStream, an answered createStream by
    * publish, under the next ids; createStream and publish wait for their results. */
  predicate FollowUp(log: seq<Entry>, j: nat)
    requires j < |log|
  {
    && (log[j].Answered? && log[j].name == "connect" ==>
          && j + 3 < |log|
          && log[j + 1] == Called("releaseStream", log[j + 1].id, false)
          && log[j + 2] == Called("FCPublish", log[j + 1].id + 1, false)
          && log[j + 3] == Called("createStream", log[j + 1].id + 2, true))
    && (log[j].Answered? && log[j].name == "createStream" ==>
          j + 1 < |log| && log[j + 1] == Called("publish", log[j + 1].id, true))
  }

  ghost predicate Followed(log: seq<Entry>) {
    forall j :: 0 <= j < |log| ==> FollowUp(log, j)
  }

  /** As many createStream as connect answered, as many publish as createStream answered. */
  predicate Balanced(log: seq<Entry>) {
    && CalledAs(log, "createStream") == AnsweredAs(log, "connect")
    && CalledAs(log, "publish") == AnsweredAs(log, "createStream")
  }

  ghost predicate UpToDate(s: Session) {
    Followed(s.log) && Balanced(s.log) && (!s.open ==> s.calls == [])
  }

  lemma NothingToFollow()
    ensures Followed([]) && Balanced([])
  {
  }

  lemma Appended(log: seq<Entry>, e: Entry)
    requires e.Called? ==> e.name != "createStream" && e.name != "publish"
    requires e.Answered? ==> e.name != "connect" && e.name != "createStream"
    ensures Followed(log) ==> Followed(log + [e])
    ensures Balanced(log) ==> Balanced(log + [e])
  {
    LogGrows(log, e);
    if Followed(log) {
      assert (log + [e])[|log|] == e;
      FollowedBy(log, [e]);
    }
  }

  lemma FollowUpStays(log: seq<Entry>, more: seq<Entry>, j: nat)
    requires j < |log| && FollowUp(log, j)
    ensures FollowUp(log + more, j)
  {
    var all := log + more;
    assert all[j] == log[j];
    assert j + 1 < |log| ==> all[j + 1] == log[j + 1];
    assert j + 3 < |log| ==> all[j + 2] == log[j + 2] && all[j + 3] == log[j + 3];
  }

  lemma FollowedBy(log: seq<Entry>, more: seq<Entry>)
    requires Followed(log) && forall j :: |log| <= j < |log + more| ==> FollowUp(log + more, j)
    ensures Followed(log + more)
  {
    hide FollowUp;
    forall j | 0 <= j < |log + more|
      ensures FollowUp(log + more, j)
    {
      if j < |log| {
        FollowUpStays(log, more, j);
      }
    }
  }

  lemma ConnectFollowed(log: seq<Entry>, id: int, n: nat)
    requires Followed(log) && Balanced(log)
    ensures
      var all := log + [Answered("connect", id)] + [Called("releaseStream", n + 1, false)]
                 + [Called("FCPublish", n + 2, false)] + [Called("createStream", n + 3, true)];
      Followed(all) && Balanced(all)
  {
    hide Followed, CalledAs, AnsweredAs;
    var e1, e2, e3, e4 := Answered("connect", id), Called("releaseStream", n + 1, false),
      Called("FCPublish", n + 2, false), Called("createStream", n + 3, true);
    LogGrows(log, e1);
    LogGrows(log + [e1], e2);
    LogGrows(log + [e1] + [e2], e3);
    LogGrows(log + [e1] + [e2] + [e3], e4);
    assert log + [e1] + [e2] + [e3] + [e4] == log + [e1, e2, e3, e4];
    AnswerFollowed(log, [e1, e2, e3, e4]);
  }

  lemma CreateFollowed(log: seq<Entry>, id: int, n: nat)
    requires Followed(log) && Balanced(log)
    ensures
      var all := log + [Answered("createStream", id)] + [Called("publish", n + 1, true)];
      Followed(all) && Balanced(all)
  {
    hide Followed, CalledAs, AnsweredAs;
    var e1, e2 := Answered("createStream", id), Called("publish", n + 1, true);
    LogGrows(log, e1);
    LogGrows(log + [e1], e2);
    assert log + [e1] + [e2] == log + [e1, e2];
    AnswerFollowed(log, [e1, e2]);
  }

  /** One answer, and what follows it. */
  lemma AnswerFollowed(log: seq<Entry>, more: seq<Entry>)
    requires Followed(log) && more != [] && FollowUp(more, 0) && forall j :: 0 < j < |more| ==> more[j].Called?
    ensures Followed(log + more)
  {
    var all := log + more;
    forall j | |log| <= j < |all|
      ensures FollowUp(all, j)
    {
      assert all[j] == more[j - |log|];
      if j == |log| {
        assert |more| > 1 ==> all[j + 1] == more[1];
        assert |more| > 3 ==> all[j + 2] == more[2] && all[j + 3] == more[3];
      }
    }
    hide FollowUp;
    FollowedBy(log, more);
  }

  /** A result is followed up. */
  lemma ResultUpToDate(s: Session, e: Event)
    requires UpToDate(s) && e.Result? && Written(e)
    ensures UpToDate(Happens(s, e))
  {
    hide Followed, Balanced, CalledAs, AnsweredAs;
    var i := FindNum(s.calls, e.txn);
    if i < |s.calls| {
      var name, id := s.calls[i].name, s.calls[i].num;
      if name == "connect" {
        ConnectFollowed(s.log, id, s.numInvokes);
      } else if name == "createStream" {
        CreateFollowed(s.log, id, s.numInvokes);
      } else {
        Appended(s.log, Answered(name, id));
      }
    }
  }

  lemma OtherUpToDate(s: Session, e: Event)
    requires UpToDate(s) && !e.Result? && Written(e) && Allowed(e)
    ensures UpToDate(Happens(s, e))
  {
    hide Followed, Balanced, FindNum, FindName;
    NothingToFollow();
    match e
    case Open(o) => Appended(s.log, Called("connect", s.numInvokes + 1, true));
    case ErrorReply(txn, _, _) =>
      assert [] + [Called("connect", 1, true)] == [Called("connect", 1, true)];
      Appended([], Called("connect", 1, true));
      var i := FindNum(s.calls, txn);
      if i < |s.calls| { Appended(s.log, Rejected(s.calls[i].name, s.calls[i].num)); }
    case BandwidthCheck(_) => Appended(s.log, Called("_checkbw", s.numInvokes + 1, false));
    case BandwidthDone => ForgetUpToDate(s, "_checkbw");
    case PublishStarted => ForgetUpToDate(s.(playing := true), "publish");
    case PlayStarted => ForgetUpToDate(s.(playing := true), "play");
    case PlaylistReady => ForgetUpToDate(s, "set_playlist");
    case OtherCall(name, queued, _) => Appended(s.log, Called(name, s.numInvokes + 1, queued));
    case Close =>
  }

  lemma ForgetUpToDate(s: Session, name: string)
    requires UpToDate(s)
    ensures UpToDate(Forget(s, name))
  {
    hide Followed, Balanced;
    var i := FindName(s.calls, name);
    if i < |s.calls| {
      Appended(s.log, Erased(name, s.calls[i].num));
    }
  }

  /** From any moment at which the client is up to date, such as any moment when it is closed, and as long as every
    * packet is written: every answer is followed up, whatever the server says and in whatever order. */
  lemma {:induction false} StaysUpToDate(before: seq<Event>, es: seq<Event>)
    requires UpToDate(Life(before)) && AllAllowed(es) && AllWritten(es)
    ensures UpToDate(Life(before + es))
    decreases |es|
  {
    hide UpToDate, Happens;
    if es == [] {
      assert before + es == before;
    } else {
      var es', e := es[..|es| - 1], es[|es| - 1];
      assert AllAllowed(es') && AllWritten(es') && Allowed(e) && Written(e);
      StaysUpToDate(before, es');
      assert (before + es)[..|before + es| - 1] == before + es' && (before + es)[|before + es| - 1] == e;
      if e.Result? {
        ResultUpToDate(Life(before + es'), e);
      } else {
        OtherUpToDate(Life(before + es'), e);
      }
    }
  }

  lemma ClosedUpToDate()
    ensures UpToDate(CLOSED)
  {
    NothingToFollow();
  }

  /** The whole life: a client whose packets are all written publishes as often as its createStream is answered, and
    * calls createStream as often as its connect is answered. */
  lemma EveryAnswerFollowed(es: seq<Event>)
    requires AllAllowed(es) && AllWritten(es)
    ensures Followed(Life(es).log) && Balanced(Life(es).log)
  {
    hide Followed, Balanced, Happens;
    ClosedUpToDate();
    assert Life([]) == CLOSED && [] + es == es;
    StaysUpToDate([], es);
  }

  // ---------- the stream id and the playing state ----------

  /** The event is the result of a pending call of this name. */
  predicate AnswersCall(s: Session, e: Event, name: string) {
    e.Result? && Method(name, e.txn) in s.calls
  }

  lemma OnlyPending(s: Session, i: nat, num: int, name: string)
    requires Distinct(s.calls, s.numInvokes) && Method(name, num) in s.calls
    ensures FindNum(s.calls, num) < |s.calls| && s.calls[FindNum(s.calls, num)] == Method(name, num)
  {
    var k :| 0 <= k < |s.calls| && s.calls[k] == Method(name, num);
    var j := FindNum(s.calls, num);
    assert j == k;
  }

  /** The result of createStream gives the stream its id and is answered by the publish call, which waits under the next
    * id. */
  lemma StreamCreated(s: Session, e: Event)
    requires Distinct(s.calls, s.numInvokes) && s.open && AnswersCall(s, e, "createStream") && Written(e)
    ensures
      var r := Happens(s, e);
      && r.open && r.streamId == e.streamId && r.numInvokes == s.numInvokes + 1
      && |r.calls| == |s.calls| && r.calls[|r.calls| - 1] == Method("publish", s.numInvokes + 1)
      && Method("createStream", e.txn) !in r.calls
  {
    hide FindNum;
    OnlyPending(s, 0, e.txn, "createStream");
    GoneOnce(s, FindNum(s.calls, e.txn));
  }

  lemma GoneOnce(s: Session, i: nat)
    requires Distinct(s.calls, s.numInvokes) && i < |s.calls|
    ensures s.calls[i] !in Remove(s.calls, i)
  {
    var r := Remove(s.calls, i);
    forall k | 0 <= k < |r|
      ensures r[k].num != s.calls[i].num
    {
      assert r[k] == s.calls[if k < i then k else k + 1];
    }
  }

  /** The result of connect makes the client create a stream: releaseStream, FCPublish and createStream take the next
    * three ids, and createStream waits. */
  lemma StreamRequested(s: Session, e: Event)
    requires Distinct(s.calls, s.numInvokes) && s.open && AnswersCall(s, e, "connect") && Written(e)
    ensures
      var r := Happens(s, e);
      && r.open && r.numInvokes == s.numInvokes + 3
      && |r.calls| == |s.calls| && r.calls[|r.calls| - 1] == Method("createStream", s.numInvokes + 3)
  {
    hide FindNum;
    OnlyPending(s, 0, e.txn, "connect");
  }

  /** The result of publish makes the client playing, and so does the server's word that publishing has begun, which
    * also settles the first publish call. */
  lemma PublishedPlays(s: Session, e: Event)
    requires Distinct(s.calls, s.numInvokes)
    ensures AnswersCall(s, e, "publish") ==> Happens(s, e).playing
    ensures e == PublishStarted ==> Happens(s, e).playing
    ensures
      e == PublishStarted ==>
        PendingAs(Happens(s, e).calls, "publish") ==
        if PendingAs(s.calls, "publish") == 0 then 0 else PendingAs(s.calls, "publish") - 1
  {
    hide FindNum, FindName, PendingAs;
    if AnswersCall(s, e, "publish") {
      OnlyPending(s, 0, e.txn, "publish");
    }
    if e == PublishStarted {
      NoneOrOne(s.calls, "publish");
      var i := FindName(s.calls, "publish");
      if i < |s.calls| {
        CallsShrink(s.calls, i);
      }
    }
  }

  lemma {:induction false} NoneOrOne(calls: seq<Method>, name: string)
    ensures PendingAs(calls, name) == 0 <==> FindName(calls, name) == |calls|
  {
    if forall k :: 0 <= k < |calls| ==> calls[k].name != name {
      NonePending(calls, name);
    } else {
      CallsShrink(calls, FindName(calls, name));
    }
  }

  lemma {:induction false} NonePending(calls: seq<Method>, name: string)
    requires forall k :: 0 <= k < |calls| ==> calls[k].name != name
    ensures PendingAs(calls, name) == 0
  {
    if calls != [] {
      NonePending(calls[..|calls| - 1], name);
    }
  }

  /** Nothing in the event closes the connection or answers a createStream. */
  predicate Quiet(s: Session, e: Event) {
    Written(e) && e != Close && !(e.ErrorReply? && e.challenged) && !AnswersCall(s, e, "createStream")
  }

  lemma QuietKeeps(s: Session, e: Event)
    requires s.open && Quiet(s, e)
    ensures
      var r := Happens(s, e);
      r.open && r.streamId == s.streamId && (s.playing ==> r.playing)
  {
    hide FindName;
    if e.Result? {
      var i := FindNum(s.calls, e.txn);
      if i < |s.calls| {
        assert s.calls[i] == Method(s.calls[i].name, e.txn);
      }
    }
  }

  ghost predicate AllQuiet(before: seq<Event>, es: seq<Event>) {
    forall i :: 0 <= i < |es| ==> Quiet(Life(before + es[..i]), es[i])
  }

  lemma {:induction false} QuietLife(before: seq<Event>, es: seq<Event>)
    requires Life(before).open && AllQuiet(before, es)
    ensures
      var r := Life(before + es);
      r.open && r.streamId == Life(before).streamId && (Life(before).playing ==> r.playing)
    decreases |es|
  {
    hide Life, Quiet, Happens;
    if es == [] {
      assert before + es == before;
    } else {
      var es', e := es[..|es| - 1], es[|es| - 1];
      assert forall i :: 0 <= i < |es'| ==> es'[..i] == es[..i] && es'[i] == es[i];
      QuietLife(before, es');
      LifeGoesOn(before + es', e);
      assert before + es' + [e] == before + es;
      QuietKeeps(Life(before + es'), e);
    }
  }

  lemma LifeGoesOn(es: seq<Event>, e: Event)
    ensures Life(es + [e]) == Happens(Life(es), e)
  {
    assert (es + [e])[..|es|] == es;
  }

  /** The stream id is that of the last createStream answered, as long as the connection stays open. */
  lemma StreamIdIsLast(before: seq<Event>, e: Event, after: seq<Event>)
    requires AllAllowed(before) && Life(before).open && AnswersCall(Life(before), e, "createStream") && Written(e)
    requires AllQuiet(before + [e], after)
    ensures Life(before + [e] + after).open && Life(before + [e] + after).streamId == e.streamId
  {
    hide Life, Happens;
    AlwaysOrdered(before);
    StreamCreated(Life(before), e);
    LifeGoesOn(before, e);
    QuietLife(before + [e], after);
  }

  /** A challenged connect starts over: a new connection with one connect call pending, under id 1. */
  lemma ChallengeStartsOver(s: Session, txn: int, o: Outcome)
    requires Distinct(s.calls, s.numInvokes) && Method("connect", txn) in s.calls && o.Delivered?
    ensures
      Happens(s, ErrorReply(txn, true, o)) ==
      Session(true, 1, [Method("connect", 1)], -1, false, [Called("connect", 1, true)])
  {
    OnlyPending(s, 0, txn, "connect");
    assert [] + [Called("connect", 1, true)] == [Called("connect", 1, true)];
    assert [] + [Method("connect", 1)] == [Method("connect", 1)];
  }

  const FINE := Sends(Delivered, Delivered, Delivered, Delivered)

  /** The shortest way to a publish. */
  lemma ShortestLife()
    ensures
      var s := Life([Open(Delivered), Result(1, 0, false, FINE), Result(4, 1, false, FINE)]);
      s.open && s.calls == [Method("publish", 5)] && s.numInvokes == 5 && s.streamId == 1
  {
    hide Life, Happens, Distinct;
    var e1, e2, e3 := Open(Delivered), Result(1, 0, false, FINE), Result(4, 1, false, FINE);
    assert [] + [e1] == [e1] && [e1] + [e2] == [e1, e2] && [e1, e2] + [e3] == [e1, e2, e3];
    LifeGoesOn([], e1);
    LifeGoesOn([e1], e2);
    LifeGoesOn([e1, e2], e3);
    FirstConnect();
    AlwaysOrdered([e1]);
    assert Life([e1]).calls[0] == Method("connect", 1);
    StreamRequested(Life([e1]), e2);
    AlwaysOrdered([e1, e2]);
    assert Life([e1, e2]).calls[0] == Method("createStream", 4);
    StreamCreated(Life([e1, e2]), e3);
    assert Life([e1, e2, e3]).calls[0] == Method("publish", 5);
  }

  lemma FirstConnect()
    ensures
      Happens(Life([]), Open(Delivered)) ==
      Session(true, 1, [Method("connect", 1)], -1, false, [Called("connect", 1, true)])
  {
    assert [] + [Called("connect", 1, true)] == [Called("connect", 1, true)];
    assert [] + [Method("connect", 1)] == [Method("connect", 1)];
  }
}
