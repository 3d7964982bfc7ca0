/** After a video packet is dropped, does the video start again at a key frame? Exactly when, over every run. */
module SchedulerKeyFrames {
  import opened Bytes
  import opened SendQueue
  import opened Scheduler
  import opened SchedulerSafety
  import opened SchedulerStaleness

  ghost predicate Increasing(fs: seq<Frame>) {
    forall i, j :: 0 <= i < j < |fs| ==> fs[i].timestamp < fs[j].timestamp
  }

  /** Video is never held back: the bitrate status reads 0, or the strategy is the one in timestamp order. */
  predicate VideoKept(a: Action) {
    a.Thread? ==> a.env.minBitrate == 0 || a.env.sendVideoType == 1
  }

  predicate AllVideoKept(run: seq<Action>) {
    forall i :: 0 <= i < |run| ==> VideoKept(run[i])
  }

  /** Every video packet sent right after dropped ones is a key frame. */
  ghost predicate CaughtUp(fates: seq<Outcome>) {
    forall j :: 0 < j < |fates| && fates[j].fate.Sent? && !fates[j - 1].fate.Sent? ==> fates[j].frame.key
  }

  /** A video packet was dropped and none has been sent since. */
  predicate Owed(fates: seq<Outcome>) {
    fates != [] && !fates[|fates| - 1].fate.Sent?
  }

  /** The last video packet settled triggered a skip with no further video packet held. */
  predicate BlindlySkipped(fates: seq<Outcome>) {
    fates != [] && fates[|fates| - 1].fate == Trigger(true)
  }

  /** The step about to be taken sends an ordinary video packet, being on time, right after a blind skip. */
  predicate Exposed(s: State, a: Action) {
    && a.Thread? && a.env.sendOk && s.pc.Fresh? && s.hand.Some? && s.handVideo && !s.hand.value.key
    && BlindlySkipped(s.video.fates)
  }

  /** The video packets put and not yet settled, oldest first. */
  function Unsettled(s: State): seq<Frame> {
    if |s.video.fates| <= |s.video.put| then s.video.put[|s.video.fates|..] else []
  }

  ghost predicate KeyAhead(rest: seq<Frame>) {
    exists i :: 0 <= i < |rest| && rest[i].key
  }

  /** While a key frame is owed, one is still to come; outside the skip of the video queue the last drop was blind. */
  ghost predicate KeyFrameComes(s: State) {
    match s.pc
    case Done(_) => true
    case SkipVideo(_, keyTime) =>
      && KeyPut(s.video.put, keyTime)
      && (Owed(s.video.fates) ==> KeyPut(Unsettled(s), keyTime))
      && (Owed(s.video.fates) && s.video.head.None? ==> BlindlySkipped(s.video.fates))
    case _ => Owed(s.video.fates) ==> BlindlySkipped(s.video.fates) && KeyAhead(Unsettled(s))
  }

  lemma {:induction false} LastKeyOfRest(put: seq<Frame>, n: nat)
    requires n <= |put| && KeyAhead(put[n..])
    ensures KeyPut(put[n..], LastKeyTime(put))
  {
    var rest := put[n..];
    if put[|put| - 1].key {
      assert rest[|rest| - 1] == put[|put| - 1];
    } else {
      var before := put[..|put| - 1];
      var i :| 0 <= i < |rest| && rest[i].key;
      assert i < |rest| - 1 && before[n..][i] == rest[i];
      LastKeyOfRest(before, n);
      var k :| 0 <= k < |before[n..]| && before[n..][k].key && before[n..][k].timestamp == LastKeyTime(before);
      assert rest[k] == before[n..][k];
    }
  }

  /** A key frame newer than a packet is behind it in the queue. */
  lemma KeyBehind(put: seq<Frame>, n: nat, keyTime: uint32)
    requires Increasing(put) && n < |put| && put[n].timestamp < keyTime && KeyPut(put, keyTime)
    ensures KeyPut(put[n + 1..], keyTime)
  {
    var i :| 0 <= i < |put| && put[i].key && put[i].timestamp == keyTime;
    assert n < i;
    assert put[n + 1..][i - n - 1] == put[i];
  }

  /** A packet not older than a key frame still to come, and first in line, is that key frame. */
  lemma FirstIsTheKey(put: seq<Frame>, n: nat, keyTime: uint32)
    requires Increasing(put) && n < |put| && keyTime <= put[n].timestamp && KeyPut(put[n..], keyTime)
    ensures put[n].key
  {
    var rest := put[n..];
    var i :| 0 <= i < |rest| && rest[i].key && rest[i].timestamp == keyTime;
    if i > 0 {
      assert put[n].timestamp < put[n + i].timestamp;
    }
  }

  lemma CaughtUpAppended(fates: seq<Outcome>, o: Outcome)
    ensures
      CaughtUp(fates + [o]) <==> CaughtUp(fates) && (o.fate.Sent? && Owed(fates) ==> o.frame.key)
    ensures Owed(fates + [o]) <==> !o.fate.Sent?
    ensures BlindlySkipped(fates + [o]) <==> o.fate == Trigger(true)
  {
    var all := fates + [o];
    if CaughtUp(all) {
      forall j | 0 < j < |fates| && fates[j].fate.Sent? && !fates[j - 1].fate.Sent?
        ensures fates[j].frame.key
      {
        assert all[j] == fates[j] && all[j - 1] == fates[j - 1];
      }
      if Owed(fates) && o.fate.Sent? {
        assert all[|fates|] == o && all[|fates| - 1] == fates[|fates| - 1];
      }
    }
  }

  /** Where the video packet in hand, or else the head, stands among those put. */
  lemma NextInLine(s: State)
    requires Conserved(s)
    ensures |s.video.fates| <= |s.video.put|
    ensures
      s.hand.Some? && s.handVideo ==>
        |s.video.fates| < |s.video.put| && s.video.put[|s.video.fates|] == s.hand.value
    ensures
      HandOf(s, true) == [] ==> Unsettled(s) == HeadOf(s.video) + s.video.queue.waiting
    ensures
      HandOf(s, true) == [] && s.video.head.Some? ==>
        |s.video.fates| < |s.video.put| && s.video.put[|s.video.fates|] == s.video.head.value
  {
    hide FramesOf, SentOf, SentOn, BytesOf;
    assert s.video.put == FramesOf(s.video.fates) + (HandOf(s, true) + HeadOf(s.video) + s.video.queue.waiting);
  }

  lemma PutKeepsKey(s: State, f: Frame)
    requires KeyFrameComes(s) && |s.video.fates| <= |s.video.put|
    ensures KeyFrameComes(s.(video := Arrive(s.video, f)))
  {
    var r := s.(video := Arrive(s.video, f));
    assert Unsettled(r) == Unsettled(s) + [f];
    if KeyAhead(Unsettled(s)) {
      var i :| 0 <= i < |Unsettled(s)| && Unsettled(s)[i].key;
      assert Unsettled(r)[i] == Unsettled(s)[i];
    }
    if s.pc.SkipVideo? {
      KeyStillPut(s.video.put, f, s.pc.keyTime);
      KeyStillPut(Unsettled(s), f, s.pc.keyTime);
    }
  }

  lemma KeyStillPut(put: seq<Frame>, f: Frame, keyTime: uint32)
    ensures KeyPut(put, keyTime) ==> KeyPut(put + [f], keyTime)
  {
    if KeyPut(put, keyTime) {
      var i :| 0 <= i < |put| && put[i].key && put[i].timestamp == keyTime;
      assert (put + [f])[i] == put[i];
    }
  }

  /** What every step does to the outcomes of the video stream, and what it leaves alone. */
  lemma HandSettled(s: State, fate: Fate, reason: Reason)
    requires s.hand.Some?
    ensures
      var r := SettleHand(s, s.hand.value, fate);
      && r.video.put == s.video.put && r.video.head == s.video.head && r.pc == s.pc
      && r.video.fates == if s.handVideo then s.video.fates + [Outcome(s.hand.value, fate)] else s.video.fates
    ensures
      var r := SendHand(s, s.hand.value, reason, true);
      && r.pc == Top && r.video.put == s.video.put
      && r.video.fates == if s.handVideo then s.video.fates + [Outcome(s.hand.value, Sent)] else s.video.fates
    ensures
      var r := SendHand(s, s.hand.value, reason, false);
      && r.pc == Done(false) && r.video == s.video
  {
  }

  /** One step from `s` to `r` keeps the key frame coming, and keeps catching up unless it was exposed. */
  ghost predicate StepsTo(s: State, a: Action, r: State) {
    && KeyFrameComes(r)
    && (CaughtUp(r.video.fates) <==> CaughtUp(s.video.fates) && !Exposed(s, a))
  }

  /** A packet that is on time is sent: with video never held back there is no other outcome. */
  lemma FreshIsSent(cfg: Config, s: State, now: uint32, f: Frame, env: Env)
    requires VideoKept(Thread(env)) && s.hand == Some(f)
    ensures
      var r := StepFresh(cfg, s, now, f, env);
      && (!env.sendOk ==> r.pc == Done(false) && r.video.fates == s.video.fates)
      && (env.sendOk ==> r.pc == Top && r.video.put == s.video.put
                         && r.video.fates == if s.handVideo then s.video.fates + [Outcome(f, Sent)] else s.video.fates)
  {
    hide SendHand, SettleHand, Minus;
    HandSettled(s, Sent, OnTime(s.taken, now));
    HandSettled(s.(sendVideo := false, lastDelay := now), Sent, OnTime(s.taken, now));
  }

  lemma FreshCatchesUp(cfg: Config, s: State, now: uint32, f: Frame, env: Env)
    requires KeyFrameComes(s) && s.pc == Fresh(now) && s.hand == Some(f) && VideoKept(Thread(env))
    ensures StepsTo(s, Thread(env), StepFresh(cfg, s, now, f, env))
  {
    hide StepFresh, CaughtUp, KeyAhead, KeyPut, Unsettled, VideoKept;
    var r := StepFresh(cfg, s, now, f, env);
    FreshIsSent(cfg, s, now, f, env);
    CaughtUpAppended(s.video.fates, Outcome(f, Sent));
    if env.sendOk && !s.handVideo {
      SameUnsettled(s, r);
    }
  }

  lemma LateSends(s: State, now: uint32, f: Frame, env: Env)
    requires Conserved(s) && Increasing(s.video.put) && KeyFrameComes(s) && s.pc == Late(now) && s.hand == Some(f)
    requires s.video.queue.lastKeyTime <= f.timestamp
    ensures StepsTo(s, Thread(env), StepLate(s, now, f, env))
  {
    hide Conserved, Increasing, SendHand, SettleHand, CaughtUp, KeyAhead, KeyPut, Owed, BlindlySkipped, LastKeyTime;
    hide Unsettled;
    var keyTime, n := s.video.queue.lastKeyTime, |s.video.fates|;
    HandSettled(s, Sent, NotOlder(keyTime));
    CaughtUpAppended(s.video.fates, Outcome(f, Sent));
    if Owed(s.video.fates) && s.handVideo {
      OwedKey(s);
      NextInLine(s);
      UnsettledIs(s);
      FirstIsTheKey(s.video.put, n, keyTime);
    }
    if !s.handVideo || !env.sendOk {
      SameUnsettled(s, StepLate(s, now, f, env));
    }
  }

  /** While a key frame is owed, the last key frame put is still to come. */
  lemma OwedKey(s: State)
    requires Conserved(s) && KeyAhead(Unsettled(s))
    ensures KeyPut(Unsettled(s), s.video.queue.lastKeyTime)
  {
    NextInLine(s);
    LastKeyOfRest(s.video.put, |s.video.fates|);
  }

  lemma UnsettledIs(s: State)
    requires |s.video.fates| <= |s.video.put|
    ensures Unsettled(s) == s.video.put[|s.video.fates|..]
  {
  }

  lemma SomethingPut(put: seq<Frame>, keyTime: uint32)
    requires KeyPut(put, keyTime)
    ensures put != []
  {
  }

  lemma SameUnsettled(s: State, r: State)
    requires r.video.put == s.video.put && r.video.fates == s.video.fates
    ensures Unsettled(r) == Unsettled(s)
  {
  }

  lemma LateSkips(s: State, now: uint32, f: Frame, env: Env)
    requires Conserved(s) && Increasing(s.video.put) && KeyFrameComes(s) && s.pc == Late(now) && s.hand == Some(f)
    requires s.video.queue.lastKeyTime > f.timestamp
    ensures StepsTo(s, Thread(env), StepLate(s, now, f, env))
  {
    hide Conserved, Increasing, SendHand, SettleHand, CaughtUp, KeyAhead, KeyPut, Owed, BlindlySkipped, LastKeyTime;
    hide Unsettled;
    var keyTime, n := s.video.queue.lastKeyTime, |s.video.fates|;
    var fate := Trigger((if s.handVideo then s.video else s.audio).head.None?);
    HandSettled(s, fate, NotOlder(0));
    CaughtUpAppended(s.video.fates, Outcome(f, fate));
    KeyTimeWasPut(s);
    var r := StepLate(s, now, f, env);
    if s.handVideo {
      NextInLine(s);
      KeyBehind(s.video.put, n, keyTime);
      UnsettledIs(r);
    } else {
      SameUnsettled(s, r);
      if Owed(s.video.fates) {
        OwedKey(s);
      }
    }
  }

  lemma KeyTimeWasPut(s: State)
    requires Conserved(s) && s.video.queue.lastKeyTime > 0
    ensures KeyPut(s.video.put, s.video.queue.lastKeyTime)
  {
    LastKeyWasPut(s.video.put);
  }

  lemma SkipOneEffect(st: Stream, f: Frame, keyTime: uint32)
    ensures
      var r := SkipOne(st, f, keyTime);
      && r.put == st.put && r.fates == st.fates + [Outcome(f, if f.timestamp < keyTime then Skipped else Sent)]
      && (r.head.None? <==> st.queue.waiting == [])
  {
  }

  lemma SkipDrops(s: State, now: uint32, keyTime: uint32, f: Frame, env: Env)
    requires Conserved(s) && Increasing(s.video.put) && KeyFrameComes(s) && s.pc == SkipVideo(now, keyTime)
    requires s.video.head == Some(f) && s.hand.None?
    ensures StepsTo(s, Thread(env), StepSkipVideo(s, now, keyTime, env))
  {
    hide Conserved, Increasing, CaughtUp, KeyAhead, KeyPut, Owed, BlindlySkipped, SkipOne, Unsettled;
    var n := |s.video.fates|;
    NextInLine(s);
    SkipOneEffect(s.video, f, keyTime);
    CaughtUpAppended(s.video.fates, Outcome(f, if f.timestamp < keyTime then Skipped else Sent));
    UnsettledIs(s);
    assert s.video.put[n..][1..] == s.video.put[n + 1..];
    var r := StepSkipVideo(s, now, keyTime, env);
    if f.timestamp < keyTime {
      UnsettledIs(r);
      assert s.video.put[n + 1..] == s.video.queue.waiting;
      KeyBehind(s.video.put, n, keyTime);
      SomethingPut(s.video.queue.waiting, keyTime);
    } else {
      if Owed(s.video.fates) {
        FirstIsTheKey(s.video.put, n, keyTime);
      }
    }
  }

  lemma SkipEnds(s: State, now: uint32, keyTime: uint32, env: Env)
    requires KeyFrameComes(s) && s.pc == SkipVideo(now, keyTime) && s.video.head.None?
    ensures StepsTo(s, Thread(env), StepSkipVideo(s, now, keyTime, env))
  {
    hide CaughtUp;
    SameUnsettled(s, StepSkipVideo(s, now, keyTime, env));
  }

  /** Any other step of the thread leaves the outcomes of the video stream as they are. */
  lemma OtherCatchesUp(cfg: Config, s: State, env: Env)
    requires Conserved(s) && KeyFrameComes(s) && !s.pc.Fresh? && !s.pc.Late? && !s.pc.SkipVideo?
    ensures StepsTo(s, Thread(env), Step(cfg, s, env))
  {
    hide Conserved, CaughtUp, KeyAhead, Owed, BlindlySkipped, WithinDelay, Fetch, Take, Unsettled, StepSkipAudio;
    FetchKeepsHistory(s.video);
    FetchKeepsHistory(s.audio);
    StepPutsNothing(cfg, s, env);
    if s.pc == Choosing {
      TakeKeepsHistory(s);
      TakeSamePuts(s);
    }
    if s.pc.SkipAudio? {
      SkipSamePuts(s, s.pc.now, s.pc.keyTime, env);
      SkipAudioKeepsVideo(s, s.pc.now, s.pc.keyTime, env);
    }
    SameUnsettled(s, Step(cfg, s, env));
  }

  lemma SkipAudioKeepsVideo(s: State, now: uint32, keyTime: uint32, env: Env)
    ensures StepSkipAudio(s, now, keyTime, env).video == s.video
  {
  }

  lemma NextCatchesUp(cfg: Config, s: State, a: Action)
    requires Conserved(s) && Increasing(s.video.put) && KeyFrameComes(s) && VideoKept(a)
    ensures StepsTo(s, a, Next(cfg, s, a))
  {
    hide Conserved, Increasing, KeyFrameComes, CaughtUp, StepFresh, StepLate, StepSkipVideo, StepSkipAudio, Take;
    hide Fetch, WithinDelay;
    NextInLine(s);
    match a
    case PutVideo(f) => PutKeepsKey(s, f);
    case PutAudio(f) => AudioKeepsKey(s, f);
    case Thread(env) =>
      HeldWhenJudged(s);
      match s.pc
      case Fresh(now) => FreshCatchesUp(cfg, s, now, s.hand.value, env);
      case Late(now) =>
        if s.video.queue.lastKeyTime <= s.hand.value.timestamp {
          LateSends(s, now, s.hand.value, env);
        } else {
          LateSkips(s, now, s.hand.value, env);
        }
      case SkipVideo(now, keyTime) =>
        if s.video.head.Some? {
          SkipDrops(s, now, keyTime, s.video.head.value, env);
        } else {
          SkipEnds(s, now, keyTime, env);
        }
      case _ => OtherCatchesUp(cfg, s, env);
  }

  lemma AudioKeepsKey(s: State, f: Frame)
    requires KeyFrameComes(s)
    ensures KeyFrameComes(s.(audio := Arrive(s.audio, f)))
  {
    SameUnsettled(s, s.(audio := Arrive(s.audio, f)));
  }

  lemma IncreasingPrefix(cfg: Config, s: State, a: Action)
    requires Increasing(Next(cfg, s, a).video.put)
    ensures Increasing(s.video.put)
  {
    hide Step;
    if a.PutVideo? {
      assert forall i :: 0 <= i < |s.video.put| ==> Next(cfg, s, a).video.put[i] == s.video.put[i];
    } else if a.Thread? {
      StepPutsNothing(cfg, s, a.env);
    }
  }

  /** A run is exposed when one of its steps is. */
  ghost predicate EverExposed(cfg: Config, run: seq<Action>) {
    exists i :: 0 <= i < |run| && Exposed(Run(cfg, run[..i]), run[i])
  }

  lemma AtFirst()
    ensures KeyFrameComes(INITIAL) && CaughtUp(INITIAL.video.fates)
  {
  }

  lemma {:induction false} CatchUpInvariant(cfg: Config, run: seq<Action>)
    requires Increasing(Run(cfg, run).video.put) && AllVideoKept(run)
    ensures KeyFrameComes(Run(cfg, run))
    ensures CaughtUp(Run(cfg, run).video.fates) <==> !EverExposed(cfg, run)
  {
    hide Conserved, Increasing, KeyFrameComes, CaughtUp, Exposed, Next;
    if run == [] {
      AtFirst();
    } else {
      var before, a := run[..|run| - 1], run[|run| - 1];
      var s := Run(cfg, before);
      Conservation(cfg, before);
      IncreasingPrefix(cfg, s, a);
      assert VideoKept(a) && AllVideoKept(before);
      CatchUpInvariant(cfg, before);
      NextCatchesUp(cfg, s, a);
      assert forall i :: 0 <= i < |before| ==> before[..i] == run[..i] && before[i] == run[i];
      assert EverExposed(cfg, run) <==> EverExposed(cfg, before) || Exposed(s, a);
    }
  }

  /** With strictly increasing video timestamps and video never held back: the first video packet sent after dropped
    * ones is always a key frame, if and only if no ordinary on-time video packet is sent right after a blind skip. */
  lemma KeyFrameCatchUp(cfg: Config, run: seq<Action>)
    requires Increasing(Run(cfg, run).video.put) && AllVideoKept(run)
    ensures CaughtUp(Run(cfg, run).video.fates) <==> !EverExposed(cfg, run)
  {
    CatchUpInvariant(cfg, run);
  }

  // ---------- what the producers must avoid ----------

  /** The packet in hand is being judged: the clock and the last key-frame time are read meanwhile. */
  predicate Judging(pc: Pc) {
    pc == ReadVideo || pc.ReadAudio? || pc.ReadNewest? || pc.Late?
  }

  /** An ordinary video packet arrives while the only video packet in the thread and its buffer is being judged. */
  predicate Untimely(s: State, a: Action) {
    && a.PutVideo? && !a.frame.key && Judging(s.pc) && HandOf(s, true) != []
    && s.video.head.None? && s.video.queue.waiting == []
  }

  ghost predicate EverUntimely(cfg: Config, run: seq<Action>) {
    exists i :: 0 <= i < |run| && Untimely(Run(cfg, run[..i]), run[i])
  }

  /** After a blind skip the next video packet is a key frame; so is the one behind a judged packet with no head. */
  ghost predicate KeyIsNext(s: State) {
    || s.pc.Done?
    || (&& (BlindlySkipped(s.video.fates) ==> Unsettled(s) != [] && Unsettled(s)[0].key)
        && (Judging(s.pc) && HandOf(s, true) != [] && s.video.head.None? ==>
              s.video.queue.waiting == [] || s.video.queue.waiting[0].key))
  }

  lemma NextIsNotExposed(s: State, a: Action)
    requires Conserved(s) && KeyIsNext(s)
    ensures !Exposed(s, a)
  {
    hide Conserved;
    NextInLine(s);
  }

  /** As long as outcomes and puts of the video stream stay, so does what comes next. */
  lemma SameNext(s: State, r: State)
    requires KeyIsNext(s) && !s.pc.Done? && r.video.put == s.video.put && r.video.fates == s.video.fates
    requires !Judging(r.pc) || (Judging(s.pc) && r.video == s.video && HandOf(r, true) == HandOf(s, true))
    ensures KeyIsNext(r)
  {
    SameUnsettled(s, r);
  }

  lemma PutKeepsNext(s: State, f: Frame)
    requires Conserved(s) && KeyFrameComes(s) && KeyIsNext(s) && !Untimely(s, PutVideo(f))
    ensures KeyIsNext(s.(video := Arrive(s.video, f)))
  {
    hide Conserved, Owed, KeyAhead, KeyPut;
    var r := s.(video := Arrive(s.video, f));
    NextInLine(s);
    assert Unsettled(r) == Unsettled(s) + [f];
  }

  lemma TakeIsNext(s: State)
    requires KeyIsNext(s) && s.pc == Choosing
    ensures KeyIsNext(Take(s))
  {
    hide Unsettled, BlindlySkipped;
    SameUnsettled(s, Take(s));
  }

  /** A late packet of the video stream that triggers a skip leaves what waits behind it. */
  lemma LateKeepsNext(s: State, now: uint32, f: Frame, env: Env)
    requires Conserved(s) && Increasing(s.video.put) && KeyFrameComes(s) && KeyIsNext(s)
    requires s.pc == Late(now) && s.hand == Some(f)
    ensures KeyIsNext(StepLate(s, now, f, env))
  {
    hide Conserved, Increasing, SendHand, SettleHand, Unsettled, CaughtUp, KeyAhead, LastKeyTime;
    var keyTime, r := s.video.queue.lastKeyTime, StepLate(s, now, f, env);
    HandSettled(s, Sent, NotOlder(keyTime));
    HandSettled(s, Trigger((if s.handVideo then s.video else s.audio).head.None?), NotOlder(0));
    if !s.handVideo || (keyTime <= f.timestamp && !env.sendOk) {
      SameUnsettled(s, r);
    } else if keyTime > f.timestamp {
      NextInLine(s);
      LateConserves(s, now, env);
      NextInLine(r);
      LateSkips(s, now, f, env);
      SameQueue(s, now, f, env);
    }
  }

  lemma SameQueue(s: State, now: uint32, f: Frame, env: Env)
    requires s.video.queue.lastKeyTime > f.timestamp
    ensures StepLate(s, now, f, env).video.queue == s.video.queue
    ensures StepLate(s, now, f, env).video.head == s.video.head && StepLate(s, now, f, env).hand.None?
  {
  }

  lemma OtherKeepsNext(cfg: Config, s: State, env: Env)
    requires KeyIsNext(s) && !s.pc.Fresh? && !s.pc.Late? && !s.pc.SkipVideo? && s.pc != Choosing
    ensures KeyIsNext(Step(cfg, s, env))
  {
    hide KeyIsNext, WithinDelay, Fetch, StepSkipAudio;
    if !s.pc.Done? {
      FetchKeepsHistory(s.video);
      if s.pc.SkipAudio? {
        SkipSamePuts(s, s.pc.now, s.pc.keyTime, env);
        SkipAudioKeepsVideo(s, s.pc.now, s.pc.keyTime, env);
      }
      SameNext(s, Step(cfg, s, env));
    }
  }

  lemma FreshKeepsNext(cfg: Config, s: State, now: uint32, f: Frame, env: Env)
    requires KeyIsNext(s) && s.pc == Fresh(now) && s.hand == Some(f) && VideoKept(Thread(env))
    ensures KeyIsNext(StepFresh(cfg, s, now, f, env))
  {
    hide StepFresh, Unsettled, VideoKept;
    FreshIsSent(cfg, s, now, f, env);
    if env.sendOk && !s.handVideo {
      SameUnsettled(s, StepFresh(cfg, s, now, f, env));
    }
  }

  lemma SkipKeepsNext(s: State, now: uint32, keyTime: uint32, env: Env)
    requires KeyIsNext(s) && s.pc == SkipVideo(now, keyTime)
    ensures KeyIsNext(StepSkipVideo(s, now, keyTime, env))
  {
    hide SkipOne, Unsettled;
    SameUnsettled(s, s.(pc := SkipAudio(now, keyTime)));
    if s.video.head.Some? {
      SkipOneEffect(s.video, s.video.head.value, keyTime);
    }
  }

  lemma NextKeepsNext(cfg: Config, s: State, a: Action)
    requires Conserved(s) && Increasing(s.video.put) && KeyFrameComes(s) && KeyIsNext(s) && VideoKept(a)
    requires !Untimely(s, a)
    ensures KeyIsNext(Next(cfg, s, a))
  {
    hide Conserved, Increasing, KeyFrameComes, KeyIsNext, Untimely;
    hide StepFresh, StepLate, StepSkipVideo, StepSkipAudio, Take, Fetch, WithinDelay;
    match a
    case PutVideo(f) => PutKeepsNext(s, f);
    case PutAudio(f) => AudioKeepsNext(s, f);
    case Thread(env) =>
      HeldWhenJudged(s);
      match s.pc
      case Fresh(now) => FreshKeepsNext(cfg, s, now, s.hand.value, env);
      case Late(now) => LateKeepsNext(s, now, s.hand.value, env);
      case SkipVideo(now, keyTime) => SkipKeepsNext(s, now, keyTime, env);
      case Choosing =>
        ChooseStep(cfg, s, env);
        TakeIsNext(s);
        StopsAtOnce(s);
      case _ => OtherKeepsNext(cfg, s, env);
  }

  lemma AudioKeepsNext(s: State, f: Frame)
    requires KeyIsNext(s)
    ensures KeyIsNext(s.(audio := Arrive(s.audio, f)))
  {
    SameUnsettled(s, s.(audio := Arrive(s.audio, f)));
  }

  lemma StopsAtOnce(s: State)
    ensures KeyIsNext(s.(pc := Done(true))) && KeyIsNext(INITIAL)
  {
  }

  lemma {:induction false} KeyIsNextInvariant(cfg: Config, run: seq<Action>)
    requires Increasing(Run(cfg, run).video.put) && AllVideoKept(run) && !EverUntimely(cfg, run)
    ensures KeyIsNext(Run(cfg, run)) && !EverExposed(cfg, run)
  {
    hide Conserved, Increasing, KeyFrameComes, KeyIsNext, Untimely, Exposed, Next;
    if run == [] {
      StopsAtOnce(INITIAL);
    } else {
      var before, a := run[..|run| - 1], run[|run| - 1];
      var s := Run(cfg, before);
      Conservation(cfg, before);
      IncreasingPrefix(cfg, s, a);
      assert VideoKept(a) && AllVideoKept(before);
      assert forall i :: 0 <= i < |before| ==> before[..i] == run[..i] && before[i] == run[i];
      assert EverUntimely(cfg, run) <==> EverUntimely(cfg, before) || Untimely(s, a);
      assert EverExposed(cfg, run) <==> EverExposed(cfg, before) || Exposed(s, a);
      KeyIsNextInvariant(cfg, before);
      CatchUpInvariant(cfg, before);
      NextIsNotExposed(s, a);
      NextKeepsNext(cfg, s, a);
    }
  }

  /** What the producers can see to: with strictly increasing video timestamps and video never held back, the first
    * video packet sent after dropped ones is always a key frame as long as no ordinary video packet is put while the
    * last video packet there is, is being judged. */
  lemma TimelyPutsCatchUp(cfg: Config, run: seq<Action>)
    requires Increasing(Run(cfg, run).video.put) && AllVideoKept(run) && !EverUntimely(cfg, run)
    ensures CaughtUp(Run(cfg, run).video.fates)
  {
    hide Run, CaughtUp, Increasing, AllVideoKept, EverUntimely, EverExposed;
    KeyIsNextInvariant(cfg, run);
    KeyFrameCatchUp(cfg, run);
  }

  /** Outcomes are only ever added. */
  lemma FatesGrow(cfg: Config, s: State, a: Action)
    ensures s.video.fates <= Next(cfg, s, a).video.fates
  {
    hide StepFresh, StepLate, StepSkipVideo, StepSkipAudio, Take, Fetch, WithinDelay;
    if a.Thread? {
      FetchKeepsHistory(s.video);
      FetchKeepsHistory(s.audio);
      match s.pc
      case Choosing => TakeKeepsHistory(s);
      case Fresh(now) => if s.hand.Some? { FreshGrows(cfg, s, now, s.hand.value, a.env); }
      case Late(now) => if s.hand.Some? { LateGrows(s, now, s.hand.value, a.env); }
      case SkipVideo(now, keyTime) => SkipGrows(s, now, keyTime, a.env);
      case SkipAudio(now, keyTime) => SkipAudioKeepsVideo(s, now, keyTime, a.env);
      case _ =>
    }
  }

  lemma FreshGrows(cfg: Config, s: State, now: uint32, f: Frame, env: Env)
    ensures s.video.fates <= StepFresh(cfg, s, now, f, env).video.fates
  {
    hide Minus;
  }

  lemma LateGrows(s: State, now: uint32, f: Frame, env: Env)
    ensures s.video.fates <= StepLate(s, now, f, env).video.fates
  {
  }

  lemma SkipGrows(s: State, now: uint32, keyTime: uint32, env: Env)
    ensures s.video.fates <= StepSkipVideo(s, now, keyTime, env).video.fates
  {
    hide SkipOne;
    if s.video.head.Some? {
      SkipOneEffect(s.video, s.video.head.value, keyTime);
    }
  }

  lemma {:induction false} FatesArePrefix(cfg: Config, run: seq<Action>, n: nat)
    requires n <= |run|
    ensures Run(cfg, run[..n]).video.fates <= Run(cfg, run).video.fates
    decreases |run|
  {
    hide Next;
    if n < |run| {
      var before := run[..|run| - 1];
      FatesArePrefix(cfg, before, n);
      assert before[..n] == run[..n];
      FatesGrow(cfg, Run(cfg, before), run[|run| - 1]);
    } else {
      assert run[..n] == run;
    }
  }

  /** Some skip of the run began with no further video packet held. */
  ghost predicate EverBlind(fates: seq<Outcome>) {
    exists i :: 0 <= i < |fates| && fates[i].fate == Trigger(true)
  }

  lemma ExposedIsBlind(cfg: Config, run: seq<Action>)
    requires EverExposed(cfg, run)
    ensures EverBlind(Run(cfg, run).video.fates)
  {
    hide Run;
    var i :| 0 <= i < |run| && Exposed(Run(cfg, run[..i]), run[i]);
    FatesArePrefix(cfg, run, i);
    var fates := Run(cfg, run[..i]).video.fates;
    assert Run(cfg, run).video.fates[|fates| - 1].fate == Trigger(true);
  }

  /** As long as a further video packet is held whenever a late one triggers a skip, video always starts again at a key
    * frame. */
  lemma HeldVideoCatchesUp(cfg: Config, run: seq<Action>)
    requires Increasing(Run(cfg, run).video.put) && AllVideoKept(run) && !EverBlind(Run(cfg, run).video.fates)
    ensures CaughtUp(Run(cfg, run).video.fates)
  {
    hide Run, CaughtUp, Increasing, EverBlind, EverExposed;
    KeyFrameCatchUp(cfg, run);
    assert !EverExposed(cfg, run) by {
      if EverExposed(cfg, run) {
        ExposedIsBlind(cfg, run);
      }
    }
  }
}
