/** How old a packet can be when it is sent, and how late it must be to be dropped, over every run. */
module SchedulerStaleness {
  import opened Bytes
  import opened SendQueue
  import opened Scheduler
  import opened SchedulerSafety

  ghost predicate NonDecreasing(fs: seq<Frame>) {
    forall i, j :: 0 <= i < j < |fs| ==> fs[i].timestamp <= fs[j].timestamp
  }

  /** The producers put non-decreasing timestamps into each buffer. */
  ghost predicate InTimeOrder(s: State) {
    NonDecreasing(s.video.put) && NonDecreasing(s.audio.put)
  }

  /** The clock readings are consistent: what was read is never ahead of the buffers nor behind what is held. */
  ghost predicate Clocked(cfg: Config, s: State) {
    && s.lastDelay <= Newest(s) && s.taken <= Newest(s)
    && match s.pc
       case ReadAudio(v) =>
         && v <= s.video.queue.lastTime && s.lastDelay <= Max(v, s.audio.queue.lastTime)
         && s.taken <= Max(v, s.audio.queue.lastTime)
         && (s.hand.Some? && s.handVideo ==> s.hand.value.timestamp <= v)
       case ReadNewest(v, a) =>
         && v <= s.video.queue.lastTime && a <= s.audio.queue.lastTime && s.lastDelay <= Max(v, a)
         && s.taken <= Max(v, a)
         && (s.hand.Some? ==> s.hand.value.timestamp <= if s.handVideo then v else a)
       case Fresh(now) =>
         && s.lastDelay <= now <= Newest(s) && s.taken <= now
         && (s.hand.Some? ==> s.hand.value.timestamp <= now && WithinDelay(cfg, now, s.hand.value))
       case Late(now) =>
         && s.lastDelay <= now <= Newest(s) && s.taken <= now
         && (s.hand.Some? ==> s.hand.value.timestamp <= now && !WithinDelay(cfg, now, s.hand.value))
       case SkipVideo(now, _) => now <= Newest(s)
       case SkipAudio(now, _) => now <= Newest(s)
       case _ => true
  }

  lemma {:induction false} NoNewerThanLast(fs: seq<Frame>, f: Frame)
    requires NonDecreasing(fs) && f in fs
    ensures f.timestamp <= LastTime(fs)
  {
    var i :| 0 <= i < |fs| && fs[i] == f;
  }

  lemma HandNotNewer(s: State)
    requires Conserved(s) && InTimeOrder(s) && s.hand.Some?
    ensures s.hand.value.timestamp <= (if s.handVideo then s.video else s.audio).queue.lastTime
  {
    var st := if s.handVideo then s.video else s.audio;
    assert st.put[|FramesOf(st.fates)|] == s.hand.value;
    NoNewerThanLast(st.put, s.hand.value);
  }

  lemma ArrivalIsNewer(st: Stream, f: Frame)
    requires NonDecreasing(st.put + [f]) && st.queue.lastTime == LastTime(st.put)
    ensures st.queue.lastTime <= Arrive(st, f).queue.lastTime && NonDecreasing(st.put)
  {
    var all := st.put + [f];
    assert forall i :: 0 <= i < |st.put| ==> all[i] == st.put[i];
    if st.put != [] {
      assert all[|st.put| - 1].timestamp <= all[|st.put|].timestamp;
    }
  }

  /** Nothing was put and no time field of a buffer changed. */
  ghost predicate SamePuts(s: State, r: State) {
    && r.video.put == s.video.put && r.audio.put == s.audio.put
    && r.video.queue.lastTime == s.video.queue.lastTime && r.audio.queue.lastTime == s.audio.queue.lastTime
    && r.video.queue.lastKeyTime == s.video.queue.lastKeyTime
  }

  lemma SentSamePuts(s: State, f: Frame, reason: Reason, fate: Fate, ok: bool)
    ensures SamePuts(s, SettleHand(s, f, fate)) && SamePuts(s, SendHand(s, f, reason, ok))
    ensures SendHand(s, f, reason, ok).lastDelay == s.lastDelay && SendHand(s, f, reason, ok).taken == s.taken
    ensures SendHand(s, f, reason, ok).pc == if ok then Top else Done(false)
    ensures SettleHand(s, f, fate).lastDelay == s.lastDelay && SettleHand(s, f, fate).taken == s.taken
      && SettleHand(s, f, fate).pc == s.pc
  {
  }

  lemma FreshSamePuts(cfg: Config, s: State, now: uint32, f: Frame, env: Env)
    ensures
      var r := StepFresh(cfg, s, now, f, env);
      SamePuts(s, r) && r.taken == s.taken && (r.lastDelay == s.lastDelay || r.lastDelay == now)
        && (r.pc == Top || r.pc == Done(false))
  {
    hide SendHand, SettleHand, WithinDelay, Minus;
    var held := s.(sendVideo := false, lastDelay := now);
    SentSamePuts(s, f, OnTime(s.taken, now), Withheld, env.sendOk);
    SentSamePuts(held, f, OnTime(s.taken, now), Withheld, env.sendOk);
  }

  lemma LateSamePuts(s: State, now: uint32, f: Frame, env: Env)
    ensures
      var r := StepLate(s, now, f, env);
      && SamePuts(s, r) && r.taken == s.taken && r.lastDelay == s.lastDelay
      && (r.pc == Top || r.pc == Done(false) || r.pc == SkipVideo(now, s.video.queue.lastKeyTime))
  {
    hide SendHand, SettleHand;
    SentSamePuts(s, f, NotOlder(s.video.queue.lastKeyTime),
                 Trigger((if s.handVideo then s.video else s.audio).head.None?), env.sendOk);
  }

  lemma SkipSamePuts(s: State, now: uint32, keyTime: uint32, env: Env)
    ensures
      var r := StepSkipVideo(s, now, keyTime, env);
      && SamePuts(s, r) && r.taken == s.taken && r.lastDelay == s.lastDelay
      && (r.pc == s.pc || r.pc == Done(false) || r.pc == SkipAudio(now, keyTime))
    ensures
      var r := StepSkipAudio(s, now, keyTime, env);
      && SamePuts(s, r) && r.taken == s.taken && (r.lastDelay == s.lastDelay || r.lastDelay == now)
      && (r.pc == s.pc || r.pc == Done(false) || r.pc == Top)
  {
  }

  lemma TakeSamePuts(s: State)
    ensures SamePuts(s, Take(s)) && Take(s).lastDelay == s.lastDelay
      && (Take(s).taken == s.taken || Take(s).taken == Newest(s)) && (Take(s).pc == ReadVideo || Take(s).pc == Top)
  {
  }

  lemma StepPutsNothing(cfg: Config, s: State, env: Env)
    ensures SamePuts(s, Step(cfg, s, env))
  {
    hide WithinDelay, StepFresh, StepLate, StepSkipVideo, StepSkipAudio, Take;
    match s.pc
    case Choosing => TakeSamePuts(s);
    case Fresh(now) => if s.hand.Some? { FreshSamePuts(cfg, s, now, s.hand.value, env); }
    case Late(now) => if s.hand.Some? { LateSamePuts(s, now, s.hand.value, env); }
    case SkipVideo(now, keyTime) => SkipSamePuts(s, now, keyTime, env);
    case SkipAudio(now, keyTime) => SkipSamePuts(s, now, keyTime, env);
    case _ =>
  }

  lemma StepClocked(cfg: Config, s: State, env: Env)
    requires Conserved(s) && InTimeOrder(s) && Clocked(cfg, s)
    ensures Clocked(cfg, Step(cfg, s, env))
  {
    hide Conserved, InTimeOrder, WithinDelay, StepFresh, StepLate, StepSkipVideo, StepSkipAudio, Take, Fetch;
    if s.hand.Some? {
      HandNotNewer(s);
    }
    StepPutsNothing(cfg, s, env);
    match s.pc
    case Choosing => TakeSamePuts(s);
    case Fresh(now) => if s.hand.Some? { FreshSamePuts(cfg, s, now, s.hand.value, env); }
    case Late(now) => if s.hand.Some? { LateSamePuts(s, now, s.hand.value, env); }
    case SkipVideo(now, keyTime) => SkipSamePuts(s, now, keyTime, env);
    case SkipAudio(now, keyTime) => SkipSamePuts(s, now, keyTime, env);
    case _ =>
  }

  /** Reading the clock: the two subtractions of the thread never wrap around. */
  lemma {:induction false} ClockNeverWraps(cfg: Config, run: seq<Action>)
    requires InTimeOrder(Run(cfg, run))
    ensures Clocked(cfg, Run(cfg, run))
    ensures
      var s := Run(cfg, run);
      s.pc.Fresh? && s.hand.Some? ==>
        && Minus(s.pc.now, s.hand.value.timestamp) == s.pc.now - s.hand.value.timestamp
        && Minus(s.pc.now, s.lastDelay) == s.pc.now - s.lastDelay
  {
    hide Conserved, Step, WithinDelay;
    if run != [] {
      var s := Run(cfg, run[..|run| - 1]);
      Conservation(cfg, run[..|run| - 1]);
      PutsGrow(cfg, s, run[|run| - 1]);
      ClockNeverWraps(cfg, run[..|run| - 1]);
      match run[|run| - 1]
      case PutVideo(f) =>
      case PutAudio(f) =>
      case Thread(env) => StepClocked(cfg, s, env);
    }
  }

  /** A step puts nothing; a put only adds to what was put, later in time. */
  lemma PutsGrow(cfg: Config, s: State, a: Action)
    requires Conserved(s) && InTimeOrder(Next(cfg, s, a))
    ensures InTimeOrder(s)
    ensures s.video.queue.lastTime <= Next(cfg, s, a).video.queue.lastTime
    ensures s.audio.queue.lastTime <= Next(cfg, s, a).audio.queue.lastTime
  {
    hide Step;
    match a
    case PutVideo(f) => ArrivalIsNewer(s.video, f);
    case PutAudio(f) => ArrivalIsNewer(s.audio, f);
    case Thread(env) => StepPutsNothing(cfg, s, env);
  }

  /** A packet sent on time was less than `maxDelay` behind the newest packet put when it was taken; any other packet
    * sent is not older than the last key-frame time read. */
  predicate Acceptable(cfg: Config, t: Transmission) {
    match t.reason
    case OnTime(taken, newest) => taken <= newest && t.frame.timestamp <= newest < t.frame.timestamp + cfg.maxDelay
    case NotOlder(keyTime) => keyTime <= t.frame.timestamp
  }

  ghost predicate AllAcceptable(cfg: Config, wire: seq<Transmission>) {
    forall i :: 0 <= i < |wire| ==> Acceptable(cfg, wire[i])
  }

  /** Some key frame already put is newer than the packet. */
  ghost predicate BeforeKeyFrame(put: seq<Frame>, f: Frame) {
    exists i :: 0 <= i < |put| && put[i].key && f.timestamp < put[i].timestamp
  }

  /** Packets skipped are older than a key frame already put, and, unless the 32-bit delay sum overflows, the packet
    * that triggers a skip is at least `maxDelay` behind the newest one. */
  ghost predicate RightlySkipped(cfg: Config, s: State, o: Outcome) {
    && (o.fate.Skipped? || o.fate.Trigger? ==> BeforeKeyFrame(s.video.put, o.frame))
    && (o.fate.Trigger? && cfg.maxDelay + o.frame.timestamp < TWO32 ==> o.frame.timestamp + cfg.maxDelay <= Newest(s))
  }

  ghost predicate AllRightlySkipped(cfg: Config, s: State, fates: seq<Outcome>) {
    forall i :: 0 <= i < |fates| ==> RightlySkipped(cfg, s, fates[i])
  }

  /** A key frame with this timestamp was put. */
  ghost predicate KeyPut(put: seq<Frame>, keyTime: uint32) {
    exists i :: 0 <= i < |put| && put[i].key && put[i].timestamp == keyTime
  }

  ghost predicate Judged(cfg: Config, s: State) {
    && AllAcceptable(cfg, s.wire)
    && AllRightlySkipped(cfg, s, s.video.fates) && AllRightlySkipped(cfg, s, s.audio.fates)
    && (s.pc.SkipVideo? || s.pc.SkipAudio? ==> KeyPut(s.video.put, s.pc.keyTime))
  }

  lemma {:induction false} LastKeyWasPut(fs: seq<Frame>)
    requires LastKeyTime(fs) > 0
    ensures KeyPut(fs, LastKeyTime(fs))
  {
    var before := fs[..|fs| - 1];
    if !fs[|fs| - 1].key {
      LastKeyWasPut(before);
      var i :| 0 <= i < |before| && before[i].key && before[i].timestamp == LastKeyTime(before);
      assert fs[i] == before[i];
    }
  }

  lemma StillRightlySkipped(cfg: Config, s: State, r: State, fates: seq<Outcome>)
    requires AllRightlySkipped(cfg, s, fates) && s.video.put <= r.video.put && Newest(s) <= Newest(r)
    ensures AllRightlySkipped(cfg, r, fates)
  {
    forall i | 0 <= i < |fates|
      ensures RightlySkipped(cfg, r, fates[i])
    {
      assert RightlySkipped(cfg, s, fates[i]);
      if BeforeKeyFrame(s.video.put, fates[i].frame) {
        var k :| 0 <= k < |s.video.put| && s.video.put[k].key && fates[i].frame.timestamp < s.video.put[k].timestamp;
        assert r.video.put[k] == s.video.put[k];
      }
    }
  }

  lemma OlderThanKey(put: seq<Frame>, keyTime: uint32, f: Frame)
    requires KeyPut(put, keyTime) && f.timestamp < keyTime
    ensures BeforeKeyFrame(put, f)
  {
  }

  lemma SameVerdict(cfg: Config, s: State, r: State, o: Outcome)
    requires RightlySkipped(cfg, s, o) && SamePuts(s, r)
    ensures RightlySkipped(cfg, r, o)
  {
  }

  lemma SentIsRight(cfg: Config, s: State, f: Frame)
    ensures RightlySkipped(cfg, s, Outcome(f, Sent))
  {
  }

  /** Settling the packet in hand keeps the judgement if its own outcome is right. */
  lemma SettledJudged(cfg: Config, s: State, fate: Fate)
    requires Judged(cfg, s) && s.hand.Some? && RightlySkipped(cfg, s, Outcome(s.hand.value, fate))
    ensures
      var r := SettleHand(s, s.hand.value, fate);
      && AllRightlySkipped(cfg, r, r.video.fates) && AllRightlySkipped(cfg, r, r.audio.fates) && r.wire == s.wire
  {
    hide RightlySkipped;
    var r := SettleHand(s, s.hand.value, fate);
    SentSamePuts(s, s.hand.value, NotOlder(0), fate, true);
    StillRightlySkipped(cfg, s, r, s.video.fates);
    StillRightlySkipped(cfg, s, r, s.audio.fates);
    SameVerdict(cfg, s, r, Outcome(s.hand.value, fate));
  }

  lemma SentJudged(cfg: Config, s: State, reason: Reason, ok: bool)
    requires Judged(cfg, s) && s.hand.Some? && Acceptable(cfg, Transmission(s.handVideo, s.hand.value, reason))
    requires s.pc.Fresh? || s.pc.Late?
    ensures Judged(cfg, SendHand(s, s.hand.value, reason, ok))
  {
    hide Acceptable, SettleHand, RightlySkipped;
    SentIsRight(cfg, s, s.hand.value);
    SettledJudged(cfg, s, Sent);
    if !ok {
      var r := s.(pc := Done(false));
      StillRightlySkipped(cfg, s, r, s.video.fates);
      StillRightlySkipped(cfg, s, r, s.audio.fates);
    } else {
      var r := SettleHand(s, s.hand.value, Sent);
      var t := SendHand(s, s.hand.value, reason, ok);
      StillRightlySkipped(cfg, r, t, r.video.fates);
      StillRightlySkipped(cfg, r, t, r.audio.fates);
    }
  }

  lemma FreshJudged(cfg: Config, s: State, now: uint32, env: Env)
    requires Judged(cfg, s) && Clocked(cfg, s) && s.pc == Fresh(now) && s.hand.Some?
    ensures Judged(cfg, StepFresh(cfg, s, now, s.hand.value, env))
  {
    hide SendHand, SettleHand, Minus, AllRightlySkipped, AllAcceptable;
    var f := s.hand.value;
    var held := s.(sendVideo := false, lastDelay := now);
    StillRightlySkippedBoth(cfg, s, held);
    SentJudged(cfg, s, OnTime(s.taken, now), env.sendOk);
    SentJudged(cfg, held, OnTime(s.taken, now), env.sendOk);
    StillRightlySkippedBoth(cfg, SendHand(s, f, OnTime(s.taken, now), true),
                            SendHand(s, f, OnTime(s.taken, now), true).(sendVideo := true));
    StillRightlySkippedBoth(cfg, SendHand(held, f, OnTime(s.taken, now), true),
                            SendHand(held, f, OnTime(s.taken, now), true).(sendVideo := true));
    SentSamePuts(s, f, OnTime(s.taken, now), Withheld, true);
    SentSamePuts(held, f, OnTime(s.taken, now), Withheld, true);
    SettledJudged(cfg, s, Withheld);
    SettledJudged(cfg, held, Withheld);
    StillRightlySkippedBoth(cfg, SettleHand(s, f, Withheld), Withhold(s, f));
    StillRightlySkippedBoth(cfg, SettleHand(held, f, Withheld), Withhold(held, f));
  }

  lemma StillRightlySkippedBoth(cfg: Config, s: State, r: State)
    requires s.video.put <= r.video.put && Newest(s) <= Newest(r)
    requires s.video.fates == r.video.fates && s.audio.fates == r.audio.fates
    ensures AllRightlySkipped(cfg, s, s.video.fates) ==> AllRightlySkipped(cfg, r, r.video.fates)
    ensures AllRightlySkipped(cfg, s, s.audio.fates) ==> AllRightlySkipped(cfg, r, r.audio.fates)
  {
    hide AllRightlySkipped;
    if AllRightlySkipped(cfg, s, s.video.fates) { StillRightlySkipped(cfg, s, r, s.video.fates); }
    if AllRightlySkipped(cfg, s, s.audio.fates) { StillRightlySkipped(cfg, s, r, s.audio.fates); }
  }

  lemma KeyTimeIsLast(s: State)
    requires Conserved(s)
    ensures s.video.queue.lastKeyTime == LastKeyTime(s.video.put)
  {
  }

  /** A packet is in hand while it is judged, and none while streams are skipped. */
  lemma HeldWhenJudged(s: State)
    requires Conserved(s)
    ensures s.pc.Fresh? || s.pc.Late? ==> s.hand.Some?
    ensures s.pc.SkipVideo? ==> s.hand.None?
  {
    hide Accounted;
  }

  lemma LateJudged(cfg: Config, s: State, now: uint32, env: Env)
    requires Judged(cfg, s) && Clocked(cfg, s) && Conserved(s) && s.pc == Late(now) && s.hand.Some?
    ensures Judged(cfg, StepLate(s, now, s.hand.value, env))
  {
    hide SendHand, SettleHand, AllRightlySkipped, AllAcceptable, Conserved, BeforeKeyFrame, KeyPut;
    var f, keyTime := s.hand.value, s.video.queue.lastKeyTime;
    if keyTime <= f.timestamp {
      SentJudged(cfg, s, NotOlder(keyTime), env.sendOk);
    } else {
      KeyTimeIsLast(s);
      LastKeyWasPut(s.video.put);
      OlderThanKey(s.video.put, keyTime, f);
      var fate := Trigger((if s.handVideo then s.video else s.audio).head.None?);
      SettledJudged(cfg, s, fate);
      SentSamePuts(s, f, NotOlder(0), fate, true);
      StillRightlySkippedBoth(cfg, SettleHand(s, f, fate), SettleHand(s, f, fate).(pc := SkipVideo(now, keyTime)));
    }
  }

  lemma SkippedIsRight(cfg: Config, s: State, keyTime: uint32, f: Frame)
    requires KeyPut(s.video.put, keyTime) && f.timestamp < keyTime
    ensures RightlySkipped(cfg, s, Outcome(f, Skipped))
  {
    OlderThanKey(s.video.put, keyTime, f);
  }

  lemma SentAcceptable(cfg: Config, video: bool, f: Frame, keyTime: uint32)
    requires keyTime <= f.timestamp
    ensures Acceptable(cfg, Transmission(video, f, NotOlder(keyTime)))
  {
  }

  lemma SkipJudged(cfg: Config, s: State, env: Env)
    requires Judged(cfg, s) && (s.pc.SkipVideo? || s.pc.SkipAudio?)
    ensures s.pc.SkipVideo? ==> Judged(cfg, StepSkipVideo(s, s.pc.now, s.pc.keyTime, env))
    ensures s.pc.SkipAudio? ==> Judged(cfg, StepSkipAudio(s, s.pc.now, s.pc.keyTime, env))
  {
    hide RightlySkipped, Acceptable, KeyPut;
    var r := if s.pc.SkipVideo? then StepSkipVideo(s, s.pc.now, s.pc.keyTime, env)
      else StepSkipAudio(s, s.pc.now, s.pc.keyTime, env);
    SkipSamePuts(s, s.pc.now, s.pc.keyTime, env);
    StillRightlySkipped(cfg, s, r, s.video.fates);
    StillRightlySkipped(cfg, s, r, s.audio.fates);
    var st := if s.pc.SkipVideo? then s.video else s.audio;
    if st.head.Some? {
      var f := st.head.value;
      var o := Outcome(f, if f.timestamp < s.pc.keyTime then Skipped else Sent);
      if f.timestamp < s.pc.keyTime {
        SkippedIsRight(cfg, s, s.pc.keyTime, f);
      } else {
        SentIsRight(cfg, s, f);
        SentAcceptable(cfg, s.pc.SkipVideo?, f, s.pc.keyTime);
      }
      SameVerdict(cfg, s, r, o);
    }
  }

  lemma SameJudged(cfg: Config, s: State, r: State)
    requires Judged(cfg, s) && SamePuts(s, r) && !r.pc.SkipVideo? && !r.pc.SkipAudio?
    requires r.wire == s.wire && r.video.fates == s.video.fates && r.audio.fates == s.audio.fates
    ensures Judged(cfg, r)
  {
    hide AllRightlySkipped, AllAcceptable;
    StillRightlySkippedBoth(cfg, s, r);
  }

  lemma OtherJudged(cfg: Config, s: State, env: Env)
    requires Judged(cfg, s) && !s.pc.Fresh? && !s.pc.Late? && !s.pc.SkipVideo? && !s.pc.SkipAudio?
    ensures Judged(cfg, Step(cfg, s, env))
  {
    hide Judged, SamePuts, Step, Take, Fetch;
    StepPutsNothing(cfg, s, env);
    if s.pc == FirstVideo || s.pc == FirstAudio || s.pc == WaitVideo || s.pc == WaitAudio {
      FetchSteps(cfg, s, env);
      FetchKeepsHistory(s.video);
      FetchKeepsHistory(s.audio);
    } else if s.pc == Choosing {
      ChooseStep(cfg, s, env);
      TakeKeepsHistory(s);
      TakeSamePuts(s);
    } else {
      QuietSteps(cfg, s, env);
    }
    SameJudged(cfg, s, Step(cfg, s, env));
  }

  lemma FetchKeepsHistory(st: Stream)
    ensures Fetch(st).fates == st.fates && Fetch(st).put == st.put
  {
  }

  lemma TakeKeepsHistory(s: State)
    ensures Take(s).video.fates == s.video.fates && Take(s).audio.fates == s.audio.fates && Take(s).wire == s.wire
  {
  }

  lemma StepJudged(cfg: Config, s: State, env: Env)
    requires Judged(cfg, s) && Clocked(cfg, s) && Conserved(s)
    ensures Judged(cfg, Step(cfg, s, env))
  {
    hide Judged, Conserved, Clocked, WithinDelay, StepFresh, StepLate, StepSkipVideo, StepSkipAudio, Take, Fetch;
    HeldWhenJudged(s);
    match s.pc
    case Fresh(now) => FreshJudged(cfg, s, now, env);
    case Late(now) => LateJudged(cfg, s, now, env);
    case SkipVideo(_, _) => SkipJudged(cfg, s, env);
    case SkipAudio(_, _) => SkipJudged(cfg, s, env);
    case _ => OtherJudged(cfg, s, env);
  }

  lemma PutJudged(cfg: Config, s: State, r: State)
    requires Judged(cfg, s) && s.video.put <= r.video.put && Newest(s) <= Newest(r)
    requires r.pc == s.pc && r.wire == s.wire && r.video.fates == s.video.fates && r.audio.fates == s.audio.fates
    ensures Judged(cfg, r)
  {
    StillRightlySkipped(cfg, s, r, s.video.fates);
    StillRightlySkipped(cfg, s, r, s.audio.fates);
    if s.pc.SkipVideo? || s.pc.SkipAudio? {
      var i :| 0 <= i < |s.video.put| && s.video.put[i].key && s.video.put[i].timestamp == s.pc.keyTime;
      assert r.video.put[i] == s.video.put[i];
    }
  }

  lemma JudgedAtFirst(cfg: Config)
    ensures Judged(cfg, INITIAL)
  {
  }

  /** Over every run with time-ordered producers: nothing stale is sent and only packets older than a key frame are
    * skipped. */
  lemma {:induction false} NothingStaleSent(cfg: Config, run: seq<Action>)
    requires InTimeOrder(Run(cfg, run))
    ensures Judged(cfg, Run(cfg, run))
  {
    hide Judged, Clocked, Conserved, Step, InTimeOrder;
    if run == [] {
      JudgedAtFirst(cfg);
    } else {
      var s, a := Run(cfg, run[..|run| - 1]), run[|run| - 1];
      Conservation(cfg, run[..|run| - 1]);
      PutsGrow(cfg, s, a);
      ClockNeverWraps(cfg, run[..|run| - 1]);
      NothingStaleSent(cfg, run[..|run| - 1]);
      match a
      case PutVideo(f) => PutJudged(cfg, s, Next(cfg, s, a));
      case PutAudio(f) => PutJudged(cfg, s, Next(cfg, s, a));
      case Thread(env) => StepJudged(cfg, s, env);
    }
  }
}
