/** What the producers have to avoid for the video to start again at a key frame, and that they cannot do with less. */
module SchedulerProducers {
  import opened Bytes
  import opened SendQueue
  import opened Scheduler
  import opened SchedulerSafety
  import opened SchedulerStaleness
  import opened SchedulerKeyFrames

  /** A clock that shows `time` or more finds the packet late. */
  predicate Outdated(cfg: Config, f: Frame, time: int) {
    f.timestamp + cfg.maxDelay <= time
  }

  /** No audio packet is held, and the next one is too old, or will be once the packet in hand is found late: it comes
    * out before any video put now, or is dropped together with it. */
  predicate Shielded(cfg: Config, s: State) {
    && s.hand.Some? && s.audio.head.None? && s.audio.queue.waiting != []
    && var next, f := s.audio.queue.waiting[0], s.hand.value;
       || Outdated(cfg, next, Newest(s))
       || (f.timestamp + cfg.maxDelay < TWO32 && next.timestamp <= f.timestamp)
  }

  /** The only video packet there is, is being judged, nothing shields what comes next, and the limits leave the thread
    * time to send it. */
  predicate Critical(cfg: Config, s: State) {
    && Judging(s.pc) && HandOf(s, true) != [] && s.video.head.None? && s.video.queue.waiting == []
    && cfg.maxDelay >= 2 && cfg.waitTime > 10 && !Shielded(cfg, s)
  }

  /** An ordinary video packet is put at a critical moment. */
  predicate Harmful(cfg: Config, s: State, a: Action) {
    a.PutVideo? && !a.frame.key && Critical(cfg, s)
  }

  ghost predicate EverHarmful(cfg: Config, run: seq<Action>) {
    exists i :: 0 <= i < |run| && Harmful(cfg, Run(cfg, run[..i]), run[i])
  }

  // ---------- as long as no put is harmful ----------

  /** A blind skip is over or under way, and the next video packet is an ordinary one. */
  predicate OrdinaryNext(s: State) {
    !s.pc.Done? && BlindlySkipped(s.video.fates) && Unsettled(s) != [] && !Unsettled(s)[0].key
  }

  predicate VideoInHand(s: State) {
    s.hand.Some? && s.handVideo
  }

  /** A video packet in hand is older than what was newest when it was taken. */
  predicate KnownOlder(s: State) {
    VideoInHand(s) ==> s.hand.value.timestamp < s.taken
  }

  /** The thread ends on its time limit before it takes a video packet. */
  predicate TimesOut(cfg: Config, s: State) {
    && !VideoInHand(s) && (s.pc == WaitVideo || s.pc == WaitAudio ==> s.waited < cfg.waitTime)
    && (s.video.head.Some? ==>
          s.pc == WaitAudio || ((s.pc == Waiting || s.pc == Choosing) && s.waited >= cfg.waitTime))
  }

  /** Where the outdated audio packet is: waiting, held beside the video packet, or in hand; or the video packet is in
    * hand and outdated itself, or about to be skipped. */
  predicate ShieldHolds(cfg: Config, s: State) {
    if VideoInHand(s) then Outdated(cfg, s.hand.value, s.taken) && s.video.head.Some?
    else if s.hand.Some? then
      Outdated(cfg, s.hand.value, s.taken) && s.video.head.Some?
      && s.hand.value.timestamp <= s.video.head.value.timestamp
    else if s.pc.SkipVideo? && s.video.head.Some? then s.video.head.value.timestamp < s.pc.keyTime
    else
      && (if s.audio.head.Some? then Outdated(cfg, s.audio.head.value, Newest(s))
          else s.audio.queue.waiting != [] && Outdated(cfg, s.audio.queue.waiting[0], Newest(s)))
      && (if s.pc == WaitAudio then s.video.head.Some? && s.audio.head.None?
          else if s.pc == Waiting || s.pc == Choosing then s.video.head.Some? <==> s.audio.head.Some?
          else
            && (s.pc.SkipVideo? || s.pc.SkipAudio? || s.pc == Top || s.pc == WaitVideo)
            && s.video.head.None? && s.audio.head.None?)
  }

  /** Why an ordinary packet next in line is not going to be sent. */
  predicate Covered(cfg: Config, s: State) {
    && s.pc != FirstVideo && s.pc != FirstAudio
    && (|| (cfg.maxDelay <= 1 && KnownOlder(s))
        || (cfg.waitTime <= 10 && TimesOut(cfg, s))
        || ShieldHolds(cfg, s))
  }

  /** Behind the only video packet being judged there is nothing, a key frame, or what does no harm. */
  predicate BehindIsSafe(cfg: Config, s: State) {
    Judging(s.pc) && VideoInHand(s) && s.video.head.None? ==>
      || s.video.queue.waiting == [] || s.video.queue.waiting[0].key
      || cfg.maxDelay <= 1 || cfg.waitTime <= 10 || Shielded(cfg, s)
  }

  ghost predicate Safe(cfg: Config, s: State) {
    (OrdinaryNext(s) ==> Covered(cfg, s)) && BehindIsSafe(cfg, s)
  }

  lemma LaterKey(put: seq<Frame>, n: nat, keyTime: uint32)
    requires Increasing(put) && n < |put| && !put[n].key && KeyPut(put[n..], keyTime)
    ensures |put| - n > 1 && put[n].timestamp < keyTime <= LastTime(put)
  {
    var rest := put[n..];
    var i :| 0 <= i < |rest| && rest[i].key && rest[i].timestamp == keyTime;
    assert rest[i] == put[n + i] && rest[0] == put[n];
    assert n + i < |put| - 1 ==> put[n + i].timestamp < put[|put| - 1].timestamp;
  }

  lemma KeyStillToCome(s: State)
    requires KeyFrameComes(s) && OrdinaryNext(s)
    ensures KeyAhead(Unsettled(s))
  {
  }

  lemma TimesOfPuts(s: State)
    requires Conserved(s)
    ensures s.video.queue.lastTime == LastTime(s.video.put)
  {
  }

  /** While an ordinary packet is next, a newer key frame is behind it. */
  lemma KeyIsNewer(s: State)
    requires Conserved(s) && Increasing(s.video.put) && KeyFrameComes(s) && OrdinaryNext(s)
    ensures |Unsettled(s)| > 1 && Unsettled(s)[0].timestamp < s.video.queue.lastKeyTime <= s.video.queue.lastTime
  {
    hide Conserved, Increasing, KeyAhead, KeyPut, LastTime, KeyFrameComes;
    KeyStillToCome(s);
    NextInLine(s);
    UnsettledIs(s);
    OwedKey(s);
    TimesOfPuts(s);
    LaterKey(s.video.put, |s.video.fates|, s.video.queue.lastKeyTime);
  }

  /** A packet in hand that a clock at `taken` finds late is not found on time. */
  lemma NotOnTime(cfg: Config, s: State)
    requires Clocked(cfg, s) && s.pc.Fresh? && s.hand.Some?
    ensures !Outdated(cfg, s.hand.value, s.taken)
    ensures cfg.maxDelay <= 1 ==> s.taken <= s.hand.value.timestamp
  {
  }

  lemma SafeNotExposed(cfg: Config, s: State, a: Action)
    requires Conserved(s) && Clocked(cfg, s) && Safe(cfg, s)
    ensures !Exposed(s, a)
  {
    hide Conserved, Clocked;
    NextInLine(s);
    if Exposed(s, a) {
      UnsettledIs(s);
      NotOnTime(cfg, s);
    }
  }

  /** Fetching, waiting and choosing. */
  lemma WaitingCovers(cfg: Config, s: State, env: Env)
    requires Conserved(s) && Increasing(s.video.put) && KeyFrameComes(s) && OrdinaryNext(s) && Covered(cfg, s)
    requires s.pc == Top || s.pc == Waiting
    ensures Covered(cfg, Step(cfg, s, env))
  {
    hide Accounted, SentOf, SentOn, BytesOf, KeyFrameComes, OrdinaryNext;
  }

  lemma PolledVideoCovers(cfg: Config, s: State)
    requires Holds(s) && s.pc == WaitVideo && s.video.queue.waiting != [] && Covered(cfg, s)
    ensures Covered(cfg, s.(video := Fetch(s.video), pc := WaitAudio))
  {
  }

  lemma PolledAudioCovers(cfg: Config, s: State)
    requires Holds(s) && s.pc == WaitAudio && Covered(cfg, s)
    ensures Covered(cfg, s.(audio := Fetch(s.audio), waited := Later(s.waited), pc := Waiting))
  {
  }

  lemma PollingCovers(cfg: Config, s: State, env: Env)
    requires Conserved(s) && Increasing(s.video.put) && KeyFrameComes(s) && OrdinaryNext(s) && Covered(cfg, s)
    requires s.pc == WaitVideo || s.pc == WaitAudio
    ensures Covered(cfg, Step(cfg, s, env))
  {
    MoreThanOne(s);
    hide Conserved, KeyFrameComes, OrdinaryNext, Step, Unsettled, Covered, Fetch, Increasing;
    FetchSteps(cfg, s, env);
    if s.pc == WaitVideo {
      PolledVideoCovers(cfg, s);
    } else {
      PolledAudioCovers(cfg, s);
    }
  }

  lemma MoreThanOne(s: State)
    requires Conserved(s) && Increasing(s.video.put) && KeyFrameComes(s) && OrdinaryNext(s)
    ensures Holds(s) && |HandOf(s, true)| + |HeadOf(s.video)| + |s.video.queue.waiting| > 1
    ensures
      s.video.queue.lastTime > (if VideoInHand(s) then s.hand.value.timestamp
                                else if s.video.head.Some? then s.video.head.value.timestamp
                                else s.video.queue.waiting[0].timestamp)
  {
    hide SentOf, SentOn, BytesOf, LastTime, LastKeyTime, Increasing, KeyFrameComes, OrdinaryNext;
    KeyIsNewer(s);
    NextInLine(s);
    UnsettledIs(s);
    InLine(s);
  }

  lemma InLine(s: State)
    requires Conserved(s)
    ensures
      |s.video.fates| <= |s.video.put|
      && s.video.put[|s.video.fates|..] == HandOf(s, true) + HeadOf(s.video) + s.video.queue.waiting
  {
    hide SentOf, SentOn, BytesOf, LastTime, LastKeyTime, FramesOf;
    var settled, rest := FramesOf(s.video.fates), HandOf(s, true) + HeadOf(s.video) + s.video.queue.waiting;
    assert s.video.put == settled + rest;
    DropJoined(settled, rest, |settled|);
    assert settled[|settled|..] + rest == rest;
  }

  lemma TakenCovers(cfg: Config, s: State)
    requires Holds(s) && s.pc == Choosing && s.waited < cfg.waitTime && Covered(cfg, s)
    requires |HeadOf(s.video)| + |s.video.queue.waiting| > 1
    requires s.video.head.Some? ==> s.video.queue.lastTime > s.video.head.value.timestamp
    ensures Covered(cfg, Take(s))
  {
  }

  lemma ChoosingCovers(cfg: Config, s: State, env: Env)
    requires Conserved(s) && Increasing(s.video.put) && KeyFrameComes(s) && OrdinaryNext(s) && Covered(cfg, s)
    requires s.pc == Choosing
    ensures Step(cfg, s, env).pc.Done? || Covered(cfg, Step(cfg, s, env))
  {
    MoreThanOne(s);
    hide Conserved, KeyFrameComes, OrdinaryNext, Step, Unsettled, Covered, Take, Increasing;
    ChooseStep(cfg, s, env);
    if s.waited < cfg.waitTime {
      TakenCovers(cfg, s);
    }
  }

  /** Reading the clock, and skipping audio. */
  lemma OthersCover(cfg: Config, s: State, env: Env)
    requires Conserved(s) && Covered(cfg, s)
    requires s.pc == ReadVideo || s.pc.ReadAudio? || s.pc.ReadNewest? || s.pc.SkipAudio?
    ensures Step(cfg, s, env).pc.Done? || Covered(cfg, Step(cfg, s, env))
  {
    hide Accounted, SentOf, SentOn, BytesOf, WithinDelay;
  }

  lemma OrdinaryStays(s: State, r: State)
    requires !s.pc.Done? && r.video.put == s.video.put && r.video.fates == s.video.fates
    ensures OrdinaryNext(r) ==> OrdinaryNext(s)
  {
    SameUnsettled(s, r);
  }

  lemma NewestIsNot(s: State, fates: seq<Outcome>, o: Outcome)
    requires s.video.fates == fates + [o] && o.fate != Trigger(true)
    ensures !OrdinaryNext(s)
  {
    hide Unsettled;
  }

  /** A late packet that is sent, or whose send fails. */
  lemma LateSentSafe(cfg: Config, s: State, now: uint32, f: Frame, env: Env)
    requires Conserved(s) && Increasing(s.video.put) && KeyFrameComes(s) && Safe(cfg, s)
    requires s.pc == Late(now) && s.hand == Some(f) && s.video.queue.lastKeyTime <= f.timestamp
    ensures Safe(cfg, StepLate(s, now, f, env))
  {
    hide Conserved, Increasing, KeyFrameComes, Unsettled, KeyAhead;
    var r := StepLate(s, now, f, env);
    if env.sendOk && s.handVideo {
      NewestIsNot(r, s.video.fates, Outcome(f, Sent));
    } else if env.sendOk {
      OrdinaryStays(s, r);
      if OrdinaryNext(s) {
        FirstInLine(s);
      }
    }
  }

  /** The first of the line, when no video packet is in hand and one is the head. */
  lemma FirstInLine(s: State)
    requires Conserved(s) && Increasing(s.video.put) && KeyFrameComes(s) && OrdinaryNext(s)
    ensures !VideoInHand(s) && s.video.head.Some? ==> s.video.head.value.timestamp < s.video.queue.lastKeyTime
  {
    hide Conserved, Increasing, KeyFrameComes, OrdinaryNext;
    KeyIsNewer(s);
    NextInLine(s);
  }

  /** A late video packet that starts a skip: what was safe behind it is covered now. */
  lemma VideoTriggerSafe(cfg: Config, s: State, now: uint32, f: Frame, env: Env)
    requires Conserved(s) && BehindIsSafe(cfg, s) && Clocked(cfg, s) && s.handVideo
    requires s.pc == Late(now) && s.hand == Some(f) && s.video.queue.lastKeyTime > f.timestamp
    ensures Safe(cfg, StepLate(s, now, f, env))
  {
    hide Conserved, Clocked, StepLate, OrdinaryNext;
    var r := StepLate(s, now, f, env);
    LateConserves(s, now, env);
    if f.timestamp + cfg.maxDelay < TWO32 {
      ClockFoundLate(cfg, s);
    }
    TriggerEffect(s, now, f, env);
    if s.video.head.Some? {
      NewestIsNot(r, s.video.fates, Outcome(f, Trigger(false)));
    } else if OrdinaryNext(r) {
      WaitingIsNext(r);
    }
  }

  lemma TriggerEffect(s: State, now: uint32, f: Frame, env: Env)
    requires s.handVideo && s.hand == Some(f) && s.video.queue.lastKeyTime > f.timestamp
    ensures
      var r := StepLate(s, now, f, env);
      && r.pc == SkipVideo(now, s.video.queue.lastKeyTime) && r.hand.None? && r.audio == s.audio
      && r.video == s.video.(fates := s.video.fates + [Outcome(f, Trigger(s.video.head.None?))])
  {
  }

  lemma WaitingIsNext(s: State)
    requires Conserved(s) && OrdinaryNext(s) && !VideoInHand(s) && s.video.head.None?
    ensures s.video.queue.waiting != [] && !s.video.queue.waiting[0].key
  {
    hide Conserved;
    InLine(s);
    UnsettledIs(s);
  }

  lemma ClockFoundLate(cfg: Config, s: State)
    requires Clocked(cfg, s) && s.pc.Late? && s.hand.Some? && s.hand.value.timestamp + cfg.maxDelay < TWO32
    ensures Outdated(cfg, s.hand.value, Newest(s))
  {
  }

  /** A late audio packet that starts a skip: the ordinary video packet is going to be skipped. */
  lemma AudioTriggerSafe(cfg: Config, s: State, now: uint32, f: Frame, env: Env)
    requires Conserved(s) && Increasing(s.video.put) && KeyFrameComes(s) && Safe(cfg, s) && !s.handVideo
    requires s.pc == Late(now) && s.hand == Some(f) && s.video.queue.lastKeyTime > f.timestamp
    ensures Safe(cfg, StepLate(s, now, f, env))
  {
    hide Conserved, Increasing, KeyFrameComes, OrdinaryNext;
    var r := StepLate(s, now, f, env);
    EndNotOrdinary(s);
    OrdinaryStays(s, r);
    if OrdinaryNext(s) {
      FirstInLine(s);
    }
  }

  lemma FreshLeaves(cfg: Config, s: State, now: uint32, f: Frame, env: Env)
    requires VideoKept(Thread(env)) && s.hand == Some(f)
    ensures
      var r := StepFresh(cfg, s, now, f, env);
      r.video.head == s.video.head && (env.sendOk ==> r.hand.None?)
  {
    hide Minus;
  }

  lemma FreshSafe(cfg: Config, s: State, now: uint32, f: Frame, env: Env)
    requires Safe(cfg, s) && Clocked(cfg, s) && s.pc == Fresh(now) && s.hand == Some(f) && VideoKept(Thread(env))
    ensures Safe(cfg, StepFresh(cfg, s, now, f, env))
  {
    hide StepFresh, Unsettled, VideoKept, Clocked;
    var r := StepFresh(cfg, s, now, f, env);
    FreshIsSent(cfg, s, now, f, env);
    FreshLeaves(cfg, s, now, f, env);
    NotOnTime(cfg, s);
    if env.sendOk && s.handVideo {
      NewestIsNot(r, s.video.fates, Outcome(f, Sent));
    } else if env.sendOk {
      OrdinaryStays(s, r);
    }
  }

  lemma SkipSafe(cfg: Config, s: State, now: uint32, keyTime: uint32, env: Env)
    requires Holds(s) && Safe(cfg, s) && s.pc == SkipVideo(now, keyTime)
    ensures Safe(cfg, StepSkipVideo(s, now, keyTime, env))
  {
    hide SkipOne, Unsettled;
    var r := StepSkipVideo(s, now, keyTime, env);
    if s.video.head.Some? {
      var f := s.video.head.value;
      SkipOneEffect(s.video, f, keyTime);
      if f.timestamp < keyTime || env.sendOk {
        NewestIsNot(r, s.video.fates, Outcome(f, if f.timestamp < keyTime then Skipped else Sent));
      }
    } else {
      OrdinaryStays(s, r);
    }
  }

  /** The other steps leave the outcomes of the video stream. */
  lemma QuietSafe(cfg: Config, s: State, env: Env)
    requires Conserved(s) && Increasing(s.video.put) && KeyFrameComes(s) && Safe(cfg, s)
    requires !s.pc.Fresh? && !s.pc.Late? && !s.pc.SkipVideo? && !s.pc.Done?
    ensures OrdinaryNext(Step(cfg, s, env)) ==> Covered(cfg, Step(cfg, s, env))
  {
    hide Increasing, KeyFrameComes, OrdinaryNext, Covered, BehindIsSafe, Conserved, Step;
    OthersKeepVideo(cfg, s, env);
    OrdinaryStays(s, Step(cfg, s, env));
    if OrdinaryNext(s) {
      EndNotOrdinary(Step(cfg, s, env));
      NotAtStart(cfg, s);
      if s.pc == Top || s.pc == Waiting {
        WaitingCovers(cfg, s, env);
      } else if s.pc == WaitVideo || s.pc == WaitAudio {
        PollingCovers(cfg, s, env);
      } else if s.pc == Choosing {
        ChoosingCovers(cfg, s, env);
      } else {
        OthersCover(cfg, s, env);
      }
    }
  }

  lemma EndNotOrdinary(s: State)
    ensures s.pc.Done? ==> !OrdinaryNext(s)
  {
  }

  lemma NotAtStart(cfg: Config, s: State)
    requires Covered(cfg, s)
    ensures s.pc != FirstVideo && s.pc != FirstAudio
  {
  }

  lemma OthersKeepVideo(cfg: Config, s: State, env: Env)
    requires !s.pc.Fresh? && !s.pc.Late? && !s.pc.SkipVideo?
    ensures Step(cfg, s, env).video.put == s.video.put && Step(cfg, s, env).video.fates == s.video.fates
  {
    hide WithinDelay, Fetch, Take, StepSkipAudio;
    FetchKeepsHistory(s.video);
    TakeKeepsHistory(s);
    TakeSamePuts(s);
    if s.pc.SkipAudio? {
      SkipAudioKeepsVideo(s, s.pc.now, s.pc.keyTime, env);
    }
  }

  lemma TakenBehind(cfg: Config, s: State)
    ensures s.pc == Choosing ==> BehindIsSafe(cfg, Take(s))
  {
    hide Shielded;
  }

  lemma QuietBehind(cfg: Config, s: State, env: Env)
    requires BehindIsSafe(cfg, s) && !s.pc.Fresh? && !s.pc.Late? && !s.pc.SkipVideo?
    ensures BehindIsSafe(cfg, Step(cfg, s, env))
  {
    hide WithinDelay, Take, Fetch, StepSkipAudio, Outdated;
    if s.pc == Choosing {
      TakenBehind(cfg, s);
    }
    if s.pc.SkipAudio? {
      SkipSamePuts(s, s.pc.now, s.pc.keyTime, env);
    }
  }

  lemma PutSafe(cfg: Config, s: State, a: Action)
    requires Conserved(s) && KeyFrameComes(s) && Safe(cfg, s) && !a.Thread? && !Harmful(cfg, s, a)
    requires Newest(s) <= Newest(Next(cfg, s, a))
    ensures Safe(cfg, Next(cfg, s, a))
  {
    var r := Next(cfg, s, a);
    hide Conserved, Step;
    NextInLine(s);
    if a.PutVideo? {
      assert Unsettled(r) == Unsettled(s) + [a.frame];
      StillOrdinary(s, r, a.frame);
    } else {
      OrdinaryIsSame(s, r);
    }
    hide Unsettled, OrdinaryNext, KeyFrameComes;
  }

  lemma StillOrdinary(s: State, r: State, f: Frame)
    requires KeyFrameComes(s) && r.video.fates == s.video.fates && r.pc == s.pc && Unsettled(r) == Unsettled(s) + [f]
    ensures OrdinaryNext(r) ==> OrdinaryNext(s)
  {
  }

  lemma OrdinaryIsSame(s: State, r: State)
    requires r.video == s.video && r.pc == s.pc
    ensures OrdinaryNext(r) ==> OrdinaryNext(s)
  {
  }

  lemma NextSafe(cfg: Config, s: State, a: Action)
    requires Conserved(s) && Increasing(s.video.put) && KeyFrameComes(s) && Safe(cfg, s) && Clocked(cfg, s)
    requires VideoKept(a) && !Harmful(cfg, s, a) && Newest(s) <= Newest(Next(cfg, s, a))
    ensures Safe(cfg, Next(cfg, s, a))
  {
    hide Increasing, KeyFrameComes, Safe, Harmful, Clocked, Step, Conserved, Newest;
    if !a.Thread? {
      PutSafe(cfg, s, a);
    } else {
      HeldWhenJudged(s);
      HeldNow(s);
      JudgeSteps(cfg, s, a.env);
      if s.pc.Fresh? {
        FreshSafe(cfg, s, s.pc.now, s.hand.value, a.env);
      } else if s.pc.Late? {
        if s.video.queue.lastKeyTime <= s.hand.value.timestamp {
          LateSentSafe(cfg, s, s.pc.now, s.hand.value, a.env);
        } else {
          if s.handVideo {
            SafeParts(cfg, s);
            VideoTriggerSafe(cfg, s, s.pc.now, s.hand.value, a.env);
          } else {
            AudioTriggerSafe(cfg, s, s.pc.now, s.hand.value, a.env);
          }
        }
      } else if s.pc.SkipVideo? {
        SkipSafe(cfg, s, s.pc.now, s.pc.keyTime, a.env);
      } else if s.pc.Done? {
        EndStays(cfg, s, a.env);
      } else {
        SafeParts(cfg, s);
        QuietSafe(cfg, s, a.env);
        QuietBehind(cfg, s, a.env);
        SafeParts(cfg, Step(cfg, s, a.env));
      }
    }
  }

  lemma EndStays(cfg: Config, s: State, env: Env)
    requires s.pc.Done?
    ensures Step(cfg, s, env) == s
  {
    hide StepFresh, StepLate, StepSkipVideo, StepSkipAudio, Take, WithinDelay;
  }

  lemma HeldNow(s: State)
    requires Conserved(s)
    ensures Holds(s)
  {
  }

  lemma EndIsSafe(cfg: Config, s: State)
    ensures s.pc.Done? ==> Safe(cfg, s)
    ensures Safe(cfg, INITIAL)
  {
  }

  lemma SafeParts(cfg: Config, s: State)
    ensures Safe(cfg, s) <==> (OrdinaryNext(s) ==> Covered(cfg, s)) && BehindIsSafe(cfg, s)
  {
  }

  lemma {:induction false} SafeInvariant(cfg: Config, run: seq<Action>)
    requires Increasing(Run(cfg, run).video.put) && InTimeOrder(Run(cfg, run)) && AllVideoKept(run)
    requires !EverHarmful(cfg, run)
    ensures Safe(cfg, Run(cfg, run)) && !EverExposed(cfg, run)
  {
    hide Conserved, Increasing, InTimeOrder, KeyFrameComes, Safe, Harmful, Exposed, Next, Clocked, Newest;
    if run == [] {
      EndIsSafe(cfg, INITIAL);
    } else {
      var before, a := run[..|run| - 1], run[|run| - 1];
      var s := Run(cfg, before);
      Conservation(cfg, before);
      IncreasingPrefix(cfg, s, a);
      PutsGrow(cfg, s, a);
      NewestGrows(s, Next(cfg, s, a));
      assert VideoKept(a) && AllVideoKept(before);
      assert forall i :: 0 <= i < |before| ==> before[..i] == run[..i] && before[i] == run[i];
      assert EverHarmful(cfg, run) <==> EverHarmful(cfg, before) || Harmful(cfg, s, a);
      assert EverExposed(cfg, run) <==> EverExposed(cfg, before) || Exposed(s, a);
      SafeInvariant(cfg, before);
      CatchUpInvariant(cfg, before);
      ClockNeverWraps(cfg, before);
      SafeNotExposed(cfg, s, a);
      NextSafe(cfg, s, a);
    }
  }

  lemma NewestGrows(s: State, r: State)
    requires s.video.queue.lastTime <= r.video.queue.lastTime && s.audio.queue.lastTime <= r.audio.queue.lastTime
    ensures Newest(s) <= Newest(r)
  {
  }

  /** With time-ordered producers and video never held back, the first video packet sent after dropped ones is a key
    * frame as long as no ordinary video packet is put at a critical moment; in particular always when the delay bound
    * is at most 1 or the waiting time at most 10. */
  lemma HarmlessPutsCatchUp(cfg: Config, run: seq<Action>)
    requires Increasing(Run(cfg, run).video.put) && InTimeOrder(Run(cfg, run)) && AllVideoKept(run)
    requires !EverHarmful(cfg, run)
    ensures CaughtUp(Run(cfg, run).video.fates)
  {
    hide Run, CaughtUp, Increasing, InTimeOrder, AllVideoKept, EverHarmful, EverExposed;
    SafeInvariant(cfg, run);
    KeyFrameCatchUp(cfg, run);
  }
}
