/** Two concrete runs in which the video does not start again at a key frame. */
module SchedulerCounterexamples {
  import opened Bytes
  import opened SendQueue
  import opened Scheduler
  import opened SchedulerStaleness
  import opened SchedulerKeyFrames
  import opened SchedulerReplay

  const CONFIG := Config(10, 100, 100)
  const FIRST := Frame(5, 9, 1, true)
  const SOUND := Frame(15, 8, 1, true)
  const PLAIN := Frame(6, 9, 1, false)
  const KEY := Frame(7, 9, 1, true)

  /** The first packet is late, its queue is empty when it is taken out, and a plain packet arrives before the key
    * frame. */
  const BEFORE: seq<Action> := [] + [PutVideo(FIRST)] + [PutAudio(SOUND)]
  const BLIND_RUN: seq<Action> :=
    BEFORE + Repeat(KEEP, 5) + [PutVideo(PLAIN)] + [PutVideo(KEY)] + Repeat(KEEP, 16)

  const OPENED :=
    State(ReadVideo, Stream(Queue([], 5, 5, 5), None, [FIRST], []),
          Stream(Queue([], 15, 15, 15), Some(SOUND), [SOUND], []),
          Some(FIRST), true, 15, true, 0, 0, 0, 0, [])

  lemma Begin()
    ensures
      Run(CONFIG, BEFORE) ==
      INITIAL.(video := Stream(Queue([FIRST], 5, 5, 0), None, [FIRST], []),
               audio := Stream(Queue([SOUND], 15, 15, 0), None, [SOUND], []))
  {
    hide Step;
    RunExtends(CONFIG, [], PutVideo(FIRST));
    RunExtends(CONFIG, [] + [PutVideo(FIRST)], PutAudio(SOUND));
  }

  lemma Opening()
    ensures Steps(CONFIG, Run(CONFIG, BEFORE), KEEP, 5) == OPENED
  {
    hide Run, StepFresh, StepLate, StepSkipVideo, StepSkipAudio, Repeat;
    Begin();
    var s := Run(CONFIG, BEFORE);
    var s1 := Step(CONFIG, s, KEEP);
    assert Steps(CONFIG, s, KEEP, 1) == s1;
    assert s1.video.head == Some(FIRST);
    var s2 := Step(CONFIG, s1, KEEP);
    assert Steps(CONFIG, s, KEEP, 2) == s2;
    assert s2.audio.head == Some(SOUND);
    var s3 := Step(CONFIG, s2, KEEP);
    assert Steps(CONFIG, s, KEEP, 3) == s3;
    assert s3.pc == Waiting;
    var s4 := Step(CONFIG, s3, KEEP);
    assert Steps(CONFIG, s, KEEP, 4) == s4;
    assert s4 == OPENED.(pc := Choosing, hand := None, handVideo := false, taken := 0,
      video := Stream(Queue([], 5, 5, 5), Some(FIRST), [FIRST], []));
  }

  /** The state in which the late packet is judged, the two new packets having arrived. */
  const ARRIVED := OPENED.(video := Stream(Queue([PLAIN, KEY], 7, 7, 5), None, [FIRST, PLAIN, KEY], []))

  /** The skip is over: it found no video head and sent the audio packet. */
  const SKIPPED :=
    ARRIVED.(pc := Top, hand := None, sendVideo := false, lastDelay := 15,
             video := ARRIVED.video.(fates := [Outcome(FIRST, Trigger(true))]),
             audio := Stream(Queue([], 15, 15, 15), None, [SOUND], [Outcome(SOUND, Sent)]),
             wire := [Transmission(false, SOUND, NotOlder(7))])

  lemma Skipping()
    ensures Steps(CONFIG, ARRIVED, KEEP, 6) == SKIPPED
  {
    hide Run, StepFresh, Repeat;
    var s1 := Step(CONFIG, ARRIVED, KEEP);
    assert Steps(CONFIG, ARRIVED, KEEP, 1) == s1;
    assert s1.pc == ReadAudio(7);
    var s2 := Step(CONFIG, s1, KEEP);
    assert Steps(CONFIG, ARRIVED, KEEP, 2) == s2;
    assert s2.pc == ReadNewest(7, 15);
    var s3 := Step(CONFIG, s2, KEEP);
    assert Steps(CONFIG, ARRIVED, KEEP, 3) == s3;
    assert s3 == ARRIVED.(pc := Late(15));
    var s4 := Step(CONFIG, s3, KEEP);
    assert Steps(CONFIG, ARRIVED, KEEP, 4) == s4;
    assert s4 ==
      ARRIVED.(pc := SkipVideo(15, 7), hand := None, video := ARRIVED.video.(fates := [Outcome(FIRST, Trigger(true))]));
    var s5 := Step(CONFIG, s4, KEEP);
    assert Steps(CONFIG, ARRIVED, KEEP, 5) == s5;
    assert s5.pc == SkipAudio(15, 7);
  }

  lemma Resuming()
    ensures
      Steps(CONFIG, SKIPPED, KEEP, 10).video ==
      Stream(Queue([], 7, 7, 7), Some(KEY), [FIRST, PLAIN, KEY], [Outcome(FIRST, Trigger(true)), Outcome(PLAIN, Sent)])
    ensures Steps(CONFIG, SKIPPED, KEEP, 10).audio.put == [SOUND]
  {
    hide Run, StepLate, StepSkipVideo, StepSkipAudio, Repeat;
    var s1 := Step(CONFIG, SKIPPED, KEEP);
    assert Steps(CONFIG, SKIPPED, KEEP, 1) == s1;
    assert s1.pc == Waiting;
    var s2 := Step(CONFIG, s1, KEEP);
    assert Steps(CONFIG, SKIPPED, KEEP, 2) == s2;
    assert s2.pc == WaitVideo;
    var s3 := Step(CONFIG, s2, KEEP);
    assert Steps(CONFIG, SKIPPED, KEEP, 3) == s3;
    assert s3.video.head == Some(PLAIN);
    var s4 := Step(CONFIG, s3, KEEP);
    assert Steps(CONFIG, SKIPPED, KEEP, 4) == s4;
    assert s4.pc == Waiting;
    var s5 := Step(CONFIG, s4, KEEP);
    assert Steps(CONFIG, SKIPPED, KEEP, 5) == s5;
    assert s5.pc == Choosing;
    var s6 := Step(CONFIG, s5, KEEP);
    assert Steps(CONFIG, SKIPPED, KEEP, 6) == s6;
    assert s6.hand == Some(PLAIN);
    var s7 := Step(CONFIG, s6, KEEP);
    assert Steps(CONFIG, SKIPPED, KEEP, 7) == s7;
    assert s7.pc == ReadAudio(7);
    var s8 := Step(CONFIG, s7, KEEP);
    assert Steps(CONFIG, SKIPPED, KEEP, 8) == s8;
    assert s8.pc == ReadNewest(7, 15);
    var s9 := Step(CONFIG, s8, KEEP);
    assert Steps(CONFIG, SKIPPED, KEEP, 9) == s9;
    assert s9.pc == Fresh(15);
  }

  /** A run in which everything asked of the producers and of the strategy holds, and yet an ordinary packet is sent
    * right after a dropped one. */
  lemma BlindSkipLosesKeyFrame()
    ensures
      var s := Run(CONFIG, BLIND_RUN);
      && AllVideoKept(BLIND_RUN) && Increasing(s.video.put) && InTimeOrder(s)
      && !CaughtUp(s.video.fates)
  {
    hide Step, Run, Repeat;
    RunRepeats(CONFIG, BEFORE, KEEP, 5);
    Opening();
    RunExtends(CONFIG, BEFORE + Repeat(KEEP, 5), PutVideo(PLAIN));
    RunExtends(CONFIG, BEFORE + Repeat(KEEP, 5) + [PutVideo(PLAIN)], PutVideo(KEY));
    var run := BEFORE + Repeat(KEEP, 5) + [PutVideo(PLAIN)] + [PutVideo(KEY)];
    assert Run(CONFIG, run) == ARRIVED;
    RunRepeats(CONFIG, run, KEEP, 16);
    Skipping();
    Resuming();
    StepsTwice(CONFIG, ARRIVED, KEEP, 6, 10);
    RepeatKeepsVideo(5);
    RepeatKeepsVideo(16);
    var s := Run(CONFIG, BLIND_RUN);
    assert s.video.fates[1].fate.Sent? && !s.video.fates[0].fate.Sent?;
  }

  const HOLD := Env(true, true, 1, 0)
  const EARLY := Frame(0, 9, 1, true)
  const NEXT := Frame(1, 9, 1, false)
  const TONE := Frame(6, 8, 1, true)
  const QUEUED: seq<Action> := [] + [PutVideo(EARLY)] + [PutVideo(NEXT)] + [PutAudio(TONE)]

  /** The bitrate status falls back to 0 while video is held back. */
  const HELD_RUN: seq<Action> := QUEUED + Repeat(HOLD, 9) + Repeat(KEEP, 7)

  const HELD :=
    State(Top, Stream(Queue([], 1, 0, 1), Some(NEXT), [EARLY, NEXT], [Outcome(EARLY, Withheld)]),
          Stream(Queue([], 6, 6, 6), Some(TONE), [TONE], []), None, true, 6, false, 6, 0, 1, 0, [])

  lemma BeginHolding()
    ensures
      Run(CONFIG, QUEUED) ==
      INITIAL.(video := Stream(Queue([EARLY, NEXT], 1, 0, 0), None, [EARLY, NEXT], []),
               audio := Stream(Queue([TONE], 6, 6, 0), None, [TONE], []))
  {
    hide Step;
    RunExtends(CONFIG, [], PutVideo(EARLY));
    RunExtends(CONFIG, [] + [PutVideo(EARLY)], PutVideo(NEXT));
    RunExtends(CONFIG, [] + [PutVideo(EARLY)] + [PutVideo(NEXT)], PutAudio(TONE));
  }

  lemma Holding()
    ensures Steps(CONFIG, Run(CONFIG, QUEUED), HOLD, 9) == HELD
  {
    hide Run, StepLate, StepSkipVideo, StepSkipAudio, Repeat;
    BeginHolding();
    var s := Run(CONFIG, QUEUED);
    var s1 := Step(CONFIG, s, HOLD);
    assert Steps(CONFIG, s, HOLD, 1) == s1;
    assert s1.video.head == Some(EARLY);
    var s2 := Step(CONFIG, s1, HOLD);
    assert Steps(CONFIG, s, HOLD, 2) == s2;
    assert s2.audio.head == Some(TONE);
    var s3 := Step(CONFIG, s2, HOLD);
    assert Steps(CONFIG, s, HOLD, 3) == s3;
    assert s3.pc == Waiting;
    var s4 := Step(CONFIG, s3, HOLD);
    assert Steps(CONFIG, s, HOLD, 4) == s4;
    assert s4.pc == Choosing;
    var s5 := Step(CONFIG, s4, HOLD);
    assert Steps(CONFIG, s, HOLD, 5) == s5;
    assert s5.hand == Some(EARLY) && s5.video.head == Some(NEXT);
    var s6 := Step(CONFIG, s5, HOLD);
    assert Steps(CONFIG, s, HOLD, 6) == s6;
    assert s6.pc == ReadAudio(1);
    var s7 := Step(CONFIG, s6, HOLD);
    assert Steps(CONFIG, s, HOLD, 7) == s7;
    assert s7.pc == ReadNewest(1, 6);
    var s8 := Step(CONFIG, s7, HOLD);
    assert Steps(CONFIG, s, HOLD, 8) == s8;
    assert s8 ==
      HELD.(pc := Fresh(6), video := HELD.video.(fates := []), hand := Some(EARLY), sendVideo := true, lastDelay := 0,
            pendingDrop := 0);
  }

  lemma Releasing()
    ensures
      Steps(CONFIG, HELD, KEEP, 7).video ==
      Stream(Queue([], 1, 0, 1), None, [EARLY, NEXT], [Outcome(EARLY, Withheld), Outcome(NEXT, Sent)])
  {
    hide Run, StepLate, StepSkipVideo, StepSkipAudio, Repeat;
    var s1 := Step(CONFIG, HELD, KEEP);
    assert Steps(CONFIG, HELD, KEEP, 1) == s1;
    assert s1.pc == Waiting;
    var s2 := Step(CONFIG, s1, KEEP);
    assert Steps(CONFIG, HELD, KEEP, 2) == s2;
    assert s2.pc == Choosing;
    var s3 := Step(CONFIG, s2, KEEP);
    assert Steps(CONFIG, HELD, KEEP, 3) == s3;
    assert s3.hand == Some(NEXT);
    var s4 := Step(CONFIG, s3, KEEP);
    assert Steps(CONFIG, HELD, KEEP, 4) == s4;
    assert s4.pc == ReadAudio(1);
    var s5 := Step(CONFIG, s4, KEEP);
    assert Steps(CONFIG, HELD, KEEP, 5) == s5;
    assert s5.pc == ReadNewest(1, 6);
    var s6 := Step(CONFIG, s5, KEEP);
    assert Steps(CONFIG, HELD, KEEP, 6) == s6;
    assert s6.pc == Fresh(6);
  }

  /** Holding video back without keeping to it: a run with no skip at all in which an ordinary packet follows a
    * dropped one. */
  lemma ReleaseLosesKeyFrame()
    ensures
      var s := Run(CONFIG, HELD_RUN);
      Increasing(s.video.put) && !CaughtUp(s.video.fates) && !EverBlind(s.video.fates)
  {
    hide Step, Run, Repeat;
    RunRepeats(CONFIG, QUEUED, HOLD, 9);
    Holding();
    RunRepeats(CONFIG, QUEUED + Repeat(HOLD, 9), KEEP, 7);
    Releasing();
    var s := Run(CONFIG, HELD_RUN);
    assert s.video.fates[1].fate.Sent? && !s.video.fates[0].fate.Sent?;
  }
}
