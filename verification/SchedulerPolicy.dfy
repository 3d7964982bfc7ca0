/** What becomes of a packet that is on time, over every run: only video is ever held back, when and until when. */
module SchedulerPolicy {
  import opened Bytes
  import opened SendQueue
  import opened Scheduler
  import opened SchedulerSafety
  import opened SchedulerStaleness

  /** RTMP message types 8 and 18. */
  predicate AudioOrMetadata(f: Frame) {
    f.typ in {8, 18}
  }

  /** The step judges the packet in hand, which is on time. */
  predicate Judges(s: State, a: Action) {
    a.Thread? && s.pc.Fresh? && s.hand.Some?
  }

  /** The packet in hand is more than half the delay bound behind: audio-only mode begins. */
  predicate FarBehind(cfg: Config, s: State) {
    s.pc.Fresh? && s.hand.Some? && (s.pc.now - s.hand.value.timestamp) % TWO32 > cfg.maxDelay / 2
  }

  /** Audio-only mode, with what the packet in hand adds. */
  predicate AudioOnly(cfg: Config, s: State) {
    !s.sendVideo || FarBehind(cfg, s)
  }

  /** Audio-only mode has lasted as long as it must before a key frame may end it. */
  predicate RetryDue(cfg: Config, s: State) {
    s.pc.Fresh? && cfg.maxRetryTime <= if FarBehind(cfg, s) then 0 else (s.pc.now - s.lastDelay) % TWO32
  }

  /** The surroundings ask for video to be held back: the bitrate is too low and the strategy is not plain order; under
    * strategy 0 only in audio-only mode. */
  predicate HoldAsked(cfg: Config, s: State, env: Env) {
    env.minBitrate != 0 && env.sendVideoType != 1 && (env.sendVideoType == 0 ==> AudioOnly(cfg, s))
  }

  /** A key frame that ends audio-only mode. */
  predicate Resumes(cfg: Config, s: State) {
    s.hand.Some? && s.hand.value.key && AudioOnly(cfg, s) && RetryDue(cfg, s)
  }

  predicate HoldsBack(cfg: Config, s: State, a: Action) {
    Judges(s, a) && !AudioOrMetadata(s.hand.value) && HoldAsked(cfg, s, a.env) && !Resumes(cfg, s)
  }

  function StreamOf(s: State, video: bool): Stream {
    if video then s.video else s.audio
  }

  // ---------- one packet that is on time ----------

  /** The packet in hand is settled in its own stream, and the buffers and the other stream are left alone. */
  ghost predicate HandBecomes(s: State, r: State, fate: Fate)
    requires s.hand.Some?
  {
    && r.pc == Top && r.hand.None?
    && StreamOf(r, s.handVideo) == Settle(StreamOf(s, s.handVideo), s.hand.value, fate)
    && StreamOf(r, !s.handVideo) == StreamOf(s, !s.handVideo)
  }

  function Noted(cfg: Config, s: State): State
    requires s.pc.Fresh?
  {
    if FarBehind(cfg, s) then s.(sendVideo := false, lastDelay := s.pc.now) else s
  }

  lemma JudgedAs(cfg: Config, s: State, env: Env)
    requires Judges(s, Thread(env))
    ensures
      var r, f, t := Step(cfg, s, env), s.hand.value, Noted(cfg, s);
      var sent := SendHand(t, f, OnTime(s.taken, s.pc.now), env.sendOk);
      if HoldsBack(cfg, s, Thread(env)) then r == Withhold(t, f)
      else r == sent || (env.sendOk && r == sent.(sendVideo := true))
  {
    hide Step, SendHand, Withhold;
    JudgeSteps(cfg, s, env);
  }

  /** A packet that is on time is held back when the rules say so, counted and not sent; otherwise it is sent, or its
    * send fails and ends the thread. */
  lemma OnTimeOutcome(cfg: Config, s: State, env: Env)
    requires Judges(s, Thread(env))
    ensures
      var r, f := Step(cfg, s, env), s.hand.value;
      if HoldsBack(cfg, s, Thread(env)) then
        HandBecomes(s, r, Withheld) && r.wire == s.wire && r.pendingDrop == s.pendingDrop + f.size
      else if env.sendOk then
        && HandBecomes(s, r, Sent) && r.pendingDrop == s.pendingDrop
        && r.wire == s.wire + [Transmission(s.handVideo, f, OnTime(s.taken, s.pc.now))]
      else r.pc == Done(false) && r.wire == s.wire && r.hand == s.hand && r.video == s.video && r.audio == s.audio
  {
    hide Step, HoldsBack;
    JudgedAs(cfg, s, env);
  }

  /** Audio and metadata that are on time always go out. */
  lemma AudioGoesOut(cfg: Config, s: State, env: Env)
    requires Judges(s, Thread(env)) && AudioOrMetadata(s.hand.value) && env.sendOk
    ensures HandBecomes(s, Step(cfg, s, env), Sent)
  {
    hide Step;
    OnTimeOutcome(cfg, s, env);
  }

  // ---------- the mode ----------

  /** After a packet has been judged the thread is in audio-only mode as before, or because the packet is far behind,
    * unless a key frame that was due ended it. */
  lemma ModeAfterJudging(cfg: Config, s: State, env: Env)
    requires Judges(s, Thread(env))
    ensures
      var r, f := Step(cfg, s, env), s.hand.value;
      && (r.sendVideo <==>
            !AudioOnly(cfg, s)
            || (!AudioOrMetadata(f) && HoldAsked(cfg, s, env) && Resumes(cfg, s) && env.sendOk))
      && r.lastDelay == if FarBehind(cfg, s) then s.pc.now else s.lastDelay
  {
    var f, t := s.hand.value, Noted(cfg, s);
    Kept(t, f, OnTime(s.taken, s.pc.now), env.sendOk);
    hide Step, SendHand, Withhold;
    JudgeSteps(cfg, s, env);
  }

  lemma Kept(s: State, f: Frame, reason: Reason, ok: bool)
    ensures SendHand(s, f, reason, ok).sendVideo == s.sendVideo && SendHand(s, f, reason, ok).lastDelay == s.lastDelay
    ensures Withhold(s, f).sendVideo == s.sendVideo && Withhold(s, f).lastDelay == s.lastDelay
  {
  }

  /** A skip that comes to its end. */
  predicate EndsSkip(cfg: Config, s: State, a: Action) {
    a.Thread? && s.pc.SkipAudio? && Step(cfg, s, a.env).pc == Top
  }

  /** No other step changes the mode, except that every skip ends in audio-only mode. */
  lemma ModeOtherwise(cfg: Config, s: State, a: Action)
    requires !Judges(s, a)
    ensures
      var r := Next(cfg, s, a);
      if EndsSkip(cfg, s, a) then !r.sendVideo && r.lastDelay == s.pc.now
      else r.sendVideo == s.sendVideo && r.lastDelay == s.lastDelay
  {
    hide WithinDelay, Fetch;
  }

  /** An on-time key frame after the retry time is sent, and video is on again. */
  lemma KeyFrameResumes(cfg: Config, s: State, env: Env)
    requires Judges(s, Thread(env)) && !AudioOrMetadata(s.hand.value) && s.hand.value.key && env.sendOk
    requires HoldAsked(cfg, s, env) && AudioOnly(cfg, s) && RetryDue(cfg, s)
    ensures HandBecomes(s, Step(cfg, s, env), Sent) && Step(cfg, s, env).sendVideo
  {
    hide Step;
    OnTimeOutcome(cfg, s, env);
    ModeAfterJudging(cfg, s, env);
  }

  /** Nothing in this part of a run makes the thread fall back to audio only. */
  ghost predicate Undisturbed(cfg: Config, run: seq<Action>, more: seq<Action>) {
    forall i :: 0 <= i < |more| ==>
      var s := Run(cfg, run + more[..i]);
      !(Judges(s, more[i]) && FarBehind(cfg, s)) && !EndsSkip(cfg, s, more[i])
  }

  /** Video stays on until a packet is far behind or a skip has ended. */
  lemma {:induction false} VideoStaysOn(cfg: Config, run: seq<Action>, more: seq<Action>)
    requires Run(cfg, run).sendVideo && Undisturbed(cfg, run, more)
    ensures Run(cfg, run + more).sendVideo
    decreases |more|
  {
    hide Run, FarBehind, Step, EndsSkip;
    if more == [] {
      assert run + more == run;
    } else {
      var before, a := more[..|more| - 1], more[|more| - 1];
      assert forall i :: 0 <= i < |before| ==> before[..i] == more[..i] && before[i] == more[i];
      VideoStaysOn(cfg, run, before);
      RunExtends(cfg, run + before, a);
      assert run + before + [a] == run + more;
      var s := Run(cfg, run + before);
      if Judges(s, a) {
        ModeAfterJudging(cfg, s, a.env);
      } else {
        ModeOtherwise(cfg, s, a);
      }
    }
  }

  // ---------- over every run ----------

  /** A packet of the stream is held back at some step of the run. */
  ghost predicate HeldBackAt(cfg: Config, run: seq<Action>, i: nat, video: bool, f: Frame) {
    && i < |run| && HoldsBack(cfg, Run(cfg, run[..i]), run[i])
    && Run(cfg, run[..i]).hand == Some(f) && Run(cfg, run[..i]).handVideo == video
  }

  ghost predicate AllHeldBack(cfg: Config, run: seq<Action>, video: bool, fates: seq<Outcome>) {
    forall k :: 0 <= k < |fates| && fates[k].fate.Withheld? ==>
      exists i: nat :: HeldBackAt(cfg, run, i, video, fates[k].frame)
  }

  lemma StillHeldBack(cfg: Config, before: seq<Action>, a: Action, video: bool, fates: seq<Outcome>)
    requires AllHeldBack(cfg, before, video, fates)
    ensures AllHeldBack(cfg, before + [a], video, fates)
  {
    hide HoldsBack, Run;
    forall k | 0 <= k < |fates| && fates[k].fate.Withheld?
      ensures exists i: nat :: HeldBackAt(cfg, before + [a], i, video, fates[k].frame)
    {
      var i: nat :| HeldBackAt(cfg, before, i, video, fates[k].frame);
      assert (before + [a])[..i] == before[..i] && (before + [a])[i] == before[i];
      assert HeldBackAt(cfg, before + [a], i, video, fates[k].frame);
    }
  }

  /** A step settles at most one packet as withheld: the one in hand, when the rules hold it back. */
  lemma StepWithholds(cfg: Config, s: State, a: Action, video: bool, o: Outcome)
    requires o.fate.Withheld?
    ensures
      var was, now := StreamOf(s, video).fates, StreamOf(Next(cfg, s, a), video).fates;
      && was <= now
      && (o in now[|was|..] ==> HoldsBack(cfg, s, a) && s.hand == Some(o.frame) && s.handVideo == video)
  {
    hide HoldsBack, Step, SkipOne, StepSkipVideo, StepSkipAudio, StepLate;
    if Judges(s, a) {
      OnTimeOutcome(cfg, s, a.env);
    } else if a.Thread? {
      OthersWithholdNothing(cfg, s, a, video);
    }
  }

  /** Outcomes were added, none of them withheld. */
  ghost predicate AddsNoneWithheld(was: seq<Outcome>, now: seq<Outcome>) {
    was <= now && forall o :: o in now[|was|..] ==> !o.fate.Withheld?
  }

  lemma LateAdds(s: State, now: uint32, f: Frame, env: Env, video: bool)
    requires s.hand == Some(f)
    ensures AddsNoneWithheld(StreamOf(s, video).fates, StreamOf(StepLate(s, now, f, env), video).fates)
  {
  }

  lemma SkipVideoAdds(s: State, now: uint32, keyTime: uint32, env: Env, video: bool)
    ensures AddsNoneWithheld(StreamOf(s, video).fates, StreamOf(StepSkipVideo(s, now, keyTime, env), video).fates)
  {
  }

  lemma SkipAudioAdds(s: State, now: uint32, keyTime: uint32, env: Env, video: bool)
    ensures AddsNoneWithheld(StreamOf(s, video).fates, StreamOf(StepSkipAudio(s, now, keyTime, env), video).fates)
  {
  }

  lemma OthersWithholdNothing(cfg: Config, s: State, a: Action, video: bool)
    requires a.Thread? && !Judges(s, a)
    ensures AddsNoneWithheld(StreamOf(s, video).fates, StreamOf(Next(cfg, s, a), video).fates)
  {
    hide WithinDelay, StepFresh, StepLate, StepSkipVideo, StepSkipAudio, Take, Fetch;
    FetchKeepsHistory(s.video);
    FetchKeepsHistory(s.audio);
    TakeKeepsHistory(s);
    if s.pc.Late? && s.hand.Some? {
      LateAdds(s, s.pc.now, s.hand.value, a.env, video);
    } else if s.pc.SkipVideo? || s.pc.SkipAudio? {
      SkipVideoAdds(s, s.pc.now, s.pc.keyTime, a.env, video);
      SkipAudioAdds(s, s.pc.now, s.pc.keyTime, a.env, video);
    }
  }

  lemma FatesSplit(fates: seq<Outcome>, n: nat, k: nat)
    requires n <= k < |fates|
    ensures fates[k] in fates[n..]
  {
    assert fates[n..][k - n] == fates[k];
  }

  /** Every withheld packet was held back by the rules, at some step of the run. */
  lemma {:induction false} WithheldWasHeldBack(cfg: Config, run: seq<Action>, video: bool)
    ensures AllHeldBack(cfg, run, video, StreamOf(Run(cfg, run), video).fates)
  {
    if run != [] {
      var before, a := run[..|run| - 1], run[|run| - 1];
      var s, r := Run(cfg, before), Run(cfg, run);
      WithheldWasHeldBack(cfg, before, video);
      var was, now := StreamOf(s, video).fates, StreamOf(r, video).fates;
      StillHeldBack(cfg, before, a, video, was);
      assert before + [a] == run;
      RunExtends(cfg, before, a);
      hide Run, HoldsBack, Next;
      forall k | 0 <= k < |now| && now[k].fate.Withheld?
        ensures exists i: nat :: HeldBackAt(cfg, run, i, video, now[k].frame)
      {
        StepWithholds(cfg, s, a, video, now[k]);
        if k >= |was| {
          FatesSplit(now, |was|, k);
          assert HeldBackAt(cfg, run, |before|, video, now[k].frame);
        } else {
          assert now[k] == was[k];
        }
      }
    }
  }

  /** Audio and metadata are lost to a skip or a failed send only: none is ever withheld. */
  lemma OnlyVideoWithheld(cfg: Config, run: seq<Action>, video: bool)
    ensures
      forall o :: o in StreamOf(Run(cfg, run), video).fates && o.fate.Withheld? ==> !AudioOrMetadata(o.frame)
  {
    hide Run, HoldAsked, Resumes;
    var fates := StreamOf(Run(cfg, run), video).fates;
    WithheldWasHeldBack(cfg, run, video);
    forall o | o in fates && o.fate.Withheld?
      ensures !AudioOrMetadata(o.frame)
    {
      var k :| 0 <= k < |fates| && fates[k] == o;
      var i: nat :| HeldBackAt(cfg, run, i, video, o.frame);
    }
  }

  // ---------- what is taken, and what is counted ----------

  /** The packet taken is the earliest held, audio on a tie, and it is the head of its stream. */
  lemma EarliestTaken(cfg: Config, s: State, env: Env)
    requires s.pc == Choosing && s.hand.None?
    ensures
      var r := Step(cfg, s, env);
      r.hand.Some? ==>
        && StreamOf(s, r.handVideo).head == r.hand
        && (StreamOf(s, !r.handVideo).head.Some? ==>
              var other := StreamOf(s, !r.handVideo).head.value.timestamp;
              if r.handVideo then r.hand.value.timestamp < other else r.hand.value.timestamp <= other)
    ensures
      var r := Step(cfg, s, env);
      r.hand.None? ==>
        (s.video.head.None? && s.audio.head.None?) || (r.pc == Done(true) && (s.waited >= cfg.waitTime || !env.running))
  {
    hide StepFresh, StepLate, StepSkipVideo, StepSkipAudio, Fetch;
  }

  /** Control points of a turn before anything is dropped in it. */
  predicate BeforeDrops(pc: Pc) {
    || pc in {Waiting, WaitVideo, WaitAudio, Choosing, ReadVideo}
    || pc.ReadAudio? || pc.ReadNewest? || pc.Fresh? || pc.Late?
  }

  lemma {:induction false} NothingPending(cfg: Config, run: seq<Action>)
    ensures BeforeDrops(Run(cfg, run).pc) ==> Run(cfg, run).pendingDrop == 0
  {
    if run != [] {
      NothingPending(cfg, run[..|run| - 1]);
      StillNothingPending(cfg, Run(cfg, run[..|run| - 1]), run[|run| - 1]);
    }
  }

  lemma StillNothingPending(cfg: Config, s: State, a: Action)
    requires BeforeDrops(s.pc) ==> s.pendingDrop == 0
    ensures BeforeDrops(Next(cfg, s, a).pc) ==> Next(cfg, s, a).pendingDrop == 0
  {
    hide WithinDelay, StepFresh, StepLate, StepSkipVideo, StepSkipAudio;
    if a.Thread? {
      if s.pc.Fresh? && s.hand.Some? {
        FreshSamePuts(cfg, s, s.pc.now, s.hand.value, a.env);
      } else if s.pc.Late? && s.hand.Some? {
        LateSamePuts(s, s.pc.now, s.hand.value, a.env);
      } else if s.pc.SkipVideo? || s.pc.SkipAudio? {
        SkipSamePuts(s, s.pc.now, s.pc.keyTime, a.env);
      }
    }
  }

  /** What was dropped in the turns before is counted before the next packet is chosen. */
  lemma DropsAreCounted(cfg: Config, run: seq<Action>)
    ensures
      var s := Run(cfg, run);
      BeforeDrops(s.pc) ==>
        s.pendingDrop == 0 && s.countedDrop == BytesOf(s.video.fates) + BytesOf(s.audio.fates)
  {
    hide Run, Accounted, SentOn, SentOf, BytesOf;
    Conservation(cfg, run);
    NothingPending(cfg, run);
  }

  // ---------- how the thread ends ----------

  /** The thread ends on a failed send, on the order to stop, or after waiting as long as it may. */
  lemma EndsOnlyFor(cfg: Config, s: State, env: Env)
    requires !s.pc.Done? && Step(cfg, s, env).pc.Done?
    ensures
      if Step(cfg, s, env).pc.result then s.pc == Choosing && (!env.running || s.waited >= cfg.waitTime)
      else !env.sendOk && (s.pc.Fresh? || s.pc.Late? || s.pc.SkipVideo? || s.pc.SkipAudio?)
  {
    hide WithinDelay;
  }
}
