/** The sending thread as it is written: one loop over two linked queues, refining the step-by-step scheduler. */
module SendThread {
  import opened Bytes
  import opened SendQueue
  import opened Scheduler
  import opened SchedulerSafety
  import opened SendScript

  /** The packets transmitted, in order, with their streams. */
  function Sends(wire: seq<Transmission>): seq<(bool, Frame)> {
    if wire == [] then []
    else Sends(wire[..|wire| - 1]) + [(wire[|wire| - 1].video, wire[|wire| - 1].frame)]
  }

  lemma SendsAppend(wire: seq<Transmission>, t: Transmission)
    ensures Sends(wire + [t]) == Sends(wire) + [(t.video, t.frame)]
  {
    assert (wire + [t])[..|wire|] == wire;
  }

  /** How a judged packet leaves the hand. */
  lemma HandLeaves(cfg: Config, s: State, now: uint32, f: Frame, reason: Reason, env: Env)
    requires s.hand == Some(f)
    ensures StepFresh(cfg, s, now, f, env).pc == if StepFresh(cfg, s, now, f, env).hand.None? then Top else Done(false)
    ensures
      SendHand(s, f, reason, env.sendOk).pc ==
      if SendHand(s, f, reason, env.sendOk).hand.None? then Top else Done(false)
  {
    hide Minus;
  }

  /** Packets of a stream the thread can still come to. */
  function Pending(st: Stream): nat {
    |st.queue.waiting| + if st.head.Some? then 1 else 0
  }

  /** Where a turn of a skip loop leads, and that it uses up one packet. */
  lemma SkipMoves(s: State, now: uint32, keyTime: uint32, env: Env)
    ensures
      s.video.head.Some? && s.pc == SkipVideo(now, keyTime) ==>
        var r, found := StepSkipVideo(s, now, keyTime, env), s.video.head.value.timestamp >= keyTime;
        && (found ==> r.pc == if env.sendOk then SkipAudio(now, keyTime) else Done(false))
        && (!found ==> r.pc == s.pc && Pending(r.video) < Pending(s.video))
    ensures
      s.audio.head.Some? && s.pc == SkipAudio(now, keyTime) ==>
        var r, found := StepSkipAudio(s, now, keyTime, env), s.audio.head.value.timestamp >= keyTime;
        && (found ==> r.pc == if env.sendOk then Top else Done(false))
        && (!found ==> r.pc == s.pc && Pending(r.audio) < Pending(s.audio))
  {
  }

  lemma TookOne(s: State)
    requires s.hand.None?
    ensures Take(s).pc == if Take(s).hand.Some? then ReadVideo else Top
  {
  }

  class BufferControl {
    const cfg: Config
    const video: RTMPBuffer
    const audio: RTMPBuffer
    const script: seq<Turn>
    /** Steps taken, each with one turn of the script. */
    var steps: nat
    var videoHead: Option<Frame>
    var audioHead: Option<Frame>
    var hand: Option<Frame>
    var handVideo: bool
    var sendVideo: bool
    var lastDelay: uint32
    var waited: uint32
    var dropData: nat
    var countedDrop: nat
    var sent: seq<(bool, Frame)>
    /** The scheduler state the run so far leads to. */
    ghost var s: State

    ghost function Footprint(): set<object>
      reads this, video, audio
    {
      {this} + video.Repr + audio.Repr
    }

    ghost predicate Lists()
      reads this, video, audio, video.Repr, audio.Repr
    {
      && video.Valid() && audio.Valid() && video.Repr !! audio.Repr && this !in video.Repr && this !in audio.Repr
    }

    /** The fields and the lists hold what the scheduler state says. */
    ghost predicate Shows(st: State)
      requires Lists()
      reads this, video, audio, video.Repr, audio.Repr
    {
      && st.video.queue == video.Model() && st.audio.queue == audio.Model()
      && st.video.head == videoHead && st.audio.head == audioHead
      && st.hand == hand && (hand.Some? ==> st.handVideo == handVideo)
      && st.sendVideo == sendVideo && st.lastDelay == lastDelay && st.waited == waited
      && st.pendingDrop == dropData && st.countedDrop == countedDrop && Sends(st.wire) == sent
    }

    ghost predicate Valid()
      reads this, video, audio, video.Repr, audio.Repr
    {
      Lists() && Shows(s) && s == StateAt(cfg, script, steps)
    }

    /** Turns of the script not used yet. */
    ghost function Left(): nat
      reads this
    {
      if steps < |script| then |script| - steps else 0
    }

    constructor (cfg: Config, script: seq<Turn>)
      ensures Valid() && s == INITIAL && steps == 0 && this.cfg == cfg && this.script == script
      ensures fresh(Footprint() - {this})
    {
      this.cfg := cfg;
      this.script := script;
      video := new RTMPBuffer();
      audio := new RTMPBuffer();
      videoHead, audioHead, hand, handVideo := None, None, None, false;
      sendVideo, lastDelay, waited, dropData, countedDrop, sent := true, 0, 0, 0, 0, [];
      steps, s := 0, INITIAL;
    }

    /** Only what the producers may touch differs between the two states. */
    static ghost predicate OnlyPuts(s: State, r: State) {
      r == s.(video := s.video.(queue := r.video.queue, put := r.video.put),
              audio := s.audio.(queue := r.audio.queue, put := r.audio.put))
    }

    method Deliver(a: Arrival)
      requires Lists() && Shows(s)
      modifies Footprint()
      ensures Lists() && Shows(s) && fresh(Footprint() - old(Footprint())) && OnlyPuts(old(s), s)
      ensures s == Next(cfg, old(s), AsAction(a)) && steps == old(steps)
    {
      hide Step, Sends;
      s := Next(cfg, s, AsAction(a));
      if a.video {
        video.PutBuffer(a.frame);
      } else {
        audio.PutBuffer(a.frame);
      }
    }

    /** The producers run; then the step about to be taken learns what it will read. */
    method Yield() returns (env: Env)
      requires Valid()
      modifies Footprint()
      ensures Lists() && Shows(s) && fresh(Footprint() - old(Footprint())) && OnlyPuts(old(s), s)
      ensures Ready(cfg, script, steps, s, env) && steps == old(steps) && env == TurnAt(script, steps).env
      ensures steps >= |script| ==> env == STOP && s == old(s)
    {
      hide StateAt, Shows, Lists, Next, AsAction;
      var turn := if steps < |script| then script[steps] else Turn([], STOP);
      for i := 0 to |turn.puts|
        invariant Lists() && Shows(s) && fresh(Footprint() - old(Footprint())) && OnlyPuts(old(s), s)
        invariant s == Delivered(cfg, old(s), turn.puts[..i]) && steps == old(steps)
      {
        Deliver(turn.puts[i]);
        assert turn.puts[..i + 1][..i] == turn.puts[..i];
      }
      assert turn.puts[..|turn.puts|] == turn.puts;
      env := turn.env;
    }

    /** The step is taken once the fields show its outcome. */
    method Advance(env: Env)
      requires Lists() && Ready(cfg, script, steps, s, env) && Shows(Step(cfg, s, env))
      modifies this`s, this`steps
      ensures Valid() && s == Step(cfg, old(s), env) && steps == old(steps) + 1
    {
      hide StateAt, Step, Delivered, TurnAt;
      StateFollows(cfg, script, steps);
      s := Step(cfg, s, env);
      steps := steps + 1;
    }

    lemma NotAtTop()
      requires Valid() && s.pc != Top && !s.pc.Done?
      ensures Underway(cfg, script, steps, steps + 1)
    {
      hide Lists, Shows, StateAt;
    }

    /** The head becomes whatever the video buffer yields. */
    method RefillVideo(ghost st: State)
      requires Lists() && Shows(st)
      modifies this`videoHead, video
      ensures Lists() && Footprint() == old(Footprint()) && Shows(st.(video := Fetch(st.video)))
    {
      hide RTMPBuffer.Valid, RTMPBuffer.Model, StateAt, Ready, Sends;
      var node := video.GetBuffer();
      videoHead := if node == null then None else Some(node.packet);
    }

    method RefillAudio(ghost st: State)
      requires Lists() && Shows(st)
      modifies this`audioHead, audio
      ensures Lists() && Footprint() == old(Footprint()) && Shows(st.(audio := Fetch(st.audio)))
    {
      hide RTMPBuffer.Valid, RTMPBuffer.Model, StateAt, Ready, Sends;
      var node := audio.GetBuffer();
      audioHead := if node == null then None else Some(node.packet);
    }

    method FetchVideo()
      requires Valid() && s.pc == FirstVideo
      modifies Footprint()
      ensures Valid() && fresh(Footprint() - old(Footprint())) && steps == old(steps) + 1 && s.pc == FirstAudio
      ensures Underway(cfg, script, old(steps), steps)
    {
      hide RTMPBuffer.Valid, RTMPBuffer.Model, StateAt, Ready, Step, Sends, Underway;
      NotAtTop();
      var env := Yield();
      RefillVideo(s);
      FetchSteps(cfg, s, env);
      Advance(env);
    }

    method FetchAudio()
      requires Valid() && s.pc == FirstAudio
      modifies Footprint()
      ensures Valid() && fresh(Footprint() - old(Footprint())) && steps == old(steps) + 1 && s.pc == Top
    {
      hide RTMPBuffer.Valid, RTMPBuffer.Model, StateAt, Ready, Step, Sends;
      var env := Yield();
      RefillAudio(s);
      FetchSteps(cfg, s, env);
      Advance(env);
    }

    method FlushDrops()
      requires Valid() && s.pc == Top
      modifies Footprint()
      ensures Valid() && fresh(Footprint() - old(Footprint())) && steps == old(steps) + 1 && s.pc == Waiting
    {
      hide RTMPBuffer.Valid, RTMPBuffer.Model, StateAt, Ready, Sends, WithinDelay, StepFresh, StepLate, StepSkipVideo;
      hide StepSkipAudio, Take;
      var env := Yield();
      countedDrop := countedDrop + dropData;
      dropData := 0;
      waited := 0;
      Advance(env);
    }

    method PollVideo()
      requires Valid() && s.pc == WaitVideo
      modifies Footprint()
      ensures Valid() && fresh(Footprint() - old(Footprint())) && steps == old(steps) + 1 && s.pc == WaitAudio
      ensures Underway(cfg, script, old(steps), steps)
    {
      hide Later, RTMPBuffer.Valid, RTMPBuffer.Model, StateAt, Ready, Step, Sends, Underway;
      NotAtTop();
      var env := Yield();
      RefillVideo(s);
      FetchSteps(cfg, s, env);
      Advance(env);
    }

    method PollAudio()
      requires Valid() && s.pc == WaitAudio
      modifies Footprint()
      ensures Valid() && fresh(Footprint() - old(Footprint())) && steps == old(steps) + 1 && s.pc == Waiting
      ensures Underway(cfg, script, old(steps), steps)
    {
      hide Later, RTMPBuffer.Valid, RTMPBuffer.Model, StateAt, Ready, Step, Sends, Underway;
      NotAtTop();
      var env := Yield();
      RefillAudio(s);
      waited := Later(waited);
      FetchSteps(cfg, s, env);
      Advance(env);
    }

    /** One turn of the waiting loop. */
    method Poll() returns (running: bool)
      requires Valid() && s.pc == Waiting && videoHead.None? && audioHead.None? && waited < cfg.waitTime
      modifies Footprint()
      ensures Valid() && fresh(Footprint() - old(Footprint())) && steps == old(steps) + if running then 3 else 1
      ensures Underway(cfg, script, old(steps), steps)
      ensures s.pc == if running then Waiting else Choosing
      ensures !running ==> !TurnAt(script, old(steps)).env.running
      ensures running ==> old(steps) < |script|
    {
      hide Valid, Lists, Shows, StateAt, TurnAt;
      running := StillRunning();
      if running {
        PollVideo();
        PollAudio();
      }
    }

    /** The run flag is read before each poll. */
    method StillRunning() returns (running: bool)
      requires Valid() && s.pc == Waiting && videoHead.None? && audioHead.None? && waited < cfg.waitTime
      modifies Footprint()
      ensures Valid() && fresh(Footprint() - old(Footprint())) && steps == old(steps) + 1
      ensures Underway(cfg, script, old(steps), steps)
      ensures s.pc == if running then WaitVideo else Choosing
      ensures running == TurnAt(script, old(steps)).env.running && (running ==> old(steps) < |script|)
    {
      hide RTMPBuffer.Valid, RTMPBuffer.Model, StateAt, Ready, Sends, WithinDelay, StepFresh, StepLate, StepSkipVideo;
      hide StepSkipAudio, Take, Fetch, Underway;
      NotAtTop();
      var env := Yield();
      running := env.running;
      Advance(env);
    }

    /** There is something to send, or the time limit is reached. */
    method StopWaiting()
      requires Valid() && s.pc == Waiting && (videoHead.Some? || audioHead.Some? || waited >= cfg.waitTime)
      modifies Footprint()
      ensures Valid() && fresh(Footprint() - old(Footprint())) && steps == old(steps) + 1
      ensures Underway(cfg, script, old(steps), steps) && s.pc == Choosing
      ensures videoHead == old(videoHead) && audioHead == old(audioHead) && waited == old(waited)
    {
      hide RTMPBuffer.Valid, RTMPBuffer.Model, StateAt, Ready, Sends, WithinDelay, StepFresh, StepLate, StepSkipVideo;
      hide StepSkipAudio, Take, Fetch, Underway;
      NotAtTop();
      var env := Yield();
      Advance(env);
    }

    /** Polls both buffers while neither yields anything, the time limit is not reached and the thread is to run. */
    method Wait()
      requires Valid() && s.pc == Waiting
      modifies Footprint()
      ensures Valid() && fresh(Footprint() - old(Footprint())) && old(steps) < steps && s.pc == Choosing
      ensures Underway(cfg, script, old(steps), steps)
      ensures
        videoHead.Some? || audioHead.Some? || waited >= cfg.waitTime || !TurnAt(script, steps - 1).env.running
    {
      hide Valid, Lists, Shows, StateAt, TurnAt;
      while videoHead.None? && audioHead.None? && waited < cfg.waitTime
        invariant Valid() && fresh(Footprint() - old(Footprint())) && old(steps) <= steps && s.pc == Waiting
        invariant Underway(cfg, script, old(steps), steps)
        decreases Left()
      {
        var running := Poll();
        if !running {
          return;
        }
      }
      StopWaiting();
    }

    /** Takes out the packet to deal with: the older head, audio on a tie; the place is filled from the same buffer. */
    method TakeOut()
      requires Lists() && Shows(s) && hand.None?
      modifies this`hand, this`handVideo, this`videoHead, this`audioHead, video, audio
      ensures Lists() && Footprint() == old(Footprint()) && Shows(Take(s))
      ensures s == old(s)
    {
      hide RTMPBuffer.Valid, RTMPBuffer.Model, StateAt, Ready, Step, Sends, Fetch;
      if videoHead.Some? && audioHead.Some? {
        if videoHead.value.timestamp < audioHead.value.timestamp {
          hand, handVideo := videoHead, true;
          RefillVideo(s.(hand := s.video.head, handVideo := true));
        } else {
          hand, handVideo := audioHead, false;
          RefillAudio(s.(hand := s.audio.head, handVideo := false));
        }
      } else if videoHead.None? && audioHead.Some? {
        hand, handVideo := audioHead, false;
        RefillAudio(s.(hand := s.audio.head, handVideo := false));
      } else if videoHead.Some? && audioHead.None? {
        hand, handVideo := videoHead, true;
        RefillVideo(s.(hand := s.video.head, handVideo := true));
      }
    }

    method Choose() returns (going: bool)
      requires Valid() && s.pc == Choosing && hand.None?
      modifies Footprint()
      ensures Valid() && fresh(Footprint() - old(Footprint())) && steps == old(steps) + 1
      ensures Underway(cfg, script, old(steps), steps)
      ensures s.pc == if !going then Done(true) else if hand.Some? then ReadVideo else Top
      ensures going ==> old(steps) < |script|
    {
      hide RTMPBuffer.Valid, RTMPBuffer.Model, StateAt, Ready, Step, Sends, Take, Underway;
      NotAtTop();
      var env := Yield();
      ChooseStep(cfg, s, env);
      TookOne(s);
      going := waited < cfg.waitTime && env.running;
      if going {
        TakeOut();
      }
      Advance(env);
    }

    method ReadVideoTime() returns (v: uint32)
      requires Valid() && s.pc == ReadVideo && hand.Some?
      modifies Footprint()
      ensures Valid() && fresh(Footprint() - old(Footprint())) && steps == old(steps) + 1 && hand == old(hand)
      ensures s.pc == ReadAudio(v)
      ensures Underway(cfg, script, old(steps), steps)
    {
      hide RTMPBuffer.Valid, StateAt, Ready, Sends, WithinDelay, StepFresh, StepLate, StepSkipVideo, StepSkipAudio;
      hide Take, Fetch, Underway;
      NotAtTop();
      var env := Yield();
      v := video.lastTime;
      Advance(env);
    }

    method ReadAudioTime(v: uint32) returns (a: uint32)
      requires Valid() && s.pc == ReadAudio(v) && hand.Some?
      modifies Footprint()
      ensures Valid() && fresh(Footprint() - old(Footprint())) && steps == old(steps) + 1 && hand == old(hand)
      ensures s.pc == ReadNewest(v, a)
      ensures Underway(cfg, script, old(steps), steps)
    {
      hide RTMPBuffer.Valid, StateAt, Ready, Sends, WithinDelay, StepFresh, StepLate, StepSkipVideo, StepSkipAudio;
      hide Take, Fetch, Underway;
      NotAtTop();
      var env := Yield();
      a := audio.lastTime;
      Advance(env);
    }

    method ReadNewestTime(v: uint32, a: uint32) returns (now: uint32)
      requires Valid() && s.pc == ReadNewest(v, a) && hand.Some?
      modifies Footprint()
      ensures Valid() && fresh(Footprint() - old(Footprint())) && steps == old(steps) + 1 && hand == old(hand)
      ensures s.pc == if WithinDelay(cfg, now, hand.value) then Fresh(now) else Late(now)
      ensures now == if v > a then s.video.queue.lastTime else s.audio.queue.lastTime
      ensures Underway(cfg, script, old(steps), steps)
    {
      hide RTMPBuffer.Valid, StateAt, Ready, Sends, WithinDelay, StepFresh, StepLate, StepSkipVideo, StepSkipAudio;
      hide Take, Fetch, Underway;
      NotAtTop();
      var env := Yield();
      now := if v > a then video.lastTime else audio.lastTime;
      Advance(env);
    }

    /** The newest time: two unlocked reads to compare, a third to fetch the larger. */
    method ReadClock() returns (now: uint32)
      requires Valid() && s.pc == ReadVideo && hand.Some?
      modifies Footprint()
      ensures Valid() && fresh(Footprint() - old(Footprint())) && steps == old(steps) + 3 && hand == old(hand)
      ensures s.pc == if WithinDelay(cfg, now, hand.value) then Fresh(now) else Late(now)
      ensures now == s.video.queue.lastTime || now == s.audio.queue.lastTime
      ensures Underway(cfg, script, old(steps), steps)
    {
      hide Valid, Lists, Shows, StateAt, WithinDelay;
      var v := ReadVideoTime();
      var a := ReadAudioTime(v);
      now := ReadNewestTime(v, a);
    }

    /** Sends the packet in hand; a failed send leaves it in hand and ends the thread. */
    method SendOut(ghost st: State, ghost reason: Reason, sendOk: bool)
      requires Lists() && Shows(st) && hand.Some?
      modifies this`hand, this`sent
      ensures Lists() && Footprint() == old(Footprint()) && Shows(SendHand(st, old(hand).value, reason, sendOk))
    {
      hide RTMPBuffer.Valid, RTMPBuffer.Model, StateAt, Ready, Sends;
      if sendOk {
        SendsAppend(st.wire, Transmission(handVideo, hand.value, reason));
        sent := sent + [(handVideo, hand.value)];
        hand := None;
      }
    }

    /** Drops the packet in hand and counts its bytes. */
    method DropHand(ghost st: State)
      requires Lists() && Shows(st) && hand.Some?
      modifies this`hand, this`dropData
      ensures Lists() && Footprint() == old(Footprint()) && Shows(Withhold(st, old(hand).value))
    {
      hide RTMPBuffer.Valid, RTMPBuffer.Model, StateAt, Ready, Sends;
      dropData := dropData + hand.value.size;
      hand := None;
    }

    /** Deals with a packet that is on time: falls back to audio only when it is more than half the bound behind. */
    method DispatchFresh(now: uint32, env: Env)
      requires Lists() && Shows(s) && hand.Some?
      modifies this`hand, this`sent, this`dropData, this`sendVideo, this`lastDelay
      ensures Lists() && Footprint() == old(Footprint()) && s == old(s)
      ensures Shows(StepFresh(cfg, s, now, old(hand).value, env))
    {
      hide RTMPBuffer.Valid, RTMPBuffer.Model, StateAt, Ready, Step, Sends, SendHand, Withhold, Minus, StepFreshVideo;
      var f := hand.value;
      ghost var st := s;
      if Minus(now, f.timestamp) > cfg.maxDelay / 2 {
        sendVideo := false;
        lastDelay := now;
        st := s.(sendVideo := false, lastDelay := now);
      }
      if f.typ == 8 || f.typ == 18 {
        SendOut(st, OnTime(st.taken, now), env.sendOk);
      } else {
        DispatchVideo(st, now, env);
      }
    }

    /** Sends the video packet in hand or, in audio-only mode, drops video up to a key frame. */
    method DispatchVideo(ghost st: State, now: uint32, env: Env)
      requires Lists() && Shows(st) && hand.Some?
      modifies this`hand, this`sent, this`dropData, this`sendVideo
      ensures Lists() && Footprint() == old(Footprint())
      ensures Shows(StepFreshVideo(cfg, st, now, old(hand).value, env))
    {
      hide RTMPBuffer.Valid, RTMPBuffer.Model, StateAt, Ready, Step, Sends, SendHand, Withhold, Minus;
      var f := hand.value;
      if env.minBitrate == 0 {
        SendOut(st, OnTime(st.taken, now), env.sendOk);
      } else if env.sendVideoType == 1 || (env.sendVideoType == 0 && sendVideo) {
        SendOut(st, OnTime(st.taken, now), env.sendOk);
      } else if !sendVideo && Minus(now, lastDelay) >= cfg.maxRetryTime {
        if f.key {
          SendOut(st, OnTime(st.taken, now), env.sendOk);
          if env.sendOk {
            sendVideo := true;
          }
        } else {
          DropHand(st);
        }
      } else {
        DropHand(st);
      }
    }

    method OnTimePacket(now: uint32) returns (ok: bool)
      requires Valid() && hand.Some? && s.pc == Fresh(now)
      modifies Footprint()
      ensures Valid() && fresh(Footprint() - old(Footprint())) && steps == old(steps) + 1
      ensures Underway(cfg, script, old(steps), steps)
      ensures s.pc == if ok then Top else Done(false)
    {
      hide RTMPBuffer.Valid, RTMPBuffer.Model, StateAt, Ready, Step, Sends, StepFresh, Underway;
      NotAtTop();
      var env := Yield();
      JudgeSteps(cfg, s, env);
      HandLeaves(cfg, s, now, hand.value, NotOlder(0), env);
      DispatchFresh(now, env);
      ok := hand.None?;
      Advance(env);
    }

    /** Sends the late packet if no key frame is newer; otherwise gives it up. */
    method JudgeLate(now: uint32) returns (ok: bool, skipping: bool, keyTime: uint32)
      requires Valid() && hand.Some? && s.pc == Late(now)
      modifies Footprint()
      ensures Valid() && fresh(Footprint() - old(Footprint())) && steps == old(steps) + 1
      ensures Underway(cfg, script, old(steps), steps)
      ensures s.pc == if skipping then SkipVideo(now, keyTime) else if ok then Top else Done(false)
    {
      hide RTMPBuffer.Valid, StateAt, Ready, Step, Sends, SendHand, Underway;
      NotAtTop();
      var env := Yield();
      JudgeSteps(cfg, s, env);
      keyTime := video.lastKeyTime;
      HandLeaves(cfg, s, now, hand.value, NotOlder(keyTime), env);
      skipping := keyTime > hand.value.timestamp;
      if skipping {
        hand, ok := None, true;
      } else {
        SendOut(s, NotOlder(keyTime), env.sendOk);
        ok := hand.None?;
      }
      Advance(env);
    }

    /** One turn of the skip loop on the video buffer: an older head is dropped, the first other one is sent. */
    method SkipVideoHead(now: uint32, keyTime: uint32, env: Env) returns (ok: bool, found: bool)
      requires Lists() && Shows(s) && videoHead.Some? && s.pc == SkipVideo(now, keyTime)
      modifies this`sent, this`dropData, this`videoHead, video
      ensures Lists() && Footprint() == old(Footprint()) && Shows(StepSkipVideo(s, now, keyTime, env))
      ensures found == (old(videoHead).value.timestamp >= keyTime) && ok == (!found || env.sendOk)
    {
      hide RTMPBuffer.Valid, RTMPBuffer.Model, StateAt, Ready, Sends, Fetch;
      var f := videoHead.value;
      found := f.timestamp >= keyTime;
      ok := true;
      if !found {
        dropData := dropData + f.size;
        RefillVideo(s.(video := Settle(s.video, f, Skipped), pendingDrop := s.pendingDrop + f.size));
      } else if !env.sendOk {
        ok := false;
      } else {
        ghost var t := Transmission(true, f, NotOlder(keyTime));
        SendsAppend(s.wire, t);
        sent := sent + [(true, f)];
        RefillVideo(s.(video := Settle(s.video, f, Sent), wire := s.wire + [t]));
      }
    }

    method SkipVideoTurn(now: uint32, keyTime: uint32) returns (ok: bool, found: bool)
      requires Valid() && videoHead.Some? && s.pc == SkipVideo(now, keyTime)
      modifies Footprint()
      ensures Valid() && fresh(Footprint() - old(Footprint())) && steps == old(steps) + 1
      ensures s.pc == if !ok then Done(false) else if found then SkipAudio(now, keyTime) else SkipVideo(now, keyTime)
      ensures |script| <= old(steps) && ok && !found ==> Pending(s.video) < Pending(old(s.video))
      ensures Underway(cfg, script, old(steps), steps)
    {
      hide RTMPBuffer.Valid, RTMPBuffer.Model, StateAt, Ready, Step, Sends, StepSkipVideo, Pending, Underway;
      NotAtTop();
      var env := Yield();
      JudgeSteps(cfg, s, env);
      SkipMoves(s, now, keyTime, env);
      ok, found := SkipVideoHead(now, keyTime, env);
      Advance(env);
    }

    /** The same on the audio buffer. */
    method SkipAudioHead(now: uint32, keyTime: uint32, env: Env) returns (ok: bool, found: bool)
      requires Lists() && Shows(s) && audioHead.Some? && s.pc == SkipAudio(now, keyTime)
      modifies this`sent, this`dropData, this`audioHead, this`sendVideo, this`lastDelay, audio
      ensures Lists() && Footprint() == old(Footprint()) && Shows(StepSkipAudio(s, now, keyTime, env))
      ensures found == (old(audioHead).value.timestamp >= keyTime) && ok == (!found || env.sendOk)
    {
      hide RTMPBuffer.Valid, RTMPBuffer.Model, StateAt, Ready, Sends, Fetch;
      var f := audioHead.value;
      found := f.timestamp >= keyTime;
      ok := true;
      if !found {
        dropData := dropData + f.size;
        RefillAudio(s.(audio := Settle(s.audio, f, Skipped), pendingDrop := s.pendingDrop + f.size));
      } else if !env.sendOk {
        ok := false;
      } else {
        ghost var t := Transmission(false, f, NotOlder(keyTime));
        SendsAppend(s.wire, t);
        sent := sent + [(false, f)];
        sendVideo, lastDelay := false, now;
        RefillAudio(s.(audio := Settle(s.audio, f, Sent), wire := s.wire + [t], sendVideo := false, lastDelay := now));
      }
    }

    method SkipAudioTurn(now: uint32, keyTime: uint32) returns (ok: bool, found: bool)
      requires Valid() && audioHead.Some? && s.pc == SkipAudio(now, keyTime)
      modifies Footprint()
      ensures Valid() && fresh(Footprint() - old(Footprint())) && steps == old(steps) + 1
      ensures s.pc == if !ok then Done(false) else if found then Top else SkipAudio(now, keyTime)
      ensures |script| <= old(steps) && ok && !found ==> Pending(s.audio) < Pending(old(s.audio))
      ensures Underway(cfg, script, old(steps), steps)
    {
      hide RTMPBuffer.Valid, RTMPBuffer.Model, StateAt, Ready, Step, Sends, StepSkipAudio, Pending, Underway;
      NotAtTop();
      var env := Yield();
      JudgeSteps(cfg, s, env);
      SkipMoves(s, now, keyTime, env);
      ok, found := SkipAudioHead(now, keyTime, env);
      Advance(env);
    }

    method SkipVideoLoop(now: uint32, keyTime: uint32) returns (ok: bool)
      requires Valid() && s.pc == SkipVideo(now, keyTime)
      modifies Footprint()
      ensures Valid() && fresh(Footprint() - old(Footprint())) && old(steps) < steps
      ensures Underway(cfg, script, old(steps), steps)
      ensures s.pc == if ok then SkipAudio(now, keyTime) else Done(false)
    {
      hide Valid, Lists, Shows, StateAt, Pending;
      while videoHead.Some?
        invariant Valid() && fresh(Footprint() - old(Footprint())) && old(steps) <= steps
        invariant Underway(cfg, script, old(steps), steps)
        invariant s.pc == SkipVideo(now, keyTime)
        decreases Left(), Pending(s.video)
      {
        var found;
        ok, found := SkipVideoTurn(now, keyTime);
        if !ok || found {
          return;
        }
      }
      EndVideoSkip(now, keyTime);
      ok := true;
    }

    /** The video buffer is used up before anything new enough was found. */
    method EndVideoSkip(now: uint32, keyTime: uint32)
      requires Valid() && videoHead.None? && s.pc == SkipVideo(now, keyTime)
      modifies Footprint()
      ensures Valid() && fresh(Footprint() - old(Footprint())) && steps == old(steps) + 1
      ensures Underway(cfg, script, old(steps), steps) && s.pc == SkipAudio(now, keyTime)
    {
      hide RTMPBuffer.Valid, RTMPBuffer.Model, StateAt, Ready, Step, Sends, Underway;
      NotAtTop();
      var env := Yield();
      JudgeSteps(cfg, s, env);
      Advance(env);
    }

    method SkipAudioLoop(now: uint32, keyTime: uint32) returns (ok: bool)
      requires Valid() && s.pc == SkipAudio(now, keyTime)
      modifies Footprint()
      ensures Valid() && fresh(Footprint() - old(Footprint())) && old(steps) < steps
      ensures Underway(cfg, script, old(steps), steps)
      ensures s.pc == if ok then Top else Done(false)
    {
      hide Valid, Lists, Shows, StateAt, Pending;
      while audioHead.Some?
        invariant Valid() && fresh(Footprint() - old(Footprint())) && old(steps) <= steps
        invariant Underway(cfg, script, old(steps), steps)
        invariant s.pc == SkipAudio(now, keyTime)
        decreases Left(), Pending(s.audio)
      {
        var found;
        ok, found := SkipAudioTurn(now, keyTime);
        if !ok || found {
          return;
        }
      }
      EndAudioSkip(now, keyTime);
      ok := true;
    }

    /** The audio buffer is used up before anything new enough was found. */
    method EndAudioSkip(now: uint32, keyTime: uint32)
      requires Valid() && audioHead.None? && s.pc == SkipAudio(now, keyTime)
      modifies Footprint()
      ensures Valid() && fresh(Footprint() - old(Footprint())) && steps == old(steps) + 1
      ensures Underway(cfg, script, old(steps), steps) && s.pc == Top
    {
      hide RTMPBuffer.Valid, RTMPBuffer.Model, StateAt, Ready, Step, Sends, Underway;
      NotAtTop();
      var env := Yield();
      JudgeSteps(cfg, s, env);
      sendVideo, lastDelay := false, now;
      Advance(env);
    }

    method LatePacket(now: uint32) returns (ok: bool)
      requires Valid() && hand.Some? && s.pc == Late(now)
      modifies Footprint()
      ensures Valid() && fresh(Footprint() - old(Footprint())) && old(steps) < steps
      ensures Underway(cfg, script, old(steps), steps)
      ensures s.pc == if ok then Top else Done(false)
    {
      hide Valid, StateAt;
      var skipping, keyTime;
      ok, skipping, keyTime := JudgeLate(now);
      if skipping {
        ok := SkipVideoLoop(now, keyTime);
        if ok {
          ok := SkipAudioLoop(now, keyTime);
        }
      }
    }

    /** One turn of the sending loop; `more` says that the thread goes on. */
    method Round() returns (more: bool, result: bool)
      requires Valid() && s.pc == Top
      modifies Footprint()
      ensures Valid() && fresh(Footprint() - old(Footprint())) && old(steps) < steps
      ensures Underway(cfg, script, old(steps) + 1, steps)
      ensures s.pc == if more then Top else Done(result)
      ensures more ==> old(steps) < |script|
    {
      hide Valid, Lists, Shows, WithinDelay, StateAt, TurnAt;
      FlushDrops();
      Wait();
      NothingInHand();
      var going := Choose();
      if !going || hand.None? {
        return going, true;
      }
      more := HandlePacket();
      result := false;
    }

    /** The packet in hand is late or on time by the newest time there is. */
    method HandlePacket() returns (ok: bool)
      requires Valid() && s.pc == ReadVideo && hand.Some?
      modifies Footprint()
      ensures Valid() && fresh(Footprint() - old(Footprint())) && old(steps) < steps
      ensures Underway(cfg, script, old(steps), steps)
      ensures s.pc == if ok then Top else Done(false)
    {
      hide Valid, Lists, Shows, WithinDelay, StateAt, TurnAt;
      var now := ReadClock();
      if WithinDelay(cfg, now, hand.value) {
        ok := OnTimePacket(now);
      } else {
        ok := LatePacket(now);
      }
    }

    lemma NothingInHand()
      requires Valid() && s.pc == Choosing
      ensures hand.None?
    {
      hide Accounted, Run;
      Conservation(cfg, Played(script, steps));
    }

    /** The thread, whatever the surroundings do: it takes the steps of the scheduler, one for each turn of the script,
      * up to the first end of the thread. It sends and counts as dropped what that run does. */
    method Control() returns (result: bool)
      requires Valid() && s == INITIAL && steps == 0
      modifies Footprint()
      ensures Valid() && fresh(Footprint() - old(Footprint()))
      ensures StateAt(cfg, script, steps).pc == Done(result)
      ensures forall n :: 0 <= n < steps ==> !StateAt(cfg, script, n).pc.Done?
      ensures sent == Sends(StateAt(cfg, script, steps).wire)
      ensures
        var end := StateAt(cfg, script, steps);
        && countedDrop + dropData == BytesOf(end.video.fates) + BytesOf(end.audio.fates)
        && video.Model() == end.video.queue && videoHead == end.video.head
        && audio.Model() == end.audio.queue && audioHead == end.audio.head
    {
      hide RTMPBuffer.Valid, RTMPBuffer.Model, StateAt;
      FetchVideo();
      FetchAudio();
      var more := true;
      result := true;
      while more
        invariant Valid() && fresh(Footprint() - old(Footprint()))
        invariant s.pc == if more then Top else Done(result)
        invariant forall n :: 0 <= n < steps ==> !StateAt(cfg, script, n).pc.Done?
        decreases more, Left()
      {
        more, result := Round();
      }
      EndConserved();
    }

    lemma EndConserved()
      requires Valid()
      ensures s.countedDrop + s.pendingDrop == BytesOf(s.video.fates) + BytesOf(s.audio.fates)
    {
      hide Accounted, Run;
      Conservation(cfg, Played(script, steps));
    }
  }
}
