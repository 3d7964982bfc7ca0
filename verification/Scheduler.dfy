/** The sending thread: it merges the two queues by time, holds back or skips late packets, and counts what it drops. */
module Scheduler {
  import opened Bytes
  import opened SendQueue

  datatype Config = Config(maxDelay: uint32, waitTime: uint32, maxRetryTime: uint32)

  /** What one step of the thread reads from the outside: the run flag, the outcome of a send, the bitrate status,
    * the strategy. */
  datatype Env = Env(running: bool, sendOk: bool, minBitrate: int, sendVideoType: int)

  datatype Action = PutVideo(frame: Frame) | PutAudio(frame: Frame) | Thread(env: Env)

  /** What became of a packet. A `Trigger` is the late packet that starts a skip: its bytes are not counted.
    * `blind` records that no further packet of its own stream was held when the skip began. */
  datatype Fate = Sent | Withheld | Skipped | Trigger(blind: bool)

  datatype Outcome = Outcome(frame: Frame, fate: Fate)

  /** One of the two packet streams: its queue, the packet held as head, and its history. */
  datatype Stream = Stream(queue: Queue, head: Option<Frame>, put: seq<Frame>, fates: seq<Outcome>)

  /** Why a packet was sent: it was close enough to the newest time read (`taken` is the newest time in the buffers when
    * the packet was taken out), or it was not older than the key-frame time read. */
  datatype Reason = OnTime(taken: uint32, newest: uint32) | NotOlder(keyTime: uint32)

  datatype Transmission = Transmission(video: bool, frame: Frame, reason: Reason)

  /** Control points of the thread. Each step makes at most one access to what the producers share. */
  datatype Pc =
    | FirstVideo | FirstAudio | Top | Waiting | WaitVideo | WaitAudio | Choosing
    | ReadVideo | ReadAudio(v: uint32) | ReadNewest(v: uint32, a: uint32)
    | Fresh(now: uint32) | Late(now: uint32)
    | SkipVideo(now: uint32, keyTime: uint32) | SkipAudio(now: uint32, keyTime: uint32)
    | Done(result: bool)

  datatype State = State(
    pc: Pc, video: Stream, audio: Stream, hand: Option<Frame>, handVideo: bool, taken: uint32,
    sendVideo: bool, lastDelay: uint32, waited: uint32,
    pendingDrop: nat, countedDrop: nat, wire: seq<Transmission>)

  const NEW_STREAM := Stream(EMPTY_QUEUE, None, [], [])

  const INITIAL :=
    State(FirstVideo, NEW_STREAM, NEW_STREAM, None, false, 0, true, 0, 0, 0, 0, [])

  function Arrive(st: Stream, f: Frame): Stream {
    st.(queue := Put(st.queue, f), put := st.put + [f])
  }

  /** The head becomes whatever the queue yields. */
  function Fetch(st: Stream): Stream {
    var (f, q) := Get(st.queue);
    st.(queue := q, head := f)
  }

  function Settle(st: Stream, f: Frame, fate: Fate): Stream {
    st.(fates := st.fates + [Outcome(f, fate)])
  }

  function SettleHand(s: State, f: Frame, fate: Fate): State {
    if s.handVideo then s.(hand := None, video := Settle(s.video, f, fate))
    else s.(hand := None, audio := Settle(s.audio, f, fate))
  }

  /** Hands the packet in hand to the sender; a failed send ends the thread and the packet is freed unsent. */
  function SendHand(s: State, f: Frame, reason: Reason, ok: bool): State {
    if !ok then s.(pc := Done(false))
    else
      SettleHand(s, f, Sent).(wire := s.wire + [Transmission(s.handVideo, f, reason)], pc := Top)
  }

  /** The packet in hand is given up in audio-only mode. */
  function Withhold(s: State, f: Frame): State {
    SettleHand(s, f, Withheld).(pendingDrop := s.pendingDrop + f.size, pc := Top)
  }

  function Max(a: uint32, b: uint32): uint32 {
    if a < b then b else a
  }

  /** The newest timestamp in either buffer. */
  function Newest(s: State): uint32 {
    Max(s.video.queue.lastTime, s.audio.queue.lastTime)
  }

  /** The head with the smaller timestamp is taken, audio on a tie, and its place filled from its queue. */
  function Take(s: State): State {
    if s.video.head.Some? && (s.audio.head.None? || s.video.head.value.timestamp < s.audio.head.value.timestamp) then
      s.(hand := s.video.head, handVideo := true, taken := Newest(s), video := Fetch(s.video), pc := ReadVideo)
    else if s.audio.head.Some? then
      s.(hand := s.audio.head, handVideo := false, taken := Newest(s), audio := Fetch(s.audio), pc := ReadVideo)
    else
      s.(pc := Top)
  }

  /** 32-bit difference, as unsigned subtraction computes it. */
  function Minus(a: uint32, b: uint32): uint32 {
    (a - b) % TWO32
  }

  /** The delay bound is tested with a 32-bit sum. */
  predicate WithinDelay(cfg: Config, now: uint32, f: Frame) {
    now < (cfg.maxDelay + f.timestamp) % TWO32
  }

  /** Video goes out unless it is held back; a key frame after a long enough pause starts it again. */
  function StepFreshVideo(cfg: Config, s: State, now: uint32, f: Frame, env: Env): State {
    if env.minBitrate == 0 then SendHand(s, f, OnTime(s.taken, now), env.sendOk)
    else if env.sendVideoType == 1 || (env.sendVideoType == 0 && s.sendVideo) then
      SendHand(s, f, OnTime(s.taken, now), env.sendOk)
    else if !s.sendVideo && Minus(now, s.lastDelay) >= cfg.maxRetryTime && f.key then
      var sent := SendHand(s, f, OnTime(s.taken, now), env.sendOk);
      if env.sendOk then sent.(sendVideo := true) else sent
    else Withhold(s, f)
  }

  /** A packet more than half the bound behind turns on audio-only mode; audio and metadata go out in any mode. */
  function StepFresh(cfg: Config, st: State, now: uint32, f: Frame, env: Env): State {
    var s :=
      if Minus(now, f.timestamp) > cfg.maxDelay / 2 then st.(sendVideo := false, lastDelay := now) else st;
    if f.typ == 8 || f.typ == 18 then SendHand(s, f, OnTime(s.taken, now), env.sendOk)
    else StepFreshVideo(cfg, s, now, f, env)
  }

  function StepLate(s: State, now: uint32, f: Frame, env: Env): State {
    var keyTime := s.video.queue.lastKeyTime;
    if keyTime <= f.timestamp then SendHand(s, f, NotOlder(keyTime), env.sendOk)
    else
      SettleHand(s, f, Trigger((if s.handVideo then s.video else s.audio).head.None?)).(pc := SkipVideo(now, keyTime))
  }

  /** One turn of a skip loop on the stream whose head is `f`: an older head is dropped, the first other one is sent. */
  function SkipOne(st: Stream, f: Frame, keyTime: uint32): Stream {
    Fetch(Settle(st, f, if f.timestamp < keyTime then Skipped else Sent))
  }

  function StepSkipVideo(s: State, now: uint32, keyTime: uint32, env: Env): State {
    if s.video.head.None? then s.(pc := SkipAudio(now, keyTime))
    else
      var f := s.video.head.value;
      if f.timestamp < keyTime then
        s.(video := SkipOne(s.video, f, keyTime), pendingDrop := s.pendingDrop + f.size)
      else if !env.sendOk then s.(pc := Done(false))
      else
        s.(video := SkipOne(s.video, f, keyTime), wire := s.wire + [Transmission(true, f, NotOlder(keyTime))],
           pc := SkipAudio(now, keyTime))
  }

  function AfterSkip(s: State, now: uint32): State {
    s.(sendVideo := false, lastDelay := now, pc := Top)
  }

  function StepSkipAudio(s: State, now: uint32, keyTime: uint32, env: Env): State {
    if s.audio.head.None? then AfterSkip(s, now)
    else
      var f := s.audio.head.value;
      if f.timestamp < keyTime then
        s.(audio := SkipOne(s.audio, f, keyTime), pendingDrop := s.pendingDrop + f.size)
      else if !env.sendOk then s.(pc := Done(false))
      else
        AfterSkip(s.(audio := SkipOne(s.audio, f, keyTime),
                     wire := s.wire + [Transmission(false, f, NotOlder(keyTime))]), now)
  }

  /** The waiting time after another poll, in 32 bits. */
  function Later(waited: uint32): uint32 {
    (waited + 10) % TWO32
  }

  /** One step of the thread, control point by control point. */
  function Step(cfg: Config, s: State, env: Env): State {
    match s.pc
    case FirstVideo => s.(video := Fetch(s.video), pc := FirstAudio)
    case FirstAudio => s.(audio := Fetch(s.audio), pc := Top)
    case Top => s.(countedDrop := s.countedDrop + s.pendingDrop, pendingDrop := 0, waited := 0, pc := Waiting)
    case Waiting =>
      if s.video.head.None? && s.audio.head.None? && s.waited < cfg.waitTime && env.running then
        s.(pc := WaitVideo)
      else s.(pc := Choosing)
    case WaitVideo => s.(video := Fetch(s.video), pc := WaitAudio)
    case WaitAudio => s.(audio := Fetch(s.audio), waited := Later(s.waited), pc := Waiting)
    case Choosing =>
      if s.waited >= cfg.waitTime || !env.running then s.(pc := Done(true)) else Take(s)
    case ReadVideo => s.(pc := ReadAudio(s.video.queue.lastTime))
    case ReadAudio(v) => s.(pc := ReadNewest(v, s.audio.queue.lastTime))
    case ReadNewest(v, a) =>
      var now := if v > a then s.video.queue.lastTime else s.audio.queue.lastTime;
      if s.hand.None? then s
      else s.(pc := if WithinDelay(cfg, now, s.hand.value) then Fresh(now) else Late(now))
    case Fresh(now) => if s.hand.None? then s else StepFresh(cfg, s, now, s.hand.value, env)
    case Late(now) => if s.hand.None? then s else StepLate(s, now, s.hand.value, env)
    case SkipVideo(now, keyTime) => StepSkipVideo(s, now, keyTime, env)
    case SkipAudio(now, keyTime) => StepSkipAudio(s, now, keyTime, env)
    case Done(_) => s
  }

  function Next(cfg: Config, s: State, a: Action): State {
    match a
    case PutVideo(f) => s.(video := Arrive(s.video, f))
    case PutAudio(f) => s.(audio := Arrive(s.audio, f))
    case Thread(env) => Step(cfg, s, env)
  }

  /** The state after a run: any interleaving of puts and steps of the thread. */
  function Run(cfg: Config, run: seq<Action>): State {
    if run == [] then INITIAL
    else Next(cfg, Run(cfg, run[..|run| - 1]), run[|run| - 1])
  }

  lemma RunExtends(cfg: Config, run: seq<Action>, a: Action)
    ensures Run(cfg, run + [a]) == Next(cfg, Run(cfg, run), a)
  {
    hide Next;
    assert (run + [a])[..|run|] == run;
  }

  /** Single control points of `Step`. */
  lemma FetchSteps(cfg: Config, s: State, env: Env)
    ensures s.pc == FirstVideo ==> Step(cfg, s, env) == s.(video := Fetch(s.video), pc := FirstAudio)
    ensures s.pc == WaitVideo ==> Step(cfg, s, env) == s.(video := Fetch(s.video), pc := WaitAudio)
    ensures s.pc == FirstAudio ==> Step(cfg, s, env) == s.(audio := Fetch(s.audio), pc := Top)
    ensures
      s.pc == WaitAudio ==>
        Step(cfg, s, env) == s.(audio := Fetch(s.audio), waited := Later(s.waited), pc := Waiting)
  {
    hide StepFresh, StepLate, StepSkipVideo, StepSkipAudio, Take;
  }

  lemma ChooseStep(cfg: Config, s: State, env: Env)
    requires s.pc == Choosing
    ensures
      Step(cfg, s, env) == if s.waited >= cfg.waitTime || !env.running then s.(pc := Done(true)) else Take(s)
  {
    hide StepFresh, StepLate, StepSkipVideo, StepSkipAudio, Take;
  }

  lemma JudgeSteps(cfg: Config, s: State, env: Env)
    ensures s.pc.Fresh? && s.hand.Some? ==> Step(cfg, s, env) == StepFresh(cfg, s, s.pc.now, s.hand.value, env)
    ensures s.pc.Late? && s.hand.Some? ==> Step(cfg, s, env) == StepLate(s, s.pc.now, s.hand.value, env)
    ensures s.pc.SkipVideo? ==> Step(cfg, s, env) == StepSkipVideo(s, s.pc.now, s.pc.keyTime, env)
    ensures s.pc.SkipAudio? ==> Step(cfg, s, env) == StepSkipAudio(s, s.pc.now, s.pc.keyTime, env)
  {
    hide StepFresh, StepLate, StepSkipVideo, StepSkipAudio, Take;
  }

  /** The remaining control points only count, read or move on. */
  lemma QuietSteps(cfg: Config, s: State, env: Env)
    requires s.pc == Top || s.pc == Waiting || s.pc == ReadVideo || s.pc.ReadAudio? || s.pc.ReadNewest? || s.pc.Done?
    ensures
      var r := Step(cfg, s, env);
      && r == s.(pc := r.pc, countedDrop := r.countedDrop, pendingDrop := r.pendingDrop, waited := r.waited)
      && !r.pc.SkipVideo? && !r.pc.SkipAudio?
  {
    hide StepFresh, StepLate, StepSkipVideo, StepSkipAudio, Take, WithinDelay;
  }
}
