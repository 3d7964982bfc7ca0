/** At every critical moment, and at no other, one ordinary video packet can cost the key frame. */
module SchedulerLosses {
  import opened Bytes
  import opened SendQueue
  import opened Scheduler
  import opened SchedulerSafety
  import opened SchedulerStaleness
  import opened SchedulerKeyFrames
  import opened SchedulerReplay
  import opened SchedulerProducers

  /** Later times still fit into 32 bits. */
  predicate Room(cfg: Config, s: State) {
    Newest(s) + 2 * cfg.maxDelay + 1 < TWO32
  }

  /** What is put at the critical moment: an ordinary video packet, a key frame behind it, and an audio packet. */
  function Plain(t: uint32): Frame { Frame(t, 9, 1, false) }

  function Key(t: uint32): Frame
    requires t + 1 < TWO32
  {
    Frame(t + 1, 9, 1, true)
  }

  function Sound(t: uint32): Frame { Frame(t, 8, 1, true) }

  function Fed(s: State, t: uint32, a: uint32): State
    requires t + 1 < TWO32
  {
    s.(video := Arrive(Arrive(s.video, Plain(t)), Key(t)), audio := Arrive(s.audio, Sound(a)))
  }

  // ---------- the packet in hand is given up ----------

  /** However far the judging has come, the packet in hand is found late. */
  lemma FoundLate(cfg: Config, s: State) returns (n: nat, now: uint32)
    requires Judging(s.pc) && s.hand.Some? && s.hand.value.timestamp + cfg.maxDelay < TWO32
    requires Outdated(cfg, s.hand.value, s.video.queue.lastTime) && Outdated(cfg, s.hand.value, s.audio.queue.lastTime)
    ensures Steps(cfg, s, KEEP, n) == s.(pc := Late(now))
  {
    hide StepFresh, StepLate, StepSkipVideo, StepSkipAudio, Take, Fetch;
    if s.pc.Late? {
      n, now := 0, s.pc.now;
    } else {
      var r := Step(cfg, s, KEEP);
      assert Steps(cfg, s, KEEP, 1) == r by { assert Steps(cfg, s, KEEP, 0) == s; }
      if s.pc.ReadNewest? {
        n, now := 1, r.pc.now;
      } else {
        var m;
        m, now := ReadsOn(cfg, s, r);
        StepsTwice(cfg, s, KEEP, 1, m);
        n := 1 + m;
      }
    }
  }

  lemma ReadsOn(cfg: Config, s: State, r: State) returns (n: nat, now: uint32)
    requires (s.pc == ReadVideo || s.pc.ReadAudio?) && s.hand.Some? && r == Step(cfg, s, KEEP)
    requires s.hand.value.timestamp + cfg.maxDelay < TWO32
    requires Outdated(cfg, s.hand.value, s.video.queue.lastTime) && Outdated(cfg, s.hand.value, s.audio.queue.lastTime)
    ensures Steps(cfg, r, KEEP, n) == s.(pc := Late(now))
  {
    hide StepFresh, StepLate, StepSkipVideo, StepSkipAudio, Take, Fetch;
    var r1 := Step(cfg, r, KEEP);
    assert Steps(cfg, r, KEEP, 1) == r1 by { assert Steps(cfg, r, KEEP, 0) == r; }
    if s.pc.ReadAudio? {
      n, now := 1, r1.pc.now;
    } else {
      var r2 := Step(cfg, r1, KEEP);
      assert Steps(cfg, r, KEEP, 2) == r2;
      n, now := 2, r2.pc.now;
    }
  }

  /** It is given up, and no other video packet is there to be skipped. */
  lemma GivenUp(cfg: Config, s: State, now: uint32)
    requires s.pc == Late(now) && s.hand.Some? && s.handVideo && s.video.head.None?
    requires s.hand.value.timestamp < s.video.queue.lastKeyTime
    ensures
      Steps(cfg, s, KEEP, 2) ==
      s.(pc := SkipAudio(now, s.video.queue.lastKeyTime), hand := None,
         video := s.video.(fates := s.video.fates + [Outcome(s.hand.value, Trigger(true))]))
  {
    hide StepFresh, StepSkipAudio, Take, Fetch;
    assert Steps(cfg, s, KEEP, 0) == s;
    var s1 := Step(cfg, s, KEEP);
    assert Steps(cfg, s, KEEP, 1) == s1;
  }

  lemma Abandoned(cfg: Config, s: State) returns (n: nat, now: uint32)
    requires Judging(s.pc) && VideoInHand(s) && s.video.head.None?
    requires s.hand.value.timestamp + cfg.maxDelay < TWO32 && s.hand.value.timestamp < s.video.queue.lastKeyTime
    requires Outdated(cfg, s.hand.value, s.video.queue.lastTime) && Outdated(cfg, s.hand.value, s.audio.queue.lastTime)
    ensures
      Steps(cfg, s, KEEP, n) ==
      s.(pc := SkipAudio(now, s.video.queue.lastKeyTime), hand := None,
         video := s.video.(fates := s.video.fates + [Outcome(s.hand.value, Trigger(true))]))
  {
    hide Step;
    n, now := FoundLate(cfg, s);
    GivenUp(cfg, s.(pc := Late(now)), now);
    StepsTwice(cfg, s, KEEP, n, 2);
    n := n + 2;
  }

  // ---------- an on-time packet ----------

  /** A packet that the newest time finds on time is sent; the buffers stay as they are. */
  lemma SentOnTime(cfg: Config, s: State, now: uint32)
    requires s.pc == ReadVideo && s.hand.Some? && s.video.queue.lastTime == now && s.audio.queue.lastTime <= now
    requires now < s.hand.value.timestamp + cfg.maxDelay < TWO32
    ensures
      var r := Steps(cfg, s, KEEP, 4);
      && r.pc == Top && r.hand.None?
      && r.video == (if s.handVideo then Settle(s.video, s.hand.value, Sent) else s.video)
      && r.audio == (if s.handVideo then s.audio else Settle(s.audio, s.hand.value, Sent))
  {
    hide StepLate, StepSkipVideo, StepSkipAudio, Take, Fetch, Minus;
    assert Steps(cfg, s, KEEP, 0) == s;
    var s1 := Step(cfg, s, KEEP);
    assert Steps(cfg, s, KEEP, 1) == s1;
    assert s1 == s.(pc := ReadAudio(now));
    var s2 := Step(cfg, s1, KEEP);
    assert Steps(cfg, s, KEEP, 2) == s2;
    assert s2 == s.(pc := ReadNewest(now, s.audio.queue.lastTime));
    var s3 := Step(cfg, s2, KEEP);
    assert Steps(cfg, s, KEEP, 3) == s3;
    assert s3 == s.(pc := Fresh(now));
  }

  // ---------- an audio packet is held: the audio is skipped ----------

  /** All the audio there is, the head first. */
  function AudioOf(s: State): seq<Frame> {
    HeadOf(s.audio) + s.audio.queue.waiting
  }

  /** One turn of the skip of the audio: an older head is dropped, no head ends it. */
  lemma AudioSkipped(cfg: Config, s: State, now: uint32, keyTime: uint32)
    requires s.pc == SkipAudio(now, keyTime) && (s.audio.head.None? ==> s.audio.queue.waiting == [])
    requires AudioOf(s) != [] ==> AudioOf(s)[0].timestamp < keyTime
    ensures
      var r := Steps(cfg, s, KEEP, 1);
      && r.video == s.video && r.hand == s.hand && r.audio.put == s.audio.put
      && r.audio.queue.lastTime == s.audio.queue.lastTime
      && (r.audio.head.None? ==> r.audio.queue.waiting == [])
      && (if AudioOf(s) == [] then r.pc == Top && r.audio == s.audio
          else r.pc == s.pc && AudioOf(r) == AudioOf(s)[1..])
  {
    hide StepFresh, StepLate, StepSkipVideo, Take;
    assert Steps(cfg, s, KEEP, 0) == s;
    var r := Step(cfg, s, KEEP);
    assert Steps(cfg, s, KEEP, 1) == r;
  }

  /** The audio is all older than the key frame: it is skipped down to the last packet. */
  lemma {:induction false} Drained(cfg: Config, s: State, now: uint32, keyTime: uint32) returns (n: nat)
    requires s.pc == SkipAudio(now, keyTime) && (s.audio.head.None? ==> s.audio.queue.waiting == [])
    requires forall i :: 0 <= i < |AudioOf(s)| ==> AudioOf(s)[i].timestamp < keyTime
    ensures
      var r := Steps(cfg, s, KEEP, n);
      && r.pc == Top && r.video == s.video && r.hand == s.hand
      && r.audio.head.None? && r.audio.queue.waiting == [] && r.audio.queue.lastTime == s.audio.queue.lastTime
      && r.audio.put == s.audio.put
    decreases |AudioOf(s)|
  {
    hide Step, AudioOf;
    AudioSkipped(cfg, s, now, keyTime);
    NoAudio(s);
    if AudioOf(s) == [] {
      n := 1;
    } else {
      var m := Drained(cfg, Steps(cfg, s, KEEP, 1), now, keyTime);
      StepsTwice(cfg, s, KEEP, 1, m);
      n := 1 + m;
    }
  }

  lemma NoAudio(s: State)
    requires s.audio.head.None? ==> s.audio.queue.waiting == []
    ensures AudioOf(s) == [] <==> s.audio.head.None?
  {
  }

  /** With nothing held, both buffers are polled: the ordinary packet comes out, on time, and is sent. */
  lemma SentNext(cfg: Config, s: State, t: uint32)
    requires cfg.waitTime > 10 && cfg.maxDelay >= 2 && t + cfg.maxDelay < TWO32
    requires s.pc == Top && s.hand.None? && s.video.head.None? && s.audio.head.None? && s.audio.queue.waiting == []
    requires s.video.queue.waiting == [Plain(t), Key(t)] && s.video.queue.lastTime == t + 1
    requires s.audio.queue.lastTime <= t
    ensures
      var r := Steps(cfg, s, KEEP, 10);
      && r.video.fates == s.video.fates + [Outcome(Plain(t), Sent)]
      && r.video.put == s.video.put && r.audio.put == s.audio.put
  {
    hide StepLate, StepFresh, StepSkipVideo, StepSkipAudio;
    Polled(cfg, s, t);
    var s5 := Steps(cfg, s, KEEP, 5);
    var s6 := Step(cfg, s5, KEEP);
    assert Steps(cfg, s, KEEP, 6) == s6;
    assert s6.pc == ReadVideo && s6.hand == Some(Plain(t)) && s6.handVideo;
    SentOnTime(cfg, s6, t + 1);
    StepsTwice(cfg, s, KEEP, 6, 4);
  }

  /** From the top, with nothing held, up to the choice. */
  lemma Polled(cfg: Config, s: State, t: uint32)
    requires cfg.waitTime > 10 && t + 1 < TWO32
    requires s.pc == Top && s.hand.None? && s.video.head.None? && s.audio.head.None?
    requires s.video.queue.waiting == [Plain(t), Key(t)]
    ensures
      var r := Steps(cfg, s, KEEP, 5);
      && r.pc == Choosing && r.hand.None? && r.waited == 10
      && r.video == Fetch(s.video) && r.video.head == Some(Plain(t)) && r.audio == Fetch(s.audio)
  {
    hide StepLate, StepFresh, StepSkipVideo, StepSkipAudio, Take;
    assert Steps(cfg, s, KEEP, 0) == s;
    var s1 := Step(cfg, s, KEEP);
    assert Steps(cfg, s, KEEP, 1) == s1;
    var s2 := Step(cfg, s1, KEEP);
    assert Steps(cfg, s, KEEP, 2) == s2;
    assert s2.pc == WaitVideo;
    var s3 := Step(cfg, s2, KEEP);
    assert Steps(cfg, s, KEEP, 3) == s3;
    assert s3.video.head == Some(Plain(t));
    var s4 := Step(cfg, s3, KEEP);
    assert Steps(cfg, s, KEEP, 4) == s4;
    assert s4.pc == Waiting && s4.waited == 10;
    var s5 := Step(cfg, s4, KEEP);
    assert Steps(cfg, s, KEEP, 5) == s5;
  }

  /** All that the thread does when an audio packet is held. */
  lemma LostAfterSkip(cfg: Config, s: State) returns (n: nat)
    requires Conserved(s) && InTimeOrder(s) && Critical(cfg, s) && Room(cfg, s) && s.audio.head.Some?
    ensures
      var t := Newest(s) + cfg.maxDelay;
      var r := Steps(cfg, Fed(s, t, t), KEEP, n);
      && r.video.put == s.video.put + [Plain(t)] + [Key(t)] && r.audio.put == s.audio.put + [Sound(t)]
      && r.video.fates == s.video.fates + [Outcome(s.hand.value, Trigger(true))] + [Outcome(Plain(t), Sent)]
  {
    hide Step, Conserved, InTimeOrder, Shielded;
    var t := Newest(s) + cfg.maxDelay;
    var s0 := Fed(s, t, t);
    HandNotNewer(s);
    var k, now := Abandoned(cfg, s0);
    var s1 := Steps(cfg, s0, KEEP, k);
    AudioNotNewer(s);
    assert AudioOf(s1) == AudioOf(s) + [Sound(t)];
    var m := Drained(cfg, s1, now, t + 1);
    StepsTwice(cfg, s0, KEEP, k, m);
    SentNext(cfg, Steps(cfg, s1, KEEP, m), t);
    StepsTwice(cfg, s0, KEEP, k + m, 10);
    n := k + m + 10;
  }

  // ---------- no audio packet is held: the audio that waits is on time ----------

  /** The audio packets that come before the ordinary packet are sent one by one, and then it is. */
  lemma {:induction false} SentAmongAudio(cfg: Config, s: State, t: uint32) returns (n: nat)
    requires cfg.waitTime > 10 && cfg.maxDelay >= 2 && t + 1 + cfg.maxDelay < TWO32
    requires s.pc == Choosing && s.hand.None? && s.waited <= 10 && s.video.head == Some(Plain(t))
    requires s.video.queue.lastTime == t + 1 && s.audio.queue.lastTime <= t + 1 && s.audio.head.Some?
    requires OnTimeUpTo(cfg, AudioOf(s), t)
    ensures
      var r := Steps(cfg, s, KEEP, n);
      && r.video.fates == s.video.fates + [Outcome(Plain(t), Sent)]
      && r.video.put == s.video.put && r.audio.put == s.audio.put
    decreases |AudioOf(s)|
  {
    hide Step, OnTimeUpTo, AudioOf;
    if t < s.audio.head.value.timestamp {
      VideoTurn(cfg, s, t);
      n := 5;
    } else {
      AudioTurn(cfg, s, t);
      var m := SentAmongAudio(cfg, Steps(cfg, s, KEEP, 7), t);
      StepsTwice(cfg, s, KEEP, 7, m);
      n := 7 + m;
    }
  }

  /** Each is on time when the key frame is the newest packet, and the last comes after the ordinary packet. */
  ghost predicate OnTimeUpTo(cfg: Config, audio: seq<Frame>, t: uint32) {
    && audio != [] && audio[|audio| - 1].timestamp > t
    && forall i :: 0 <= i < |audio| ==> t + 1 < audio[i].timestamp + cfg.maxDelay && audio[i].timestamp <= t + 1
  }

  lemma VideoTurn(cfg: Config, s: State, t: uint32)
    requires cfg.waitTime > 10 && cfg.maxDelay >= 2 && t + 1 + cfg.maxDelay < TWO32
    requires s.pc == Choosing && s.waited <= 10 && s.video.head == Some(Plain(t))
    requires s.video.queue.lastTime == t + 1 && s.audio.queue.lastTime <= t + 1
    requires s.audio.head.Some? && t < s.audio.head.value.timestamp
    ensures
      var r := Steps(cfg, s, KEEP, 5);
      && r.video.fates == s.video.fates + [Outcome(Plain(t), Sent)]
      && r.video.put == s.video.put && r.audio.put == s.audio.put
  {
    hide StepLate, StepFresh, StepSkipVideo, StepSkipAudio;
    assert Steps(cfg, s, KEEP, 0) == s;
    var s1 := Step(cfg, s, KEEP);
    assert Steps(cfg, s, KEEP, 1) == s1;
    assert s1.pc == ReadVideo && s1.hand == Some(Plain(t)) && s1.handVideo;
    SentOnTime(cfg, s1, t + 1);
    StepsTwice(cfg, s, KEEP, 1, 4);
  }

  lemma AudioTurn(cfg: Config, s: State, t: uint32)
    requires cfg.waitTime > 10 && cfg.maxDelay >= 2 && t + 1 + cfg.maxDelay < TWO32
    requires s.pc == Choosing && s.hand.None? && s.waited <= 10 && s.video.head == Some(Plain(t))
    requires s.video.queue.lastTime == t + 1 && s.audio.queue.lastTime <= t + 1
    requires s.audio.head.Some? && s.audio.head.value.timestamp <= t && OnTimeUpTo(cfg, AudioOf(s), t)
    ensures
      var r := Steps(cfg, s, KEEP, 7);
      && r.pc == Choosing && r.hand.None? && r.waited == 0 && r.video == s.video
      && r.audio.head.Some? && r.audio.queue.lastTime == s.audio.queue.lastTime && r.audio.put == s.audio.put
      && AudioOf(s) != [] && AudioOf(r) == AudioOf(s)[1..] && OnTimeUpTo(cfg, AudioOf(r), t)
  {
    hide StepLate, StepFresh, StepSkipVideo, StepSkipAudio;
    assert Steps(cfg, s, KEEP, 0) == s;
    var s1 := Step(cfg, s, KEEP);
    assert Steps(cfg, s, KEEP, 1) == s1;
    assert AudioOf(s)[0] == s.audio.head.value;
    assert s1.pc == ReadVideo && s1.hand == s.audio.head && !s1.handVideo;
    SentOnTime(cfg, s1, t + 1);
    StepsTwice(cfg, s, KEEP, 1, 4);
    var s5 := Steps(cfg, s, KEEP, 5);
    var s6 := Step(cfg, s5, KEEP);
    assert Steps(cfg, s, KEEP, 6) == s6;
    assert s6.pc == Waiting;
    var s7 := Step(cfg, s6, KEEP);
    assert Steps(cfg, s, KEEP, 7) == s7;
    assert AudioOf(s7) == AudioOf(s)[1..];
  }

  /** The time from which on the packet in hand is late and nothing newer is there. */
  function Deadline(cfg: Config, s: State): int
    requires s.hand.Some?
  {
    if Outdated(cfg, s.hand.value, Newest(s)) then Newest(s) else s.hand.value.timestamp + cfg.maxDelay
  }

  /** All that the thread does when no audio packet is held. */
  lemma LostAfterAudio(cfg: Config, s: State) returns (n: nat)
    requires Conserved(s) && InTimeOrder(s) && Critical(cfg, s) && Room(cfg, s) && s.audio.head.None?
    requires s.hand.value.timestamp <= Newest(s)
    ensures
      var t := Deadline(cfg, s) - 1;
      var r := Steps(cfg, Fed(s, t, t + 1), KEEP, n);
      && r.video.put == s.video.put + [Plain(t)] + [Key(t)] && r.audio.put == s.audio.put + [Sound(t + 1)]
      && r.video.fates == s.video.fates + [Outcome(s.hand.value, Trigger(true))] + [Outcome(Plain(t), Sent)]
  {
    hide Step, Conserved, InTimeOrder, OnTimeUpTo;
    var t: uint32 := Deadline(cfg, s) - 1;
    var s0 := Fed(s, t, t + 1);
    var k, now := Abandoned(cfg, s0);
    var s1 := Steps(cfg, s0, KEEP, k);
    NothingToSkip(cfg, s1);
    StepsTwice(cfg, s0, KEEP, k, 1);
    var s2 := Steps(cfg, s1, KEEP, 1);
    Polled(cfg, s2, t);
    StepsTwice(cfg, s0, KEEP, k + 1, 5);
    var s3 := Steps(cfg, s2, KEEP, 5);
    AudioOnTime(cfg, s, t);
    AudioFetched(s2);
    var m := SentAmongAudio(cfg, s3, t);
    StepsTwice(cfg, s0, KEEP, k + 6, m);
    n := k + 6 + m;
  }

  lemma NothingToSkip(cfg: Config, s: State)
    requires s.pc.SkipAudio? && s.audio.head.None?
    ensures Steps(cfg, s, KEEP, 1) == AfterSkip(s, s.pc.now)
  {
    hide StepLate, StepFresh, StepSkipVideo;
    assert Steps(cfg, s, KEEP, 0) == s;
    assert Steps(cfg, s, KEEP, 1) == Step(cfg, s, KEEP);
  }

  lemma AudioFetched(s: State)
    requires s.audio.head.None? && s.audio.queue.waiting != []
    ensures
      var r := Fetch(s.audio);
      r.head.Some? && [r.head.value] + r.queue.waiting == s.audio.queue.waiting
  {
  }

  /** The audio that waits, and the packet put behind it. */
  lemma AudioOnTime(cfg: Config, s: State, t: uint32)
    requires Conserved(s) && InTimeOrder(s) && Critical(cfg, s) && Room(cfg, s) && s.audio.head.None?
    requires s.hand.value.timestamp <= Newest(s) && t == Deadline(cfg, s) - 1
    ensures OnTimeUpTo(cfg, s.audio.queue.waiting + [Sound(t + 1)], t)
  {
    hide Conserved, InTimeOrder;
    AudioNotNewer(s);
    AudioOrdered(s);
    var audio := s.audio.queue.waiting;
    assert AudioOf(s) == audio;
    forall i | 0 <= i < |audio|
      ensures t + 1 < audio[i].timestamp + cfg.maxDelay && audio[i].timestamp <= t + 1
    {
      assert AudioOf(s)[i] == audio[i] && AudioOf(s)[0] == audio[0];
    }
  }

  lemma AudioNotNewer(s: State)
    requires Conserved(s) && InTimeOrder(s)
    ensures forall i :: 0 <= i < |AudioOf(s)| ==> AudioOf(s)[i].timestamp <= s.audio.queue.lastTime
  {
    hide Conserved, AudioOf, NonDecreasing;
    var settled := AudioIsLast(s);
    forall i | 0 <= i < |AudioOf(s)|
      ensures AudioOf(s)[i].timestamp <= s.audio.queue.lastTime
    {
      assert s.audio.put[|settled| + i] == AudioOf(s)[i];
      NoNewerThanLast(s.audio.put, AudioOf(s)[i]);
    }
  }

  lemma AudioIsLast(s: State) returns (settled: seq<Frame>)
    requires Conserved(s)
    ensures s.audio.put == settled + AudioOf(s) && s.audio.queue.lastTime == LastTime(s.audio.put)
  {
    hide FramesOf, SentOf, SentOn, BytesOf, LastKeyTime, LastTime;
    settled := FramesOf(s.audio.fates) + HandOf(s, false);
    Assoc(settled, HeadOf(s.audio), s.audio.queue.waiting);
  }

  lemma AudioOrdered(s: State)
    requires Conserved(s) && InTimeOrder(s)
    ensures forall i :: 0 <= i < |AudioOf(s)| ==> AudioOf(s)[0].timestamp <= AudioOf(s)[i].timestamp
  {
    hide Conserved, AudioOf;
    var settled := AudioIsLast(s);
    forall i | 0 <= i < |AudioOf(s)|
      ensures AudioOf(s)[0].timestamp <= AudioOf(s)[i].timestamp
    {
      assert s.audio.put[|settled|] == AudioOf(s)[0] && s.audio.put[|settled| + i] == AudioOf(s)[i];
    }
  }

  // ---------- the run ----------

  lemma PutsAppended(cfg: Config, s: State, t: uint32, a: uint32)
    requires Conserved(s) && Increasing(s.video.put) && InTimeOrder(s) && Critical(cfg, s)
    requires s.hand.value.timestamp < t < TWO32 - 1 && s.audio.queue.lastTime <= a
    ensures Increasing(s.video.put + [Plain(t)] + [Key(t)]) && NonDecreasing(s.audio.put + [Sound(a)])
  {
    hide Conserved, LastTime, Shielded, Increasing, NonDecreasing;
    var put, rest := s.video.put, HandOf(s, true) + HeadOf(s.video) + s.video.queue.waiting;
    InLine(s);
    AudioLast(s);
    assert rest == [s.hand.value];
    assert put[|s.video.fates|..][0] == put[|put| - 1] == s.hand.value;
    IncreasingAppended(put, Plain(t));
    IncreasingAppended(put + [Plain(t)], Key(t));
    OrderAppended(s.audio.put, Sound(a));
  }

  lemma AudioLast(s: State)
    requires Conserved(s)
    ensures s.audio.queue.lastTime == LastTime(s.audio.put)
  {
  }

  lemma OrderAppended(put: seq<Frame>, f: Frame)
    requires NonDecreasing(put) && LastTime(put) <= f.timestamp
    ensures NonDecreasing(put + [f])
  {
    forall i, j | 0 <= i < j < |put| + 1
      ensures (put + [f])[i].timestamp <= (put + [f])[j].timestamp
    {
      assert i < |put| - 1 ==> put[i].timestamp <= put[|put| - 1].timestamp;
    }
  }

  lemma IncreasingAppended(put: seq<Frame>, f: Frame)
    requires Increasing(put) && put != [] && put[|put| - 1].timestamp < f.timestamp
    ensures Increasing(put + [f])
  {
    forall i, j | 0 <= i < j < |put| + 1
      ensures (put + [f])[i].timestamp < (put + [f])[j].timestamp
    {
      assert i < |put| - 1 ==> put[i].timestamp < put[|put| - 1].timestamp;
    }
  }

  lemma NotCaughtUp(fates: seq<Outcome>, dropped: Outcome, sent: Outcome)
    requires !dropped.fate.Sent? && sent.fate.Sent? && !sent.frame.key
    ensures !CaughtUp(fates + [dropped] + [sent])
  {
    var all := fates + [dropped] + [sent];
    assert all[|fates| + 1] == sent && all[|fates|] == dropped;
  }

  lemma BothOrdered(s: State)
    requires Increasing(s.video.put) && NonDecreasing(s.audio.put)
    ensures InTimeOrder(s)
  {
  }

  /** Everything asked of the producers and of the strategy. */
  ghost predicate Admissible(cfg: Config, run: seq<Action>) {
    AllVideoKept(run) && Increasing(Run(cfg, run).video.put) && InTimeOrder(Run(cfg, run))
  }

  /** No ordinary video packet is put. */
  predicate NoOrdinary(more: seq<Action>) {
    forall i :: 0 <= i < |more| && more[i].PutVideo? ==> more[i].frame.key
  }

  /** An ordinary packet put now, and no other, followed by a run that loses the key frame. */
  ghost predicate Loses(cfg: Config, run: seq<Action>, f: Frame, more: seq<Action>) {
    && !f.key && NoOrdinary(more) && Admissible(cfg, run + [PutVideo(f)] + more)
    && !CaughtUp(Run(cfg, run + [PutVideo(f)] + more).video.fates)
  }

  lemma RunFed(cfg: Config, run: seq<Action>, t: uint32, a: uint32, n: nat) returns (more: seq<Action>)
    requires t + 1 < TWO32
    ensures more == [PutVideo(Key(t))] + [PutAudio(Sound(a))] + Repeat(KEEP, n)
    ensures Run(cfg, run + [PutVideo(Plain(t))] + more) == Steps(cfg, Fed(Run(cfg, run), t, a), KEEP, n)
  {
    hide Run, Step, Repeat;
    var run1 := run + [PutVideo(Plain(t))];
    var run2 := run1 + [PutVideo(Key(t))];
    var run3 := run2 + [PutAudio(Sound(a))];
    RunExtends(cfg, run, PutVideo(Plain(t)));
    RunExtends(cfg, run1, PutVideo(Key(t)));
    RunExtends(cfg, run2, PutAudio(Sound(a)));
    RunRepeats(cfg, run3, KEEP, n);
    more := [PutVideo(Key(t))] + [PutAudio(Sound(a))] + Repeat(KEEP, n);
    assert run1 + more == run3 + Repeat(KEEP, n);
  }

  lemma {:induction false} RepeatPutsNothing(n: nat)
    ensures NoOrdinary(Repeat(KEEP, n))
  {
    if n > 0 {
      RepeatPutsNothing(n - 1);
    }
  }

  lemma MoreIsKept(run: seq<Action>, t: uint32, a: uint32, n: nat, more: seq<Action>)
    requires AllVideoKept(run) && t + 1 < TWO32
    requires more == [PutVideo(Key(t))] + [PutAudio(Sound(a))] + Repeat(KEEP, n)
    ensures AllVideoKept(run + [PutVideo(Plain(t))] + more) && NoOrdinary(more)
  {
    hide Repeat;
    RepeatKeepsVideo(n);
    RepeatPutsNothing(n);
  }

  /** The producers cannot do with less: at every critical moment an ordinary packet put now can be followed by a run
    * with no other ordinary packet, in which everything asked of producers and strategy holds, and which sends it
    * after a drop. */
  lemma UntimelyPutCanLose(cfg: Config, run: seq<Action>) returns (f: Frame, more: seq<Action>)
    requires Admissible(cfg, run) && Critical(cfg, Run(cfg, run)) && Room(cfg, Run(cfg, run))
    ensures Loses(cfg, run, f, more)
  {
    hide Run, Step, Conserved, Increasing, InTimeOrder, CaughtUp, Repeat, NonDecreasing, AllVideoKept, NoOrdinary;
    var s := Run(cfg, run);
    Conservation(cfg, run);
    HandNotNewer(s);
    var t: uint32, a: uint32, n;
    if s.audio.head.Some? {
      n := LostAfterSkip(cfg, s);
      t, a := Newest(s) + cfg.maxDelay, Newest(s) + cfg.maxDelay;
    } else {
      n := LostAfterAudio(cfg, s);
      t, a := Deadline(cfg, s) - 1, Deadline(cfg, s);
    }
    more := RunFed(cfg, run, t, a, n);
    f := Plain(t);
    MoreIsKept(run, t, a, n, more);
    PutsAppended(cfg, s, t, a);
    BothOrdered(Run(cfg, run + [PutVideo(f)] + more));
    NotCaughtUp(s.video.fates, Outcome(s.hand.value, Trigger(true)), Outcome(f, Sent));
  }

  /** What is put at no critical moment does no harm. */
  lemma StillHarmless(cfg: Config, run: seq<Action>, f: Frame, more: seq<Action>)
    requires !EverHarmful(cfg, run) && !Critical(cfg, Run(cfg, run)) && NoOrdinary(more)
    ensures !EverHarmful(cfg, run + [PutVideo(f)] + more)
  {
    hide Run, Critical;
    var all := run + [PutVideo(f)] + more;
    forall i | 0 <= i < |all|
      ensures !Harmful(cfg, Run(cfg, all[..i]), all[i])
    {
      if i < |run| {
        assert all[..i] == run[..i] && all[i] == run[i];
      } else if i == |run| {
        assert all[..i] == run;
      } else {
        assert all[i] == more[i - |run| - 1];
      }
    }
  }

  /** Exactly when an ordinary video packet may be put: after an admissible run without harmful puts, and with room in
    * time, one ordinary packet put now can cost the key frame if and only if the moment is critical. */
  lemma OrdinaryPutExact(cfg: Config, run: seq<Action>)
    requires Admissible(cfg, run) && !EverHarmful(cfg, run) && Room(cfg, Run(cfg, run))
    ensures (exists f, more :: Loses(cfg, run, f, more)) <==> Critical(cfg, Run(cfg, run))
  {
    if Critical(cfg, Run(cfg, run)) {
      var f, more := UntimelyPutCanLose(cfg, run);
    } else {
      forall f, more
        ensures !Loses(cfg, run, f, more)
      {
        NotLost(cfg, run, f, more);
      }
    }
  }

  lemma NotLost(cfg: Config, run: seq<Action>, f: Frame, more: seq<Action>)
    requires !EverHarmful(cfg, run) && !Critical(cfg, Run(cfg, run))
    ensures !Loses(cfg, run, f, more)
  {
    hide Run, Critical, EverHarmful, CaughtUp, Increasing, InTimeOrder, NoOrdinary, AllVideoKept;
    if Loses(cfg, run, f, more) {
      StillHarmless(cfg, run, f, more);
      HarmlessPutsCatchUp(cfg, run + [PutVideo(f)] + more);
    }
  }
}
