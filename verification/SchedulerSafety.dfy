/** Over every run of the sending thread, whatever the producers do meanwhile: nothing is lost or reordered, drops are
  * counted, and nothing stale is sent. */
module SchedulerSafety {
  import opened Bytes
  import opened SendQueue
  import opened Scheduler

  function FramesOf(fates: seq<Outcome>): (fs: seq<Frame>)
    ensures |fs| == |fates|
  {
    if fates == [] then [] else FramesOf(fates[..|fates| - 1]) + [fates[|fates| - 1].frame]
  }

  function SentOf(fates: seq<Outcome>): seq<Frame> {
    if fates == [] then []
    else
      SentOf(fates[..|fates| - 1]) + if fates[|fates| - 1].fate.Sent? then [fates[|fates| - 1].frame] else []
  }

  /** Bytes of the packets dropped, other than those that triggered a skip. */
  function BytesOf(fates: seq<Outcome>): nat {
    if fates == [] then 0
    else
      var o := fates[|fates| - 1];
      BytesOf(fates[..|fates| - 1]) + if o.fate.Withheld? || o.fate.Skipped? then o.frame.size else 0
  }

  /** The packets of one stream among those transmitted, in transmission order. */
  function SentOn(wire: seq<Transmission>, video: bool): seq<Frame> {
    if wire == [] then []
    else
      SentOn(wire[..|wire| - 1], video) + if wire[|wire| - 1].video == video then [wire[|wire| - 1].frame] else []
  }

  ghost predicate Subsequence(a: seq<Frame>, b: seq<Frame>) {
    a == [] || (b != [] && (Subsequence(a, b[..|b| - 1]) ||
                            (a[|a| - 1] == b[|b| - 1] && Subsequence(a[..|a| - 1], b[..|b| - 1]))))
  }

  function HeadOf(st: Stream): seq<Frame> {
    if st.head.Some? then [st.head.value] else []
  }

  function HandOf(s: State, video: bool): seq<Frame> {
    if s.hand.Some? && s.handVideo == video then [s.hand.value] else []
  }

  /** Each packet put is settled, in hand, the head or queued, in this order, and the time fields are those of the
    * puts. */
  ghost predicate Accounted(st: Stream, hand: seq<Frame>) {
    && st.put == FramesOf(st.fates) + hand + HeadOf(st) + st.queue.waiting
    && st.queue.lastTime == LastTime(st.put) && st.queue.lastKeyTime == LastKeyTime(st.put)
  }

  /** What is held at each control point. */
  predicate Holds(s: State) {
    match s.pc
    case FirstVideo => s.hand.None? && s.video.head.None? && s.audio.head.None?
    case FirstAudio => s.hand.None? && s.audio.head.None?
    case WaitVideo => s.hand.None? && s.video.head.None? && s.audio.head.None?
    case WaitAudio => s.hand.None? && s.audio.head.None?
    case Top => s.hand.None?
    case Waiting => s.hand.None?
    case Choosing => s.hand.None?
    case SkipVideo(_, _) => s.hand.None?
    case SkipAudio(_, _) => s.hand.None?
    case Done(_) => true
    case _ => s.hand.Some?
  }

  ghost predicate Conserved(s: State) {
    && Holds(s)
    && Accounted(s.video, HandOf(s, true)) && Accounted(s.audio, HandOf(s, false))
    && SentOn(s.wire, true) == SentOf(s.video.fates) && SentOn(s.wire, false) == SentOf(s.audio.fates)
    && s.countedDrop + s.pendingDrop == BytesOf(s.video.fates) + BytesOf(s.audio.fates)
  }

  lemma Appended(fates: seq<Outcome>, o: Outcome)
    ensures FramesOf(fates + [o]) == FramesOf(fates) + [o.frame]
    ensures SentOf(fates + [o]) == if o.fate.Sent? then SentOf(fates) + [o.frame] else SentOf(fates)
    ensures
      BytesOf(fates + [o]) == BytesOf(fates) + if o.fate.Withheld? || o.fate.Skipped? then o.frame.size else 0
  {
    assert (fates + [o])[..|fates|] == fates;
    assert SentOf(fates) + [] == SentOf(fates);
  }

  lemma Transmitted(wire: seq<Transmission>, t: Transmission)
    ensures SentOn(wire + [t], t.video) == SentOn(wire, t.video) + [t.frame]
    ensures SentOn(wire + [t], !t.video) == SentOn(wire, !t.video)
  {
    assert (wire + [t])[..|wire|] == wire;
    assert SentOn(wire, !t.video) + [] == SentOn(wire, !t.video);
  }

  lemma Arrived(st: Stream, hand: seq<Frame>, f: Frame)
    requires Accounted(st, hand)
    ensures Accounted(Arrive(st, f), hand)
  {
    assert (st.put + [f])[..|st.put|] == st.put;
  }

  lemma Fetched(st: Stream, hand: seq<Frame>)
    requires Accounted(st, hand) && st.head.None?
    ensures Accounted(Fetch(st), hand)
  {
    if st.queue.waiting != [] {
      assert st.queue.waiting == [st.queue.waiting[0]] + st.queue.waiting[1..];
    }
  }

  lemma TookHead(st: Stream)
    requires Accounted(st, []) && st.head.Some?
    ensures Accounted(Fetch(st), [st.head.value])
  {
    hide FramesOf, LastTime, LastKeyTime;
    if st.queue.waiting != [] {
      assert st.queue.waiting == [st.queue.waiting[0]] + st.queue.waiting[1..];
    }
  }

  lemma Settled(st: Stream, f: Frame, fate: Fate)
    requires Accounted(st, [f])
    ensures Accounted(Settle(st, f, fate), [])
  {
    Appended(st.fates, Outcome(f, fate));
  }

  lemma SkippedOne(st: Stream, keyTime: uint32)
    requires Accounted(st, []) && st.head.Some?
    ensures Accounted(SkipOne(st, st.head.value, keyTime), [])
  {
    var f := st.head.value;
    var fate := if f.timestamp < keyTime then Skipped else Sent;
    TookHead(st);
    Settled(Fetch(st), f, fate);
  }

  lemma SettledHand(s: State, fate: Fate)
    requires Conserved(s) && s.hand.Some?
    ensures
      var r := SettleHand(s, s.hand.value, fate);
      && r.hand.None?
      && Accounted(r.video, []) && Accounted(r.audio, [])
      && SentOf(r.video.fates) == SentOf(s.video.fates) + (if s.handVideo && fate.Sent? then [s.hand.value] else [])
      && SentOf(r.audio.fates) == SentOf(s.audio.fates) + (if !s.handVideo && fate.Sent? then [s.hand.value] else [])
      && BytesOf(r.video.fates) + BytesOf(r.audio.fates) == BytesOf(s.video.fates) + BytesOf(s.audio.fates)
         + if fate.Withheld? || fate.Skipped? then s.hand.value.size else 0
  {
    hide Accounted, SentOn;
    Settled(if s.handVideo then s.video else s.audio, s.hand.value, fate);
    Appended((if s.handVideo then s.video else s.audio).fates, Outcome(s.hand.value, fate));
  }

  lemma SentHand(s: State, reason: Reason, ok: bool)
    requires Conserved(s) && s.hand.Some?
    ensures Conserved(SendHand(s, s.hand.value, reason, ok))
  {
    hide Accounted, SentOn, SentOf, BytesOf, FramesOf;
    if ok {
      SettledHand(s, Sent);
      Transmitted(s.wire, Transmission(s.handVideo, s.hand.value, reason));
    }
  }

  lemma TakeConserves(s: State)
    requires Conserved(s) && s.pc == Choosing
    ensures Conserved(Take(s))
  {
    hide Accounted, SentOn, SentOf, BytesOf, FramesOf;
    if s.video.head.Some? { TookHead(s.video); }
    if s.audio.head.Some? { TookHead(s.audio); }
  }

  lemma SkipConserves(s: State, env: Env)
    requires Conserved(s) && (s.pc.SkipVideo? || s.pc.SkipAudio?)
    ensures s.pc.SkipVideo? ==> Conserved(StepSkipVideo(s, s.pc.now, s.pc.keyTime, env))
    ensures s.pc.SkipAudio? ==> Conserved(StepSkipAudio(s, s.pc.now, s.pc.keyTime, env))
  {
    hide Accounted, SentOn, SentOf, BytesOf, FramesOf;
    var video := s.pc.SkipVideo?;
    var st := if video then s.video else s.audio;
    if st.head.Some? {
      var f := st.head.value;
      SkippedOne(st, s.pc.keyTime);
      Appended(st.fates, Outcome(f, if f.timestamp < s.pc.keyTime then Skipped else Sent));
      Transmitted(s.wire, Transmission(video, f, NotOlder(s.pc.keyTime)));
    }
  }

  lemma FreshConserves(cfg: Config, s: State, now: uint32, env: Env)
    requires Conserved(s) && s.pc == Fresh(now)
    ensures Conserved(StepFresh(cfg, s, now, s.hand.value, env))
  {
    hide Accounted, SentOn, SentOf, BytesOf, FramesOf, SendHand, SettleHand, WithinDelay, Minus;
    var held := s.(sendVideo := false, lastDelay := now);
    SentHand(s, OnTime(s.taken, now), env.sendOk);
    SentHand(held, OnTime(s.taken, now), env.sendOk);
    SettledHand(s, Withheld);
    SettledHand(held, Withheld);
    WithheldWire(s);
    WithheldWire(held);
  }

  lemma WithheldWire(s: State)
    requires s.hand.Some?
    ensures SettleHand(s, s.hand.value, Withheld).wire == s.wire
    ensures SettleHand(s, s.hand.value, Withheld).pendingDrop == s.pendingDrop
    ensures SettleHand(s, s.hand.value, Withheld).countedDrop == s.countedDrop
  {
  }

  lemma LateConserves(s: State, now: uint32, env: Env)
    requires Conserved(s) && s.pc == Late(now)
    ensures Conserved(StepLate(s, now, s.hand.value, env))
  {
    hide Accounted, SentOn, SentOf, BytesOf, FramesOf, SendHand;
    SentHand(s, NotOlder(s.video.queue.lastKeyTime), env.sendOk);
    SettledHand(s, Trigger((if s.handVideo then s.video else s.audio).head.None?));
  }

  lemma StepConserves(cfg: Config, s: State, env: Env)
    requires Conserved(s)
    ensures Conserved(Step(cfg, s, env))
  {
    hide Accounted, SentOn, SentOf, BytesOf, FramesOf, Fetch;
    hide Take, StepFresh, StepLate, StepSkipVideo, StepSkipAudio, WithinDelay;
    match s.pc
    case FirstVideo => FetchConserves(s, true);
    case WaitVideo => FetchConserves(s, true);
    case FirstAudio => FetchConserves(s, false);
    case WaitAudio => FetchConserves(s, false);
    case Choosing => TakeConserves(s);
    case Fresh(now) => FreshConserves(cfg, s, now, env);
    case Late(now) => LateConserves(s, now, env);
    case SkipVideo(_, _) => SkipConserves(s, env);
    case SkipAudio(_, _) => SkipConserves(s, env);
    case _ =>
  }

  lemma FetchConserves(s: State, video: bool)
    requires Conserved(s) && s.hand.None? && (if video then s.video else s.audio).head.None?
    ensures video ==> Accounted(Fetch(s.video), []) && Fetch(s.video).fates == s.video.fates
    ensures !video ==> Accounted(Fetch(s.audio), []) && Fetch(s.audio).fates == s.audio.fates
  {
    hide Accounted;
    Fetched(if video then s.video else s.audio, []);
  }

  lemma PutConserves(s: State, f: Frame)
    requires Conserved(s)
    ensures Conserved(s.(video := Arrive(s.video, f))) && Conserved(s.(audio := Arrive(s.audio, f)))
  {
    hide Accounted, SentOn, SentOf, BytesOf, FramesOf;
    Arrived(s.video, HandOf(s, true), f);
    Arrived(s.audio, HandOf(s, false), f);
  }

  lemma InitialConserved()
    ensures Conserved(INITIAL)
  {
  }

  /** Every packet put is exactly one of settled, in hand, held as head or queued; what was sent of a stream is what was
    * settled as sent; the bytes counted are those of the dropped packets other than triggers. */
  lemma {:induction false} Conservation(cfg: Config, run: seq<Action>)
    ensures Conserved(Run(cfg, run))
  {
    hide Conserved, Step;
    if run == [] {
      assert Conserved(INITIAL) by { InitialConserved(); }
    } else {
      var s := Run(cfg, run[..|run| - 1]);
      Conservation(cfg, run[..|run| - 1]);
      match run[|run| - 1]
      case PutVideo(f) => PutConserves(s, f);
      case PutAudio(f) => PutConserves(s, f);
      case Thread(env) => StepConserves(cfg, s, env);
    }
  }

  lemma {:induction false} SubsequenceExtends(a: seq<Frame>, b: seq<Frame>, c: seq<Frame>)
    requires Subsequence(a, b)
    ensures Subsequence(a, b + c)
    decreases |c|
  {
    if c == [] {
      assert b + c == b;
    } else {
      SubsequenceExtends(a, b, c[..|c| - 1]);
      assert (b + c)[..|b + c| - 1] == b + c[..|c| - 1];
    }
  }

  lemma SubsequenceAppend(a: seq<Frame>, b: seq<Frame>, f: Frame)
    requires Subsequence(a, b)
    ensures Subsequence(a + [f], b + [f]) && Subsequence(a, b + [f])
  {
    assert (a + [f])[..|a|] == a && (b + [f])[..|b|] == b;
  }

  lemma NothingSent()
    ensures Subsequence(SentOf([]), FramesOf([]))
  {
  }

  lemma {:induction false} SentIsSubsequence(fates: seq<Outcome>)
    ensures Subsequence(SentOf(fates), FramesOf(fates))
  {
    if fates == [] {
      NothingSent();
    } else {
      hide Subsequence, SentOf, FramesOf;
      var before, o := fates[..|fates| - 1], fates[|fates| - 1];
      SentIsSubsequence(before);
      SubsequenceAppend(SentOf(before), FramesOf(before), o.frame);
      Appended(before, o);
      assert fates == before + [o];
    }
  }

  lemma StreamInOrder(st: Stream, hand: seq<Frame>)
    requires Accounted(st, hand)
    ensures Subsequence(SentOf(st.fates), st.put)
  {
    hide Subsequence, SentOf, FramesOf;
    SentIsSubsequence(st.fates);
    SubsequenceExtends(SentOf(st.fates), FramesOf(st.fates), hand + HeadOf(st) + st.queue.waiting);
    assert FramesOf(st.fates) + (hand + HeadOf(st) + st.queue.waiting) == st.put;
  }

  /** Each stream is transmitted in the order in which it was put. */
  lemma InOrder(cfg: Config, run: seq<Action>)
    ensures Subsequence(SentOn(Run(cfg, run).wire, true), Run(cfg, run).video.put)
    ensures Subsequence(SentOn(Run(cfg, run).wire, false), Run(cfg, run).audio.put)
  {
    hide Run, Step, Subsequence, Accounted, SentOn, SentOf, FramesOf;
    Conservation(cfg, run);
    var s := Run(cfg, run);
    StreamInOrder(s.video, HandOf(s, true));
    StreamInOrder(s.audio, HandOf(s, false));
  }
}
