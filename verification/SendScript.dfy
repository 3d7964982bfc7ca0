/** What the surroundings of the sending thread may do, as a script: the run it makes, what that run can and cannot
  * be. */
module SendScript {
  import opened Bytes
  import opened SendQueue
  import opened Scheduler
  import opened SchedulerStaleness

  /** What the surroundings do before one step of the thread: packets put by the producers, and what the step will
    * read. */
  datatype Turn = Turn(puts: seq<Arrival>, env: Env)

  datatype Arrival = Arrival(video: bool, frame: Frame)

  function AsAction(a: Arrival): Action {
    if a.video then PutVideo(a.frame) else PutAudio(a.frame)
  }

  /** When the surroundings have nothing more to say the thread is told to stop. */
  const STOP := Env(false, true, 0, 0)

  function TurnAt(script: seq<Turn>, n: nat): Turn {
    if n < |script| then script[n] else Turn([], STOP)
  }

  function Puts(arrivals: seq<Arrival>): seq<Action> {
    if arrivals == [] then [] else Puts(arrivals[..|arrivals| - 1]) + [AsAction(arrivals[|arrivals| - 1])]
  }

  /** The run of the scheduler that a script makes up to and including the `n`th step of the thread. */
  function Played(script: seq<Turn>, n: nat): seq<Action> {
    if n == 0 then []
    else Played(script, n - 1) + Puts(TurnAt(script, n - 1).puts) + [Thread(TurnAt(script, n - 1).env)]
  }

  function StateAt(cfg: Config, script: seq<Turn>, n: nat): State {
    Run(cfg, Played(script, n))
  }

  function Delivered(cfg: Config, s: State, arrivals: seq<Arrival>): State {
    if arrivals == [] then s
    else Next(cfg, Delivered(cfg, s, arrivals[..|arrivals| - 1]), AsAction(arrivals[|arrivals| - 1]))
  }

  lemma {:induction false} RunDelivers(cfg: Config, run: seq<Action>, arrivals: seq<Arrival>)
    ensures Run(cfg, run + Puts(arrivals)) == Delivered(cfg, Run(cfg, run), arrivals)
  {
    hide Run, Next;
    if arrivals == [] {
      assert run + Puts(arrivals) == run;
    } else {
      var before, a := arrivals[..|arrivals| - 1], arrivals[|arrivals| - 1];
      RunDelivers(cfg, run, before);
      RunExtends(cfg, run + Puts(before), AsAction(a));
      assert run + Puts(arrivals) == run + Puts(before) + [AsAction(a)];
    }
  }

  /** The states a script leads through: before each step its packets arrive, then the step reads what the script
    * says. */
  lemma StateFollows(cfg: Config, script: seq<Turn>, n: nat)
    ensures
      var turn := TurnAt(script, n);
      StateAt(cfg, script, n + 1) == Step(cfg, Delivered(cfg, StateAt(cfg, script, n), turn.puts), turn.env)
  {
    hide Run, Step;
    var turn, run := TurnAt(script, n), Played(script, n);
    RunDelivers(cfg, run, turn.puts);
    RunExtends(cfg, run + Puts(turn.puts), Thread(turn.env));
  }

  /** The run so far is never taken back. */
  lemma {:induction false} PlayedExtends(script: seq<Turn>, m: nat, n: nat)
    requires m <= n
    ensures Played(script, m) <= Played(script, n)
    decreases n
  {
    hide Puts, TurnAt;
    if m < n {
      PlayedExtends(script, m, n - 1);
    }
  }

  /** The packets of turn `n` have arrived, which led to `s`, and `env` is what the step about to be taken reads. */
  ghost predicate Ready(cfg: Config, script: seq<Turn>, n: nat, s: State, env: Env) {
    s == Delivered(cfg, StateAt(cfg, script, n), TurnAt(script, n).puts) && env == TurnAt(script, n).env
  }

  /** None of the states from one step up to another starts a turn of the sending loop or is an end of the thread. */
  ghost predicate Underway(cfg: Config, script: seq<Turn>, from: nat, to: nat) {
    forall m :: from <= m < to ==> StateAt(cfg, script, m).pc != Top && !StateAt(cfg, script, m).pc.Done?
  }

  /** A run cut into the turns of its steps, and the packets put since the last one. */
  function Turns(run: seq<Action>): (seq<Turn>, seq<Arrival>) {
    if run == [] then ([], [])
    else
      var (turns, arrivals) := Turns(run[..|run| - 1]);
      match run[|run| - 1]
      case PutVideo(f) => (turns, arrivals + [Arrival(true, f)])
      case PutAudio(f) => (turns, arrivals + [Arrival(false, f)])
      case Thread(env) => (turns + [Turn(arrivals, env)], [])
  }

  lemma {:induction false} PlayedLonger(script: seq<Turn>, more: seq<Turn>, n: nat)
    requires n <= |script|
    ensures Played(script + more, n) == Played(script, n)
  {
    if n > 0 {
      PlayedLonger(script, more, n - 1);
    }
  }

  lemma TurnPlayed(script: seq<Turn>, turn: Turn)
    ensures
      Played(script + [turn], |script| + 1)
      == Played(script, |script|) + Puts(turn.puts) + [Thread(turn.env)]
  {
    hide Puts;
    PlayedLonger(script, [turn], |script|);
  }

  lemma PutsAppend(arrivals: seq<Arrival>, a: Arrival)
    ensures Puts(arrivals + [a]) == Puts(arrivals) + [AsAction(a)]
  {
    assert (arrivals + [a])[..|arrivals|] == arrivals;
  }

  lemma {:induction false} TurnsPlay(run: seq<Action>)
    ensures Played(Turns(run).0, |Turns(run).0|) + Puts(Turns(run).1) == run
  {
    if run == [] {
      NoPuts();
    } else {
      hide Played, Puts, Turns;
      var before, a := run[..|run| - 1], run[|run| - 1];
      var turns, arrivals := Turns(before).0, Turns(before).1;
      TurnsPlay(before);
      TurnsExtend(before, a);
      assert before + [a] == run;
      if a.Thread? {
        TurnPlayed(turns, Turn(arrivals, a.env));
        NoPuts();
        assert before + [a] + [] == run;
      } else {
        PutsAppend(arrivals, if a.PutVideo? then Arrival(true, a.frame) else Arrival(false, a.frame));
        Assoc(Played(turns, |turns|), Puts(arrivals), [a]);
      }
    }
  }

  lemma TurnsExtend(run: seq<Action>, a: Action)
    ensures
      var (turns, arrivals) := Turns(run);
      Turns(run + [a]) ==
      match a
      case PutVideo(f) => (turns, arrivals + [Arrival(true, f)])
      case PutAudio(f) => (turns, arrivals + [Arrival(false, f)])
      case Thread(env) => (turns + [Turn(arrivals, env)], [])
  {
    assert (run + [a])[..|run|] == run;
  }

  lemma NoPuts()
    ensures Puts([]) == []
  {
  }

  /** Scripts leave nothing out: every run of the scheduler, with any interleaving, is played by one of them. */
  lemma EveryRunIsPlayed(run: seq<Action>)
    requires run != [] && run[|run| - 1].Thread?
    ensures Played(Turns(run).0, |Turns(run).0|) == run
  {
    hide Played, Puts;
    TurnsPlay(run);
    NoPuts();
  }

  lemma {:induction false} DeliveredAtEnd(cfg: Config, s: State, arrivals: seq<Arrival>)
    ensures
      var r := Delivered(cfg, s, arrivals);
      && r.pc == s.pc && r.wire == s.wire && r.video.fates == s.video.fates && r.audio.fates == s.audio.fates
      && r.countedDrop == s.countedDrop && r.pendingDrop == s.pendingDrop
  {
    hide Step;
    if arrivals != [] {
      DeliveredAtEnd(cfg, s, arrivals[..|arrivals| - 1]);
    }
  }

  /** After an end of the thread nothing more is sent, dropped or counted: a script has one outcome. */
  lemma {:induction false} OneOutcome(cfg: Config, script: seq<Turn>, n: nat, m: nat)
    requires n <= m && StateAt(cfg, script, n).pc.Done?
    ensures
      var r, s := StateAt(cfg, script, m), StateAt(cfg, script, n);
      && r.pc == s.pc && r.wire == s.wire && r.video.fates == s.video.fates && r.audio.fates == s.audio.fates
      && r.countedDrop == s.countedDrop && r.pendingDrop == s.pendingDrop
    decreases m
  {
    hide StateAt, Delivered, TurnAt, StepFresh, StepLate, StepSkipVideo, StepSkipAudio, Take, Fetch, WithinDelay;
    if n < m {
      OneOutcome(cfg, script, n, m - 1);
      StateFollows(cfg, script, m - 1);
      DeliveredAtEnd(cfg, StateAt(cfg, script, m - 1), TurnAt(script, m - 1).puts);
    }
  }

  /** The packets of one stream among arrivals, in order. */
  function On(arrivals: seq<Arrival>, video: bool): seq<Frame> {
    if arrivals == [] then []
    else
      var a := arrivals[|arrivals| - 1];
      On(arrivals[..|arrivals| - 1], video) + if a.video == video then [a.frame] else []
  }

  /** The packets of one stream that the first `n` turns bring. */
  function Brought(script: seq<Turn>, n: nat, video: bool): seq<Frame> {
    if n == 0 then [] else Brought(script, n - 1, video) + On(TurnAt(script, n - 1).puts, video)
  }

  lemma {:induction false} DeliveredPuts(cfg: Config, s: State, arrivals: seq<Arrival>)
    ensures Delivered(cfg, s, arrivals).video.put == s.video.put + On(arrivals, true)
    ensures Delivered(cfg, s, arrivals).audio.put == s.audio.put + On(arrivals, false)
  {
    hide Step;
    if arrivals != [] {
      DeliveredPuts(cfg, s, arrivals[..|arrivals| - 1]);
    }
  }

  /** What has been put into the two buffers is exactly what the turns used so far brought, in that order. */
  lemma {:induction false} PutsAreBrought(cfg: Config, script: seq<Turn>, n: nat)
    ensures StateAt(cfg, script, n).video.put == Brought(script, n, true)
    ensures StateAt(cfg, script, n).audio.put == Brought(script, n, false)
  {
    if n == 0 {
      assert Played(script, 0) == [];
    } else {
      hide StateAt, Delivered, TurnAt, Step, On;
      var turn, s := TurnAt(script, n - 1), StateAt(cfg, script, n - 1);
      PutsAreBrought(cfg, script, n - 1);
      DeliveredPuts(cfg, s, turn.puts);
      StateFollows(cfg, script, n - 1);
      StepPutsNothing(cfg, Delivered(cfg, s, turn.puts), turn.env);
    }
  }
}
