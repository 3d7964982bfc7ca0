/** Runs of the sending thread in which the surroundings answer every step alike. */
module SchedulerReplay {
  import opened Scheduler
  import opened SchedulerKeyFrames

  /** Go on, and everything is sent. */
  const KEEP := Env(true, true, 0, 0)

  function Repeat(env: Env, n: nat): seq<Action> {
    if n == 0 then [] else Repeat(env, n - 1) + [Thread(env)]
  }

  function Steps(cfg: Config, s: State, env: Env, n: nat): State {
    if n == 0 then s else Step(cfg, Steps(cfg, s, env, n - 1), env)
  }

  lemma {:induction false} RunRepeats(cfg: Config, run: seq<Action>, env: Env, n: nat)
    ensures Run(cfg, run + Repeat(env, n)) == Steps(cfg, Run(cfg, run), env, n)
  {
    hide Step, Run;
    if n == 0 {
      assert run + Repeat(env, n) == run;
    } else {
      RunRepeats(cfg, run, env, n - 1);
      RunExtends(cfg, run + Repeat(env, n - 1), Thread(env));
      assert run + Repeat(env, n) == run + Repeat(env, n - 1) + [Thread(env)];
    }
  }

  lemma {:induction false} StepsTwice(cfg: Config, s: State, env: Env, m: nat, n: nat)
    ensures Steps(cfg, s, env, m + n) == Steps(cfg, Steps(cfg, s, env, m), env, n)
  {
    hide Step;
    if n > 0 {
      StepsTwice(cfg, s, env, m, n - 1);
    }
  }

  lemma {:induction false} RepeatKeepsVideo(n: nat)
    ensures AllVideoKept(Repeat(KEEP, n))
  {
    if n > 0 {
      RepeatKeepsVideo(n - 1);
    }
  }
}
