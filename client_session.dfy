/** The session of the `client` package's `Client`: the same steps as the
    `module` package's, but run as a goroutine that reports nothing, only
    logs, and marks itself finished on its wait group however it ends. */
module ClientSession {
  import opened Wrappers
  import opened Session

  /** A `sync.WaitGroup`, as its counter. */
  class WaitGroup {
    var count: int

    constructor (count: int)
      ensures this.count == count
    {
      this.count := count;
    }

    method Done()
      modifies this
      ensures count == old(count) - 1
    {
      count := count - 1;
    }
  }

  /** The steps the goroutine takes: the setup, then (when it succeeds) the
      first command run, then (when that succeeds) the loop over the
      service's values. */
  function ClientSteps(setupErr: Option<string>, firstRun: Option<string>, events: seq<Received>): (steps: seq<Step>)
    ensures setupErr.Some? ==> steps == [SetupRepo]
    ensures setupErr == None && firstRun.Some? ==> steps == [SetupRepo, RunCommands]
  {
    if setupErr.Some? then [SetupRepo]
    else if firstRun.Some? then [SetupRepo, RunCommands]
    else [SetupRepo, RunCommands] + SessionLoop(events, "").1
  }

  /** The two sessions take the same steps for the same outcomes; they
      differ only in what they return, and the steps do not depend on the
      context's error. */
  lemma {:induction false} SameStepsAsModule(setupErr: Option<string>, firstRun: Option<string>, events: seq<Received>, ctxErr: string)
    ensures ClientSteps(setupErr, firstRun, events) == StartOutcome(setupErr, firstRun, events, ctxErr).1
  {
    LoopStepsIgnoreError(events, ctxErr, "");
  }

  lemma {:induction false} LoopStepsIgnoreError(events: seq<Received>, e1: string, e2: string)
    ensures SessionLoop(events, e1).1 == SessionLoop(events, e2).1
    decreases |events|
  {
    if events != [] {
      LoopStepsIgnoreError(events[1..], e1, e2);
    }
  }

  /** `Start`, with `setupErr` and `firstRun` what the setup and the first
      command run return and `events` the service's values until its channel
      closes: it takes the steps above and, on every path, signals the wait
      group once. */
  method Start(wg: WaitGroup, setupErr: Option<string>, firstRun: Option<string>, events: seq<Received>)
    returns (steps: seq<Step>)
    modifies wg
    ensures wg.count == old(wg.count) - 1
    ensures steps == ClientSteps(setupErr, firstRun, events)
  {
    steps := [SetupRepo];
    if setupErr.Some? {
      wg.Done();
      return;
    }
    steps := [SetupRepo, RunCommands];
    if firstRun.Some? {
      wg.Done();
      return;
    }
    var i := 0;
    while i < |events|
      invariant 0 <= i <= |events|
      invariant wg.count == old(wg.count)
      invariant steps + SessionLoop(events[i..], "").1 == [SetupRepo, RunCommands] + SessionLoop(events, "").1
    {
      if events[i].ctxDone {
        assert SessionLoop(events[i..], "").1 == [];
        assert steps == [SetupRepo, RunCommands] + SessionLoop(events, "").1;
        wg.Done();
        return;
      }
      steps := LoopStep(events, i, "", steps);
      i := i + 1;
    }
    assert events[i..] == [];
    assert steps == [SetupRepo, RunCommands] + SessionLoop(events, "").1;
    wg.Done();
  }
}
