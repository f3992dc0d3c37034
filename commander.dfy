/** The `commander` package: commands built from argument vectors, and a
    commander that runs its commands in order, best effort, checking for
    cancellation before each one. */
module Commander {
  import opened Wrappers
  import opened CommandRuns

  datatype CommandOpts = CommandOpts(args: seq<string>, async: bool)

  /** `Command`; a nil argument slice is the empty sequence. */
  datatype Command = Command(name: string, args: seq<string>, async: bool)

  /** `NewCommand`: the first element is the program and the rest its
      arguments; no element at all gives the zero command, which is never
      asynchronous. */
  function NewCommand(co: CommandOpts): (c: Command)
    ensures |co.args| == 0 ==> c == Command("", [], false)
    ensures |co.args| > 0 ==> [c.name] + c.args == co.args && c.async == co.async
    ensures |co.args| == 1 ==> c.args == []
  {
    if |co.args| == 0 then Command("", [], false)
    else if |co.args| == 1 then Command(co.args[0], [], co.async)
    else Command(co.args[0], co.args[1..], co.async)
  }

  /** What the started process does: the error `Start` returns, and the
      error `Wait` returns (which covers the kill on cancellation). */
  datatype Process = Process(start: Option<string>, wait: Option<string>)

  /** `Execute`: a start failure is returned; an asynchronous command is
      not waited for; a synchronous one returns what waiting returns. */
  function Execute(c: Command, p: Process): (err: Option<string>)
    ensures p.start.Some? ==> err == p.start
    ensures p.start == None ==> (err == if c.async then None else p.wait)
  {
    if p.start.Some? then p.start
    else if c.async then None
    else p.wait
  }

  /** The commands `New` keeps: those whose built command has a name, in order. */
  function Kept(opts: seq<CommandOpts>): (r: seq<Command>)
    ensures |r| <= |opts|
    ensures forall i :: 0 <= i < |r| ==> r[i].name != ""
    decreases |opts|
  {
    if opts == [] then []
    else
      var c := NewCommand(opts[|opts| - 1]);
      Kept(opts[..|opts| - 1]) + (if c.name != "" then [c] else [])
  }

  /** The commands built from `opts`, empty ones included. */
  function Built(opts: seq<CommandOpts>): (b: seq<Command>)
    ensures |b| == |opts|
    ensures forall j :: 0 <= j < |opts| ==> (b[j].name == "" <==> |opts[j].args| == 0 || opts[j].args[0] == "")
  {
    seq(|opts|, j requires 0 <= j < |opts| => NewCommand(opts[j]))
  }

  /** `New` keeps exactly the built commands that have a name. */
  lemma {:induction false} KeptMembers(opts: seq<CommandOpts>)
    ensures forall c :: c in Kept(opts) <==> c in Built(opts) && c.name != ""
    decreases |opts|
  {
    if opts != [] {
      var init := opts[..|opts| - 1];
      KeptMembers(init);
      assert Built(opts) == Built(init) + [NewCommand(opts[|opts| - 1])];
    }
  }

  /** Whether each command is executed when reached: it has a name. */
  function Runnable(cmds: seq<Command>): (r: seq<bool>)
    ensures |r| == |cmds| && forall j :: 0 <= j < |cmds| ==> (r[j] <==> cmds[j].name != "")
  {
    seq(|cmds|, j requires 0 <= j < |cmds| => cmds[j].name != "")
  }

  class Commander {
    var commands: seq<Command>
    /** Whether the `OnError` and `OnStart` callbacks are set. */
    var onError: bool
    var onStart: bool

    /** `New`; the callbacks are left nil for the caller to set. */
    constructor New(opts: seq<CommandOpts>)
      ensures commands == Kept(opts) && !onError && !onStart
    {
      commands := [];
      onError := false;
      onStart := false;
      new;
      var i := 0;
      while i < |opts|
        invariant 0 <= i <= |opts|
        invariant commands == Kept(opts[..i]) && !onError && !onStart
      {
        assert opts[..i + 1][..i] == opts[..i];
        var cmd := NewCommand(opts[i]);
        if cmd.name != "" {
          commands := commands + [cmd];
        }
        i := i + 1;
      }
      assert opts[..|opts|] == opts;
    }

    /** `Run`. The context is seen as done at every check from the one
        before command `doneFrom` on (`doneFrom >= |commands|`: never during
        the run), and then yields `ctxErr`; command `j` runs as `procs(j)`
        says. The commands before the cancellation point that have a name
        are executed, each with its callback calls; cancellation returns
        the context's error, otherwise the result is nil. */
    method Run(procs: nat -> Process, doneFrom: nat, ctxErr: string) returns (err: Option<string>, calls: seq<Event<Command>>)
      ensures err == if doneFrom < |commands| then Some(ctxErr) else None
      ensures calls == Trace(commands, Executed(Runnable(commands), if doneFrom < |commands| then doneFrom else |commands|),
                             procs, Execute, onStart, onError)
    {
      calls := [];
      var runnable := Runnable(commands);
      var i := 0;
      while i < |commands|
        invariant 0 <= i <= |commands| && i <= doneFrom
        invariant calls == Trace(commands, Executed(runnable, i), procs, Execute, onStart, onError)
      {
        if doneFrom <= i {
          return Some(ctxErr), calls;
        }
        calls := RunAt(commands, runnable, i, procs, Execute, onStart, onError, calls);
        i := i + 1;
      }
      return None, calls;
    }
  }

  /** Never cancelled, `Run` executes every command with a name (all of
      them, since `New` keeps no other) and returns nil; the `OnStart` calls
      follow the command order and each failure is reported once. */
  lemma RunToCompletion(cmds: seq<Command>, procs: nat -> Process, onStart: bool, onError: bool)
    requires forall j :: 0 <= j < |cmds| ==> cmds[j].name != ""
    ensures |Executed(Runnable(cmds), |cmds|)| == |cmds|
    ensures forall k :: 0 <= k < |cmds| ==> Executed(Runnable(cmds), |cmds|)[k] == k
    ensures onStart ==> Starts(Trace(cmds, Executed(Runnable(cmds), |cmds|), procs, Execute, onStart, onError)) == cmds
  {
    AllExecuted(Runnable(cmds), |cmds|);
    var idx := Executed(Runnable(cmds), |cmds|);
    TraceStarts(cmds, idx, procs, Execute, onStart, onError);
    assert At(cmds, idx) == cmds;
  }

  /** When every command up to `stop` runs, the executed indices are exactly `0 .. stop - 1`. */
  lemma {:induction false} AllExecuted(runnable: seq<bool>, stop: nat)
    requires stop <= |runnable|
    requires forall j :: 0 <= j < stop ==> runnable[j]
    ensures |Executed(runnable, stop)| == stop
    ensures forall k :: 0 <= k < stop ==> Executed(runnable, stop)[k] == k
    decreases stop
  {
    if stop > 0 {
      AllExecuted(runnable, stop - 1);
    }
  }
}
