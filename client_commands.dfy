/** The `client` package's commands: a command is its argument vector, run
    in its own process group, and the commander checks for cancellation only
    after each command it executes. */
module ClientCommands {
  import opened Wrappers
  import opened Strings
  import opened CommandRuns

  /** `Command`; a nil argument slice is the empty sequence. */
  datatype Command = Command(args: seq<string>, async: bool)

  /** The `exec.Cmd` a command builds: program, arguments, and whether the
      process gets a process group of its own. */
  datatype ExecCmd = ExecCmd(name: string, args: seq<string>, ownProcessGroup: bool)

  /** `cmd`: nil for no arguments, otherwise the first argument as the
      program and the rest as its arguments, in a new process group. */
  function Cmd(c: Command): (r: Option<ExecCmd>)
    ensures r == None <==> |c.args| == 0
    ensures r.Some? ==> [r.value.name] + r.value.args == c.args && r.value.ownProcessGroup
    ensures |c.args| == 1 ==> r.Some? && r.value.args == []
  {
    if |c.args| == 0 then None
    else if |c.args| == 1 then Some(ExecCmd(c.args[0], [], true))
    else Some(ExecCmd(c.args[0], c.args[1..], true))
  }

  /** `String`: the command line, the program followed by its arguments
      separated by spaces. Go calls it on the result of `cmd`, so a command
      without arguments dereferences nil. It is empty exactly for a single
      empty argument. */
  function String(c: Command): (s: string)
    requires |c.args| > 0
    ensures s == "" <==> c.args == [""]
  {
    var cmd := Cmd(c).value;
    Join([cmd.name] + cmd.args, ' ')
  }

  /** What the started process does: the error `Start` returns, whether the
      context is done before the process exits (and the error the context
      then reports), the error killing the process group returns, and the
      error waiting returns. */
  datatype Process = Process(start: Option<string>, cancelled: bool, ctxErr: string,
                             kill: Option<string>, wait: Option<string>)

  /** `Execute`: a start failure is returned; an asynchronous command returns
      at once; a synchronous one returns what waiting returns, unless the
      context is done first, in which case the process group is killed and
      the kill's error, or else the context's error, is returned. */
  function Execute(c: Command, p: Process): (err: Option<string>)
    ensures p.start.Some? ==> err == p.start
    ensures p.start == None && c.async ==> err == None
    ensures p.start == None && !c.async && !p.cancelled ==> err == p.wait
    ensures p.start == None && !c.async && p.cancelled ==> err == (if p.kill.Some? then p.kill else Some(p.ctxErr))
  {
    if p.start.Some? then p.start
    else if c.async then None
    else if p.cancelled then (if p.kill.Some? then p.kill else Some(p.ctxErr))
    else p.wait
  }

  /** Whether each command is executed when reached: it has arguments and
      its command line is not empty. Go's loop tests only the command line,
      which for a command without arguments dereferences nil; skipping such
      a command is what the emptiness test evidently intends. */
  function Runnable(cmds: seq<Command>): (r: seq<bool>)
    ensures |r| == |cmds|
  {
    seq(|cmds|, j requires 0 <= j < |cmds| => Runs(cmds[j]))
  }

  /** Whether one command is executed when reached. */
  predicate Runs(c: Command) {
    |c.args| > 0 && String(c) != ""
  }

  /** A command is executed when reached exactly when it has arguments and
      its command line is not empty. */
  lemma RunnableAt(cmds: seq<Command>, j: nat)
    requires j < |cmds|
    ensures Runnable(cmds)[j] <==> |cmds[j].args| > 0 && String(cmds[j]) != ""
    ensures |cmds[j].args| > 0 ==> (Runnable(cmds)[j] <==> cmds[j].args != [""])
  {
  }

  /** Where `Run` stops: the first executed command at or after the one
      whose check sees the context done, or `|cmds|` when there is none. */
  function Stop(cmds: seq<Command>, doneFrom: nat): (stop: nat)
    ensures stop <= |cmds|
  {
    FirstRunnable(Runnable(cmds), doneFrom)
  }

  /** How many commands `Run` goes through: up to and including where it
      stops, or all of them. */
  function Reached(cmds: seq<Command>, doneFrom: nat): (n: nat)
    ensures n <= |cmds|
    ensures Stop(cmds, doneFrom) < |cmds| <==> n == Stop(cmds, doneFrom) + 1
  {
    if Stop(cmds, doneFrom) < |cmds| then Stop(cmds, doneFrom) + 1 else |cmds|
  }

  /** The position of the first command without arguments, or `|cmds|`. */
  function FirstEmpty(cmds: seq<Command>): (e: nat)
    ensures e <= |cmds|
    ensures e < |cmds| ==> |cmds[e].args| == 0
    decreases |cmds|
  {
    if cmds == [] || |cmds[0].args| == 0 then 0 else 1 + FirstEmpty(cmds[1..])
  }

  /** Every command before the first one without arguments has arguments. */
  lemma {:induction false} ArgsBeforeFirstEmpty(cmds: seq<Command>)
    ensures forall j :: 0 <= j < FirstEmpty(cmds) ==> |cmds[j].args| > 0
    decreases |cmds|
  {
    if cmds != [] && |cmds[0].args| > 0 {
      ArgsBeforeFirstEmpty(cmds[1..]);
      assert forall j :: 1 <= j < FirstEmpty(cmds) ==> cmds[j] == cmds[1..][j - 1];
    }
  }

  /** Whether Go's `Run`, as written, panics: it calls `String` on a command
      without arguments, which dereferences the nil `exec.Cmd`, before any
      executed command's check has seen the context done. */
  function RunPanics(cmds: seq<Command>, doneFrom: nat): (b: bool)
    ensures b <==> exists j :: 0 <= j < |cmds| && |cmds[j].args| == 0 && j < Stop(cmds, doneFrom)
  {
    var e := FirstEmpty(cmds);
    if e < |cmds| && e < Stop(cmds, doneFrom) then true
    else
      ArgsBeforeFirstEmpty(cmds);
      false
  }

  /** How Go's `Run` ends: it returns an error or nil, or it panics. */
  datatype RunResult = Returned(err: Option<string>) | Panicked

  class Commander {
    var commands: seq<Command>
    /** Whether the `OnError` and `OnStart` callbacks are set. */
    var onError: bool
    var onStart: bool

    /** `Run`, with commands without arguments skipped. The context is seen
        as done by the check after command `j` exactly when `doneFrom <= j`,
        and then yields `ctxErr`; command `j` runs as `procs(j)` says. Every
        command up to the stopping point with arguments and a non-empty
        command line is executed, with its callback calls; the context's
        error is returned when some executed command is followed by a check
        that sees it done, nil otherwise. */
    method Run(procs: nat -> Process, doneFrom: nat, ctxErr: string) returns (err: Option<string>, calls: seq<Event<Command>>)
      ensures err == if Stop(commands, doneFrom) < |commands| then Some(ctxErr) else None
      ensures calls == Trace(commands,
                             Executed(Runnable(commands), Reached(commands, doneFrom)),
                             procs, Execute, onStart, onError)
    {
      var runnable := Runnable(commands);
      var stopped;
      stopped, calls := RunUntil(commands, runnable, |commands|, doneFrom, procs, Execute, onStart, onError);
      assert Stop(commands, doneFrom) == FirstRunnable(runnable, doneFrom);
      assert Reached(commands, doneFrom) == if stopped then FirstRunnable(runnable, doneFrom) + 1 else |commands|;
      err := if stopped then Some(ctxErr) else None;
    }

    /** `Run` as written: the loop goes through the commands as `Run` does
        until it reaches the first command without arguments, whose `String`
        panics; the callback calls are those of the commands executed
        before it. When it stops earlier, or there is no such command, it
        ends as `Run` does. */
    method RunAsWritten(procs: nat -> Process, doneFrom: nat, ctxErr: string) returns (r: RunResult, calls: seq<Event<Command>>)
      ensures r.Panicked? <==> RunPanics(commands, doneFrom)
      ensures r.Returned? ==> r.err == if Stop(commands, doneFrom) < |commands| then Some(ctxErr) else None
      ensures calls == Trace(commands, Executed(Runnable(commands), ReachedAsWritten(commands, doneFrom)),
                             procs, Execute, onStart, onError)
    {
      var empty := FirstEmpty(commands);
      AsWrittenStops(commands, doneFrom);
      var stopped;
      stopped, calls := RunUntil(commands, Runnable(commands), empty, doneFrom, procs, Execute, onStart, onError);
      if stopped {
        r := Returned(Some(ctxErr));
      } else if empty < |commands| {
        r := Panicked;
      } else {
        r := Returned(None);
      }
    }
  }

  /** How many commands `Run` as written goes through: those `Run` goes
      through, cut short at the first command without arguments. */
  function ReachedAsWritten(cmds: seq<Command>, doneFrom: nat): (n: nat)
    ensures n <= Reached(cmds, doneFrom) && n <= FirstEmpty(cmds)
    ensures n == Reached(cmds, doneFrom) || n == FirstEmpty(cmds)
  {
    if Reached(cmds, doneFrom) <= FirstEmpty(cmds) then Reached(cmds, doneFrom) else FirstEmpty(cmds)
  }

  /** How the loop as written ends, in terms of where `Run` would stop and
      where the first command without arguments is: stopping before that
      command ends as `Run` does; otherwise the loop panics there, or there
      is no such command and it runs to the end. */
  lemma AsWrittenStops(cmds: seq<Command>, doneFrom: nat)
    ensures var stop := FirstRunnable(Runnable(cmds), doneFrom);
            stop == Stop(cmds, doneFrom)
            && (stop < FirstEmpty(cmds) ==> !RunPanics(cmds, doneFrom) && ReachedAsWritten(cmds, doneFrom) == stop + 1)
            && (stop >= FirstEmpty(cmds) ==> (RunPanics(cmds, doneFrom) <==> FirstEmpty(cmds) < |cmds|)
                                             && ReachedAsWritten(cmds, doneFrom) == FirstEmpty(cmds))
  {
    var e := FirstEmpty(cmds);
    if e < |cmds| {
      assert !Runnable(cmds)[e];
    }
  }

  /** The command the Caddyfile directive stores when it has no
      `command_after`: as written, `Run` panics on it however the context
      behaves, where skipping it runs nothing and returns nil. */
  lemma EmptyCommandPanics(doneFrom: nat)
    ensures RunPanics([Command([], false)], doneFrom)
    ensures Stop([Command([], false)], doneFrom) == 1
    ensures Executed(Runnable([Command([], false)]), Reached([Command([], false)], doneFrom)) == []
  {
    assert Stop([Command([], false)], doneFrom) == 1 by {
      assert !Runnable([Command([], false)])[0];
    }
  }

  /** When every command has arguments, `Run` as written never panics, so it
      ends exactly as `Run` does. */
  lemma AsWrittenAgrees(cmds: seq<Command>, doneFrom: nat)
    requires forall j :: 0 <= j < |cmds| ==> |cmds[j].args| > 0
    ensures !RunPanics(cmds, doneFrom)
  {
  }

  /** Where the search for the stopping point starts later, it ends no earlier. */
  lemma {:induction false} FirstRunnableMonotone(runnable: seq<bool>, a: nat, b: nat)
    requires a <= b
    ensures FirstRunnable(runnable, a) <= FirstRunnable(runnable, b)
    decreases b - a
  {
    if a < b && a < |runnable| && !runnable[a] {
      FirstRunnableMonotone(runnable, a + 1, b);
    }
  }

  /** However early the context is done, the first command with a non-empty
      command line is executed. */
  lemma FirstCommandAttempted(cmds: seq<Command>, doneFrom: nat)
    ensures var first := FirstRunnable(Runnable(cmds), 0);
            first < |cmds| ==>
              first in Executed(Runnable(cmds), Reached(cmds, doneFrom))
  {
    var r := Runnable(cmds);
    FirstRunnableMonotone(r, 0, doneFrom);
    ExecutedMembers(r, Reached(cmds, doneFrom));
  }

  /** A context that is never seen done lets `Run` execute every command with
      arguments and a non-empty command line and return nil. */
  lemma NeverDone(cmds: seq<Command>, doneFrom: nat)
    requires doneFrom >= |cmds|
    ensures Stop(cmds, doneFrom) == |cmds|
    ensures forall j :: j in Executed(Runnable(cmds), |cmds|) <==> 0 <= j < |cmds| && |cmds[j].args| > 0 && String(cmds[j]) != ""
  {
    ExecutedMembers(Runnable(cmds), |cmds|);
    forall j | 0 <= j < |cmds| {
      RunnableAt(cmds, j);
    }
  }
}
