/** What a best-effort command loop does, independent of the command type:
    which commands it executes, and the callback calls it makes for them. */
module CommandRuns {
  import opened Wrappers

  /** A callback call: `OnStart` with the command, or `OnError` with the error. */
  datatype Event<C> = Started(command: C) | Failed(error: string)

  /** The indices below `stop` whose command is executed, in increasing order. */
  function Executed(runnable: seq<bool>, stop: nat): (idx: seq<nat>)
    requires stop <= |runnable|
    ensures forall k :: 0 <= k < |idx| ==> idx[k] < stop
    decreases stop
  {
    if stop == 0 then []
    else Executed(runnable, stop - 1) + (if runnable[stop - 1] then [stop - 1] else [])
  }

  /** The executed indices are exactly the runnable ones below `stop`, each
      once and in increasing order. */
  lemma {:induction false} ExecutedMembers(runnable: seq<bool>, stop: nat)
    requires stop <= |runnable|
    ensures forall j :: j in Executed(runnable, stop) <==> 0 <= j < stop && runnable[j]
    ensures forall a, b :: 0 <= a < b < |Executed(runnable, stop)| ==> Executed(runnable, stop)[a] < Executed(runnable, stop)[b]
    decreases stop
  {
    if stop > 0 {
      ExecutedMembers(runnable, stop - 1);
    }
  }

  /** The first executed index at or after `from`, or `|runnable|` when there is none. */
  function FirstRunnable(runnable: seq<bool>, from: nat): (j: nat)
    ensures j <= |runnable|
    ensures j < |runnable| ==> from <= j && runnable[j]
    ensures forall k :: from <= k < j ==> !runnable[k]
    decreases |runnable| - from
  {
    if from >= |runnable| then |runnable|
    else if runnable[from] then from
    else FirstRunnable(runnable, from + 1)
  }

  /** Stepping past command `i` in a loop that has not yet reached the first
      executed command from `from`: either `i` is that command, or the loop
      has still not reached it. */
  lemma FirstRunnableStep(runnable: seq<bool>, from: nat, i: nat)
    requires i < |runnable| && FirstRunnable(runnable, from) >= i
    ensures runnable[i] && from <= i ==> FirstRunnable(runnable, from) == i
    ensures !(runnable[i] && from <= i) ==> FirstRunnable(runnable, from) >= i + 1
  {
  }

  /** The callback calls for one executed command: `OnStart` before it runs,
      `OnError` once if it fails; a nil callback is not called. */
  function CallsFor<C>(command: C, result: Option<string>, onStart: bool, onError: bool): seq<Event<C>> {
    (if onStart then [Started(command)] else []) + (if onError && result.Some? then [Failed(result.value)] else [])
  }

  /** The callback calls for the commands at `idx`, one command after another;
      command `j` runs as `exec(cmds[j], procs(j))` says. */
  function Trace<C, P>(cmds: seq<C>, idx: seq<nat>, procs: nat -> P, exec: (C, P) -> Option<string>,
                       onStart: bool, onError: bool): seq<Event<C>>
    requires forall k :: 0 <= k < |idx| ==> idx[k] < |cmds|
    decreases |idx|
  {
    if idx == [] then []
    else
      var j := idx[|idx| - 1];
      Trace(cmds, idx[..|idx| - 1], procs, exec, onStart, onError)
        + CallsFor(cmds[j], exec(cmds[j], procs(j)), onStart, onError)
  }

  /** The trace grows by one command's calls when one more command runs. */
  lemma TraceStep<C, P>(cmds: seq<C>, idx: seq<nat>, j: nat, procs: nat -> P, exec: (C, P) -> Option<string>,
                        onStart: bool, onError: bool)
    requires forall k :: 0 <= k < |idx| ==> idx[k] < |cmds|
    requires j < |cmds|
    ensures Trace(cmds, idx + [j], procs, exec, onStart, onError)
            == Trace(cmds, idx, procs, exec, onStart, onError) + CallsFor(cmds[j], exec(cmds[j], procs(j)), onStart, onError)
  {
    assert (idx + [j])[..|idx|] == idx;
  }

  /** One step of a run loop: index `i` adds its command's calls when it is
      executed, and nothing otherwise. */
  lemma TraceAdvance<C, P>(cmds: seq<C>, runnable: seq<bool>, i: nat, procs: nat -> P, exec: (C, P) -> Option<string>,
                           onStart: bool, onError: bool)
    requires |runnable| == |cmds| && i < |cmds|
    ensures Trace(cmds, Executed(runnable, i + 1), procs, exec, onStart, onError)
            == Trace(cmds, Executed(runnable, i), procs, exec, onStart, onError)
               + (if runnable[i] then CallsFor(cmds[i], exec(cmds[i], procs(i)), onStart, onError) else [])
  {
    if runnable[i] {
      assert Executed(runnable, i + 1) == Executed(runnable, i) + [i];
      TraceStep(cmds, Executed(runnable, i), i, procs, exec, onStart, onError);
    } else {
      assert Executed(runnable, i + 1) == Executed(runnable, i);
    }
  }

  /** The callbacks around one executed command, in the order they are
      called: `OnStart` if set, then `OnError` if set and the command failed. */
  method Callbacks<C>(command: C, result: Option<string>, onStart: bool, onError: bool) returns (events: seq<Event<C>>)
    ensures events == CallsFor(command, result, onStart, onError)
  {
    events := [];
    if onStart {
      events := events + [Started(command)];
    }
    if result.Some? && onError {
      events := events + [Failed(result.value)];
    }
  }

  /** The body of a run loop for command `i`: a command that is not
      executed adds nothing; an executed one runs as `exec` says, between
      its callback calls. */
  method RunAt<C, P>(cmds: seq<C>, runnable: seq<bool>, i: nat, procs: nat -> P, exec: (C, P) -> Option<string>,
                     onStart: bool, onError: bool, calls: seq<Event<C>>) returns (calls': seq<Event<C>>)
    requires |runnable| == |cmds| && i < |cmds|
    requires calls == Trace(cmds, Executed(runnable, i), procs, exec, onStart, onError)
    ensures calls' == Trace(cmds, Executed(runnable, i + 1), procs, exec, onStart, onError)
  {
    TraceAdvance(cmds, runnable, i, procs, exec, onStart, onError);
    if !runnable[i] {
      return calls;
    }
    var result := exec(cmds[i], procs(i));
    var events := Callbacks(cmds[i], result, onStart, onError);
    calls' := calls + events;
  }

  /** One pass of a loop that checks the context after each executed
      command: command `i` runs if it is executed, and the loop stops there
      exactly when `i` is the first executed command at or after `from`. */
  method StepAt<C, P>(cmds: seq<C>, runnable: seq<bool>, i: nat, from: nat, procs: nat -> P, exec: (C, P) -> Option<string>,
                      onStart: bool, onError: bool, calls: seq<Event<C>>) returns (calls': seq<Event<C>>, stop: bool)
    requires |runnable| == |cmds| && i < |cmds| && FirstRunnable(runnable, from) >= i
    requires calls == Trace(cmds, Executed(runnable, i), procs, exec, onStart, onError)
    ensures calls' == Trace(cmds, Executed(runnable, i + 1), procs, exec, onStart, onError)
    ensures stop <==> FirstRunnable(runnable, from) == i
    ensures !stop ==> FirstRunnable(runnable, from) >= i + 1
  {
    calls' := RunAt(cmds, runnable, i, procs, exec, onStart, onError, calls);
    FirstRunnableStep(runnable, from, i);
    stop := runnable[i] && from <= i;
  }

  /** A loop that checks the context after each executed command, run over
      the commands before `halt`: it stops after the first executed command
      at or after `from`, if that comes before `halt`, and otherwise goes
      through every command before `halt`. */
  method RunUntil<C, P>(cmds: seq<C>, runnable: seq<bool>, halt: nat, from: nat, procs: nat -> P,
                        exec: (C, P) -> Option<string>, onStart: bool, onError: bool)
    returns (stopped: bool, calls: seq<Event<C>>)
    requires |runnable| == |cmds| && halt <= |cmds|
    ensures stopped <==> FirstRunnable(runnable, from) < halt
    ensures calls == Trace(cmds, Executed(runnable, if stopped then FirstRunnable(runnable, from) + 1 else halt),
                           procs, exec, onStart, onError)
  {
    calls := [];
    stopped := false;
    var i := 0;
    while i < halt && !stopped
      invariant 0 <= i <= halt
      invariant !stopped ==> FirstRunnable(runnable, from) >= i
      invariant stopped ==> 1 <= i && FirstRunnable(runnable, from) == i - 1
      invariant calls == Trace(cmds, Executed(runnable, i), procs, exec, onStart, onError)
    {
      calls, stopped := StepAt(cmds, runnable, i, from, procs, exec, onStart, onError, calls);
      i := i + 1;
    }
  }

  /** The commands `OnStart` is called with. */
  function Starts<C>(events: seq<Event<C>>): seq<C>
    decreases |events|
  {
    if events == [] then []
    else Starts(events[..|events| - 1])
         + (if events[|events| - 1].Started? then [events[|events| - 1].command] else [])
  }

  /** How many calls `OnError` receives. */
  function Failures<C>(events: seq<Event<C>>): nat
    decreases |events|
  {
    if events == [] then 0
    else Failures(events[..|events| - 1]) + (if events[|events| - 1].Failed? then 1 else 0)
  }

  lemma {:induction false} StartsAppend<C>(a: seq<Event<C>>, b: seq<Event<C>>)
    ensures Starts(a + b) == Starts(a) + Starts(b)
    ensures Failures(a + b) == Failures(a) + Failures(b)
    decreases |b|
  {
    if b == [] {
      assert a + b == a;
    } else {
      var b' := b[..|b| - 1];
      assert (a + b)[..|a + b| - 1] == a + b';
      StartsAppend(a, b');
    }
  }

  /** How many of the commands at `idx` fail. */
  function Failing<C, P>(cmds: seq<C>, idx: seq<nat>, procs: nat -> P, exec: (C, P) -> Option<string>): nat
    requires forall k :: 0 <= k < |idx| ==> idx[k] < |cmds|
    decreases |idx|
  {
    if idx == [] then 0
    else
      var j := idx[|idx| - 1];
      Failing(cmds, idx[..|idx| - 1], procs, exec) + (if exec(cmds[j], procs(j)).Some? then 1 else 0)
  }

  /** One command's calls: `OnStart` once if set, `OnError` once if set and the command fails. */
  lemma CallsForCounts<C>(command: C, result: Option<string>, onStart: bool, onError: bool)
    ensures Starts(CallsFor(command, result, onStart, onError)) == if onStart then [command] else []
    ensures Failures(CallsFor(command, result, onStart, onError)) == if onError && result.Some? then 1 else 0
  {
    var s: seq<Event<C>> := if onStart then [Started(command)] else [];
    var f: seq<Event<C>> := if onError && result.Some? then [Failed(result.value)] else [];
    StartsAppend(s, f);
    if s != [] {
      assert s[..0] == [];
    }
    if f != [] {
      assert f[..0] == [];
    }
  }

  /** The commands at `idx`, in order. */
  function At<C>(cmds: seq<C>, idx: seq<nat>): (r: seq<C>)
    requires forall k :: 0 <= k < |idx| ==> idx[k] < |cmds|
    ensures |r| == |idx| && forall k :: 0 <= k < |idx| ==> r[k] == cmds[idx[k]]
  {
    seq(|idx|, k requires 0 <= k < |idx| => cmds[idx[k]])
  }

  /** With `OnStart` set, it is called once per executed command, in the
      order they run, and never otherwise. */
  lemma {:induction false} TraceStarts<C, P>(cmds: seq<C>, idx: seq<nat>, procs: nat -> P, exec: (C, P) -> Option<string>,
                                            onStart: bool, onError: bool)
    requires forall k :: 0 <= k < |idx| ==> idx[k] < |cmds|
    ensures Starts(Trace(cmds, idx, procs, exec, onStart, onError)) == if onStart then At(cmds, idx) else []
    decreases |idx|
  {
    if idx != [] {
      var init := idx[..|idx| - 1];
      var j := idx[|idx| - 1];
      TraceStarts(cmds, init, procs, exec, onStart, onError);
      StartsStep(cmds, idx, procs, exec, onStart, onError);
      AtStep(cmds, idx);
    }
  }

  lemma StartsStep<C, P>(cmds: seq<C>, idx: seq<nat>, procs: nat -> P, exec: (C, P) -> Option<string>,
                         onStart: bool, onError: bool)
    requires forall k :: 0 <= k < |idx| ==> idx[k] < |cmds|
    requires idx != []
    ensures Starts(Trace(cmds, idx, procs, exec, onStart, onError))
            == Starts(Trace(cmds, idx[..|idx| - 1], procs, exec, onStart, onError))
               + (if onStart then [cmds[idx[|idx| - 1]]] else [])
  {
    var j := idx[|idx| - 1];
    StartsAppend(Trace(cmds, idx[..|idx| - 1], procs, exec, onStart, onError), CallsFor(cmds[j], exec(cmds[j], procs(j)), onStart, onError));
    CallsForCounts(cmds[j], exec(cmds[j], procs(j)), onStart, onError);
  }

  lemma AtStep<C>(cmds: seq<C>, idx: seq<nat>)
    requires forall k :: 0 <= k < |idx| ==> idx[k] < |cmds|
    requires idx != []
    ensures At(cmds, idx) == At(cmds, idx[..|idx| - 1]) + [cmds[idx[|idx| - 1]]]
  {
  }

  /** With `OnError` set, it is called exactly once per failing executed
      command, and never otherwise; no failure keeps later commands from
      running. */
  lemma {:induction false} TraceFailures<C, P>(cmds: seq<C>, idx: seq<nat>, procs: nat -> P, exec: (C, P) -> Option<string>,
                                              onStart: bool, onError: bool)
    requires forall k :: 0 <= k < |idx| ==> idx[k] < |cmds|
    ensures Failures(Trace(cmds, idx, procs, exec, onStart, onError)) == if onError then Failing(cmds, idx, procs, exec) else 0
    decreases |idx|
  {
    if idx != [] {
      var init := idx[..|idx| - 1];
      var j := idx[|idx| - 1];
      TraceFailures(cmds, init, procs, exec, onStart, onError);
      StartsAppend(Trace(cmds, init, procs, exec, onStart, onError), CallsFor(cmds[j], exec(cmds[j], procs(j)), onStart, onError));
      CallsForCounts(cmds[j], exec(cmds[j], procs(j)), onStart, onError);
    }
  }
}
