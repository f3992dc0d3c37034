/** Channels as the trigger services use them: what is sent on a channel, in
    order, and whether it was closed; and the stream a ticking service emits
    for a sequence of stimuli, ticker firings and a cancellation of its
    context, in the order its `select` takes them. */
module Channels {
  import opened Wrappers

  /** One thing that happens on a channel: a value sent, or the close. */
  datatype Emission<T> = Sent(value: T) | Closed

  /** What a service's loop reacts to: the ticker firing at a time, or the
      context being done. */
  datatype Stimulus = Tick(time: int) | Cancel

  /** A channel, as the history of what was sent on it. Sending on or
      closing a closed channel panics in Go, hence the preconditions. */
  class Channel<T> {
    /** The buffer depth `make` was given. */
    const capacity: nat
    var log: seq<Emission<T>>
    var closed: bool

    constructor Make(capacity: nat)
      ensures this.capacity == capacity && log == [] && !closed
    {
      this.capacity := capacity;
      log := [];
      closed := false;
    }

    method Send(v: T)
      requires !closed
      modifies this
      ensures log == old(log) + [Sent(v)] && !closed
    {
      log := log + [Sent(v)];
    }

    method Close()
      requires !closed
      modifies this
      ensures log == old(log) + [Closed] && closed
    {
      log := log + [Closed];
      closed := true;
    }
  }

  /** A stream is closed at most once, and nothing follows the close. */
  predicate ClosedLast<T>(log: seq<Emission<T>>) {
    forall k :: 0 <= k < |log| - 1 ==> log[k].Sent?
  }

  /** The position of the first cancellation, `|stimuli|` when there is none. */
  function FirstCancel(stimuli: seq<Stimulus>): (k: nat)
    ensures k <= |stimuli|
    ensures k < |stimuli| ==> stimuli[k] == Cancel
    ensures forall i :: 0 <= i < k ==> stimuli[i].Tick?
    ensures k == |stimuli| <==> Cancel !in stimuli
    decreases |stimuli|
  {
    if stimuli == [] then 0
    else if stimuli[0] == Cancel then 0
    else
      var k := FirstCancel(stimuli[1..]);
      assert forall i :: 1 <= i < |stimuli| ==> stimuli[1..][i - 1] == stimuli[i];
      k + 1
  }

  /** What a cancellation leaves on the channel: the final value, if there
      is one, then the close. */
  function Finish<T>(final: Option<T>): (r: seq<Emission<T>>)
    ensures |r| >= 1 && r[|r| - 1] == Closed
    ensures final.Some? ==> r == [Sent(final.value), Closed]
    ensures final.None? ==> r == [Closed]
  {
    (if final.Some? then [Sent(final.value)] else []) + [Closed]
  }

  /** The loop of a ticking service's goroutine: each ticker firing sends
      `onTick` of its time; a cancellation sends the final value (if any)
      and closes the channel, and the goroutine returns. Stimuli after that
      are never seen; a stream whose stimuli run out is still open. */
  function Stream<T>(stimuli: seq<Stimulus>, onTick: int -> T, final: Option<T>): (s: seq<Emission<T>>)
    ensures s != [] ==> stimuli != []
    decreases |stimuli|
  {
    if stimuli == [] then []
    else match stimuli[0]
      case Tick(t) => [Sent(onTick(t))] + Stream(stimuli[1..], onTick, final)
      case Cancel => Finish(final)
  }

  /** The stream, position by position: one value per ticker firing before
      the first cancellation, then, if there is one, the final value and the close. */
  lemma {:induction false} StreamShape<T>(stimuli: seq<Stimulus>, onTick: int -> T, final: Option<T>)
    ensures var k := FirstCancel(stimuli);
            |Stream(stimuli, onTick, final)| == k + (if k < |stimuli| then |Finish(final)| else 0)
    ensures forall i :: 0 <= i < FirstCancel(stimuli) ==>
              Stream(stimuli, onTick, final)[i] == Sent(onTick(stimuli[i].time))
    ensures FirstCancel(stimuli) < |stimuli| ==>
              Stream(stimuli, onTick, final)[FirstCancel(stimuli)..] == Finish(final)
    decreases |stimuli|
  {
    if stimuli != [] && stimuli[0].Tick? {
      var rest := stimuli[1..];
      StreamShape(rest, onTick, final);
      assert forall i :: 1 <= i < |stimuli| ==> rest[i - 1] == stimuli[i];
      assert FirstCancel(stimuli) == FirstCancel(rest) + 1;
      var s := Stream(stimuli, onTick, final);
      assert s == [Sent(onTick(stimuli[0].time))] + Stream(rest, onTick, final);
      if FirstCancel(stimuli) < |stimuli| {
        assert s[FirstCancel(stimuli)..] == Stream(rest, onTick, final)[FirstCancel(rest)..];
      }
    }
  }

  /** The stream is closed exactly when a cancellation comes, and nothing
      is emitted after the close. */
  lemma StreamCloses<T>(stimuli: seq<Stimulus>, onTick: int -> T, final: Option<T>)
    ensures Closed in Stream(stimuli, onTick, final) <==> Cancel in stimuli
    ensures ClosedLast(Stream(stimuli, onTick, final))
  {
    StreamShape(stimuli, onTick, final);
    var s := Stream(stimuli, onTick, final);
    var k := FirstCancel(stimuli);
    if k < |stimuli| {
      assert s[k..] == Finish(final);
      assert s[|s| - 1] == s[k..][|s| - 1 - k];
      forall j | 0 <= j < |s| - 1
        ensures s[j].Sent?
      {
        if j >= k {
          assert s[j] == s[k..][j - k];
        }
      }
    }
  }

  /** The goroutine's loop, sending on `ch`: what it adds to the channel is
      exactly the stream, and it closes the channel exactly when a
      cancellation comes. */
  method Pump<T>(ch: Channel<T>, stimuli: seq<Stimulus>, onTick: int -> T, final: Option<T>)
    requires !ch.closed
    modifies ch
    ensures ch.log == old(ch.log) + Stream(stimuli, onTick, final)
    ensures ch.closed <==> Cancel in stimuli
  {
    var i := 0;
    while i < |stimuli|
      invariant 0 <= i <= |stimuli|
      invariant !ch.closed
      invariant forall j :: 0 <= j < i ==> stimuli[j].Tick?
      invariant ch.log + Stream(stimuli[i..], onTick, final) == old(ch.log) + Stream(stimuli, onTick, final)
    {
      match stimuli[i]
      case Tick(t) =>
        assert stimuli[i..][1..] == stimuli[i + 1..];
        ch.Send(onTick(t));
        i := i + 1;
      case Cancel =>
        if final.Some? {
          ch.Send(final.value);
        }
        ch.Close();
        return;
    }
  }
}
