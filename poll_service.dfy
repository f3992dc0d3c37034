/** The `services/poll` module: a service that ticks when it starts and
    then once per interval, reporting the context's error when it is done. */
module Poll {
  import opened Wrappers
  import opened Channels
  import opened Durations
  import opened RepositoryInfo

  const MinInterval: int := 5 * Second

  /** The errors sent on the channel. */
  datatype StreamError = NonPositiveInterval | ContextDone(reason: string)

  /** The error `Validate` gives, with the interval it was given. */
  datatype ValidationError = MinimumPollTime(given: int)

  /** What the poll service sends for each ticker firing: nil. */
  function NoError(t: int): Option<StreamError> {
    None
  }

  /** What `Start` sends: for a non-positive interval one error and the
      close; otherwise nil at once, nil per ticker firing, and on
      cancellation the context's error and the close. */
  function PollStream(interval: int, stimuli: seq<Stimulus>, ctxErr: string): (s: seq<Emission<Option<StreamError>>>)
    ensures |s| >= 1 && s[0] == Sent(if interval <= 0 then Some(NonPositiveInterval) else None)
    ensures stimuli == [] ==> |s| <= 2
  {
    if interval <= 0 then [Sent(Some(NonPositiveInterval)), Closed]
    else [Sent(None)] + Stream(stimuli, NoError, Some(Some(ContextDone(ctxErr))))
  }

  /** The poll stream, position by position. A non-positive interval gives
      exactly one error and the close. Otherwise the first value is nil and
      comes before any firing's; every firing before the cancellation sends
      nil; a cancellation sends exactly one value, the context's error, and
      then the close. */
  lemma PollStreamShape(interval: int, stimuli: seq<Stimulus>, ctxErr: string)
    ensures interval <= 0 ==> PollStream(interval, stimuli, ctxErr) == [Sent(Some(NonPositiveInterval)), Closed]
    ensures interval > 0 ==>
              |PollStream(interval, stimuli, ctxErr)| > FirstCancel(stimuli)
              && forall i :: 0 <= i <= FirstCancel(stimuli) ==> PollStream(interval, stimuli, ctxErr)[i] == Sent(None)
    ensures interval > 0 && FirstCancel(stimuli) < |stimuli| ==>
              PollStream(interval, stimuli, ctxErr)[FirstCancel(stimuli) + 1..] == [Sent(Some(ContextDone(ctxErr))), Closed]
    ensures interval > 0 && FirstCancel(stimuli) == |stimuli| ==> |PollStream(interval, stimuli, ctxErr)| == |stimuli| + 1
  {
    if interval > 0 {
      var fin: Option<Option<StreamError>> := Some(Some(ContextDone(ctxErr)));
      StreamShape(stimuli, NoError, fin);
      var s := Stream(stimuli, NoError, fin);
      var p := PollStream(interval, stimuli, ctxErr);
      assert p == [Sent(None)] + s;
      assert forall j :: 1 <= j < |p| ==> p[j] == s[j - 1];
      var k := FirstCancel(stimuli);
      if k < |stimuli| {
        assert p[k + 1..] == s[k..];
      }
    }
  }

  /** The poll stream is closed exactly when the interval is non-positive
      or a cancellation comes, and nothing follows the close. */
  lemma PollStreamCloses(interval: int, stimuli: seq<Stimulus>, ctxErr: string)
    ensures Closed in PollStream(interval, stimuli, ctxErr) <==> interval <= 0 || Cancel in stimuli
    ensures ClosedLast(PollStream(interval, stimuli, ctxErr))
  {
    if interval > 0 {
      var fin: Option<Option<StreamError>> := Some(Some(ContextDone(ctxErr)));
      StreamCloses(stimuli, NoError, fin);
      var s := Stream(stimuli, NoError, fin);
      var p := PollStream(interval, stimuli, ctxErr);
      assert p == [Sent(None)] + s;
      assert forall j :: 1 <= j < |p| ==> p[j] == s[j - 1];
    }
  }

  class Service {
    var interval: int
    var tick: Channel?<Option<StreamError>>

    /** A service as decoded from its JSON configuration, not yet provisioned. */
    constructor (interval: int)
      ensures this.interval == interval && tick == null
    {
      this.interval := interval;
      tick := null;
    }

    /** `Provision`: a non-positive interval becomes an hour, and a fresh
        channel of depth one is made. */
    method Provision() returns (err: Option<string>)
      modifies this
      ensures err == None
      ensures interval == (if old(interval) <= 0 then Hour else old(interval))
      ensures interval > 0
      ensures tick != null && fresh(tick) && tick.capacity == 1 && tick.log == [] && !tick.closed
    {
      if interval <= 0 {
        interval := Hour;
      }
      tick := new Channel.Make(1);
      return None;
    }

    /** `Validate`: an interval under five seconds is refused; five seconds
        and more pass. */
    function Validate(): (err: Option<ValidationError>)
      reads this
      ensures err == None <==> interval >= MinInterval
      ensures err.Some? ==> err.value.given == interval
    {
      if interval < MinInterval then Some(MinimumPollTime(interval)) else None
    }

    /** `ConfigureRepo`: nothing to configure. */
    method ConfigureRepo(info: RepositoryInfo) returns (err: Option<string>)
      ensures err == None
    {
      return None;
    }

    /** `Start`: returns the service's channel, on which the goroutine (or,
        for a non-positive interval, `Start` itself) sends the poll stream. */
    method Start(stimuli: seq<Stimulus>, ctxErr: string) returns (ch: Channel<Option<StreamError>>)
      requires tick != null && !tick.closed
      modifies tick
      ensures ch == tick
      ensures tick.log == old(tick.log) + PollStream(interval, stimuli, ctxErr)
      ensures tick.closed <==> interval <= 0 || Cancel in stimuli
    {
      ch := tick;
      if interval <= 0 {
        ch.Send(Some(NonPositiveInterval));
        ch.Close();
        return;
      }
      ch.Send(None);
      Pump(ch, stimuli, NoError, Some(Some(ContextDone(ctxErr))));
    }
  }
}
