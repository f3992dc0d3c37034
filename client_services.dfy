/** The `client` package's poll service: unlike the module version, every
    `Start` makes a channel of its own, so the stream it sends is the whole
    content of that channel. */
module ClientServices {
  import opened Wrappers
  import opened Channels
  import Poll

  /** `PollService`: only the interval; starting it changes nothing in it. */
  datatype PollService = PollService(interval: int)

  /** `PollService.Start`: a fresh channel of depth one carrying exactly the
      poll stream, closed exactly when the interval is non-positive or a
      cancellation comes. */
  method Start(ps: PollService, stimuli: seq<Stimulus>, ctxErr: string)
    returns (tick: Channel<Option<Poll.StreamError>>)
    ensures fresh(tick) && tick.capacity == 1
    ensures tick.log == Poll.PollStream(ps.interval, stimuli, ctxErr)
    ensures tick.closed <==> ps.interval <= 0 || Cancel in stimuli
  {
    tick := new Channel.Make(1);
    if ps.interval <= 0 {
      tick.Send(Some(Poll.NonPositiveInterval));
      tick.Close();
      return;
    }
    tick.Send(None);
    Pump(tick, stimuli, Poll.NoError, Some(Some(Poll.ContextDone(ctxErr))));
  }
}
