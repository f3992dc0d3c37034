/** The `service` package: the service type read from JSON, the dispatch
    that creates a service, and the time service, which ticks once when it
    starts and then once per interval until its context is done. */
module ServicePkg {
  import opened Wrappers
  import opened Channels
  import opened Durations

  /** `Type` is an integer; its zero value is the time service. */
  type ServiceType = int
  const TimeServiceType: ServiceType := 0
  const WebhookServiceType: ServiceType := 1

  datatype ServiceError = ErrInvalidService | ErrNoRunTimeService

  /** The raw JSON texts that name each type. Matching is exact, so case
      and quoting matter. */
  const TimeLiterals: set<string> := {"", "\"\"", "0", "\"0\"", "\"time\"", "\"time_service\""}
  const WebhookLiterals: set<string> := {"1", "\"1\"", "\"webhook\"", "\"webhook_service\""}

  /** The service type a raw JSON value names, or the error `UnmarshalJSON` gives. */
  function ParseType(b: string): (r: Result<ServiceType, string>)
    ensures r == Ok(TimeServiceType) <==> b in TimeLiterals
    ensures r == Ok(WebhookServiceType) <==> b in WebhookLiterals
    ensures r.Err? <==> b !in TimeLiterals && b !in WebhookLiterals
    ensures r.Err? ==> r.error == "invalid service type: " + b
  {
    if b == "" || b == "\"\"" || b == "0" || b == "\"0\"" || b == "\"time\"" || b == "\"time_service\"" then
      Ok(TimeServiceType)
    else if b == "1" || b == "\"1\"" || b == "\"webhook\"" || b == "\"webhook_service\"" then
      Ok(WebhookServiceType)
    else
      Err("invalid service type: " + b)
  }

  /** No text names both types, and spellings other than the listed ones
      are refused. */
  lemma ParseTypeExact()
    ensures TimeLiterals !! WebhookLiterals
    ensures ParseType("time").Err? && ParseType("\"Time\"").Err? && ParseType("\"webhook \"").Err?
  {
  }

  /** `NewTimeService`'s interval: a non-positive one becomes an hour. */
  function TimeInterval(interval: int): (r: int)
    ensures r > 0
    ensures interval > 0 ==> r == interval
    ensures interval <= 0 ==> r == Hour
  {
    if interval <= 0 then Hour else interval
  }

  /** `Opts`, as decoded from JSON: the type and the interval. */
  class Opts {
    var serviceType: ServiceType
    var interval: int

    /** The zero value: a time service with no interval. */
    constructor Zero()
      ensures serviceType == TimeServiceType && interval == 0
    {
      serviceType := 0;
      interval := 0;
    }

    /** `Type.UnmarshalJSON`, writing the type field: a recognised text sets
        it; anything else is an error and leaves it as it was. */
    method UnmarshalType(b: string) returns (err: Option<string>)
      modifies this
      ensures ParseType(b).Ok? ==> err == None && serviceType == ParseType(b).value
      ensures ParseType(b).Err? ==> err == Some(ParseType(b).error) && serviceType == old(serviceType)
      ensures interval == old(interval)
    {
      var r := ParseType(b);
      if r.Err? {
        return Some(r.error);
      }
      serviceType := r.value;
      return None;
    }
  }

  /** `New`: the time type creates a time service; the webhook type gives
      neither a service nor an error; any other value is an error. */
  method New(opts: Opts) returns (svc: TimeService?, err: Option<ServiceError>)
    ensures opts.serviceType == TimeServiceType ==>
              err == None && svc != null && fresh(svc) && fresh(svc.tick)
              && svc.interval == TimeInterval(opts.interval) && svc.tick.log == [] && !svc.tick.closed
    ensures opts.serviceType == WebhookServiceType ==> svc == null && err == None
    ensures opts.serviceType !in {TimeServiceType, WebhookServiceType} ==> svc == null && err == Some(ErrInvalidService)
  {
    if opts.serviceType == TimeServiceType {
      svc := new TimeService.NewTimeService(opts);
      return svc, None;
    } else if opts.serviceType == WebhookServiceType {
      return null, None;
    }
    return null, Some(ErrInvalidService);
  }

  /** What the time service sends for each ticker firing: its time. */
  function TickTime(t: int): int {
    t
  }

  /** What `start` sends: the time it starts, then one time per ticker
      firing; cancellation closes the channel without a final value. */
  function TimeStream(now: int, stimuli: seq<Stimulus>): (s: seq<Emission<int>>)
    ensures |s| >= 1 && s[0] == Sent(now)
    ensures stimuli == [] ==> s == [Sent(now)]
  {
    [Sent(now)] + Stream(stimuli, TickTime, None)
  }

  /** The time stream, position by position: `now` first, then the time of
      each firing before the first cancellation, then (if one comes) the
      close and nothing else. */
  lemma TimeStreamShape(now: int, stimuli: seq<Stimulus>)
    ensures |TimeStream(now, stimuli)| > FirstCancel(stimuli) && TimeStream(now, stimuli)[0] == Sent(now)
    ensures forall i :: 0 <= i < FirstCancel(stimuli) ==> TimeStream(now, stimuli)[i + 1] == Sent(stimuli[i].time)
    ensures FirstCancel(stimuli) < |stimuli| ==>
              |TimeStream(now, stimuli)| == FirstCancel(stimuli) + 2
              && TimeStream(now, stimuli)[FirstCancel(stimuli) + 1] == Closed
    ensures FirstCancel(stimuli) == |stimuli| ==> |TimeStream(now, stimuli)| == |stimuli| + 1
    ensures Closed in TimeStream(now, stimuli) <==> Cancel in stimuli
    ensures ClosedLast(TimeStream(now, stimuli))
  {
    StreamShape(stimuli, TickTime, None);
    StreamCloses(stimuli, TickTime, None);
    var s := Stream(stimuli, TickTime, None);
    var k := FirstCancel(stimuli);
    if k < |stimuli| {
      assert s[k..] == [Closed];
      assert s[k] == s[k..][0];
    }
    assert forall j :: 1 <= j < |TimeStream(now, stimuli)| ==> TimeStream(now, stimuli)[j] == s[j - 1];
  }

  class TimeService {
    /** Exported, so a caller may change it after construction. */
    var interval: int
    const tick: Channel<int>

    /** `NewTimeService`: the interval defaulted, and a channel of depth one. */
    constructor NewTimeService(opts: Opts)
      ensures interval == TimeInterval(opts.interval)
      ensures fresh(tick) && tick.capacity == 1 && tick.log == [] && !tick.closed
    {
      interval := TimeInterval(opts.interval);
      tick := new Channel.Make(1);
    }

    /** `Start`: fails exactly for a non-positive interval, sending nothing;
        otherwise the goroutine's whole run over `stimuli` is what follows,
        with `now` the time it starts. */
    method Start(now: int, stimuli: seq<Stimulus>) returns (err: Option<ServiceError>)
      requires !tick.closed
      modifies tick
      ensures interval <= 0 ==> err == Some(ErrNoRunTimeService) && tick.log == old(tick.log) && !tick.closed
      ensures interval > 0 ==> err == None && tick.log == old(tick.log) + TimeStream(now, stimuli)
                               && (tick.closed <==> Cancel in stimuli)
    {
      if interval <= 0 {
        return Some(ErrNoRunTimeService);
      }
      Run(now, stimuli);
      return None;
    }

    /** `start`, the goroutine: the starting time, then the ticker loop. */
    method Run(now: int, stimuli: seq<Stimulus>)
      requires !tick.closed
      modifies tick
      ensures tick.log == old(tick.log) + TimeStream(now, stimuli)
      ensures tick.closed <==> Cancel in stimuli
    {
      tick.Send(now);
      Pump(tick, stimuli, TickTime, None);
    }

    /** `Tick`: the service's one channel, the same on every call. */
    function Tick(): (c: Channel<int>)
      ensures c == tick
    {
      tick
    }
  }
}
