/** The webhook service (`services/webhook/service.go`): an HTTP endpoint
    that relays each request to the configured hook and sends the result on
    its channel, and that sends one last value and closes the channel when
    the server stops. */
module WebhookService {
  import opened Wrappers
  import opened Strings
  import opened Git
  import opened Channels
  import opened RepositoryInfo
  import opened Webhook
  import GenericWebhook
  import GitHubWebhook

  /** The hook modules a configuration can load. */
  datatype HookKind = GenericHook | GitHubHook

  /** The errors sent on the channel: a hook's refusal, carrying its status,
      or the server's own error. */
  datatype ServeError = HandlerError(status: int, cause: string) | ServerError(reason: string)

  /** The handler `Start` installs: every request, or a mux with the one
      pattern `Path`. */
  datatype Handler = AllRequests | Mux(pattern: string)

  /** What the server sees: a request (with its URL path); the context being
      done, with what `Shutdown` and then `Close` return; or
      `ListenAndServe` failing. */
  datatype ServerEvent =
    | Incoming(req: Request, urlPath: string)
    | Cancelled(shutdownErr: Option<string>, closeErr: Option<string>)
    | ListenFailed(reason: string)

  const DefaultHookRaw: string := "{\"type\": \"generic\"}"

  /** `Handle` of the hook of the given kind. */
  function HandleWith(kind: HookKind, req: Request, hc: HookConf, codec: Codec): Reply {
    match kind
    case GenericHook => GenericWebhook.Handle(req, hc, codec)
    case GitHubHook => GitHubWebhook.Handle(req, hc, codec)
  }

  /** `ServeHTTP` given the hook and the configuration it is handed: a refusal
      writes the hook's status and returns an error carrying the same status;
      otherwise the result of `next` is returned. The status written, if any,
      comes first. */
  function Relay(kind: HookKind, hc: HookConf, req: Request, codec: Codec, next: Option<ServeError>): (r: (Option<int>, Option<ServeError>))
    ensures HandleWith(kind, req, hc, codec).err.Some? ==>
              r.0 == Some(HandleWith(kind, req, hc, codec).status)
              && r.1 == Some(HandlerError(HandleWith(kind, req, hc, codec).status, HandleWith(kind, req, hc, codec).err.value))
    ensures HandleWith(kind, req, hc, codec).err.None? ==> r == (None, next)
  {
    var reply := HandleWith(kind, req, hc, codec);
    if reply.err.Some? then (Some(reply.status), Some(HandlerError(reply.status, reply.err.value)))
    else (None, next)
  }

  /** Whether the handler passes a request on: always, or for a mux when its
      pattern matches the URL path (`matches` is `ServeMux`'s matching, not
      part of this model; a request it does not match gets a 404 from the mux). */
  predicate Routed(handler: Handler, urlPath: string, matches: (string, string) -> bool) {
    handler.AllRequests? || matches(handler.pattern, urlPath)
  }

  /** What `ServeHTTP` returns for each request the server hands it, with
      a `next` that does nothing and returns nil. */
  function Serve(kind: HookKind, hc: HookConf, codec: Codec): Request -> Option<ServeError> {
    req => Relay(kind, hc, req, codec, None).1
  }

  /** What the server run sends: each routed request the `ServeHTTP` result
      (its `next` does nothing and returns nil); on cancellation nil after a
      clean shutdown, else what `Close` returns; on a listener failure its
      error; and after either of those the close, after which nothing is seen. */
  function ServerStream(serve: Request -> Option<ServeError>, handler: Handler, events: seq<ServerEvent>,
                        matches: (string, string) -> bool): (s: seq<Emission<Option<ServeError>>>)
    ensures |s| <= |events| + 1
    decreases |events|
  {
    if events == [] then []
    else match events[0]
      case Incoming(req, urlPath) =>
        (if Routed(handler, urlPath, matches) then [Sent(serve(req))] else [])
        + ServerStream(serve, handler, events[1..], matches)
      case Cancelled(shutdownErr, closeErr) =>
        [Sent(if shutdownErr.Some? then (if closeErr.Some? then Some(ServerError(closeErr.value)) else None) else None), Closed]
      case ListenFailed(reason) =>
        [Sent(Some(ServerError(reason))), Closed]
  }

  /** Whether the server stops at this event. */
  predicate Stops(e: ServerEvent) {
    !e.Incoming?
  }

  /** The position of the first event that stops the server, or `|events|`. */
  function FirstStop(events: seq<ServerEvent>): (k: nat)
    ensures k <= |events|
    ensures k < |events| ==> Stops(events[k])
    ensures forall i :: 0 <= i < k ==> !Stops(events[i])
    decreases |events|
  {
    if events == [] || Stops(events[0]) then 0
    else
      var k := FirstStop(events[1..]);
      assert forall i :: 1 <= i < |events| ==> events[1..][i - 1] == events[i];
      k + 1
  }

  /** How many of the events are requests the handler passes on. */
  function RoutedCount(handler: Handler, events: seq<ServerEvent>, matches: (string, string) -> bool): nat
    decreases |events|
  {
    if events == [] then 0
    else RoutedCount(handler, events[..|events| - 1], matches)
         + (if events[|events| - 1].Incoming? && Routed(handler, events[|events| - 1].urlPath, matches) then 1 else 0)
  }

  lemma {:induction false} RoutedCountFront(handler: Handler, events: seq<ServerEvent>, matches: (string, string) -> bool)
    requires events != []
    ensures RoutedCount(handler, events, matches)
            == (if events[0].Incoming? && Routed(handler, events[0].urlPath, matches) then 1 else 0)
               + RoutedCount(handler, events[1..], matches)
    decreases |events|
  {
    if |events| > 1 {
      var init := events[..|events| - 1];
      RoutedCountFront(handler, init, matches);
      assert init[1..] == events[1..][..|events[1..]| - 1];
      assert init[0] == events[0];
    } else {
      assert events[1..] == [];
      assert events[..0] == [];
    }
  }

  /** What one routed request sends: its `ServeHTTP` result. */
  function RequestEmissions(serve: Request -> Option<ServeError>, handler: Handler, e: ServerEvent,
                            matches: (string, string) -> bool): (head: seq<Emission<Option<ServeError>>>)
    requires e.Incoming?
    ensures |head| == if Routed(handler, e.urlPath, matches) then 1 else 0
    ensures forall j :: 0 <= j < |head| ==> head[j].Sent?
  {
    if Routed(handler, e.urlPath, matches) then [Sent(serve(e.req))] else []
  }

  /** The server's last value when it stops: nil after a clean shutdown,
      else what `Close` returns; a listener failure's error. */
  function LastValue(e: ServerEvent): Option<ServeError>
    requires Stops(e)
  {
    if e.Cancelled? then (if e.shutdownErr.Some? then (if e.closeErr.Some? then Some(ServerError(e.closeErr.value)) else None) else None)
    else Some(ServerError(e.reason))
  }

  /** What one event sends: a request's result when it is routed; the last
      value and the close when the server stops. */
  function EventEmissions(serve: Request -> Option<ServeError>, handler: Handler, e: ServerEvent,
                          matches: (string, string) -> bool): seq<Emission<Option<ServeError>>>
  {
    if e.Incoming? then RequestEmissions(serve, handler, e, matches) else [Sent(LastValue(e)), Closed]
  }

  /** The stream is the first event's emissions, then, unless it stops the
      server, the stream of the rest. */
  lemma ServerStreamFront(serve: Request -> Option<ServeError>, handler: Handler, events: seq<ServerEvent>,
                          matches: (string, string) -> bool)
    requires events != []
    ensures ServerStream(serve, handler, events, matches)
            == EventEmissions(serve, handler, events[0], matches)
               + (if Stops(events[0]) then [] else ServerStream(serve, handler, events[1..], matches))
  {
  }

  /** What the events send, one after another, when none of them but
      perhaps the last stops the server. */
  function Served(serve: Request -> Option<ServeError>, handler: Handler, events: seq<ServerEvent>,
                  matches: (string, string) -> bool): seq<Emission<Option<ServeError>>>
    decreases |events|
  {
    if events == [] then []
    else Served(serve, handler, events[..|events| - 1], matches)
         + EventEmissions(serve, handler, events[|events| - 1], matches)
  }

  lemma ServedStep(serve: Request -> Option<ServeError>, handler: Handler, events: seq<ServerEvent>, i: nat,
                   matches: (string, string) -> bool)
    requires i < |events|
    ensures Served(serve, handler, events[..i + 1], matches)
            == Served(serve, handler, events[..i], matches) + EventEmissions(serve, handler, events[i], matches)
  {
    assert events[..i + 1][..i] == events[..i];
  }

  /** Before the server stops, the stream is what the events so far sent,
      followed by the stream of the events after them. */
  lemma {:induction false} ServedThenStream(serve: Request -> Option<ServeError>, handler: Handler, events: seq<ServerEvent>, i: nat,
                                            matches: (string, string) -> bool)
    requires i <= |events|
    requires forall j :: 0 <= j < i ==> !Stops(events[j])
    ensures ServerStream(serve, handler, events, matches)
            == Served(serve, handler, events[..i], matches) + ServerStream(serve, handler, events[i..], matches)
    decreases i
  {
    if i == 0 {
      assert events[..0] == [] && events[0..] == events;
    } else {
      ServedThenStream(serve, handler, events, i - 1, matches);
      ServedStep(serve, handler, events, i - 1, matches);
      ServerStreamFront(serve, handler, events[i - 1..], matches);
      assert events[i - 1..][1..] == events[i..];
      Associative(Served(serve, handler, events[..i - 1], matches),
                  EventEmissions(serve, handler, events[i - 1], matches),
                  ServerStream(serve, handler, events[i..], matches));
    }
  }

  /** When event `i` is the first that stops the server, the stream is what
      the events up to it send. */
  lemma StreamStopsAt(serve: Request -> Option<ServeError>, handler: Handler, events: seq<ServerEvent>, i: nat,
                      matches: (string, string) -> bool)
    requires i < |events| && Stops(events[i])
    requires forall j :: 0 <= j < i ==> !Stops(events[j])
    ensures FirstStop(events) == i
    ensures ServerStream(serve, handler, events, matches)
            == Served(serve, handler, events[..i], matches) + EventEmissions(serve, handler, events[i], matches)
  {
    ServedThenStream(serve, handler, events, i, matches);
    ServerStreamFront(serve, handler, events[i..], matches);
  }

  /** When no event stops the server, the stream is what the events send. */
  lemma StreamRunsOut(serve: Request -> Option<ServeError>, handler: Handler, events: seq<ServerEvent>,
                      matches: (string, string) -> bool)
    requires forall j :: 0 <= j < |events| ==> !Stops(events[j])
    ensures FirstStop(events) == |events|
    ensures ServerStream(serve, handler, events, matches) == Served(serve, handler, events, matches)
  {
    ServedThenStream(serve, handler, events, |events|, matches);
    assert events[..|events|] == events;
  }

  lemma Associative<T>(a: seq<T>, b: seq<T>, c: seq<T>)
    ensures a + (b + c) == (a + b) + c
  {
  }

  /** Values sent in front of a stream keep a close it has last, and add none. */
  lemma {:induction false} PrependSent<T>(head: seq<Emission<T>>, t: seq<Emission<T>>)
    requires forall j :: 0 <= j < |head| ==> head[j].Sent?
    requires ClosedLast(t)
    ensures ClosedLast(head + t)
    ensures Closed in head + t <==> Closed in t
  {
    var s := head + t;
    assert forall j :: |head| <= j < |s| ==> s[j] == t[j - |head|];
    assert Closed in s ==> Closed in t by {
      if Closed in s {
        var j :| 0 <= j < |s| && s[j] == Closed;
        assert j >= |head|;
        assert t[j - |head|] == Closed;
      }
    }
  }

  /** One value per routed request before the server stops, then, if it
      stops, exactly one more value and the close. */
  lemma {:induction false} ServerStreamLength(serve: Request -> Option<ServeError>, handler: Handler, events: seq<ServerEvent>,
                                              matches: (string, string) -> bool)
    ensures |ServerStream(serve, handler, events, matches)|
            == RoutedCount(handler, events[..FirstStop(events)], matches) + (if FirstStop(events) < |events| then 2 else 0)
    decreases |events|
  {
    var k := FirstStop(events);
    if events == [] || Stops(events[0]) {
      assert events[..k] == [];
    } else {
      var rest := events[1..];
      ServerStreamLength(serve, handler, rest, matches);
      ServerStreamFront(serve, handler, events, matches);
      assert k == FirstStop(rest) + 1;
      assert events[..k][1..] == rest[..FirstStop(rest)];
      RoutedCountFront(handler, events[..k], matches);
    }
  }

  /** The stream is closed exactly when the server stops, and the close is
      the last thing in it. */
  lemma {:induction false} ServerStreamCloses(serve: Request -> Option<ServeError>, handler: Handler, events: seq<ServerEvent>,
                                              matches: (string, string) -> bool)
    ensures ClosedLast(ServerStream(serve, handler, events, matches))
    ensures Closed in ServerStream(serve, handler, events, matches) <==> FirstStop(events) < |events|
    decreases |events|
  {
    if events != [] && !Stops(events[0]) {
      var rest := events[1..];
      ServerStreamCloses(serve, handler, rest, matches);
      ServerStreamFront(serve, handler, events, matches);
      PrependSent(RequestEmissions(serve, handler, events[0], matches), ServerStream(serve, handler, rest, matches));
      assert FirstStop(events) == FirstStop(rest) + 1;
    }
  }

  class Service {
    var secret: string
    /** A `uint16`. */
    var port: nat
    var path: string
    var hookRaw: Option<string>
    var hook: Option<HookKind>
    var repo: RepositoryInfo
    var addr: string
    var handler: Option<Handler>
    var tick: Channel?<Option<ServeError>>

    /** A service as decoded from its JSON configuration, not yet provisioned. */
    constructor (secret: string, port: nat, path: string, hookRaw: Option<string>)
      requires port < 0x1_0000
      ensures this.secret == secret && this.port == port && this.path == path && this.hookRaw == hookRaw
      ensures hook == None && repo == RepositoryInfo("", false) && addr == "" && handler == None && tick == null
    {
      this.secret := secret;
      this.port := port;
      this.path := path;
      this.hookRaw := hookRaw;
      hook := None;
      repo := RepositoryInfo("", false);
      addr := "";
      handler := None;
      tick := null;
    }

    /** `Provision`, with `load` the module loading of the raw hook (its
        error, or the loaded module, None when it is not a hook). A missing
        hook configuration becomes the generic hook; then the listen address
        is every interface at the port, and a channel of depth one is made. */
    method Provision(load: string -> Result<Option<HookKind>, string>) returns (err: Option<string>)
      modifies this
      ensures hookRaw == (if old(hookRaw) == None then Some(DefaultHookRaw) else old(hookRaw))
      ensures load(hookRaw.value).Err? ==> err == Some("error loading module: " + load(hookRaw.value).error)
                                           && unchanged(this`hook, this`addr, this`tick)
      ensures load(hookRaw.value) == Ok(None) ==> err == Some("invalid hook configuration") && hook == None
                                                  && unchanged(this`addr, this`tick)
      ensures load(hookRaw.value).Ok? && load(hookRaw.value).value.Some? ==>
                err == None && hook == load(hookRaw.value).value
                && addr == "0.0.0.0:" + DecimalString(port)
                && tick != null && fresh(tick) && tick.capacity == 1 && tick.log == [] && !tick.closed
      ensures unchanged(this`secret, this`port, this`path, this`repo, this`handler)
    {
      if hookRaw == None {
        hookRaw := Some(DefaultHookRaw);
      }
      var loaded := load(hookRaw.value);
      if loaded.Err? {
        return Some("error loading module: " + loaded.error);
      }
      hook := loaded.value;
      if hook == None {
        return Some("invalid hook configuration");
      }
      addr := "0.0.0.0:" + DecimalString(port);
      tick := new Channel.Make(1);
      return None;
    }

    /** `Validate`: an empty path passes; any other must start with `/`. */
    function Validate(): (err: Option<string>)
      reads this
      ensures err == None <==> path == "" || path[0] == '/'
    {
      if path != "" && path[0] != '/' then Some("Path should be of the format `/path'") else None
    }

    /** `ConfigureRepo`: stores the repository information. */
    method ConfigureRepo(info: RepositoryInfo) returns (err: Option<string>)
      modifies this
      ensures err == None && repo == info
      ensures unchanged(this`secret, this`port, this`path, this`hookRaw, this`hook, this`addr, this`handler, this`tick)
    {
      repo := info;
      return None;
    }

    /** `ServeHTTP`: the hook is handed exactly the service's secret and the
        repository it was configured with. */
    function ServeHTTP(req: Request, codec: Codec, next: Option<ServeError>): (r: (Option<int>, Option<ServeError>))
      requires hook.Some?
      reads this
      ensures r == Relay(hook.value, HookConf(secret, repo), req, codec, next)
    {
      Relay(hook.value, HookConf(secret, repo), req, codec, next)
    }

    /** `Start` and the server goroutine it launches: the handler is every
        request, or a mux for `Path` when one is set; the channel then
        receives the server stream for `events`. */
    method Start(events: seq<ServerEvent>, codec: Codec, matches: (string, string) -> bool)
      returns (ch: Channel<Option<ServeError>>)
      requires hook.Some? && tick != null && !tick.closed
      modifies this, tick
      ensures unchanged(this`secret, this`port, this`path, this`hookRaw, this`hook, this`repo, this`addr, this`tick)
      ensures ch == tick && handler == Some(if path != "" then Mux(path) else AllRequests)
      ensures tick.log == old(tick.log) + ServerStream(Serve(hook.value, HookConf(secret, repo), codec), handler.value, events, matches)
      ensures tick.closed <==> FirstStop(events) < |events|
    {
      if path != "" {
        handler := Some(Mux(path));
      } else {
        handler := Some(AllRequests);
      }
      ch := tick;
      StartService(ch, Serve(hook.value, HookConf(secret, repo), codec), handler.value, events, matches);
    }
  }

  /** `startService` and the handler it serves with, sending on `ch`: each
      routed request's `ServeHTTP` result, then the server's last value and
      the close once it stops. */
  method StartService(ch: Channel<Option<ServeError>>, serve: Request -> Option<ServeError>, handler: Handler,
                      events: seq<ServerEvent>, matches: (string, string) -> bool)
    requires !ch.closed
    modifies ch
    ensures ch.log == old(ch.log) + ServerStream(serve, handler, events, matches)
    ensures ch.closed <==> FirstStop(events) < |events|
  {
    var i := 0;
    while i < |events|
      invariant 0 <= i <= |events|
      invariant !ch.closed
      invariant forall j :: 0 <= j < i ==> !Stops(events[j])
      invariant ch.log == old(ch.log) + Served(serve, handler, events[..i], matches)
    {
      ServedStep(serve, handler, events, i, matches);
      Associative(old(ch.log), Served(serve, handler, events[..i], matches),
                  EventEmissions(serve, handler, events[i], matches));
      var stopped := ServeEvent(ch, serve, handler, events[i], matches);
      if stopped {
        StreamStopsAt(serve, handler, events, i, matches);
        return;
      }
      i := i + 1;
    }
    assert events[..i] == events;
    StreamRunsOut(serve, handler, events, matches);
  }

  /** What the server run does with one event: a request is served, its
      result sent when the handler passes it on; a cancellation or a
      listener failure sends the server's last value and closes the
      channel. */
  method ServeEvent(ch: Channel<Option<ServeError>>, serve: Request -> Option<ServeError>, handler: Handler,
                    e: ServerEvent, matches: (string, string) -> bool)
    returns (stopped: bool)
    requires !ch.closed
    modifies ch
    ensures stopped <==> Stops(e)
    ensures ch.closed <==> stopped
    ensures ch.log == old(ch.log) + EventEmissions(serve, handler, e, matches)
  {
    if e.Incoming? {
      if Routed(handler, e.urlPath, matches) {
        ch.Send(serve(e.req));
      }
      return false;
    }
    ch.Send(LastValue(e));
    ch.Close();
    return true;
  }
}
