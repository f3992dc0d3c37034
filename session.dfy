/** A git client as the `module` package configures and runs it: provisioning
    (placeholders replaced, service loaded, commands registered, a default
    path from the URL), validation of the configuration against the
    filesystem, and the session that sets the repository up and then
    updates it on every event of its service. The `client` package's
    `Client` is provisioned and validated the same way. */
module Session {
  import opened Wrappers
  import opened Strings
  import opened Durations
  import opened Git
  import CR = ClientRepository
  import CC = ClientCommands

  const DefaultServiceRaw: string := "{\"type\": \"poll\"}"
  const MinPollInterval: int := 5 * Second

  /** The service module a configuration loads: the poll service with its
      interval, or another kind. */
  datatype ServiceModule = PollModule(interval: int) | OtherModule

  /** The commander `Provision` builds: its commands, and whether the
      `OnStart` and `OnError` callbacks (which log) are set. */
  datatype CommandsAfter = CommandsAfter(commands: seq<CC.Command>, onStart: bool, onError: bool)

  /** The option fields placeholders are replaced in, in the source's order:
      branch, password, path, URL, username. */
  const FieldCount: nat := 5

  function FieldAt(o: CR.RepositoryOpts, i: nat): string
    requires i < FieldCount
  {
    if i == 0 then o.branch
    else if i == 1 then o.password
    else if i == 2 then o.path
    else if i == 3 then o.url
    else o.username
  }

  /** The options with field `i` set to `v`, and nothing else changed. */
  function WithField(o: CR.RepositoryOpts, i: nat, v: string): (r: CR.RepositoryOpts)
    requires i < FieldCount
    ensures FieldAt(r, i) == v
    ensures forall j :: 0 <= j < FieldCount && j != i ==> FieldAt(r, j) == FieldAt(o, j)
    ensures r.singleBranch == o.singleBranch && r.depth == o.depth
  {
    if i == 0 then o.(branch := v)
    else if i == 1 then o.(password := v)
    else if i == 2 then o.(path := v)
    else if i == 3 then o.(url := v)
    else o.(username := v)
  }

  /** Replacing the placeholders of fields `from` on, in order, with
      `replace` (the replacer, which may fail): the options after the last
      replacement made, and the first failure. */
  function ReplaceFrom(o: CR.RepositoryOpts, replace: string -> Result<string, string>, from: nat): (r: (CR.RepositoryOpts, Option<string>))
    requires from <= FieldCount
    ensures forall j :: 0 <= j < from ==> FieldAt(r.0, j) == FieldAt(o, j)
    ensures r.0.singleBranch == o.singleBranch && r.0.depth == o.depth
    decreases FieldCount - from
  {
    if from == FieldCount then (o, None)
    else match replace(FieldAt(o, from))
      case Err(e) => (o, Some(e))
      case Ok(v) => ReplaceFrom(WithField(o, from, v), replace, from + 1)
  }

  /** The first field from `from` on whose replacement fails, judged on the
      original values, or `FieldCount` when none does. */
  function FirstFailure(o: CR.RepositoryOpts, replace: string -> Result<string, string>, from: nat): (k: nat)
    requires from <= FieldCount
    ensures from <= k <= FieldCount
    ensures k < FieldCount ==> replace(FieldAt(o, k)).Err?
    ensures forall i :: from <= i < k ==> replace(FieldAt(o, i)).Ok?
    decreases FieldCount - from
  {
    if from == FieldCount || replace(FieldAt(o, from)).Err? then from
    else FirstFailure(o, replace, from + 1)
  }

  /** Where the search for a failure starts, only the fields from there on matter. */
  lemma {:induction false} FirstFailureFrame(o: CR.RepositoryOpts, o': CR.RepositoryOpts, replace: string -> Result<string, string>, from: nat)
    requires from <= FieldCount
    requires forall i :: from <= i < FieldCount ==> FieldAt(o, i) == FieldAt(o', i)
    ensures FirstFailure(o, replace, from) == FirstFailure(o', replace, from)
    decreases FieldCount - from
  {
    if from < FieldCount {
      FirstFailureFrame(o, o', replace, from + 1);
    }
  }

  /** The error replacement gives is the first failing field's, nil when
      no field fails. */
  lemma {:induction false} ReplaceFromError(o: CR.RepositoryOpts, replace: string -> Result<string, string>, from: nat)
    requires from <= FieldCount
    ensures ReplaceFrom(o, replace, from).1
            == (if FirstFailure(o, replace, from) < FieldCount
                then Some(replace(FieldAt(o, FirstFailure(o, replace, from))).error) else None)
    decreases FieldCount - from
  {
    if from < FieldCount && replace(FieldAt(o, from)).Ok? {
      var o' := WithField(o, from, replace(FieldAt(o, from)).value);
      FirstFailureFrame(o, o', replace, from + 1);
      ReplaceFromError(o', replace, from + 1);
    }
  }

  /** Replacement touches each field before the first failure once: it
      holds the replacement of its old value. */
  lemma {:induction false} ReplaceFromReplaced(o: CR.RepositoryOpts, replace: string -> Result<string, string>, from: nat)
    requires from <= FieldCount
    ensures forall i :: from <= i < FirstFailure(o, replace, from) ==>
              replace(FieldAt(o, i)) == Ok(FieldAt(ReplaceFrom(o, replace, from).0, i))
    decreases FieldCount - from
  {
    if from < FieldCount && replace(FieldAt(o, from)).Ok? {
      var o' := WithField(o, from, replace(FieldAt(o, from)).value);
      FirstFailureFrame(o, o', replace, from + 1);
      ReplaceFromReplaced(o', replace, from + 1);
      ReplaceFromKept(o', replace, from + 1);
    }
  }

  /** The failing field, those after it, those before `from` and the fields
      that are not strings keep their old values. */
  lemma {:induction false} ReplaceFromKept(o: CR.RepositoryOpts, replace: string -> Result<string, string>, from: nat)
    requires from <= FieldCount
    ensures forall i :: 0 <= i < FieldCount && (i < from || FirstFailure(o, replace, from) <= i) ==>
              FieldAt(ReplaceFrom(o, replace, from).0, i) == FieldAt(o, i)
    ensures ReplaceFrom(o, replace, from).0.singleBranch == o.singleBranch
    ensures ReplaceFrom(o, replace, from).0.depth == o.depth
    decreases FieldCount - from
  {
    if from < FieldCount && replace(FieldAt(o, from)).Ok? {
      var o' := WithField(o, from, replace(FieldAt(o, from)).value);
      FirstFailureFrame(o, o', replace, from + 1);
      ReplaceFromKept(o', replace, from + 1);
    }
  }

  /** `getRepoNameFromURL`, with `parseRequestURI` giving the URL's path or
      the parse error: the last `/`-separated segment of the path, with one
      `.git` suffix removed. */
  function RepoNameFromURL(u: string, parseRequestURI: string -> Result<string, string>): (r: Result<string, string>)
    ensures parseRequestURI(u).Err? ==> r == Err(parseRequestURI(u).error)
    ensures parseRequestURI(u).Ok? ==> r.Ok?
  {
    match parseRequestURI(u)
    case Err(e) => Err(e)
    case Ok(path) =>
      var segments := Split(path, '/');
      Ok(TrimSuffix(segments[|segments| - 1], ".git"))
  }

  /** For a path made of a directory part (empty, or ending in `/`) and a
      last segment without `/`, the name is that segment with one `.git`
      suffix removed; a path ending in `/` thus gives the empty name. */
  lemma RepoNameOfPath(u: string, parseRequestURI: string -> Result<string, string>, dir: string, segment: string)
    requires parseRequestURI(u) == Ok(dir + segment)
    requires dir == [] || dir[|dir| - 1] == '/'
    requires '/' !in segment
    ensures RepoNameFromURL(u, parseRequestURI) == Ok(TrimSuffix(segment, ".git"))
  {
    LastPieceAfter(dir, segment, '/');
  }

  /** How the filesystem answers the probes `Validate` makes of the path:
      `os.Stat`, then `git.PlainOpen`, then listing the directory (empty or
      not, or the error). */
  datatype Stat = NotExist | StatError(reason: string) | RegularFile | Directory
  datatype PathProbe = PathProbe(stat: Stat, open: Option<Error>, empty: Result<bool, string>)

  /** The errors `Validate` returns: "cannot create repository with empty
      URL", "… in empty path", "error validating path: …" (from the stat,
      the open or the listing), `errNotGitDir`, "invalid url: …", "url scheme
      '…' not supported", and the poll interval minimum. */
  datatype ValidationError =
    | EmptyURL
    | EmptyPath
    | StatFailed(reason: string)
    | OpenFailed(err: Error)
    | ListFailed(reason: string)
    | NotGitDir
    | InvalidURL(reason: string)
    | UnsupportedScheme(scheme: string)
    | PollIntervalTooShort

  /** The filesystem part of `Validate`: a missing path passes; a path that
      is not a directory, or a directory that is neither a repository nor
      empty, is `errNotGitDir`; a repository or an empty directory passes;
      any other probe failure is reported. */
  function PathVerdict(probe: PathProbe): (err: Option<ValidationError>)
    ensures err == None <==> probe.stat == NotExist
                             || (probe.stat == Directory
                                 && (probe.open == None || (probe.open == Some(RepositoryNotExists) && probe.empty == Ok(true))))
    ensures err == Some(NotGitDir) <==> probe.stat == RegularFile
                                        || (probe.stat == Directory && probe.open == Some(RepositoryNotExists) && probe.empty == Ok(false))
  {
    match probe.stat
    case NotExist => None
    case StatError(e) => Some(StatFailed(e))
    case RegularFile => Some(NotGitDir)
    case Directory =>
      if probe.open == None then None
      else if probe.open == Some(RepositoryNotExists) then
        match probe.empty
        case Err(e) => Some(ListFailed(e))
        case Ok(empty) => if !empty then Some(NotGitDir) else None
      else Some(OpenFailed(probe.open.value))
  }

  /** The error replacing the path with its absolute form reports: the path
      field is already overwritten with the empty string `filepath.Abs`
      returns on failure, and `%#v` quotes it. */
  function AbsError(reason: string): (msg: string)
    ensures HasPrefix(msg, "filepath.Abs(") && HasSuffix(msg, reason)
  {
    assert ("filepath.Abs(\"\"): " + reason)[..13] == "filepath.Abs(";
    "filepath.Abs(\"\"): " + reason
  }

  /** The path `Provision` settles on before making it absolute: the given
      one, or for an empty one the repository name from the URL, or `.`
      when the URL does not parse. */
  function DefaultPath(o: CR.RepositoryOpts, parseRequestURI: string -> Result<string, string>): (p: string)
    ensures o.path != "" ==> p == o.path
    ensures o.path == "" && parseRequestURI(o.url).Err? ==> p == "."
    ensures o.path == "" && parseRequestURI(o.url).Ok? ==> p == RepoNameFromURL(o.url, parseRequestURI).value
  {
    if o.path != "" then o.path
    else match RepoNameFromURL(o.url, parseRequestURI)
      case Err(_) => "."
      case Ok(name) => name
  }

  /** The loaded service after `Provision`'s default: a poll service with a
      zero interval polls hourly. */
  function WithDefaultInterval(m: ServiceModule): (r: ServiceModule)
    ensures m == PollModule(0) ==> r == PollModule(Hour)
    ensures m != PollModule(0) ==> r == m
  {
    if m == PollModule(0) then PollModule(Hour) else m
  }

  /** What `Start` does, in order. */
  datatype Step = SetupRepo | RunCommands | UpdateRepo

  /** One value received from the service's channel: the value itself, whether
      the context is done when it is received, and what `Update` and then the
      commander's `Run` would return for it. */
  datatype Received = Received(serr: Option<string>, ctxDone: bool, update: Option<string>, run: Option<string>)

  /** What `Start` returns: the setup's error, the first command run's
      error, or the context's error, each wrapped. */
  datatype StartError = SetupFailed(reason: string) | CommandsFailed(reason: string) | ContextDone(reason: string)

  /** The loop over the service's values: a value received once the context
      is done ends the session with the context's error; an error value is
      skipped; otherwise the repository is updated and, when that succeeds,
      the commands run. No failure ends the loop; a closed channel ends it
      with nil. */
  function SessionLoop(events: seq<Received>, ctxErr: string): (r: (Option<string>, seq<Step>))
    ensures r.0 == None || r.0 == Some(ctxErr)
    ensures |r.1| <= 2 * |events|
    ensures r.1 != [] ==> r.1[0] == UpdateRepo
    decreases |events|
  {
    if events == [] then (None, [])
    else
      var e := events[0];
      var rest := SessionLoop(events[1..], ctxErr);
      if e.ctxDone then (Some(ctxErr), [])
      else if e.serr.Some? then rest
      else if e.update.Some? then (rest.0, [UpdateRepo] + rest.1)
      else (rest.0, [UpdateRepo, RunCommands] + rest.1)
  }

  /** One value, received before the context is done, in the session loop:
      an error value is skipped; otherwise the repository is updated and,
      when that succeeds, the commands run. */
  method LoopStep(events: seq<Received>, i: nat, ctxErr: string, steps: seq<Step>) returns (steps': seq<Step>)
    requires i < |events| && !events[i].ctxDone
    ensures SessionLoop(events[i + 1..], ctxErr).0 == SessionLoop(events[i..], ctxErr).0
    ensures steps' + SessionLoop(events[i + 1..], ctxErr).1 == steps + SessionLoop(events[i..], ctxErr).1
  {
    var e := events[i];
    assert events[i..][1..] == events[i + 1..];
    ghost var rest := SessionLoop(events[i + 1..], ctxErr).1;
    if e.serr.Some? {
      return steps;
    }
    steps' := steps + [UpdateRepo];
    if e.update.Some? {
      assert steps' + rest == steps + ([UpdateRepo] + rest);
      return;
    }
    steps' := steps' + [RunCommands];
    assert steps' + rest == steps + ([UpdateRepo, RunCommands] + rest);
  }

  /** The position of the first value received once the context is done, or
      `|events|`. */
  function FirstDone(events: seq<Received>): (k: nat)
    ensures k <= |events|
    ensures k < |events| ==> events[k].ctxDone
    ensures forall i :: 0 <= i < k ==> !events[i].ctxDone
    decreases |events|
  {
    if events == [] || events[0].ctxDone then 0
    else
      var k := FirstDone(events[1..]);
      assert forall i :: 1 <= i < |events| ==> events[1..][i - 1] == events[i];
      k + 1
  }

  /** How many values are not errors, and how many of those also update. */
  function Healthy(events: seq<Received>): nat
    decreases |events|
  {
    if events == [] then 0 else (if events[0].serr == None then 1 else 0) + Healthy(events[1..])
  }

  function Updated(events: seq<Received>): nat
    decreases |events|
  {
    if events == [] then 0 else (if events[0].serr == None && events[0].update == None then 1 else 0) + Updated(events[1..])
  }

  /** The session's loop ends with the context's error exactly when a value
      arrives after the context is done, and with nil when the channel
      closes first. */
  lemma {:induction false} SessionLoopError(events: seq<Received>, ctxErr: string)
    ensures SessionLoop(events, ctxErr).0 == if FirstDone(events) < |events| then Some(ctxErr) else None
    decreases |events|
  {
    if events != [] && !events[0].ctxDone {
      SessionLoopError(events[1..], ctxErr);
    }
  }

  /** Before the context is seen done, every value that is not an error
      causes one update, and every update that succeeds one command run;
      nothing else happens. */
  lemma {:induction false} SessionLoopCounts(events: seq<Received>, ctxErr: string)
    ensures var steps := SessionLoop(events, ctxErr).1;
            var k := FirstDone(events);
            multiset(steps)[UpdateRepo] == Healthy(events[..k])
            && multiset(steps)[RunCommands] == Updated(events[..k])
            && multiset(steps)[SetupRepo] == 0
    decreases |events|
  {
    var k := FirstDone(events);
    if events == [] || events[0].ctxDone {
      assert events[..k] == [];
    } else {
      var rest := events[1..];
      SessionLoopCounts(rest, ctxErr);
      DoneFront(events);
    }
  }

  /** Before the context is seen done, the values are the first one and
      those of the rest before it is seen done. */
  lemma DoneFront(events: seq<Received>)
    requires events != [] && !events[0].ctxDone
    ensures FirstDone(events) == FirstDone(events[1..]) + 1
    ensures Healthy(events[..FirstDone(events)]) == (if events[0].serr == None then 1 else 0) + Healthy(events[1..][..FirstDone(events[1..])])
    ensures Updated(events[..FirstDone(events)])
            == (if events[0].serr == None && events[0].update == None then 1 else 0) + Updated(events[1..][..FirstDone(events[1..])])
  {
    var k := FirstDone(events);
    assert events[..k][1..] == events[1..][..FirstDone(events[1..])];
    assert events[..k][0] == events[0];
  }

  /** Every command run comes right after an update. */
  predicate RunsAfterUpdates(steps: seq<Step>) {
    forall j :: 0 <= j < |steps| && steps[j] == RunCommands ==> j > 0 && steps[j - 1] == UpdateRepo
  }

  /** Every command run of the loop comes right after an update. */
  lemma {:induction false} SessionLoopOrder(events: seq<Received>, ctxErr: string)
    ensures RunsAfterUpdates(SessionLoop(events, ctxErr).1)
    decreases |events|
  {
    if events != [] && !events[0].ctxDone {
      SessionLoopOrder(events[1..], ctxErr);
      PrependUpdate(SessionLoop(events[1..], ctxErr).1);
    }
  }

  /** An update, alone or followed by a command run, may go in front of
      steps where every command run follows an update. */
  lemma PrependUpdate(tail: seq<Step>)
    requires RunsAfterUpdates(tail)
    ensures RunsAfterUpdates([UpdateRepo] + tail)
    ensures RunsAfterUpdates([UpdateRepo, RunCommands] + tail)
  {
    var one := [UpdateRepo] + tail;
    forall j | 0 <= j < |one| && one[j] == RunCommands
      ensures j > 0 && one[j - 1] == UpdateRepo
    {
      assert tail[j - 1] == RunCommands;
    }
    var two := [UpdateRepo, RunCommands] + tail;
    forall j | 0 <= j < |two| && two[j] == RunCommands
      ensures j > 0 && two[j - 1] == UpdateRepo
    {
      if j >= 2 {
        assert tail[j - 2] == RunCommands;
      }
    }
  }

  /** `Start` of the `module` package: a failed setup ends the session with
      an error before any command runs; the commands then run once, and
      their failure ends it with an error too; otherwise the loop follows. */
  function StartOutcome(setupErr: Option<string>, firstRun: Option<string>, events: seq<Received>, ctxErr: string): (r: (Option<StartError>, seq<Step>))
    ensures setupErr.Some? ==> r == (Some(SetupFailed(setupErr.value)), [SetupRepo])
    ensures setupErr == None && firstRun.Some? ==> r == (Some(CommandsFailed(firstRun.value)), [SetupRepo, RunCommands])
    ensures setupErr == None && firstRun == None ==>
              r.1 == [SetupRepo, RunCommands] + SessionLoop(events, ctxErr).1
              && r.0 == (if FirstDone(events) < |events| then Some(ContextDone(ctxErr)) else None)
  {
    SessionLoopError(events, ctxErr);
    if setupErr.Some? then (Some(SetupFailed(setupErr.value)), [SetupRepo])
    else if firstRun.Some? then (Some(CommandsFailed(firstRun.value)), [SetupRepo, RunCommands])
    else
      var (err, steps) := SessionLoop(events, ctxErr);
      (if err.Some? then Some(ContextDone(err.value)) else None, [SetupRepo, RunCommands] + steps)
  }

  /** The replacement loop of `Provision`, field by field in order, stopping
      at the first failure. */
  method ReplaceFields(o: CR.RepositoryOpts, replace: string -> Result<string, string>)
    returns (r: CR.RepositoryOpts, err: Option<string>)
    ensures (r, err) == ReplaceFrom(o, replace, 0)
  {
    r := o;
    var i := 0;
    while i < FieldCount
      invariant 0 <= i <= FieldCount
      invariant ReplaceFrom(r, replace, i) == ReplaceFrom(o, replace, 0)
    {
      var actual := replace(FieldAt(r, i));
      if actual.Err? {
        return r, Some(actual.error);
      }
      r := WithField(r, i, actual.value);
      i := i + 1;
    }
    return r, None;
  }

  /** The commander `Provision` builds: both logging callbacks set, and each
      raw command added in order. */
  method Register(raw: seq<CC.Command>) returns (c: Option<CommandsAfter>)
    ensures c == Some(CommandsAfter(raw, true, true))
  {
    var commands: seq<CC.Command> := [];
    var j := 0;
    while j < |raw|
      invariant 0 <= j <= |raw|
      invariant commands == raw[..j]
    {
      commands := commands + [raw[j]];
      j := j + 1;
    }
    assert raw[..|raw|] == raw;
    return Some(CommandsAfter(commands, true, true));
  }

  class Client {
    var opts: CR.RepositoryOpts
    var rawCommands: seq<CC.Command>
    var serviceRaw: Option<string>
    var service: Option<ServiceModule>
    var commandsAfter: Option<CommandsAfter>
    /** The options the repository was created from, once it is. */
    var repo: Option<CR.RepositoryOpts>

    /** A client as decoded from its JSON configuration. */
    constructor (opts: CR.RepositoryOpts, rawCommands: seq<CC.Command>, serviceRaw: Option<string>)
      ensures this.opts == opts && this.rawCommands == rawCommands && this.serviceRaw == serviceRaw
      ensures service == None && commandsAfter == None && repo == None
    {
      this.opts := opts;
      this.rawCommands := rawCommands;
      this.serviceRaw := serviceRaw;
      service := None;
      commandsAfter := None;
      repo := None;
    }

    /** `Provision`, with the replacer `replace`, the module loader `load`
        (its error, or the module, None when it is not a service), the URL
        parser and `filepath.Abs`. A missing service configuration becomes
        the poll service; the five fields are replaced in order, the first
        failure ending provisioning with the fields before it replaced; then
        the service is loaded and defaulted, the commander built with both
        callbacks and every raw command, the path defaulted and made
        absolute, and the repository created. */
    method Provision(replace: string -> Result<string, string>, load: string -> Result<Option<ServiceModule>, string>,
                     parseRequestURI: string -> Result<string, string>, abs: string -> Result<string, string>)
      returns (err: Option<string>)
      modifies this
      ensures serviceRaw == (if old(serviceRaw) == None then Some(DefaultServiceRaw) else old(serviceRaw))
      ensures rawCommands == old(rawCommands)
      ensures ReplaceFrom(old(opts), replace, 0).1.Some? ==>
                err == Some("error replacing fields: " + ReplaceFrom(old(opts), replace, 0).1.value)
                && opts == ReplaceFrom(old(opts), replace, 0).0
                && unchanged(this`service, this`commandsAfter, this`repo)
      ensures ReplaceFrom(old(opts), replace, 0).1 == None && load(serviceRaw.value).Err? ==>
                err == Some("error loading module: " + load(serviceRaw.value).error)
                && opts == ReplaceFrom(old(opts), replace, 0).0
                && unchanged(this`service, this`commandsAfter, this`repo)
      ensures ReplaceFrom(old(opts), replace, 0).1 == None && load(serviceRaw.value) == Ok(None) ==>
                err == Some("invalid service configuration")
                && opts == ReplaceFrom(old(opts), replace, 0).0
                && service == None && unchanged(this`commandsAfter, this`repo)
      ensures ReplaceFrom(old(opts), replace, 0).1 == None && load(serviceRaw.value).Ok? && load(serviceRaw.value).value.Some? ==>
                service == Some(WithDefaultInterval(load(serviceRaw.value).value.value))
                && commandsAfter == Some(CommandsAfter(rawCommands, true, true))
                && var replaced := ReplaceFrom(old(opts), replace, 0).0;
                   var path := DefaultPath(replaced, parseRequestURI);
                   (abs(path).Err? ==> err == Some(AbsError(abs(path).error)) && opts == replaced.(path := "") && repo == old(repo))
                   && (abs(path).Ok? ==> err == None && opts == replaced.(path := abs(path).value) && repo == Some(opts))
    {
      if serviceRaw == None {
        serviceRaw := Some(DefaultServiceRaw);
      }

      var replaced, rerr := ReplaceFields(opts, replace);
      opts := replaced;
      if rerr.Some? {
        return Some("error replacing fields: " + rerr.value);
      }

      var loaded := load(serviceRaw.value);
      if loaded.Err? {
        return Some("error loading module: " + loaded.error);
      }
      if loaded.value == None {
        service := None;
        return Some("invalid service configuration");
      }
      service := Some(WithDefaultInterval(loaded.value.value));

      commandsAfter := Register(rawCommands);
      err := CreateRepo(parseRequestURI, abs);
    }

    /** The end of `Provision`: the path defaulted from the URL and made
        absolute (an error clears it), then the repository created. */
    method CreateRepo(parseRequestURI: string -> Result<string, string>, abs: string -> Result<string, string>)
      returns (err: Option<string>)
      modifies this`opts, this`repo
      ensures var path := DefaultPath(old(opts), parseRequestURI);
              (abs(path).Err? ==> err == Some(AbsError(abs(path).error)) && opts == old(opts).(path := "") && repo == old(repo))
              && (abs(path).Ok? ==> err == None && opts == old(opts).(path := abs(path).value) && repo == Some(opts))
    {
      if opts.path == "" {
        var name := RepoNameFromURL(opts.url, parseRequestURI);
        if name.Err? {
          opts := opts.(path := ".");
        } else {
          opts := opts.(path := name.value);
        }
      }

      var absolute := abs(opts.path);
      if absolute.Err? {
        opts := opts.(path := "");
        return Some(AbsError(absolute.error));
      }
      opts := opts.(path := absolute.value);
      repo := Some(opts);
      return None;
    }

    /** `Validate`, with the filesystem's answers in `probe` and `parse`
        giving the URL's scheme or the parse error. The checks run in order:
        the URL is given, the path is given, the path is usable, the URL
        parses, its scheme is `http` or `https`, and a poll service's
        interval is at least five seconds. */
    function Validate(probe: PathProbe, parse: string -> Result<string, string>): (err: Option<ValidationError>)
      reads this
      ensures opts.url == "" ==> err == Some(EmptyURL)
      ensures opts.url != "" && opts.path == "" ==> err == Some(EmptyPath)
      ensures opts.url != "" && opts.path != "" && PathVerdict(probe).Some? ==> err == PathVerdict(probe)
      ensures opts.url != "" && opts.path != "" && PathVerdict(probe) == None && parse(opts.url).Err? ==>
                err == Some(InvalidURL(parse(opts.url).error))
      ensures opts.url != "" && opts.path != "" && PathVerdict(probe) == None && parse(opts.url).Ok?
              && parse(opts.url).value !in {"http", "https"} ==>
                err == Some(UnsupportedScheme(parse(opts.url).value))
      ensures opts.url != "" && opts.path != "" && PathVerdict(probe) == None && parse(opts.url).Ok?
              && parse(opts.url).value in {"http", "https"}
              && service.Some? && service.value.PollModule? && service.value.interval < MinPollInterval ==>
                err == Some(PollIntervalTooShort)
      ensures err == None <==>
                opts.url != "" && opts.path != "" && PathVerdict(probe) == None
                && parse(opts.url).Ok? && parse(opts.url).value in {"http", "https"}
                && !(service.Some? && service.value.PollModule? && service.value.interval < MinPollInterval)
    {
      if opts.url == "" then Some(EmptyURL)
      else if opts.path == "" then Some(EmptyPath)
      else if PathVerdict(probe).Some? then PathVerdict(probe)
      else match parse(opts.url)
        case Err(e) => Some(InvalidURL(e))
        case Ok(scheme) =>
          if scheme != "http" && scheme != "https" then Some(UnsupportedScheme(scheme))
          else if service.Some? && service.value.PollModule? && service.value.interval < MinPollInterval then Some(PollIntervalTooShort)
          else None
    }

    /** `Start`, with `setupErr` and `firstRun` what the repository's setup
        and the first command run return, `events` the values the service
        sends until its channel closes, and `ctxErr` the context's error. */
    method Start(setupErr: Option<string>, firstRun: Option<string>, events: seq<Received>, ctxErr: string)
      returns (err: Option<StartError>, steps: seq<Step>)
      ensures (err, steps) == StartOutcome(setupErr, firstRun, events, ctxErr)
    {
      steps := [SetupRepo];
      if setupErr.Some? {
        return Some(SetupFailed(setupErr.value)), steps;
      }
      steps := [SetupRepo, RunCommands];
      if firstRun.Some? {
        return Some(CommandsFailed(firstRun.value)), steps;
      }
      var i := 0;
      while i < |events|
        invariant 0 <= i <= |events|
        invariant forall j :: 0 <= j < i ==> !events[j].ctxDone
        invariant SessionLoop(events[i..], ctxErr).0 == SessionLoop(events, ctxErr).0
        invariant steps + SessionLoop(events[i..], ctxErr).1 == [SetupRepo, RunCommands] + SessionLoop(events, ctxErr).1
      {
        if events[i].ctxDone {
          assert SessionLoop(events[i..], ctxErr) == (Some(ctxErr), []);
          assert steps == [SetupRepo, RunCommands] + SessionLoop(events, ctxErr).1;
          return Some(ContextDone(ctxErr)), steps;
        }
        steps := LoopStep(events, i, ctxErr, steps);
        i := i + 1;
      }
      assert events[i..] == [];
      assert steps == [SetupRepo, RunCommands] + SessionLoop(events, ctxErr).1;
      assert SessionLoop(events, ctxErr).0 == None;
      return None, steps;
    }
  }
}
