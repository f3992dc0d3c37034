/** The root package's Caddy app: validation of every configured repository,
    and start-up, which prepares each repository's commanders and service and
    then clones (or opens) and updates it. */
module Caddygit {
  import opened Wrappers
  import opened Git
  import opened RootRepository
  import opened Durations

  const MinServiceInterval: int := 5 * Second

  /** The errors the app's loop bodies return. `BreakLoop` is the sentinel
      that ends `forEach` early without an error. */
  datatype LoopError =
    | BreakLoop
    | UrlParse(reason: string)
    | InvalidScheme(scheme: string)
    | IntervalTooShort

  /** What `forEach` returns and how many elements it visits, when the body
      returns `results[i]` for element `i`: indices are visited in increasing
      order up to the first non-nil result; the sentinel turns into nil and
      any other error is returned as is. */
  function ForEachOutcome(results: seq<Option<LoopError>>): (r: (Option<LoopError>, nat))
    ensures r.1 <= |results|
    ensures (forall i :: 0 <= i < |results| ==> results[i] == None) ==> r == (None, |results|)
    ensures forall k :: 0 <= k < |results| && results[k].Some? && (forall i :: 0 <= i < k ==> results[i] == None) ==>
              r.1 == k + 1 && r.0 == (if results[k] == Some(BreakLoop) then None else results[k])
    ensures r.0 != Some(BreakLoop)
    decreases |results|
  {
    if results == [] then (None, 0)
    else if results[0] == None then
      var (err, n) := ForEachOutcome(results[1..]);
      assert forall i :: 1 <= i < |results| ==> results[1..][i - 1] == results[i];
      (err, n + 1)
    else if results[0] == Some(BreakLoop) then (None, 1)
    else (results[0], 1)
  }

  /** `forEach`, over the results its body returns. */
  method ForEach(results: seq<Option<LoopError>>) returns (err: Option<LoopError>, visited: nat)
    ensures (err, visited) == ForEachOutcome(results)
  {
    var i := 0;
    while i < |results|
      invariant 0 <= i <= |results|
      invariant forall j :: 0 <= j < i ==> results[j] == None
    {
      if results[i] == None {
        i := i + 1;
        continue;
      } else if results[i] == Some(BreakLoop) {
        return None, i + 1;
      } else {
        return results[i], i + 1;
      }
    }
    return None, i;
  }

  /** The position of the first non-nil result. */
  lemma FirstError(results: seq<Option<LoopError>>) returns (k: nat)
    requires exists i :: 0 <= i < |results| && results[i].Some?
    ensures k < |results| && results[k].Some?
    ensures forall i :: 0 <= i < k ==> results[i] == None
  {
    k := 0;
    while results[k] == None
      invariant k < |results|
      invariant forall i :: 0 <= i < k ==> results[i] == None
      invariant exists i :: k <= i < |results| && results[i].Some?
      decreases |results| - k
    {
      k := k + 1;
    }
  }

  /** A body that never returns the sentinel: `forEach` succeeds exactly when
      every element succeeds, and otherwise returns the first error. */
  lemma ForEachWithoutBreak(results: seq<Option<LoopError>>)
    requires forall i :: 0 <= i < |results| ==> results[i] != Some(BreakLoop)
    ensures ForEachOutcome(results).0 == None <==> forall i :: 0 <= i < |results| ==> results[i] == None
    ensures ForEachOutcome(results).0.Some? ==>
            exists k :: 0 <= k < |results| && ForEachOutcome(results).0 == results[k]
                        && forall i :: 0 <= i < k ==> results[i] == None
  {
    if exists i :: 0 <= i < |results| && results[i].Some? {
      var k := FirstError(results);
    }
  }

  /** The body `Validate` runs for one repository; `parse` is `url.Parse`,
      giving the scheme or the parse error. The URL must be `http` or
      `https`, and an interval strictly between zero and five seconds is
      refused; zero, negative and longer intervals pass. */
  function ValidateRepository(r: Repository, parse: string -> Result<string, string>): (e: Option<LoopError>)
    ensures e == None <==> parse(r.url).Ok? && parse(r.url).value in {"http", "https"}
                           && !(NilDuration < r.interval < MinServiceInterval)
    ensures parse(r.url).Err? ==> e == Some(UrlParse(parse(r.url).error))
    ensures parse(r.url).Ok? && parse(r.url).value !in {"http", "https"} ==> e == Some(InvalidScheme(parse(r.url).value))
    ensures e != Some(BreakLoop)
  {
    match parse(r.url)
    case Err(reason) => Some(UrlParse(reason))
    case Ok(scheme) =>
      if scheme != "http" && scheme != "https" then Some(InvalidScheme(scheme))
      else if r.interval < MinServiceInterval && r.interval > NilDuration then Some(IntervalTooShort)
      else None
  }

  /** What a task for one repository ends with: a failed clone, a failed
      open after the clone found an existing repository, or the first
      update's error together with whether the periodic service started. */
  datatype TaskOutcome =
    | CloneFailed(error: Error)
    | OpenFailed(error: Error)
    | Served(updateError: Option<Error>, serviceStarted: bool)

  /** The synchronous part of `Start`'s body for the repository at `index`:
      commanders for both command lists, and a service exactly when
      `getInterval` gives an interval. */
  method Prepare(index: int, r: Repository)
    modifies r
    ensures r.index == index
    ensures r.thenCommander == Some(r.thenCmds) && r.thenLongCommander == Some(r.thenLongCmds)
    ensures r.service == r.GetInterval()
    ensures unchanged(r`repo, r`issued)
  {
    r.index := index;
    r.thenCommander := Some(r.thenCmds);
    r.thenLongCommander := Some(r.thenLongCmds);
    var dur := r.GetInterval();
    if dur.Some? {
      r.service := Some(dur.value);
    } else {
      r.service := None;
    }
  }

  /** The goroutine `Start` launches for one repository, with go-git's
      answers in `env` and the result of the `then` commands in
      `thenResult`. A successful clone proceeds; an existing repository is
      opened instead; any other clone error, or a failed open, ends the task
      before any update. Otherwise the repository is updated once, whatever
      the outcome, and then the service (if any) is started. */
  method Launch(r: Repository, env: Env, thenResult: Option<Error>) returns (outcome: TaskOutcome)
    modifies r
    ensures env.clone.Some? && env.clone != Some(RepositoryAlreadyExists) ==>
            outcome == CloneFailed(env.clone.value) && r.issued == old(r.issued) + [Op.Clone(r.path, r.CloneOpts())]
    ensures env.clone == Some(RepositoryAlreadyExists) && env.open.Some? ==>
            outcome == OpenFailed(env.open.value)
            && r.issued == old(r.issued) + [Op.Clone(r.path, r.CloneOpts()), Op.Open(r.path)]
    ensures env.clone == None ==>
            r.repo && r.issued == old(r.issued) + [Op.Clone(r.path, r.CloneOpts())] + r.SetWTreeOutcome(env).1
    ensures env.clone == Some(RepositoryAlreadyExists) && env.open == None ==>
            r.repo && r.issued == old(r.issued) + [Op.Clone(r.path, r.CloneOpts()), Op.Open(r.path)] + r.SetWTreeOutcome(env).1
    ensures env.clone == None || (env.clone == Some(RepositoryAlreadyExists) && env.open == None) ==>
            outcome == Served(if r.SetWTreeOutcome(env).0.Some? then r.SetWTreeOutcome(env).0 else thenResult,
                              old(r.service).Some?)
    ensures unchanged(r`index, r`service, r`thenCommander, r`thenLongCommander)
  {
    var failed := Acquire(r, env);
    if failed.Some? {
      return failed.value;
    }
    var err, thenRan, thenLongStarted := r.RunnerFunc(env, thenResult);
    outcome := Served(err, r.service.Some?);
  }

  /** The start of the task: a successful clone proceeds; an existing
      repository is opened instead; any other clone error, or a failed
      open, is the task's outcome. */
  method Acquire(r: Repository, env: Env) returns (failed: Option<TaskOutcome>)
    modifies r
    ensures env.clone.Some? && env.clone != Some(RepositoryAlreadyExists) ==>
            failed == Some(CloneFailed(env.clone.value)) && r.issued == old(r.issued) + [Op.Clone(r.path, r.CloneOpts())]
    ensures env.clone == Some(RepositoryAlreadyExists) && env.open.Some? ==>
            failed == Some(OpenFailed(env.open.value))
            && r.issued == old(r.issued) + [Op.Clone(r.path, r.CloneOpts()), Op.Open(r.path)]
    ensures env.clone == None ==>
            failed == None && r.repo && r.issued == old(r.issued) + [Op.Clone(r.path, r.CloneOpts())]
    ensures env.clone == Some(RepositoryAlreadyExists) && env.open == None ==>
            failed == None && r.repo && r.issued == old(r.issued) + [Op.Clone(r.path, r.CloneOpts()), Op.Open(r.path)]
    ensures unchanged(r`index, r`service, r`thenCommander, r`thenLongCommander)
  {
    var err := r.Clone(env);
    if err == Some(RepositoryAlreadyExists) {
      err := r.Open(env);
      if err.Some? {
        return Some(OpenFailed(err.value));
      }
    } else if err.Some? {
      return Some(CloneFailed(err.value));
    }
    return None;
  }

  class App {
    const repositories: seq<Repository>

    constructor New(repositories: seq<Repository>)
      ensures this.repositories == repositories
    {
      this.repositories := repositories;
    }

    /** `Validate`: the first repository, in list order, that fails
        validation decides the error; nil when all pass. */
    method Validate(parse: string -> Result<string, string>) returns (err: Option<LoopError>)
      ensures err == None <==> forall i :: 0 <= i < |repositories| ==> ValidateRepository(repositories[i], parse) == None
      ensures err.Some? ==> exists k :: 0 <= k < |repositories| && err == ValidateRepository(repositories[k], parse)
                              && forall i :: 0 <= i < k ==> ValidateRepository(repositories[i], parse) == None
    {
      var results := seq(|repositories|, i requires 0 <= i < |repositories| => ValidateRepository(repositories[i], parse));
      assert forall i :: 0 <= i < |results| ==> results[i] == ValidateRepository(repositories[i], parse);
      var visited;
      err, visited := ForEach(results);
      ForEachWithoutBreak(results);
    }

    /** `Start`'s loop. Its body never returns an error, because
        `getInterval` only ever reports `errNoRunService`, so `forEach`
        visits every repository and `Start` returns nil. */
    method Start() returns (err: Option<LoopError>)
      requires forall i, j :: 0 <= i < j < |repositories| ==> repositories[i] != repositories[j]
      modifies set r | r in repositories
      ensures err == None
      ensures forall i :: 0 <= i < |repositories| ==>
                repositories[i].index == i && repositories[i].service == repositories[i].GetInterval()
                && repositories[i].thenCommander == Some(repositories[i].thenCmds)
                && repositories[i].thenLongCommander == Some(repositories[i].thenLongCmds)
      ensures forall r :: r in repositories ==> unchanged(r`repo, r`issued)
    {
      var i := 0;
      while i < |repositories|
        invariant 0 <= i <= |repositories|
        invariant forall j :: 0 <= j < i ==>
                    repositories[j].index == j && repositories[j].service == repositories[j].GetInterval()
                    && repositories[j].thenCommander == Some(repositories[j].thenCmds)
                    && repositories[j].thenLongCommander == Some(repositories[j].thenLongCmds)
        invariant forall r :: r in repositories ==> unchanged(r`repo, r`issued)
      {
        Prepare(i, repositories[i]);
        i := i + 1;
      }
      return None;
    }
  }
}
