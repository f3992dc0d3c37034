/** The root package's repository: configured with a `Tag` (empty for a
    branch, `{latest}` for the newest tag on the branch, anything else for a
    fixed tag), updated periodically by `runnerFunc`. */
module RootRepository {
  import opened Wrappers
  import opened Git
  import TagSearch
  import opened Durations

  const DefaultRemote: string := "origin"
  const DefaultBranch: string := "master"
  const LatestTagKeyword: string := "{latest}"

  const NilDuration: int := 0

  /** The repository's JSON configuration. */
  datatype Config = Config(
    url: string, path: string, tag: string, branch: string,
    username: string, password: string, singleBranch: bool, depth: int,
    interval: int, thenCommands: seq<string>, thenLongCommands: seq<string>)

  class Repository {
    const url: string
    const path: string
    const tag: string
    const branch: string
    const username: string
    const password: string
    const singleBranch: bool
    const depth: int
    const interval: int
    const thenCmds: seq<string>
    const thenLongCmds: seq<string>

    /** The position in the module's list, set by `Start`. */
    var index: int
    /** Whether a go-git repository handle is held (`r.repo != nil`). */
    var repo: bool
    /** The command lists the `then` and `thenLong` commanders were built
        from; `None` while the commander is nil. */
    var thenCommander: Option<seq<string>>
    var thenLongCommander: Option<seq<string>>
    /** The interval of the periodic service; `None` while there is none. */
    var service: Option<int>
    /** The repository operations issued so far. */
    var issued: seq<Op>

    /** A repository as JSON decoding leaves it: configured, with every
        private field at its zero value. */
    constructor New(c: Config)
      ensures url == c.url && path == c.path && tag == c.tag && branch == c.branch
      ensures username == c.username && password == c.password
      ensures singleBranch == c.singleBranch && depth == c.depth && interval == c.interval
      ensures thenCmds == c.thenCommands && thenLongCmds == c.thenLongCommands
      ensures index == 0 && !repo && thenCommander == None && thenLongCommander == None && service == None && issued == []
    {
      url := c.url;
      path := c.path;
      tag := c.tag;
      branch := c.branch;
      username := c.username;
      password := c.password;
      singleBranch := c.singleBranch;
      depth := c.depth;
      interval := c.interval;
      thenCmds := c.thenCommands;
      thenLongCmds := c.thenLongCommands;
      index := 0;
      repo := false;
      thenCommander := None;
      thenLongCommander := None;
      service := None;
      issued := [];
    }

    /** `isRefLatestTag`: the latest-tag keyword, which is never the empty
        tag of branch mode. */
    function IsRefLatestTag(): (b: bool)
      ensures b ==> tag != ""
    {
      tag == LatestTagKeyword
    }

    /** `isRefBranch`: no tag, so never the latest-tag keyword. */
    function IsRefBranch(): (b: bool)
      ensures b ==> tag != LatestTagKeyword
    {
      tag == ""
    }

    /** `isRefTag`: also true in latest-tag mode. */
    function IsRefTag(): (b: bool)
      ensures tag == LatestTagKeyword ==> b
    {
      tag != ""
    }

    /** The three modes partition the configurations, and `isRefTag` is the
        negation of `isRefBranch`. */
    lemma ModesPartition()
      ensures IsRefTag() <==> !IsRefBranch()
      ensures IsRefLatestTag() ==> IsRefTag()
      ensures (IsRefLatestTag() && !IsRefBranch() && !(IsRefTag() && !IsRefLatestTag()))
           || (!IsRefLatestTag() && IsRefBranch() && !(IsRefTag() && !IsRefLatestTag()))
           || (!IsRefLatestTag() && !IsRefBranch() && (IsRefTag() && !IsRefLatestTag()))
    {
      assert LatestTagKeyword[0] == '{';
    }

    /** `auth`: no credential when both are empty; otherwise basic auth with
        the password, the username defaulting to "caddy". */
    function Auth(): (a: Auth)
      ensures a == NoAuth <==> username == "" && password == ""
      ensures a.BasicAuth? ==> a.password == password
      ensures a.BasicAuth? ==> a.username == (if username == "" then "caddy" else username)
    {
      AuthFor(username, password)
    }

    /** `branchReferenceName`: the branch, `master` when none is configured. */
    function BranchReferenceName(): (r: RefName)
      ensures IsBranch(r) && !IsTag(r)
      ensures branch != "" ==> r[|HeadsPrefix|..] == branch
      ensures branch == "" ==> r[|HeadsPrefix|..] == DefaultBranch
    {
      NewBranchReferenceName(if branch == "" then DefaultBranch else branch)
    }

    /** `referenceName`: the branch in branch and latest-tag modes, else the fixed tag. */
    function ReferenceName(): (r: RefName)
      ensures IsBranch(r) <==> IsRefBranch() || IsRefLatestTag()
      ensures IsTag(r) <==> !IsRefBranch() && !IsRefLatestTag()
      ensures IsBranch(r) ==> r == BranchReferenceName()
      ensures IsTag(r) ==> r[|TagsPrefix|..] == tag
    {
      if IsRefBranch() || IsRefLatestTag() then BranchReferenceName()
      else NewTagReferenceName(tag)
    }

    /** `cloneOptions` */
    function CloneOpts(): (o: CloneOptions)
      ensures o.remoteName == DefaultRemote && o.tags == AllTags
      ensures o.url == url && o.referenceName == ReferenceName()
      ensures o.depth == depth && o.auth == Auth() && o.singleBranch == singleBranch
    {
      CloneOptions(url, Auth(), DefaultRemote, ReferenceName(), singleBranch, depth, AllTags)
    }

    /** `fetchOptions` */
    function FetchOpts(): (o: FetchOptions)
      ensures o.remoteName == DefaultRemote && o.tags == AllTags
      ensures o.depth == depth && o.auth == Auth()
    {
      FetchOptions(DefaultRemote, depth, Auth(), AllTags)
    }

    /** `pullOptions` */
    function PullOpts(): (o: PullOptions)
      ensures o.remoteName == DefaultRemote && o.referenceName == ReferenceName()
      ensures o.depth == depth && o.auth == Auth() && o.singleBranch == singleBranch
    {
      PullOptions(DefaultRemote, ReferenceName(), singleBranch, depth, Auth())
    }

    /** `clone`: the handle is taken only when the clone succeeds. */
    method Clone(env: Env) returns (err: Option<Error>)
      modifies this
      ensures err == env.clone
      ensures repo == (old(repo) || env.clone == None)
      ensures issued == old(issued) + [Op.Clone(path, CloneOpts())]
      ensures unchanged(`index, `thenCommander, `thenLongCommander, `service)
    {
      issued := issued + [Op.Clone(path, CloneOpts())];
      err := env.clone;
      if err == None {
        repo := true;
      }
    }

    /** `open`: the handle is taken only when the open succeeds. */
    method Open(env: Env) returns (err: Option<Error>)
      modifies this
      ensures err == env.open
      ensures repo == (old(repo) || env.open == None)
      ensures issued == old(issued) + [Op.Open(path)]
      ensures unchanged(`index, `thenCommander, `thenLongCommander, `service)
    {
      issued := issued + [Op.Open(path)];
      err := env.open;
      if err == None {
        repo := true;
      }
    }

    /** `pull`: already up to date is success. */
    method Pull(env: Env) returns (err: Option<Error>)
      requires repo
      modifies this
      ensures err == Tolerate(env.pull, AlreadyUpToDate)
      ensures issued == old(issued) + [Op.Pull(PullOpts())]
      ensures unchanged(`repo, `index, `thenCommander, `thenLongCommander, `service)
    {
      issued := issued + [Op.Pull(PullOpts())];
      err := env.pull;
      if err == Some(AlreadyUpToDate) {
        return None;
      }
    }

    /** `fetch`: already up to date is success. */
    method Fetch(env: Env) returns (err: Option<Error>)
      requires repo
      modifies this
      ensures err == Tolerate(env.fetch, AlreadyUpToDate)
      ensures issued == old(issued) + [Op.Fetch(FetchOpts())]
      ensures unchanged(`repo, `index, `thenCommander, `thenLongCommander, `service)
    {
      issued := issued + [Op.Fetch(FetchOpts())];
      err := env.fetch;
      if err == Some(AlreadyUpToDate) {
        return None;
      }
    }

    /** `checkout` */
    method Checkout(env: Env, ref: RefName) returns (err: Option<Error>)
      requires repo
      modifies this
      ensures err == env.checkout(ref)
      ensures issued == old(issued) + [Op.Checkout(ref)]
      ensures unchanged(`repo, `index, `thenCommander, `thenLongCommander, `service)
    {
      issued := issued + [Op.Checkout(ref)];
      err := env.checkout(ref);
    }

    /** What `getLatestTag` returns and issues: a fetch (already up to date
        is fine), a checkout of the branch, then the search. */
    function LatestTagOutcome(env: Env): (r: (Result<RefName, Error>, seq<Op>))
      ensures Tolerate(env.fetch, AlreadyUpToDate).Some? ==> r == (Err(env.fetch.value), [Op.Fetch(FetchOpts())])
      ensures Tolerate(env.fetch, AlreadyUpToDate) == None ==>
              r.1 == [Op.Fetch(FetchOpts()), Op.Checkout(BranchReferenceName())]
      ensures Tolerate(env.fetch, AlreadyUpToDate) == None && env.checkout(BranchReferenceName()).Some? ==>
              r.0 == Err(env.checkout(BranchReferenceName()).value)
      ensures Tolerate(env.fetch, AlreadyUpToDate) == None && env.checkout(BranchReferenceName()) == None ==>
              r.0 == TagSearch.SearchOutcome(env)
    {
      if Tolerate(env.fetch, AlreadyUpToDate).Some? then (Err(env.fetch.value), [Op.Fetch(FetchOpts())])
      else
        var ops := [Op.Fetch(FetchOpts()), Op.Checkout(BranchReferenceName())];
        if env.checkout(BranchReferenceName()).Some? then (Err(env.checkout(BranchReferenceName()).value), ops)
        else (TagSearch.SearchOutcome(env), ops)
    }

    /** `getLatestTag` */
    method GetLatestTag(env: Env) returns (r: Result<RefName, Error>)
      requires repo
      modifies this
      ensures r == LatestTagOutcome(env).0 && issued == old(issued) + LatestTagOutcome(env).1
      ensures unchanged(`repo, `index, `thenCommander, `thenLongCommander, `service)
    {
      var err := Fetch(env);
      if err.Some? {
        return Err(err.value);
      }
      err := Checkout(env, BranchReferenceName());
      if err.Some? {
        return Err(err.value);
      }
      r := TagSearch.Search(env);
    }

    /** What `setWTree` returns and issues. In latest-tag mode a found tag is
        checked out, "no tag found" is success and any other error is
        returned; in branch mode the branch is pulled; a fixed tag is left
        alone. */
    function SetWTreeOutcome(env: Env): (r: (Option<Error>, seq<Op>))
      ensures IsRefLatestTag() && LatestTagOutcome(env).0.Ok? ==>
              r == (env.checkout(LatestTagOutcome(env).0.value), LatestTagOutcome(env).1 + [Op.Checkout(LatestTagOutcome(env).0.value)])
      ensures IsRefLatestTag() && LatestTagOutcome(env).0 == Err(NoTag) ==> r == (None, LatestTagOutcome(env).1)
      ensures IsRefLatestTag() && LatestTagOutcome(env).0.Err? && LatestTagOutcome(env).0 != Err(NoTag) ==>
              r == (Some(LatestTagOutcome(env).0.error), LatestTagOutcome(env).1)
      ensures IsRefBranch() ==> r == (Tolerate(env.pull, AlreadyUpToDate), [Op.Pull(PullOpts())])
      ensures !IsRefTag() || IsRefLatestTag() || r == (None, [])
    {
      if IsRefLatestTag() then
        var (t, ops) := LatestTagOutcome(env);
        match t
        case Ok(name) => (env.checkout(name), ops + [Op.Checkout(name)])
        case Err(e) => (if e == NoTag then None else Some(e), ops)
      else if IsRefBranch() then (Tolerate(env.pull, AlreadyUpToDate), [Op.Pull(PullOpts())])
      else (None, [])
    }

    /** `setWTree`. Every path that touches git needs the handle. */
    method SetWTree(env: Env) returns (err: Option<Error>)
      requires repo || (IsRefTag() && !IsRefLatestTag())
      modifies this
      ensures err == SetWTreeOutcome(env).0 && issued == old(issued) + SetWTreeOutcome(env).1
      ensures unchanged(`repo, `index, `thenCommander, `thenLongCommander, `service)
    {
      if IsRefLatestTag() {
        var t := GetLatestTag(env);
        match t {
          case Ok(name) =>
            err := Checkout(env, name);
            return err;
          case Err(e) =>
            if e != NoTag {
              return Some(e);
            }
        }
      } else if IsRefBranch() {
        err := Pull(env);
        if err.Some? {
          return err;
        }
      }
      return None;
    }

    /** `getInterval`: `None` stands for `errNoRunService`, returned for a
        fixed tag and for a negative interval; zero means one hour. */
    function GetInterval(): (r: Option<int>)
      ensures IsRefTag() && !IsRefLatestTag() ==> r == None
      ensures (IsRefBranch() || IsRefLatestTag()) ==>
              (interval < NilDuration ==> r == None)
              && (interval == NilDuration ==> r == Some(Hour))
              && (interval > NilDuration ==> r == Some(interval))
      ensures r.Some? ==> r.value > 0
    {
      if IsRefTag() && !IsRefLatestTag() then None
      else if interval < NilDuration then None
      else if interval == NilDuration then Some(Hour)
      else Some(interval)
    }

    /** `runnerFunc`, with the result of running the `then` commands taken
        as a parameter. It returns the error, whether the `then` commands
        ran and whether the `thenLong` commands were started. */
    method RunnerFunc(env: Env, thenResult: Option<Error>) returns (err: Option<Error>, thenRan: bool, thenLongStarted: bool)
      requires repo || (IsRefTag() && !IsRefLatestTag())
      modifies this
      ensures thenRan <==> SetWTreeOutcome(env).0 == None
      ensures thenLongStarted <==> thenRan && thenResult == None
      ensures err == (if !thenRan then SetWTreeOutcome(env).0 else thenResult)
      ensures issued == old(issued) + SetWTreeOutcome(env).1
      ensures unchanged(`repo, `index, `thenCommander, `thenLongCommander, `service)
    {
      thenRan, thenLongStarted := false, false;
      err := SetWTree(env);
      if err.Some? {
        return;
      }
      thenRan := true;
      err := thenResult;
      if err.Some? {
        return;
      }
      thenLongStarted := true;
    }
  }
}
