/** The `repository` package: a checkout at a path that follows a remote,
    configured from options whose `Branch` may hold an encoded reference. */
module RepositoryPkg {
  import opened Wrappers
  import opened Strings
  import opened Git
  import Utils
  import TagSearch

  const DefaultRemote: string := "origin"
  const DefaultBranch: string := "master"

  datatype Opts = Opts(
    url: string, path: string, remote: string, branch: string,
    username: string, password: string, singleBranch: bool, depth: int)

  /** The reference `New` derives from `Opts.Branch`, and whether updates
      follow the latest tag. */
  datatype Reference = Reference(refName: RefName, fetchLatestTag: bool)

  /** An encoded tag names that tag; any other valid encoding names a branch
      (its name, or the default branch when empty); a string that is not a
      valid encoding is itself the branch name. Only the latest-tag encoding
      turns on tag following, and then the reference is always a branch. */
  function ReferenceFor(branch: string): (r: Reference)
    ensures IsTag(r.refName) <==> Utils.IsValid(branch) && Utils.IsTag(branch)
    ensures IsBranch(r.refName) <==> !IsTag(r.refName)
    ensures r.fetchLatestTag <==> Utils.IsValid(branch) && Utils.IsLatestTag(branch)
    ensures r.fetchLatestTag ==> IsBranch(r.refName)
    ensures !Utils.IsValid(branch) && branch != "" ==> r.refName == NewBranchReferenceName(branch)
    ensures branch == "" ==> r == Reference(NewBranchReferenceName(DefaultBranch), false)
  {
    if !Utils.IsValid(branch) then
      Reference(NewBranchReferenceName(if branch != "" then branch else DefaultBranch), false)
    else
      SplitHasSeveralParts(branch, Utils.Separator);
      var fetchLatestTag := Utils.IsLatestTag(branch);
      if Utils.IsTag(branch) then
        Utils.TypesExclusive(branch);
        Reference(NewTagReferenceName(Utils.Name(branch)), fetchLatestTag)
      else
        var name := Utils.Name(branch);
        Reference(NewBranchReferenceName(if name != "" then name else DefaultBranch), fetchLatestTag)
  }

  /** What each constructor of the encoding turns into. */
  lemma {:induction false} ReferenceForEncoded(name: string)
    requires Utils.Separator !in name
    ensures ReferenceFor(Utils.NewTagReferenceName(name)) == Reference(NewTagReferenceName(name), false)
    ensures ReferenceFor(Utils.NewLatestCommitReferenceName(name)) ==
            Reference(NewBranchReferenceName(if name != "" then name else DefaultBranch), false)
    ensures ReferenceFor(Utils.NewLatestTagReferenceName(name)) ==
            Reference(NewBranchReferenceName(if name != "" then name else DefaultBranch), true)
  {
    Utils.ConstructedIsValid(name, Utils.Tag);
    Utils.ConstructedIsValid(name, Utils.LatestCommit);
    Utils.ConstructedIsValid(name, Utils.LatestTag);
  }

  /** A plain branch name (no separator) is never taken for an encoding. */
  lemma {:induction false} ReferenceForPlainBranch(branch: string)
    requires Utils.Separator !in branch
    ensures ReferenceFor(branch) ==
            Reference(NewBranchReferenceName(if branch != "" then branch else DefaultBranch), false)
  {
    SplitNoSeparator(branch, Utils.Separator);
  }

  /** The plain-branch case the package's tests check. */
  lemma PlainBranchExample()
    ensures ReferenceFor("develop") == Reference(NewBranchReferenceName("develop"), false)
  {
    ReferenceForPlainBranch("develop");
  }

  /** The tag case the package's tests check: "tag|v1.2.3" is the tag
      `v1.2.3`, without the latest-tag mode. */
  lemma EncodedTagExample()
    ensures ReferenceFor(Utils.NewTagReferenceName("v1.2.3")) == Reference(NewTagReferenceName("v1.2.3"), false)
  {
    ReferenceForEncoded("v1.2.3");
  }

  /** The latest-commit case the package's tests check: "latest_commit|upstream"
      is the branch `upstream`, without the latest-tag mode. */
  lemma EncodedLatestCommitExample()
    ensures ReferenceFor(Utils.NewLatestCommitReferenceName("upstream")) == Reference(NewBranchReferenceName("upstream"), false)
  {
    ReferenceForEncoded("upstream");
  }

  /** The latest-tag case the package's tests check: "latest_tag|upstream"
      is the branch `upstream`, in the latest-tag mode. */
  lemma EncodedLatestTagExample()
    ensures ReferenceFor(Utils.NewLatestTagReferenceName("upstream")) == Reference(NewBranchReferenceName("upstream"), true)
  {
    ReferenceForEncoded("upstream");
  }

  /** The remote name: `origin` unless one is given. */
  function RemoteNameFor(remote: string): (name: string)
    ensures name != ""
    ensures remote != "" ==> name == remote
  {
    if remote != "" then remote else DefaultRemote
  }

  class Repository {
    const url: string
    const path: string
    const remoteName: string
    const fetchLatestTag: bool
    const refName: RefName
    const auth: Auth
    const singleBranch: bool
    const depth: int

    /** Whether a go-git repository handle is held (`r.repo != nil`). */
    var repo: bool
    /** The repository operations issued so far. */
    var issued: seq<Op>

    /** `New`. */
    constructor New(opts: Opts)
      ensures url == opts.url && path == opts.path
      ensures singleBranch == opts.singleBranch && depth == opts.depth
      ensures remoteName == RemoteNameFor(opts.remote)
      ensures Reference(refName, fetchLatestTag) == ReferenceFor(opts.branch)
      ensures auth == AuthFor(opts.username, opts.password)
      ensures !repo && issued == []
    {
      url := opts.url;
      path := opts.path;
      singleBranch := opts.singleBranch;
      depth := opts.depth;
      remoteName := RemoteNameFor(opts.remote);
      var ref := ReferenceFor(opts.branch);
      refName := ref.refName;
      fetchLatestTag := ref.fetchLatestTag;
      auth := AuthFor(opts.username, opts.password);
      repo := false;
      issued := [];
    }

    /** The fetch options: the repository's remote, all tags, the
        configured depth and credential. */
    function FetchOpts(): (o: FetchOptions)
      ensures o.remoteName == remoteName && o.tags == AllTags
      ensures o.depth == depth && o.auth == auth
    {
      FetchOptions(remoteName, depth, auth, AllTags)
    }

    /** The pull options: the repository's remote and reference, with the
        configured single-branch flag, depth and credential. */
    function PullOpts(): (o: PullOptions)
      ensures o.remoteName == remoteName && o.referenceName == refName
      ensures o.singleBranch == singleBranch && o.depth == depth && o.auth == auth
    {
      PullOptions(remoteName, refName, singleBranch, depth, auth)
    }

    /** The clone options: the URL, the repository's remote and reference
        and all tags, with the configured single-branch flag, depth and
        credential. */
    function CloneOpts(): (o: CloneOptions)
      ensures o.url == url && o.remoteName == remoteName && o.referenceName == refName && o.tags == AllTags
      ensures o.singleBranch == singleBranch && o.depth == depth && o.auth == auth
    {
      CloneOptions(url, auth, remoteName, refName, singleBranch, depth, AllTags)
    }

    /** What `Setup` returns and issues. An openable path gets its remote
        replaced (a missing remote is fine), a fetch and a checkout of the
        reference; every other error, already-up-to-date included, aborts.
        A path that is not a repository is cloned with all tags; any other
        open error is returned. */
    function SetupOutcome(env: Env): (r: (Option<Error>, seq<Op>))
      ensures env.open == None ==>
        (r.0 == None <==> Tolerate(env.deleteRemote, RemoteNotFound) == None && env.createRemote == None
                          && env.fetch == None && env.checkout(refName) == None)
      ensures (env.open == None && Tolerate(env.deleteRemote, RemoteNotFound) == None && env.createRemote == None
               && env.fetch == Some(AlreadyUpToDate)) ==> r.0 == Some(AlreadyUpToDate)
      ensures env.open == None && r.0 == None ==>
        r.1 == [Open(path), DeleteRemote(remoteName), CreateRemote(remoteName, url), Op.Fetch(FetchOpts()), Op.Checkout(refName)]
      ensures env.open == Some(RepositoryNotExists) ==> r == (env.clone, [Open(path), Clone(path, CloneOpts())])
      ensures env.open.Some? && env.open != Some(RepositoryNotExists) ==> r == (env.open, [Open(path)])
    {
      if env.open == None then
        var issued := [Open(path), DeleteRemote(remoteName)];
        if Tolerate(env.deleteRemote, RemoteNotFound).Some? then (env.deleteRemote, issued)
        else if env.createRemote.Some? then (env.createRemote, issued + [CreateRemote(remoteName, url)])
        else if env.fetch.Some? then (env.fetch, issued + [CreateRemote(remoteName, url), Op.Fetch(FetchOpts())])
        else (env.checkout(refName), issued + [CreateRemote(remoteName, url), Op.Fetch(FetchOpts()), Op.Checkout(refName)])
      else if env.open == Some(RepositoryNotExists) then
        (env.clone, [Open(path), Clone(path, CloneOpts())])
      else
        (env.open, [Open(path)])
    }

    /** `Setup`. */
    method Setup(env: Env) returns (err: Option<Error>)
      modifies this
      ensures err == SetupOutcome(env).0 && issued == old(issued) + SetupOutcome(env).1
      ensures repo <==> env.open == None || (env.open == Some(RepositoryNotExists) && env.clone == None)
    {
      issued := issued + [Open(path)];
      repo := env.open == None;
      if env.open == None {
        err := env.deleteRemote;
        issued := issued + [DeleteRemote(remoteName)];
        if err.Some? && err != Some(RemoteNotFound) {
          return err;
        }
        err := env.createRemote;
        issued := issued + [CreateRemote(remoteName, url)];
        if err.Some? {
          return err;
        }
        err := Fetch(env);
        if err.Some? {
          return err;
        }
        err := Checkout(env, refName);
        if err.Some? {
          return err;
        }
        return None;
      } else if env.open != Some(RepositoryNotExists) {
        return env.open;
      }
      repo := env.clone == None;
      issued := issued + [Clone(path, CloneOpts())];
      err := env.clone;
    }

    /** `fetch`: go-git's answer, already-up-to-date included, is returned unchanged. */
    method Fetch(env: Env) returns (err: Option<Error>)
      modifies this
      ensures err == env.fetch
      ensures issued == old(issued) + [Op.Fetch(FetchOpts())] && repo == old(repo)
    {
      issued := issued + [Op.Fetch(FetchOpts())];
      err := env.fetch;
    }

    /** `pull`: go-git's answer, already-up-to-date included, is returned unchanged. */
    method Pull(env: Env) returns (err: Option<Error>)
      requires repo
      modifies this
      ensures err == env.pull
      ensures issued == old(issued) + [Op.Pull(PullOpts())] && repo == old(repo)
    {
      issued := issued + [Op.Pull(PullOpts())];
      err := env.pull;
    }

    /** `checkout`. */
    method Checkout(env: Env, ref: RefName) returns (err: Option<Error>)
      requires repo
      modifies this
      ensures err == env.checkout(ref)
      ensures issued == old(issued) + [Op.Checkout(ref)] && repo == old(repo)
    {
      issued := issued + [Op.Checkout(ref)];
      err := env.checkout(ref);
    }

    /** What `getLatestTag` returns and issues: a fetch and a checkout of the
        configured branch, whose errors (already-up-to-date included) are
        returned, then the search. */
    function LatestTagOutcome(env: Env): (r: (Result<RefName, Error>, seq<Op>))
      ensures env.fetch.Some? ==> r == (Err(env.fetch.value), [Op.Fetch(FetchOpts())])
      ensures env.fetch == None && env.checkout(refName).Some? ==>
              r == (Err(env.checkout(refName).value), [Op.Fetch(FetchOpts()), Op.Checkout(refName)])
      ensures env.fetch == None && env.checkout(refName) == None ==>
              r == (TagSearch.SearchOutcome(env), [Op.Fetch(FetchOpts()), Op.Checkout(refName)])
    {
      if env.fetch.Some? then (Err(env.fetch.value), [Op.Fetch(FetchOpts())])
      else if env.checkout(refName).Some? then (Err(env.checkout(refName).value), [Op.Fetch(FetchOpts()), Op.Checkout(refName)])
      else (TagSearch.SearchOutcome(env), [Op.Fetch(FetchOpts()), Op.Checkout(refName)])
    }

    /** `getLatestTag`. */
    method GetLatestTag(env: Env) returns (r: Result<RefName, Error>)
      requires repo
      modifies this
      ensures r == LatestTagOutcome(env).0 && issued == old(issued) + LatestTagOutcome(env).1
      ensures repo == old(repo)
    {
      var err := Fetch(env);
      if err.Some? {
        return Err(err.value);
      }
      err := Checkout(env, refName);
      if err.Some? {
        return Err(err.value);
      }
      r := TagSearch.Search(env);
    }

    /** What `Update` returns and issues. Latest-tag mode checks out the tag
        found, does nothing when there is none and returns any other error
        (so an already-up-to-date fetch fails it); a branch is pulled and the
        pull's answer returned unchanged; a fixed tag is left alone. */
    function UpdateOutcome(env: Env): (r: (Option<Error>, seq<Op>))
      ensures fetchLatestTag && LatestTagOutcome(env).0.Ok? ==>
              r == (env.checkout(LatestTagOutcome(env).0.value), LatestTagOutcome(env).1 + [Op.Checkout(LatestTagOutcome(env).0.value)])
      ensures fetchLatestTag && LatestTagOutcome(env).0 == Err(NoTag) ==> r == (None, LatestTagOutcome(env).1)
      ensures fetchLatestTag && LatestTagOutcome(env).0.Err? && LatestTagOutcome(env).0 != Err(NoTag) ==>
              r == (Some(LatestTagOutcome(env).0.error), LatestTagOutcome(env).1)
      ensures fetchLatestTag && env.fetch == Some(AlreadyUpToDate) ==> r.0 == Some(AlreadyUpToDate)
      ensures !fetchLatestTag && IsBranch(refName) ==> r == (env.pull, [Op.Pull(PullOpts())])
      ensures !fetchLatestTag && !IsBranch(refName) ==> r == (None, [])
    {
      if fetchLatestTag then
        var (tag, ops) := LatestTagOutcome(env);
        match tag
        case Ok(t) => (env.checkout(t), ops + [Op.Checkout(t)])
        case Err(e) => if e == NoTag then (None, ops) else (Some(e), ops)
      else if IsBranch(refName) then (env.pull, [Op.Pull(PullOpts())])
      else (None, [])
    }

    /** `Update`. Go dereferences the repository handle on every path that
        touches git, so those paths need one. */
    method Update(env: Env) returns (err: Option<Error>)
      requires repo || (!fetchLatestTag && !IsBranch(refName))
      modifies this
      ensures err == UpdateOutcome(env).0 && issued == old(issued) + UpdateOutcome(env).1
      ensures repo == old(repo)
    {
      if fetchLatestTag {
        var tag := GetLatestTag(env);
        match tag
        case Ok(t) =>
          err := Checkout(env, t);
          return err;
        case Err(e) =>
          if e != NoTag {
            return Some(e);
          }
      } else if IsBranch(refName) {
        err := Pull(env);
        if err.Some? {
          return err;
        }
      }
      return None;
    }
  }
}
