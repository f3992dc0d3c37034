/** The `client` package's repository: the reference is chosen at setup time
    by looking the configured branch up in the remote's reference list. */
module ClientRepository {
  import opened Wrappers
  import opened Git
  import TagSearch

  const DefaultRemote: string := "origin"
  const DefaultBranch: string := "master"

  datatype RepositoryOpts = RepositoryOpts(
    url: string, path: string, branch: string,
    username: string, password: string, singleBranch: bool, depth: int)

  /** The reference the `setRef` loop settles on: the first listed entry that
      is either the branch or the tag of that name. Within one entry the
      branch is tested first, but list order decides between entries. */
  function FirstMatch(refs: seq<RefName>, branchRef: RefName, tagRef: RefName): (r: Option<RefName>)
    ensures r == None <==> branchRef !in refs && tagRef !in refs
    ensures r.Some? ==> r.value == branchRef || r.value == tagRef
    ensures r.Some? ==> ListedFirst(refs, branchRef, tagRef, r.value)
    decreases |refs|
  {
    if refs == [] then None
    else if refs[0] == branchRef then Some(branchRef)
    else if refs[0] == tagRef then Some(tagRef)
    else
      var r := FirstMatch(refs[1..], branchRef, tagRef);
      if r.Some? then
        FirstListedShift(refs, branchRef, tagRef, r.value);
        r
      else
        assert refs == [refs[0]] + refs[1..];
        r
  }

  /** Whether `v` is listed at a position before which neither reference is. */
  ghost predicate ListedFirst(refs: seq<RefName>, branchRef: RefName, tagRef: RefName, v: RefName) {
    exists i :: 0 <= i < |refs| && refs[i] == v
                && forall k :: 0 <= k < i ==> refs[k] != branchRef && refs[k] != tagRef
  }

  /** A match listed first after an entry that is neither reference is
      listed first in the whole list. */
  lemma FirstListedShift(refs: seq<RefName>, branchRef: RefName, tagRef: RefName, v: RefName)
    requires refs != [] && refs[0] != branchRef && refs[0] != tagRef
    requires ListedFirst(refs[1..], branchRef, tagRef, v)
    ensures ListedFirst(refs, branchRef, tagRef, v)
  {
    var i :| 0 <= i < |refs[1..]| && refs[1..][i] == v
             && forall k :: 0 <= k < i ==> refs[1..][k] != branchRef && refs[1..][k] != tagRef;
    assert refs[i + 1] == v;
    forall k | 0 <= k < i + 1
      ensures refs[k] != branchRef && refs[k] != tagRef
    {
      if k > 0 {
        assert refs[k] == refs[1..][k - 1];
      }
    }
  }

  /** A name listed both as a branch and as a tag resolves to whichever
      comes first in the list. */
  lemma {:induction false} ListOrderDecides(refs: seq<RefName>, name: string, i: nat, j: nat)
    requires i < |refs| && j < |refs|
    requires refs[i] == NewBranchReferenceName(name) && refs[j] == NewTagReferenceName(name)
    ensures i < j && (forall k :: 0 <= k < i ==> refs[k] != NewTagReferenceName(name)) ==>
            FirstMatch(refs, NewBranchReferenceName(name), NewTagReferenceName(name)) == Some(NewBranchReferenceName(name))
    ensures j < i && (forall k :: 0 <= k < j ==> refs[k] != NewBranchReferenceName(name)) ==>
            FirstMatch(refs, NewBranchReferenceName(name), NewTagReferenceName(name)) == Some(NewTagReferenceName(name))
  {
    var b := NewBranchReferenceName(name);
    var t := NewTagReferenceName(name);
    var r := FirstMatch(refs, b, t);
    if i < j && (forall k :: 0 <= k < i ==> refs[k] != t) {
      var m :| 0 <= m < |refs| && refs[m] == r.value && forall k :: 0 <= k < m ==> refs[k] != b && refs[k] != t;
      assert m <= i;
    }
    if j < i && (forall k :: 0 <= k < j ==> refs[k] != b) {
      var m :| 0 <= m < |refs| && refs[m] == r.value && forall k :: 0 <= k < m ==> refs[k] != b && refs[k] != t;
      assert m <= j;
    }
  }

  /** The `setRef` loop: walk the listed references and stop at the first
      one that is the branch or the tag. */
  method FindRef(refs: seq<RefName>, branchRef: RefName, tagRef: RefName) returns (found: Option<RefName>)
    ensures found == FirstMatch(refs, branchRef, tagRef)
  {
    found := None;
    var i := 0;
    while i < |refs|
      invariant 0 <= i <= |refs|
      invariant FirstMatch(refs, branchRef, tagRef) == FirstMatch(refs[i..], branchRef, tagRef)
    {
      assert refs[i..] == [refs[i]] + refs[i + 1..];
      if refs[i] == branchRef {
        found := Some(branchRef);
        break;
      }
      if refs[i] == tagRef {
        found := Some(tagRef);
        break;
      }
      i := i + 1;
    }
  }

  class Repository {
    const url: string
    const path: string
    const branch: string
    const auth: Auth
    const singleBranch: bool
    const depth: int
    /** Never assigned by `NewRepository`, so it keeps Go's zero value. */
    const fetchLatestTag: bool

    var refName: RefName
    /** Whether a go-git repository handle is held (`r.repo != nil`). */
    var repo: bool
    /** The repository operations issued so far. */
    var issued: seq<Op>

    /** `NewRepository`. */
    constructor NewRepository(opts: RepositoryOpts)
      ensures url == opts.url && path == opts.path && branch == opts.branch
      ensures singleBranch == opts.singleBranch && depth == opts.depth
      ensures auth == AuthFor(opts.username, opts.password)
      ensures !fetchLatestTag && refName == "" && !repo && issued == []
    {
      url := opts.url;
      path := opts.path;
      branch := opts.branch;
      singleBranch := opts.singleBranch;
      depth := opts.depth;
      auth := AuthFor(opts.username, opts.password);
      fetchLatestTag := false;
      refName := "";
      repo := false;
      issued := [];
    }

    /** The fetch options: the default remote, all tags, the configured
        depth and credential. */
    function FetchOpts(): (o: FetchOptions)
      ensures o.remoteName == DefaultRemote && o.tags == AllTags
      ensures o.depth == depth && o.auth == auth
    {
      FetchOptions(DefaultRemote, depth, auth, AllTags)
    }

    /** The pull options: the default remote and the given reference, with
        the configured single-branch flag, depth and credential. */
    function PullOpts(ref: RefName): (o: PullOptions)
      ensures o.remoteName == DefaultRemote && o.referenceName == ref
      ensures o.singleBranch == singleBranch && o.depth == depth && o.auth == auth
    {
      PullOptions(DefaultRemote, ref, singleBranch, depth, auth)
    }

    /** The clone options: the URL, the default remote, the given
        reference and all tags, with the configured single-branch flag,
        depth and credential. */
    function CloneOpts(ref: RefName): (o: CloneOptions)
      ensures o.url == url && o.remoteName == DefaultRemote && o.referenceName == ref && o.tags == AllTags
      ensures o.singleBranch == singleBranch && o.depth == depth && o.auth == auth
    {
      CloneOptions(url, auth, DefaultRemote, ref, singleBranch, depth, AllTags)
    }

    /** What `setRef` returns, the reference it leaves and the operations it
        issues, starting from reference `prev`. The remote's fetch may be
        already up to date; any other fetch or listing error is returned with
        the reference untouched. An empty branch selects `master`; otherwise
        the first matching entry is taken, and when nothing matches the
        reference stays as it was and is an error if still empty. */
    function SetRefOutcome(env: Env, prev: RefName): (r: (Option<Error>, RefName, seq<Op>))
      ensures Tolerate(env.remoteFetch, AlreadyUpToDate).Some? ==>
              r == (env.remoteFetch, prev, [FetchRemote(url, FetchOpts())])
      ensures Tolerate(env.remoteFetch, AlreadyUpToDate) == None && env.remoteList.Err? ==>
              r == (Some(env.remoteList.error), prev, [FetchRemote(url, FetchOpts()), ListRemote(url, auth)])
      ensures Tolerate(env.remoteFetch, AlreadyUpToDate) == None && env.remoteList.Ok? ==>
              r.2 == [FetchRemote(url, FetchOpts()), ListRemote(url, auth)]
      ensures Tolerate(env.remoteFetch, AlreadyUpToDate) == None && env.remoteList.Ok? && branch == "" ==>
              r.0 == None && r.1 == NewBranchReferenceName(DefaultBranch)
      ensures Tolerate(env.remoteFetch, AlreadyUpToDate) == None && env.remoteList.Ok? && branch != "" ==>
              var found := FirstMatch(env.remoteList.value, NewBranchReferenceName(branch), NewTagReferenceName(branch));
              (found.Some? ==> r.0 == None && r.1 == found.value)
              && (found == None && prev == "" ==> r.0 == Some(RefNotFound(branch)) && r.1 == "")
              && (found == None && prev != "" ==> r.0 == None && r.1 == prev)
    {
      var listed := [FetchRemote(url, FetchOpts()), ListRemote(url, auth)];
      if Tolerate(env.remoteFetch, AlreadyUpToDate).Some? then (env.remoteFetch, prev, [FetchRemote(url, FetchOpts())])
      else if env.remoteList.Err? then (Some(env.remoteList.error), prev, listed)
      else if branch == "" then (None, NewBranchReferenceName(DefaultBranch), listed)
      else
        var ref := FirstMatch(env.remoteList.value, NewBranchReferenceName(branch), NewTagReferenceName(branch)).GetOr(prev);
        (if ref == "" then Some(RefNotFound(branch)) else None, ref, listed)
    }

    /** `setRef`. */
    method SetRef(env: Env) returns (err: Option<Error>)
      modifies this
      ensures (err, refName, issued) ==
              (SetRefOutcome(env, old(refName)).0, SetRefOutcome(env, old(refName)).1, old(issued) + SetRefOutcome(env, old(refName)).2)
      ensures repo == old(repo)
    {
      issued := issued + [FetchRemote(url, FetchOpts())];
      if env.remoteFetch.Some? && env.remoteFetch != Some(AlreadyUpToDate) {
        return env.remoteFetch;
      }
      issued := issued + [ListRemote(url, auth)];
      assert issued == old(issued) + [FetchRemote(url, FetchOpts()), ListRemote(url, auth)];
      if env.remoteList.Err? {
        return Some(env.remoteList.error);
      }
      var refs := env.remoteList.value;
      if branch == "" {
        refName := NewBranchReferenceName(DefaultBranch);
      } else {
        var found := FindRef(refs, NewBranchReferenceName(branch), NewTagReferenceName(branch));
        if found.Some? {
          refName := found.value;
        }
        if refName == "" {
          return Some(RefNotFound(branch));
        }
      }
      return None;
    }

    /** What `Setup` returns, the reference it leaves and the operations it
        issues: `setRef` first, whose failure ends it before the path is
        touched; then an openable path gets its remote replaced (a missing
        remote is fine), a fetch that may be already up to date and a
        checkout of the chosen reference; a path that is not a repository is
        cloned with all tags; any other open error is returned. */
    function SetupOutcome(env: Env, prev: RefName): (r: (Option<Error>, RefName, seq<Op>))
      ensures SetRefOutcome(env, prev).0.Some? ==> r == SetRefOutcome(env, prev)
      ensures SetRefOutcome(env, prev).0 == None ==> r.1 == SetRefOutcome(env, prev).1
      ensures SetRefOutcome(env, prev).0 == None && env.open == None ==>
        (r.0 == None <==> Tolerate(env.deleteRemote, RemoteNotFound) == None && env.createRemote == None
                          && Tolerate(env.fetch, AlreadyUpToDate) == None && env.checkout(r.1) == None)
      ensures SetRefOutcome(env, prev).0 == None && env.open == Some(RepositoryNotExists) ==>
        r == (env.clone, r.1, SetRefOutcome(env, prev).2 + [Open(path)] + [Clone(path, CloneOpts(r.1))])
      ensures SetRefOutcome(env, prev).0 == None && env.open.Some? && env.open != Some(RepositoryNotExists) ==>
        r == (env.open, r.1, SetRefOutcome(env, prev).2 + [Open(path)])
    {
      var (err, ref, ops) := SetRefOutcome(env, prev);
      if err.Some? then (err, ref, ops)
      else
        var issued := ops + [Open(path)];
        if env.open == None then (ReuseOutcome(env, ref).0, ref, issued + ReuseOutcome(env, ref).1)
        else if env.open == Some(RepositoryNotExists) then
          (env.clone, ref, issued + [Clone(path, CloneOpts(ref))])
        else (env.open, ref, issued)
    }

    /** What `Setup` returns and issues once the path opens as a repository:
        the remote deleted (a missing one tolerated) and recreated, a fetch
        (already up to date tolerated) and a checkout of `ref`. */
    function ReuseOutcome(env: Env, ref: RefName): (r: (Option<Error>, seq<Op>))
      ensures r.0 == None <==> Tolerate(env.deleteRemote, RemoteNotFound) == None && env.createRemote == None
                               && Tolerate(env.fetch, AlreadyUpToDate) == None && env.checkout(ref) == None
      ensures |r.1| >= 1 && r.1[0] == DeleteRemote(DefaultRemote)
    {
      var issued := [DeleteRemote(DefaultRemote)];
      if Tolerate(env.deleteRemote, RemoteNotFound).Some? then (env.deleteRemote, issued)
      else
        var issued := issued + [CreateRemote(DefaultRemote, url)];
        if env.createRemote.Some? then (env.createRemote, issued)
        else
          var issued := issued + [Op.Fetch(FetchOpts())];
          if Tolerate(env.fetch, AlreadyUpToDate).Some? then (env.fetch, issued)
          else (env.checkout(ref), issued + [Op.Checkout(ref)])
    }

    /** The reuse branch of `Setup`, on an opened repository. */
    method Reuse(env: Env) returns (err: Option<Error>)
      requires repo
      modifies this
      ensures err == ReuseOutcome(env, refName).0 && issued == old(issued) + ReuseOutcome(env, refName).1
      ensures repo == old(repo) && refName == old(refName)
    {
      err := env.deleteRemote;
      issued := issued + [DeleteRemote(DefaultRemote)];
      ghost var ops := [DeleteRemote(DefaultRemote)];
      if err.Some? && err != Some(RemoteNotFound) {
        return err;
      }
      err := env.createRemote;
      issued := issued + [CreateRemote(DefaultRemote, url)];
      ops := ops + [CreateRemote(DefaultRemote, url)];
      if err.Some? {
        assert issued == old(issued) + ops;
        return err;
      }
      err := Fetch(env);
      ops := ops + [Op.Fetch(FetchOpts())];
      if err.Some? && err != Some(AlreadyUpToDate) {
        assert issued == old(issued) + ops;
        return err;
      }
      err := Checkout(env, refName);
      assert issued == old(issued) + (ops + [Op.Checkout(refName)]);
      if err.Some? {
        return err;
      }
      return None;
    }

    /** `Setup`. */
    method Setup(env: Env) returns (err: Option<Error>)
      modifies this
      ensures (err, refName, issued) ==
              (SetupOutcome(env, old(refName)).0, SetupOutcome(env, old(refName)).1, old(issued) + SetupOutcome(env, old(refName)).2)
      ensures SetRefOutcome(env, old(refName)).0.Some? ==> repo == old(repo)
      ensures SetRefOutcome(env, old(refName)).0 == None ==>
              (repo <==> env.open == None || (env.open == Some(RepositoryNotExists) && env.clone == None))
    {
      err := SetRef(env);
      if err.Some? {
        return err;
      }
      ghost var ops := SetRefOutcome(env, old(refName)).2 + [Open(path)];
      issued := issued + [Open(path)];
      assert issued == old(issued) + ops;
      repo := env.open == None;
      if env.open == None {
        err := Reuse(env);
        assert issued == old(issued) + (ops + ReuseOutcome(env, refName).1);
        return err;
      } else if env.open != Some(RepositoryNotExists) {
        return env.open;
      }
      repo := env.clone == None;
      issued := issued + [Clone(path, CloneOpts(refName))];
      assert issued == old(issued) + (ops + [Clone(path, CloneOpts(refName))]);
      err := env.clone;
    }

    /** `fetch`: go-git's answer, already-up-to-date included, is returned unchanged. */
    method Fetch(env: Env) returns (err: Option<Error>)
      modifies this
      ensures err == env.fetch
      ensures issued == old(issued) + [Op.Fetch(FetchOpts())]
      ensures repo == old(repo) && refName == old(refName)
    {
      issued := issued + [Op.Fetch(FetchOpts())];
      err := env.fetch;
    }

    /** `pull`: go-git's answer, already-up-to-date included, is returned unchanged. */
    method Pull(env: Env) returns (err: Option<Error>)
      requires repo
      modifies this
      ensures err == env.pull
      ensures issued == old(issued) + [Op.Pull(PullOpts(refName))]
      ensures repo == old(repo) && refName == old(refName)
    {
      issued := issued + [Op.Pull(PullOpts(refName))];
      err := env.pull;
    }

    /** `checkout`. */
    method Checkout(env: Env, ref: RefName) returns (err: Option<Error>)
      requires repo
      modifies this
      ensures err == env.checkout(ref)
      ensures issued == old(issued) + [Op.Checkout(ref)]
      ensures repo == old(repo) && refName == old(refName)
    {
      issued := issued + [Op.Checkout(ref)];
      err := env.checkout(ref);
    }

    /** What `getLatestTag` returns and issues: a fetch whose every error,
        already-up-to-date included, is returned, a checkout of the
        reference, then the search. */
    function LatestTagOutcome(env: Env): (r: (Result<RefName, Error>, seq<Op>))
      reads this
      ensures env.fetch.Some? ==> r == (Err(env.fetch.value), [Op.Fetch(FetchOpts())])
      ensures env.fetch == None && env.checkout(refName).Some? ==>
              r == (Err(env.checkout(refName).value), [Op.Fetch(FetchOpts()), Op.Checkout(refName)])
      ensures env.fetch == None && env.checkout(refName) == None ==>
              r == (TagSearch.SearchOutcome(env), [Op.Fetch(FetchOpts()), Op.Checkout(refName)])
    {
      if env.fetch.Some? then (Err(env.fetch.value), [Op.Fetch(FetchOpts())])
      else if env.checkout(refName).Some? then (Err(env.checkout(refName).value), [Op.Fetch(FetchOpts()), Op.Checkout(refName)])
      else (TagSearch.SearchOutcome(env), [Op.Fetch(FetchOpts()), Op.Checkout(refName)])
    }

    /** `getLatestTag`. */
    method GetLatestTag(env: Env) returns (r: Result<RefName, Error>)
      requires repo
      modifies this
      ensures r == old(LatestTagOutcome(env)).0 && issued == old(issued) + old(LatestTagOutcome(env)).1
      ensures repo == old(repo) && refName == old(refName)
    {
      var err := Fetch(env);
      if err.Some? {
        return Err(err.value);
      }
      err := Checkout(env, refName);
      if err.Some? {
        return Err(err.value);
      }
      r := TagSearch.Search(env);
    }

    /** What `Update` returns and issues. In latest-tag mode every search
        error, "no tag found" included, is returned, and a found tag is
        checked out; otherwise a branch reference is pulled and the pull's
        answer returned unchanged, and a tag reference is left alone. */
    function UpdateOutcome(env: Env): (r: (Option<Error>, seq<Op>))
      reads this
      ensures fetchLatestTag && LatestTagOutcome(env).0.Err? ==>
              r == (Some(LatestTagOutcome(env).0.error), LatestTagOutcome(env).1)
      ensures fetchLatestTag && LatestTagOutcome(env).0.Ok? ==>
              r == (env.checkout(LatestTagOutcome(env).0.value), LatestTagOutcome(env).1 + [Op.Checkout(LatestTagOutcome(env).0.value)])
      ensures !fetchLatestTag && IsBranch(refName) ==> r == (env.pull, [Op.Pull(PullOpts(refName))])
      ensures !fetchLatestTag && !IsBranch(refName) ==> r == (None, [])
    {
      if fetchLatestTag then
        var (tag, ops) := LatestTagOutcome(env);
        match tag
        case Ok(t) => (env.checkout(t), ops + [Op.Checkout(t)])
        case Err(e) => (Some(e), ops)
      else if IsBranch(refName) then (env.pull, [Op.Pull(PullOpts(refName))])
      else (None, [])
    }

    /** `Update`. Go dereferences the repository handle on every path that
        touches git, so those paths need one. */
    method Update(env: Env) returns (err: Option<Error>)
      requires repo || (!fetchLatestTag && !IsBranch(refName))
      modifies this
      ensures err == old(UpdateOutcome(env)).0 && issued == old(issued) + old(UpdateOutcome(env)).1
      ensures repo == old(repo) && refName == old(refName)
    {
      if fetchLatestTag {
        var lt := GetLatestTag(env);
        if lt.Err? {
          return Some(lt.error);
        }
        err := Checkout(env, lt.value);
        return err;
      }
      if IsBranch(refName) {
        err := Pull(env);
        if err.Some? {
          return err;
        }
      }
      return None;
    }
  }
}
