/** The parts of go-git the core touches, as abstract data: reference names,
    the error values the code compares against, basic-auth credentials, the
    option records handed to clone/fetch/pull, a trace of the repository
    operations issued, and the oracle that decides what each operation returns. */
module Git {
  import opened Wrappers
  import opened Strings

  /** plumbing.ReferenceName */
  type RefName = string

  /** A commit hash. */
  type Hash = string

  const HeadsPrefix: string := "refs/heads/"
  const TagsPrefix: string := "refs/tags/"

  predicate IsBranch(r: RefName) {
    HasPrefix(r, HeadsPrefix)
  }

  predicate IsTag(r: RefName) {
    HasPrefix(r, TagsPrefix)
  }

  /** No reference name is both a branch and a tag ("refs/h…" against "refs/t…"). */
  lemma BranchNotTag(r: RefName)
    ensures !(IsBranch(r) && IsTag(r))
  {
    if IsBranch(r) {
      assert r[..|TagsPrefix|][5] == r[..|HeadsPrefix|][5] == 'h';
    }
  }

  /** plumbing.NewBranchReferenceName */
  function NewBranchReferenceName(name: string): (r: RefName)
    ensures IsBranch(r) && !IsTag(r)
    ensures r[|HeadsPrefix|..] == name
  {
    PrefixOfConcat(HeadsPrefix, name);
    BranchNotTag(HeadsPrefix + name);
    HeadsPrefix + name
  }

  /** plumbing.NewTagReferenceName */
  function NewTagReferenceName(name: string): (r: RefName)
    ensures IsTag(r) && !IsBranch(r)
    ensures r[|TagsPrefix|..] == name
  {
    PrefixOfConcat(TagsPrefix, name);
    BranchNotTag(TagsPrefix + name);
    TagsPrefix + name
  }

  /** The error values the core distinguishes. `AlreadyUpToDate` is go-git's
      `NoErrAlreadyUpToDate`, which go-git returns as an error; `NoTag` stands
      for each package's own `errNoTag`; `RefNotFound` is the error `setRef`
      formats in client/repository.go; anything else is `Failure`. */
  datatype Error =
    | RemoteNotFound
    | RepositoryNotExists
    | RepositoryAlreadyExists
    | AlreadyUpToDate
    | NoTag
    | RefNotFound(name: string)
    | Failure(reason: string)

  /** `err` with one expected error value turned into success. */
  function Tolerate(err: Option<Error>, expected: Error): (r: Option<Error>)
    ensures r == None <==> err == None || err == Some(expected)
    ensures r != None ==> r == err
  {
    if err == Some(expected) then None else err
  }

  /** transport.AuthMethod: nil or an http.BasicAuth. */
  datatype Auth = NoAuth | BasicAuth(username: string, password: string)

  /** The credential every generation derives from a username and a password:
      none when both are empty; otherwise basic auth carrying the password,
      with the username defaulting to "caddy". */
  function AuthFor(username: string, password: string): (a: Auth)
    ensures a == NoAuth <==> username == "" && password == ""
    ensures a.BasicAuth? ==> a.password == password && a.username != ""
    ensures a.BasicAuth? && username != "" ==> a.username == username
    ensures a.BasicAuth? && username == "" ==> a.username == "caddy"
  {
    if username == "" && password == "" then NoAuth
    else BasicAuth(if username == "" then "caddy" else username, password)
  }

  /** git.AllTags, the only tag mode the core uses. */
  datatype TagMode = AllTags

  datatype CloneOptions = CloneOptions(
    url: string, auth: Auth, remoteName: string, referenceName: RefName,
    singleBranch: bool, depth: int, tags: TagMode)

  datatype FetchOptions = FetchOptions(
    remoteName: string, depth: int, auth: Auth, tags: TagMode)

  datatype PullOptions = PullOptions(
    remoteName: string, referenceName: RefName, singleBranch: bool, depth: int, auth: Auth)

  /** The repository operations the code issues, in order: opening, cloning,
      remote configuration, fetches, pulls and checkouts. Read-only queries
      (tags, head, log) are not recorded. */
  datatype Op =
    | Open(path: string)
    | FetchRemote(url: string, fetchOptions: FetchOptions)
    | ListRemote(url: string, auth: Auth)
    | DeleteRemote(name: string)
    | CreateRemote(name: string, url: string)
    | Fetch(fetchOptions: FetchOptions)
    | Clone(path: string, cloneOptions: CloneOptions)
    | Pull(pullOptions: PullOptions)
    | Checkout(ref: RefName)

  /** A tag reference: the hash the reference holds (for an annotated tag,
      the tag object's, not the commit's) and its full name. */
  datatype TagRef = TagRef(hash: Hash, name: RefName)

  /** What each go-git call returns during one operation of the core. A
      worktree lookup failing is folded into the pull or checkout outcome. */
  datatype Env = Env(
    open: Option<Error>,
    deleteRemote: Option<Error>,
    createRemote: Option<Error>,
    fetch: Option<Error>,
    clone: Option<Error>,
    pull: Option<Error>,
    checkout: RefName -> Option<Error>,
    tags: Result<seq<TagRef>, Error>,
    head: Option<Error>,
    log: Result<seq<Hash>, Error>,
    remoteFetch: Option<Error>,
    remoteList: Result<seq<RefName>, Error>)
}
