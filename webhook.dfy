/** The `services/webhook` package's common part: the hook configuration,
    the request check every hook applies first, and the rule both hooks use
    to decide whether a pushed reference concerns the repository. */
module Webhook {
  import opened Wrappers
  import opened Git
  import opened RepositoryInfo

  const MethodPost: string := "POST"
  const StatusOK: int := 200
  const StatusBadRequest: int := 400
  const StatusRequestTimeout: int := 408

  /** `HookConf`: the secret and the repository the hook judges events for. */
  datatype HookConf = HookConf(secret: string, repoInfo: RepositoryInfo)

  /** A request as the hooks see it: the method, the outcome of reading the
      body (the body or the read error), and the `X-Hub-Signature` and
      `X-Github-Event` header values, empty when absent. */
  datatype Request = Request(httpMethod: string, body: Result<string, string>, signature: string, event: string)

  /** What `Handle` returns: a status code and an error. */
  datatype Reply = Reply(status: int, err: Option<string>)

  /** JSON decoding of the payloads, and the signature digest, which are not
      part of this model: the `ref` of a push body, the `release.tag_name`
      of a release body (each, or the decoding error), and the lowercase hex
      HMAC-SHA1 (RFC 2104) of a body under a secret. */
  datatype Codec = Codec(
    pushRef: string -> Result<string, string>,
    releaseTag: string -> Result<string, string>,
    hmac: (string, string) -> string)

  /** `ValidateRequest`: nil exactly for the `POST` method; otherwise an
      error naming `POST` and the method received. Only the method counts. */
  function ValidateRequest(req: Request): (err: Option<string>)
    ensures err == None <==> req.httpMethod == MethodPost
    ensures err.Some? ==> err.value == "only " + MethodPost + " method accepted; got " + req.httpMethod
  {
    if req.httpMethod != MethodPost then Some("only " + MethodPost + " method accepted; got " + req.httpMethod) else None
  }

  /** Whether a push to `ref` concerns the repository: a branch must be the
      configured reference; a tag is welcome when the repository follows its
      latest tag, and otherwise must be the configured reference; nothing
      else is. */
  predicate PushAccepted(ref: RefName, info: RepositoryInfo) {
    (IsBranch(ref) && ref == info.referenceName)
    || (IsTag(ref) && (info.latestTag || ref == info.referenceName))
  }

  /** The reply to a push of `ref`: 200 and nil when it concerns the
      repository, 400 with an error naming the branch or tag (or saying the
      ref is neither) otherwise. */
  function PushDecision(ref: RefName, info: RepositoryInfo): (r: Reply)
    ensures r.status == StatusOK <==> PushAccepted(ref, info)
    ensures r.status != StatusOK ==> r.status == StatusBadRequest
    ensures r.err == None <==> r.status == StatusOK
    ensures IsBranch(ref) && !PushAccepted(ref, info) ==> r.err == Some("event: push to branch " + ref)
    ensures IsTag(ref) && !PushAccepted(ref, info) ==> r.err == Some("event: push to tag " + ref)
    ensures !IsBranch(ref) && !IsTag(ref) ==> r.err == Some("refName is neither a tag or a branch")
  {
    BranchNotTag(ref);
    if IsBranch(ref) then
      if ref != info.referenceName then Reply(StatusBadRequest, Some("event: push to branch " + ref))
      else Reply(StatusOK, None)
    else if IsTag(ref) then
      if !info.latestTag && ref != info.referenceName then Reply(StatusBadRequest, Some("event: push to tag " + ref))
      else Reply(StatusOK, None)
    else
      Reply(StatusBadRequest, Some("refName is neither a tag or a branch"))
  }
}
