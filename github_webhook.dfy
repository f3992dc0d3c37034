/** The GitHub hook (`services/webhook/github`): a POST, signed when it
    carries a signature, whose event is a ping, a push of a followed
    reference, or a release while the repository follows its latest tag. */
module GitHubWebhook {
  import opened Wrappers
  import opened Webhook

  /** The outcome of the signature check: the request goes on, or is refused
      with a reply, or (as written) the handler panics. */
  datatype Gate = Pass | Refuse(reply: Reply) | Panicked

  /** The signature check as the source writes it. It runs only when the
      header is present; an empty secret is refused; the header from index 5
      on must equal the digest. A header of one to four characters makes
      `signature[5:]` panic. */
  function SignatureGateAsWritten(signature: string, secret: string, body: string, hmac: (string, string) -> string): (g: Gate)
    ensures g == Panicked <==> signature != "" && secret != "" && |signature| < 5
  {
    if signature == "" then Pass
    else if secret == "" then Refuse(Reply(StatusBadRequest, Some("empty webhook secret")))
    else if |signature| < 5 then Panicked
    else if signature[5..] != hmac(secret, body) then Refuse(Reply(StatusBadRequest, Some("inavlid signature")))
    else Pass
  }

  /** A four-character header with a secret configured panics the check. */
  lemma ShortSignaturePanics()
    ensures SignatureGateAsWritten("sha1", "secret", "{}", (s: string, b: string) => "") == Panicked
  {
  }

  /** The signature check as intended: a header too short to hold the
      `sha1=` prefix is refused like any other wrong signature. */
  function SignatureGate(signature: string, secret: string, body: string, hmac: (string, string) -> string): (g: Gate)
    ensures g != Panicked
    ensures g == Pass <==> signature == "" || (secret != "" && |signature| >= 5 && signature[5..] == hmac(secret, body))
    ensures SignatureGateAsWritten(signature, secret, body, hmac) != Panicked ==>
              g == SignatureGateAsWritten(signature, secret, body, hmac)
    ensures signature != "" && secret != "" && |signature| < 5 ==> g == Refuse(Reply(StatusBadRequest, Some("inavlid signature")))
  {
    if signature == "" then Pass
    else if secret == "" then Refuse(Reply(StatusBadRequest, Some("empty webhook secret")))
    else if |signature| < 5 || signature[5..] != hmac(secret, body) then Refuse(Reply(StatusBadRequest, Some("inavlid signature")))
    else Pass
  }

  /** The event switch, after the request passed the checks before it. */
  function EventDecision(event: string, body: string, hc: HookConf, codec: Codec): (r: Reply)
    ensures r.err == None <==> r.status == StatusOK
    ensures r.status != StatusOK ==> r.status == StatusBadRequest
    ensures event == "" ==> r == Reply(StatusBadRequest, Some("header 'X-Github-Event' missing"))
    ensures event == "push" && codec.pushRef(body).Ok? ==> r == PushDecision(codec.pushRef(body).value, hc.repoInfo)
    ensures event !in {"", "ping", "push", "release"} ==> r == Reply(StatusBadRequest, Some("cannot handle \"" + event + "\" event"))
  {
    if event == "" then Reply(StatusBadRequest, Some("header 'X-Github-Event' missing"))
    else if event == "ping" then Reply(StatusOK, None)
    else if event == "push" then
      match codec.pushRef(body)
      case Err(e) => Reply(StatusBadRequest, Some(e))
      case Ok(ref) => PushDecision(ref, hc.repoInfo)
    else if event == "release" then
      match codec.releaseTag(body)
      case Err(e) => Reply(StatusBadRequest, Some(e))
      case Ok(tag) =>
        if tag == "" then Reply(StatusBadRequest, Some("invalid (empty) tag name"))
        else if !hc.repoInfo.latestTag then Reply(StatusBadRequest, Some("repo not latest tag"))
        else Reply(StatusOK, None)
    else Reply(StatusBadRequest, Some("cannot handle \"" + event + "\" event"))
  }

  /** `Handle` as written: the reply, or None where it panics. */
  function HandleAsWritten(req: Request, hc: HookConf, codec: Codec): (r: Option<Reply>)
    ensures r == None <==> req.httpMethod == MethodPost && req.body.Ok?
                            && req.signature != "" && hc.secret != "" && |req.signature| < 5
  {
    if ValidateRequest(req).Some? then Some(Reply(StatusBadRequest, ValidateRequest(req)))
    else if req.body.Err? then Some(Reply(StatusRequestTimeout, Some(req.body.error)))
    else match SignatureGateAsWritten(req.signature, hc.secret, req.body.value, codec.hmac)
      case Panicked => None
      case Refuse(reply) => Some(reply)
      case Pass => Some(EventDecision(req.event, req.body.value, hc, codec))
  }

  /** `Handle` with the intended signature check: the method first, before
      the body is read; a failed read gets 408; then the signature check,
      then the event switch. */
  function Handle(req: Request, hc: HookConf, codec: Codec): (r: Reply)
    ensures req.httpMethod != MethodPost ==> r == Reply(StatusBadRequest, ValidateRequest(req))
    ensures req.httpMethod == MethodPost && req.body.Err? ==> r == Reply(StatusRequestTimeout, Some(req.body.error))
    ensures HandleAsWritten(req, hc, codec).Some? ==> r == HandleAsWritten(req, hc, codec).value
  {
    if ValidateRequest(req).Some? then Reply(StatusBadRequest, ValidateRequest(req))
    else if req.body.Err? then Reply(StatusRequestTimeout, Some(req.body.error))
    else
      var gate := SignatureGate(req.signature, hc.secret, req.body.value, codec.hmac);
      if gate.Refuse? then gate.reply
      else EventDecision(req.event, req.body.value, hc, codec)
  }

  /** The hook accepts exactly a POST whose body is read, which is unsigned
      or correctly signed under a non-empty secret, and whose event is a
      ping, a push of a reference the repository follows, or a release with
      a tag name while the repository follows its latest tag. Nil comes
      exactly with 200. */
  lemma Accepts(req: Request, hc: HookConf, codec: Codec)
    ensures Handle(req, hc, codec).status == StatusOK <==>
              req.httpMethod == MethodPost && req.body.Ok?
              && (req.signature == ""
                  || (hc.secret != "" && |req.signature| >= 5 && req.signature[5..] == codec.hmac(hc.secret, req.body.value)))
              && (req.event == "ping"
                  || (req.event == "push" && codec.pushRef(req.body.value).Ok?
                      && PushAccepted(codec.pushRef(req.body.value).value, hc.repoInfo))
                  || (req.event == "release" && codec.releaseTag(req.body.value).Ok?
                      && codec.releaseTag(req.body.value).value != "" && hc.repoInfo.latestTag))
    ensures Handle(req, hc, codec).err == None <==> Handle(req, hc, codec).status == StatusOK
  {
  }

  /** Without a signature header the secret plays no part; and only the
      header from index 5 on is compared, so its first five characters may
      be anything. */
  lemma SignatureScope(req: Request, hc: HookConf, codec: Codec, secret: string, signature: string)
    ensures req.signature == "" ==> Handle(req, hc, codec) == Handle(req, hc.(secret := secret), codec)
    ensures |req.signature| >= 5 && |signature| >= 5 && req.signature[5..] == signature[5..] ==>
              Handle(req, hc, codec) == Handle(req.(signature := signature), hc, codec)
  {
  }
}
