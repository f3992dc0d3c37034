/** The generic hook (`services/webhook/generic`): a POST whose JSON body
    names a `ref` the repository follows. */
module GenericWebhook {
  import opened Wrappers
  import opened Webhook

  /** `Handle`: a method other than POST is refused before the body is read;
      a failed read gets 408; an undecodable body 400; otherwise the pushed
      ref decides. */
  function Handle(req: Request, hc: HookConf, codec: Codec): (r: Reply)
    ensures req.httpMethod != MethodPost ==> r == Reply(StatusBadRequest, ValidateRequest(req))
    ensures req.httpMethod == MethodPost && req.body.Err? ==> r == Reply(StatusRequestTimeout, Some(req.body.error))
    ensures req.httpMethod == MethodPost && req.body.Ok? && codec.pushRef(req.body.value).Err? ==>
              r == Reply(StatusBadRequest, Some(codec.pushRef(req.body.value).error))
  {
    if ValidateRequest(req).Some? then Reply(StatusBadRequest, ValidateRequest(req))
    else if req.body.Err? then Reply(StatusRequestTimeout, Some(req.body.error))
    else match codec.pushRef(req.body.value)
      case Err(e) => Reply(StatusBadRequest, Some(e))
      case Ok(ref) => PushDecision(ref, hc.repoInfo)
  }

  /** The generic hook accepts exactly a POST whose body is read and decoded
      and names a reference the repository follows; it answers 200 with nil
      then, and an error with another status otherwise. */
  lemma Accepts(req: Request, hc: HookConf, codec: Codec)
    ensures Handle(req, hc, codec).status == StatusOK <==>
              req.httpMethod == MethodPost && req.body.Ok? && codec.pushRef(req.body.value).Ok?
              && PushAccepted(codec.pushRef(req.body.value).value, hc.repoInfo)
    ensures Handle(req, hc, codec).err == None <==> Handle(req, hc, codec).status == StatusOK
  {
  }
}
