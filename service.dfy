/** The request handlers of service/service.go: guard chains over the form
    values, then calls into the Sms protocol, mapped to response records.
    HTTP routing, JSON encoding and logging are outside the model; a form is
    the map of submitted values, and a missing value reads as "". */
module Service {
  import opened Wrappers
  import opened Redis
  import opened Validate
  import opened SmsKeys
  import opened SmsCode
  import opened Sms

  type Form = map<string, string>

  /** r.FormValue: the submitted value, or "" when there is none. */
  function FormValue(form: Form, name: string): string {
    if name in form then form[name] else ""
  }

  /** The JSON object a handler answers with; `data` is present only in the
      "ok" response of SendCode. */
  datatype Response = Response(status: string, msg: string, data: Option<map<string, string>>)

  /** What a handler returns: a response, or an error the HTTP layer turns
      into a system error. */
  datatype HandlerResult = Respond(response: Response) | InternalError(err: StoreError)

  datatype Served = Served(result: HandlerResult, db: Db)

  function FailWithStatus(status: string, msg: string): (r: Response)
    ensures r.status == status && r.msg == msg && r.data.None?
  {
    Response(status, msg, None)
  }

  function Fail(msg: string): (r: Response)
    ensures r.status == "fail" && r.msg == msg && r.data.None?
  {
    FailWithStatus("fail", msg)
  }

  function OkResponse(msg: string, data: map<string, string>): (r: Response)
    ensures r.status == "ok" && r.msg == msg && r.data == Some(data)
  {
    Response("ok", msg, Some(data))
  }

  const SendLimitMsg: string := "获取短信验证码过于频繁"
  const VerifyLimitMsg: string := "尝试次数过多"

  /** The first failing guard of SendCode, if any. */
  function SendCodeGuard(form: Form): Option<string> {
    var phone := FormValue(form, "phone");
    if |phone| == 0 then Some("miss required parameter phone")
    else if !ValidatePhone(phone) then Some("invalid phone")
    else if |FormValue(form, "template_code")| == 0 then Some("miss required parameter template_code")
    else None
  }

  /** The first failing guard of VerifyCode, if any. */
  function VerifyCodeGuard(form: Form): Option<string> {
    match SendCodeGuard(form)
    case Some(msg) => Some(msg)
    case None =>
      if |FormValue(form, "token")| == 0 then Some("miss required parameter token")
      else if |FormValue(form, "code")| == 0 then Some("miss required parameter code")
      else None
  }

  /** SendCode: the guards, the send limit, then the issuer. */
  function SendCodeSpec(db: Db, form: Form, conf: Config, draw: int, freshToken: string, outage: Outage): Served
    requires 1 <= conf.smsCodeLen <= 18 && 0 <= draw < Pow10(conf.smsCodeLen) && |freshToken| == TokenLength
  {
    match SendCodeGuard(form)
    case Some(msg) => Served(Respond(Fail(msg)), db)
    case None =>
      var phone := FormValue(form, "phone");
      var templateCode := FormValue(form, "template_code");
      var limit := CheckLimitSpec(db, SendLimitKey(phone, templateCode), conf.smsFreqLimit, outage);
      if limit.err.Some? then Served(InternalError(limit.err.value), limit.db)
      else if limit.overLimit then Served(Respond(FailWithStatus("limit_control", SendLimitMsg)), limit.db)
      else
        var issue := IssueSpec(limit.db, phone, templateCode, conf.smsCodeLen, draw, freshToken, outage);
        if issue.err.Some? then Served(InternalError(issue.err.value), issue.db)
        else Served(Respond(OkResponse("", map["token" := issue.token])), issue.db)
  }

  /** VerifyCode: the guards, the verify limit, then the verifier, whose status
      is passed on with an empty message. */
  function VerifyCodeSpec(db: Db, form: Form, conf: Config, outage: Outage): Served {
    match VerifyCodeGuard(form)
    case Some(msg) => Served(Respond(Fail(msg)), db)
    case None =>
      var phone := FormValue(form, "phone");
      var templateCode := FormValue(form, "template_code");
      var limit := CheckLimitSpec(db, VerifyLimitKey(phone, templateCode), conf.smsFreqLimit, outage);
      if limit.err.Some? then Served(InternalError(limit.err.value), limit.db)
      else if limit.overLimit then Served(Respond(FailWithStatus("limit_control", VerifyLimitMsg)), limit.db)
      else
        var verify := VerifySpec(limit.db, phone, templateCode, FormValue(form, "token"), FormValue(form, "code"), outage);
        if verify.err.Some? then Served(InternalError(verify.err.value), verify.db)
        else Served(Respond(FailWithStatus(verify.status, "")), verify.db)
  }

  class Service {
    const sms: Sms

    constructor (sms: Sms)
      ensures this.sms == sms
    {
      this.sms := sms;
    }

    method SendCode(form: Form, draw: int, freshToken: string, outage: Outage) returns (result: HandlerResult)
      requires 1 <= sms.conf.smsCodeLen <= 18 && 0 <= draw < Pow10(sms.conf.smsCodeLen) && |freshToken| == TokenLength
      modifies sms.redisClient
      ensures Served(result, sms.redisClient.db)
              == SendCodeSpec(old(sms.redisClient.db), form, sms.conf, draw, freshToken, outage)
    {
      var phone := FormValue(form, "phone");
      if |phone| == 0 {
        return Respond(Fail("miss required parameter phone"));
      }
      if !ValidatePhone(phone) {
        return Respond(Fail("invalid phone"));
      }
      var templateCode := FormValue(form, "template_code");
      if |templateCode| == 0 {
        return Respond(Fail("miss required parameter template_code"));
      }
      var overLimit, err := sms.CheckSendCodeLimit(phone, templateCode, outage);
      if err.Some? {
        return InternalError(err.value);
      }
      if overLimit {
        return Respond(FailWithStatus("limit_control", SendLimitMsg));
      }
      var code, token, err2 := sms.GenerateCodeAndToken(phone, templateCode, draw, freshToken, outage);
      if err2.Some? {
        return InternalError(err2.value);
      }
      return Respond(OkResponse("", map["token" := token]));
    }

    method VerifyCode(form: Form, outage: Outage) returns (result: HandlerResult)
      modifies sms.redisClient
      ensures Served(result, sms.redisClient.db) == VerifyCodeSpec(old(sms.redisClient.db), form, sms.conf, outage)
    {
      var phone := FormValue(form, "phone");
      if |phone| == 0 {
        return Respond(Fail("miss required parameter phone"));
      }
      if !ValidatePhone(phone) {
        return Respond(Fail("invalid phone"));
      }
      var templateCode := FormValue(form, "template_code");
      if |templateCode| == 0 {
        return Respond(Fail("miss required parameter template_code"));
      }
      var token := FormValue(form, "token");
      if |token| == 0 {
        return Respond(Fail("miss required parameter token"));
      }
      var code := FormValue(form, "code");
      if |code| == 0 {
        return Respond(Fail("miss required parameter code"));
      }
      var overLimit, err := sms.CheckVerifyCodeLimit(phone, templateCode, outage);
      if err.Some? {
        return InternalError(err.value);
      }
      if overLimit {
        return Respond(FailWithStatus("limit_control", VerifyLimitMsg));
      }
      var status, valid, err2 := sms.VerifyCode(phone, templateCode, token, code, outage);
      if err2.Some? {
        return InternalError(err2.value);
      }
      return Respond(FailWithStatus(status, ""));
    }
  }
}
