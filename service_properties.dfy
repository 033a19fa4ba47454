/** What the handlers of service/service.go promise: validation before any
    store access, the limit before the issuer or verifier, and the mapping of
    protocol results to responses. */
module ServiceProperties {
  import opened Wrappers
  import opened Redis
  import opened Validate
  import opened SmsKeys
  import opened SmsCode
  import opened Sms
  import opened SmsProperties
  import opened Service

  /** A send request passes the guards exactly when its phone is eleven
      digits and its template code is non-empty; the first failing guard
      names what is wrong. */
  lemma SendCodeGuardOrder(form: Form)
    ensures var phone := FormValue(form, "phone");
      (SendCodeGuard(form).None? <==>
         |phone| == 11 && (forall i :: 0 <= i < 11 ==> IsDigit(phone[i])) &&
         FormValue(form, "template_code") != "") &&
      (phone == "" ==> SendCodeGuard(form) == Some("miss required parameter phone")) &&
      (phone != "" && !ValidatePhone(phone) ==> SendCodeGuard(form) == Some("invalid phone")) &&
      (ValidatePhone(phone) && FormValue(form, "template_code") == "" ==>
         SendCodeGuard(form) == Some("miss required parameter template_code"))
  {
  }

  /** A verify request passes the guards exactly when, besides the send
      guards, its token and code are non-empty; token is checked before code. */
  lemma VerifyCodeGuardOrder(form: Form)
    ensures (VerifyCodeGuard(form).None? <==>
               SendCodeGuard(form).None? && FormValue(form, "token") != "" && FormValue(form, "code") != "") &&
            (SendCodeGuard(form).Some? ==> VerifyCodeGuard(form) == SendCodeGuard(form)) &&
            (SendCodeGuard(form).None? && FormValue(form, "token") == "" ==>
               VerifyCodeGuard(form) == Some("miss required parameter token")) &&
            (SendCodeGuard(form).None? && FormValue(form, "token") != "" && FormValue(form, "code") == "" ==>
               VerifyCodeGuard(form) == Some("miss required parameter code"))
  {
  }

  /** A request the guards refuse gets {"status":"fail"} with the guard's
      message and leaves the store untouched. */
  lemma RefusedRequestsTouchNothing(db: Db, form: Form, conf: Config, draw: int, freshToken: string, outage: Outage)
    requires 1 <= conf.smsCodeLen <= 18 && 0 <= draw < Pow10(conf.smsCodeLen) && |freshToken| == TokenLength
    ensures SendCodeGuard(form).Some? ==>
      SendCodeSpec(db, form, conf, draw, freshToken, outage) == Served(Respond(Fail(SendCodeGuard(form).value)), db)
    ensures VerifyCodeGuard(form).Some? ==>
      VerifyCodeSpec(db, form, conf, outage) == Served(Respond(Fail(VerifyCodeGuard(form).value)), db)
    ensures SendCodeGuard(form).Some? ==> Fail(SendCodeGuard(form).value).status == "fail"
  {
  }

  /** Over the send limit: "limit_control", and the issuer never ran, so the
      session is as it was. */
  lemma SendCodeLimitBeforeIssue(db: Db, form: Form, conf: Config, draw: int, freshToken: string, outage: Outage)
    requires 1 <= conf.smsCodeLen <= 18 && 0 <= draw < Pow10(conf.smsCodeLen) && |freshToken| == TokenLength
    requires SendCodeGuard(form).None?
    ensures var phone, templateCode := FormValue(form, "phone"), FormValue(form, "template_code");
      var limit := CheckLimitSpec(db, SendLimitKey(phone, templateCode), conf.smsFreqLimit, outage);
      var s := SendCodeSpec(db, form, conf, draw, freshToken, outage);
      limit.err.None? && limit.overLimit ==>
        s.result == Respond(FailWithStatus("limit_control", SendLimitMsg)) &&
        Unchanged(db, s.db, SessionKey(phone, templateCode))
  {
    var phone, templateCode := FormValue(form, "phone"), FormValue(form, "template_code");
    CheckLimitFrame(db, SendLimitKey(phone, templateCode), conf.smsFreqLimit, outage, SessionKey(phone, templateCode));
    SessionKeyIsNotALimitKey(phone, templateCode, phone, templateCode);
  }

  /** Past the guards: a store error of the limiter or of the issuer is
      passed up instead of a response, and a send within the limit that
      issues without error is answered "ok" with the issued token.  A send
      answered "ok" returns as data.token the token now stored in the
      session, next to a code of the configured length. */
  lemma SendCodeOutcome(db: Db, form: Form, conf: Config, draw: int, freshToken: string, outage: Outage)
    requires 1 <= conf.smsCodeLen <= 18 && 0 <= draw < Pow10(conf.smsCodeLen) && |freshToken| == TokenLength
    ensures var s := SendCodeSpec(db, form, conf, draw, freshToken, outage);
      var phone, templateCode := FormValue(form, "phone"), FormValue(form, "template_code");
      var limit := CheckLimitSpec(db, SendLimitKey(phone, templateCode), conf.smsFreqLimit, outage);
      var issue := IssueSpec(limit.db, phone, templateCode, conf.smsCodeLen, draw, freshToken, outage);
      SendCodeGuard(form).None? ==>
        (limit.err.Some? ==> s.result == InternalError(limit.err.value) && s.db == limit.db) &&
        (limit.err.None? && !limit.overLimit && issue.err.Some? ==>
           s.result == InternalError(issue.err.value) && s.db == issue.db) &&
        (limit.err.None? && !limit.overLimit && issue.err.None? ==>
           s.result == Respond(OkResponse("", map["token" := issue.token])) && s.db == issue.db)
    ensures var s := SendCodeSpec(db, form, conf, draw, freshToken, outage);
      var key := SessionKey(FormValue(form, "phone"), FormValue(form, "template_code"));
      (s.result.Respond? && s.result.response.status == "ok" ==>
         SendCodeGuard(form).None? &&
         s.result.response.msg == "" &&
         s.result.response.data == Some(map["token" := StoredToken(s.db, key)]) &&
         key in s.db && s.db[key].ttl == ExpiresIn(Hour) &&
         |Field(s.db[key].value.fields, "code")| == conf.smsCodeLen) &&
      (s.result.InternalError? ==> SendCodeGuard(form).None?)
  {
    if SendCodeGuard(form).None? {
      var phone, templateCode := FormValue(form, "phone"), FormValue(form, "template_code");
      var limit := CheckLimitSpec(db, SendLimitKey(phone, templateCode), conf.smsFreqLimit, outage);
      IssueStoresSession(limit.db, phone, templateCode, conf.smsCodeLen, draw, freshToken, outage);
    }
  }

  /** Over the verify limit: "limit_control" without consulting the session.
      A store error of the limiter or of the verifier (a failed EXISTS that
      the verifier reports with "code_expire", a failed HGETALL with
      "system_err") is passed up instead of a response; otherwise the
      response status is exactly the verifier's, with an empty message. */
  lemma VerifyCodeOutcome(db: Db, form: Form, conf: Config, outage: Outage)
    requires VerifyCodeGuard(form).None?
    ensures var phone, templateCode := FormValue(form, "phone"), FormValue(form, "template_code");
      var limit := CheckLimitSpec(db, VerifyLimitKey(phone, templateCode), conf.smsFreqLimit, outage);
      var verify := VerifySpec(limit.db, phone, templateCode, FormValue(form, "token"), FormValue(form, "code"), outage);
      var s := VerifyCodeSpec(db, form, conf, outage);
      (limit.err.Some? ==> s.result == InternalError(limit.err.value)) &&
      (limit.err.None? && limit.overLimit ==>
         s.result == Respond(FailWithStatus("limit_control", VerifyLimitMsg)) &&
         Unchanged(db, s.db, SessionKey(phone, templateCode))) &&
      (limit.err.None? && !limit.overLimit && verify.err.Some? ==>
         s.result == InternalError(verify.err.value) && s.db == verify.db) &&
      (limit.err.None? && !limit.overLimit && verify.err.None? ==>
         s.result == Respond(Response(verify.status, "", None)) && s.db == verify.db)
  {
    var phone, templateCode := FormValue(form, "phone"), FormValue(form, "template_code");
    CheckLimitFrame(db, VerifyLimitKey(phone, templateCode), conf.smsFreqLimit, outage, SessionKey(phone, templateCode));
    SessionKeyIsNotALimitKey(phone, templateCode, phone, templateCode);
  }

  /** The form a client sends to verify: the send form plus the token it got
      and the code it received. */
  function VerifyForm(form: Form, token: string, code: string): Form {
    form["token" := token]["code" := code]
  }

  /** End to end: a fresh identity sends, then verifies with the returned
      token and the generated code and gets "ok"; verifying the same pair
      again gets "code_expire". */
  lemma {:induction false} SendThenVerify(db: Db, form: Form, conf: Config, draw: int, freshToken: string)
    requires 1 <= conf.smsCodeLen <= 18 && 0 <= draw < Pow10(conf.smsCodeLen) && conf.smsFreqLimit >= 1
    requires |freshToken| == TokenLength && SendCodeGuard(form).None?
    requires var phone, templateCode := FormValue(form, "phone"), FormValue(form, "template_code");
      SendLimitKey(phone, templateCode) !in db && VerifyLimitKey(phone, templateCode) !in db &&
      SessionKey(phone, templateCode) !in db
    ensures var s := SendCodeSpec(db, form, conf, draw, freshToken, map[]);
      var vf := VerifyForm(form, freshToken, GenerateCode(conf.smsCodeLen, draw));
      var v1 := VerifyCodeSpec(s.db, vf, conf, map[]);
      var v2 := VerifyCodeSpec(v1.db, vf, conf, map[]);
      s.result == Respond(OkResponse("", map["token" := freshToken])) &&
      v1.result == Respond(Response("ok", "", None)) &&
      v2.result == Respond(Response("code_expire", "", None))
  {
    var phone, templateCode := FormValue(form, "phone"), FormValue(form, "template_code");
    var sendKey, verifyKey, key := SendLimitKey(phone, templateCode), VerifyLimitKey(phone, templateCode),
                                   SessionKey(phone, templateCode);
    var code := GenerateCode(conf.smsCodeLen, draw);
    SessionKeyIsNotALimitKey(phone, templateCode, phone, templateCode);
    LimitKeysDiffer(phone, templateCode, phone, templateCode);
    // The send: a first hit on the send counter, then a fresh session.
    var limit := CheckLimitSpec(db, sendKey, conf.smsFreqLimit, map[]);
    CheckLimitCounts(db, sendKey, conf.smsFreqLimit, map[]);
    CheckLimitFrame(db, sendKey, conf.smsFreqLimit, map[], key);
    CheckLimitFrame(db, sendKey, conf.smsFreqLimit, map[], verifyKey);
    var issue := IssueSpec(limit.db, phone, templateCode, conf.smsCodeLen, draw, freshToken, map[]);
    assert StoredToken(limit.db, key) == "";
    IssueTokenChoice(limit.db, phone, templateCode, conf.smsCodeLen, draw, freshToken, map[]);
    IssueStoresSession(limit.db, phone, templateCode, conf.smsCodeLen, draw, freshToken, map[]);
    IssueFrame(limit.db, phone, templateCode, conf.smsCodeLen, draw, freshToken, map[], verifyKey);
    assert issue.token == freshToken && issue.code == code;
    // The form carries the same identity, token and code.
    var vf := VerifyForm(form, freshToken, code);
    assert FormValue(vf, "phone") == phone && FormValue(vf, "template_code") == templateCode;
    assert FormValue(vf, "token") == freshToken && FormValue(vf, "code") == code;
    assert VerifyCodeGuard(vf).None?;
    // First verification: a first hit on the verify counter, then "ok".
    var l1 := CheckLimitSpec(issue.db, verifyKey, conf.smsFreqLimit, map[]);
    CheckLimitCounts(issue.db, verifyKey, conf.smsFreqLimit, map[]);
    CheckLimitFrame(issue.db, verifyKey, conf.smsFreqLimit, map[], key);
    VerifyStateMachine(l1.db, phone, templateCode, freshToken, code, map[]);
    var v1 := VerifySpec(l1.db, phone, templateCode, freshToken, code, map[]);
    VerifyOkCleansUp(l1.db, phone, templateCode, freshToken, code, map[]);
    // Second verification: the counter starts over, the session is gone.
    var l2 := CheckLimitSpec(v1.db, verifyKey, conf.smsFreqLimit, map[]);
    CheckLimitCounts(v1.db, verifyKey, conf.smsFreqLimit, map[]);
    CheckLimitFrame(v1.db, verifyKey, conf.smsFreqLimit, map[], key);
    VerifyStateMachine(l2.db, phone, templateCode, freshToken, code, map[]);
  }
}
