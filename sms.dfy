/** The verification-code protocol of sms/sms.go: the rate limiter, the
    code/token issuer and the verifier, as methods of a class over the Redis
    client, each proved to leave the store and return exactly what a
    specification function of the old store says. */
module Sms {
  import opened Wrappers
  import opened Redis
  import opened SmsKeys
  import opened SmsCode

  /** The two settings the protocol reads: the hourly limit per identity and
      operation class, and the code length (already defaulted to 6 when the
      configuration gave a value <= 0). */
  datatype Config = Config(smsFreqLimit: int, smsCodeLen: int)

  /** The store commands the protocol issues, one per call site, so that a
      fault can be injected into each. */
  datatype Step =
    | LimitIncr | LimitExpire | LimitTtl | LimitHeal
    | SessionRead | SessionWrite | SessionExpire
    | SessionExists | SessionLoad | Cleanup

  /** The errors the store returns at the given steps. */
  type Outage = map<Step, StoreError>

  function At(outage: Outage, step: Step): (f: Option<StoreError>)
    ensures f.Some? <==> step in outage
  {
    if step in outage then Some(outage[step]) else None
  }

  /** A hash field as Go's map index reads it: "" when absent. */
  function Field(fields: map<string, string>, name: string): string {
    if name in fields then fields[name] else ""
  }

  datatype LimitOutcome = LimitOutcome(db: Db, overLimit: bool, err: Option<StoreError>)

  /** checkLimit: INCR the counter; on the first hit give it an hour; past the
      limit, give an hour to a counter found without expiry; fail closed. */
  function CheckLimitSpec(db: Db, key: string, freqLimit: int, outage: Outage): LimitOutcome {
    var incr := Faulted(At(outage, LimitIncr), IncrReply(db, key));
    if incr.Err? then LimitOutcome(db, true, Some(incr.error))
    else
      var v := incr.value;
      var db1 := Incremented(db, key, v);
      var expire := if v == 1 then Faulted(At(outage, LimitExpire), Ok(true)) else Ok(true);
      if expire.Err? then LimitOutcome(db1, true, Some(expire.error))
      else
        var db2 := if v == 1 then Expired(db1, key, Hour) else db1;
        if v > freqLimit then
          var ttl := match Faulted(At(outage, LimitTtl), Ok(TtlReply(db2, key)))
            case Ok(t) => t
            case Err(_) => 0;
          var db3 := if ttl < 0 && LimitHeal !in outage then Expired(db2, key, Hour) else db2;
          LimitOutcome(db3, true, None)
        else
          LimitOutcome(db2, false, None)
  }

  /** The length of the token util.RandString(16) draws. */
  const TokenLength := 16

  datatype IssueOutcome = IssueOutcome(db: Db, code: string, token: string, err: Option<StoreError>)

  /** GenerateCodeAndToken with the random draw for the code and the token
      util.RandString(16) would produce. */
  function IssueSpec(db: Db, phone: string, templateCode: string, codeLen: int, draw: int,
                     freshToken: string, outage: Outage): IssueOutcome
    requires 1 <= codeLen <= 18 && 0 <= draw < Pow10(codeLen) && |freshToken| == TokenLength
  {
    var key := SessionKey(phone, templateCode);
    var read := Faulted(At(outage, SessionRead), HGetAllReply(db, key));
    if read.Err? && read.error != Nil then IssueOutcome(db, "", "", Some(read.error))
    else
      var stored := if read.Ok? then Field(read.value, "token") else "";
      var token := if |stored| == 0 then freshToken else stored;
      StoreSession(db, key, GenerateCode(codeLen, draw), token, outage)
  }

  /** The last two steps of GenerateCodeAndToken: HMSET the pair, then give
      the session an hour. */
  function StoreSession(db: Db, key: string, code: string, token: string, outage: Outage): IssueOutcome {
    var write := Faulted(At(outage, SessionWrite), HMSetReply(db, key));
    if write.Err? then IssueOutcome(db, "", "", Some(write.error))
    else
      var db1 := HashSet(db, key, map["code" := code, "token" := token]);
      if SessionExpire in outage then IssueOutcome(db1, "", "", Some(outage[SessionExpire]))
      else IssueOutcome(Expired(db1, key, Hour), code, token, None)
  }

  datatype VerifyOutcome = VerifyOutcome(db: Db, status: string, valid: bool, err: Option<StoreError>)

  /** VerifyCode: no session, then the token, then the code; on success the
      session and both counters of the identity are deleted (the source does
      this in a goroutine it does not wait for; here it happens at once, and
      a fault at Cleanup stands for a deletion that failed). */
  function VerifySpec(db: Db, phone: string, templateCode: string, token: string, code: string,
                      outage: Outage): VerifyOutcome
  {
    var key := SessionKey(phone, templateCode);
    var present := Faulted(At(outage, SessionExists), Ok(key in db));
    if present.Err? then VerifyOutcome(db, "code_expire", false, Some(present.error))
    else if !present.value then VerifyOutcome(db, "code_expire", false, None)
    else
      var kv := Faulted(At(outage, SessionLoad), HGetAllReply(db, key));
      if kv.Err? then VerifyOutcome(db, "system_err", false, Some(kv.error))
      else if token != Field(kv.value, "token") then VerifyOutcome(db, "token_invalid", false, None)
      else if code != Field(kv.value, "code") then VerifyOutcome(db, "code_invalid", false, None)
      else
        var cleaned := if Cleanup in outage then db
                       else Deleted(db, [key, SendLimitKey(phone, templateCode), VerifyLimitKey(phone, templateCode)]);
        VerifyOutcome(cleaned, "ok", true, None)
  }

  class Sms {
    const redisClient: RedisClient
    const conf: Config

    constructor (redisClient: RedisClient, conf: Config)
      ensures this.redisClient == redisClient && this.conf == conf
    {
      this.redisClient := redisClient;
      this.conf := conf;
    }

    /** true means over the limit. */
    method CheckSendCodeLimit(phone: string, templateCode: string, outage: Outage)
      returns (overLimit: bool, err: Option<StoreError>)
      modifies redisClient
      ensures LimitOutcome(redisClient.db, overLimit, err)
              == CheckLimitSpec(old(redisClient.db), SendLimitKey(phone, templateCode), conf.smsFreqLimit, outage)
    {
      var key := SendLimitKey(phone, templateCode);
      overLimit, err := CheckLimit(key, conf.smsFreqLimit, outage);
    }

    method CheckVerifyCodeLimit(phone: string, templateCode: string, outage: Outage)
      returns (overLimit: bool, err: Option<StoreError>)
      modifies redisClient
      ensures LimitOutcome(redisClient.db, overLimit, err)
              == CheckLimitSpec(old(redisClient.db), VerifyLimitKey(phone, templateCode), conf.smsFreqLimit, outage)
    {
      var key := VerifyLimitKey(phone, templateCode);
      overLimit, err := CheckLimit(key, conf.smsFreqLimit, outage);
    }

    /** The comparison reads the configured limit, not maxLimit; both callers
        pass the configured limit, so the two agree. */
    method CheckLimit(key: string, maxLimit: int, outage: Outage) returns (overLimit: bool, err: Option<StoreError>)
      modifies redisClient
      ensures LimitOutcome(redisClient.db, overLimit, err)
              == CheckLimitSpec(old(redisClient.db), key, conf.smsFreqLimit, outage)
    {
      var v := redisClient.Incr(key, At(outage, LimitIncr));
      if v.Err? {
        return true, Some(v.error);
      }
      if v.value == 1 {
        var expire := redisClient.Expire(key, Hour, At(outage, LimitExpire));
        if expire.Err? {
          return true, Some(expire.error);
        }
      }
      if v.value > conf.smsFreqLimit {
        var ttlReply := redisClient.TTL(key, At(outage, LimitTtl));
        var ttl := if ttlReply.Ok? then ttlReply.value else 0;
        if ttl < 0 {
          var healed := redisClient.Expire(key, Hour, At(outage, LimitHeal));
        }
        return true, None;
      }
      return false, None;
    }

    method GenerateCodeAndToken(phone: string, templateCode: string, draw: int, freshToken: string, outage: Outage)
      returns (code: string, token: string, err: Option<StoreError>)
      requires 1 <= conf.smsCodeLen <= 18 && 0 <= draw < Pow10(conf.smsCodeLen) && |freshToken| == TokenLength
      modifies redisClient
      ensures IssueOutcome(redisClient.db, code, token, err)
              == IssueSpec(old(redisClient.db), phone, templateCode, conf.smsCodeLen, draw, freshToken, outage)
    {
      var key := SessionKey(phone, templateCode);
      var kv := redisClient.HGetAll(key, At(outage, SessionRead));
      if kv.Err? && kv.error != Nil {
        return "", "", Some(kv.error);
      }
      token := "";
      if kv.Ok? {
        token := Field(kv.value, "token");
      }
      if |token| == 0 {
        token := freshToken;
      }
      code := GenerateCode(conf.smsCodeLen, draw);
      var write := redisClient.HMSet(key, map["code" := code, "token" := token], At(outage, SessionWrite));
      if write.Err? {
        return "", "", Some(write.error);
      }
      var expire := redisClient.Expire(key, Hour, At(outage, SessionExpire));
      if expire.Err? {
        return "", "", Some(expire.error);
      }
      err := None;
    }

    method VerifyCode(phone: string, templateCode: string, token: string, code: string, outage: Outage)
      returns (status: string, valid: bool, err: Option<StoreError>)
      modifies redisClient
      ensures VerifyOutcome(redisClient.db, status, valid, err)
              == VerifySpec(old(redisClient.db), phone, templateCode, token, code, outage)
    {
      var key := SessionKey(phone, templateCode);
      var present := redisClient.Exists(key, At(outage, SessionExists));
      if present.Err? {
        return "code_expire", false, Some(present.error);
      }
      if !present.value {
        return "code_expire", false, None;
      }
      var kv := redisClient.HGetAll(key, At(outage, SessionLoad));
      if kv.Err? {
        return "system_err", false, Some(kv.error);
      }
      if token != Field(kv.value, "token") {
        return "token_invalid", false, None;
      }
      if code != Field(kv.value, "code") {
        return "code_invalid", false, None;
      }
      var sendLimitKey := SendLimitKey(phone, templateCode);
      var verifyLimitKey := VerifyLimitKey(phone, templateCode);
      var deleted := redisClient.Del([key, sendLimitKey, verifyLimitKey], At(outage, Cleanup));
      return "ok", true, None;
    }
  }
}
