/** What the protocol of sms/sms.go promises, proved of its specification
    functions (and so of the Sms methods, which are proved equal to them). */
module SmsProperties {
  import opened Wrappers
  import opened Redis
  import opened Validate
  import opened SmsKeys
  import opened SmsCode
  import opened Sms

  /** The count a counter key holds; a missing key counts as 0. */
  function Count(db: Db, key: string): int
    requires key in db ==> db[key].value.Counter?
  {
    if key in db then db[key].value.n else 0
  }

  predicate Unchanged(db: Db, db': Db, key: string) {
    (key in db <==> key in db') && (key in db ==> db[key] == db'[key])
  }

  // ---------------------------------------------------------------- limiter

  /** A successful check raises the counter by exactly one and reports
      over-limit exactly when the new value exceeds the limit. */
  lemma CheckLimitCounts(db: Db, key: string, limit: int, outage: Outage)
    ensures var o := CheckLimitSpec(db, key, limit, outage);
      o.err.None? ==>
        (key in db ==> db[key].value.Counter?) &&
        key in o.db && o.db[key].value == Counter(Count(db, key) + 1) &&
        (o.overLimit <==> Count(db, key) + 1 > limit)
  {
  }

  /** The expiry rules: an hour at the first hit; later in-limit hits keep the
      expiry the counter had; past the limit a counter found without expiry
      gets an hour again, unless the TTL read or that EXPIRE failed. */
  lemma CheckLimitExpiry(db: Db, key: string, limit: int, outage: Outage)
    ensures var o := CheckLimitSpec(db, key, limit, outage);
      o.err.None? ==>
        var v := Count(db, key) + 1;
        (v == 1 ==> o.db[key].ttl == ExpiresIn(Hour)) &&
        (1 < v <= limit ==> o.db[key].ttl == db[key].ttl) &&
        (v > limit && v > 1 && db[key].ttl.ExpiresIn? ==> o.db[key].ttl == db[key].ttl) &&
        ((v > limit && v > 1 && db[key].ttl == NoExpiry && LimitTtl !in outage && LimitHeal !in outage)
           ==> o.db[key].ttl == ExpiresIn(Hour))
  {
    CheckLimitCounts(db, key, limit, outage);
  }

  /** Self-healing: a counter reported over the limit has an expiry pending
      afterwards, unless the TTL read or the healing EXPIRE failed. */
  lemma OverLimitCounterExpires(db: Db, key: string, limit: int, outage: Outage)
    requires LimitTtl !in outage && LimitHeal !in outage
    ensures var o := CheckLimitSpec(db, key, limit, outage);
      o.err.None? && o.overLimit ==> key in o.db && o.db[key].ttl.ExpiresIn?
  {
  }

  /** Fail closed: every store error is reported as over the limit; a failed
      INCR leaves the store as it was; a failed first EXPIRE leaves a counter
      of 1 without expiry (the window the healing step later closes). */
  lemma CheckLimitFailsClosed(db: Db, key: string, limit: int, outage: Outage)
    ensures var o := CheckLimitSpec(db, key, limit, outage);
      (o.err.Some? ==> o.overLimit) &&
      (LimitIncr in outage ==> o == LimitOutcome(db, true, Some(outage[LimitIncr]))) &&
      (LimitIncr !in outage && IncrReply(db, key).Err? ==> o.db == db && o.err == Some(IncrReply(db, key).error)) &&
      (key !in db && LimitIncr !in outage && LimitExpire in outage ==>
         o.err == Some(outage[LimitExpire]) && o.db[key] == Entry(Counter(1), NoExpiry))
  {
  }

  /** A limit check touches its own key and no other. */
  lemma CheckLimitFrame(db: Db, key: string, limit: int, outage: Outage, other: string)
    requires other != key
    ensures Unchanged(db, CheckLimitSpec(db, key, limit, outage).db, other)
  {
  }

  /** The send check never changes any verify counter, and the other way round. */
  lemma SendAndVerifyCountersIndependent(db: Db, phone: string, templateCode: string,
                                          p: string, t: string, limit: int, outage: Outage)
    ensures Unchanged(db, CheckLimitSpec(db, SendLimitKey(phone, templateCode), limit, outage).db,
                      VerifyLimitKey(p, t))
    ensures Unchanged(db, CheckLimitSpec(db, VerifyLimitKey(phone, templateCode), limit, outage).db,
                      SendLimitKey(p, t))
  {
    LimitKeysDiffer(phone, templateCode, p, t);
    LimitKeysDiffer(p, t, phone, templateCode);
    CheckLimitFrame(db, SendLimitKey(phone, templateCode), limit, outage, VerifyLimitKey(p, t));
    CheckLimitFrame(db, VerifyLimitKey(phone, templateCode), limit, outage, SendLimitKey(p, t));
  }

  /** The store after n fault-free checks of one key. */
  function RepeatChecks(db: Db, key: string, limit: int, n: nat): Db {
    if n == 0 then db else CheckLimitSpec(RepeatChecks(db, key, limit, n - 1), key, limit, map[]).db
  }

  /** From a fresh key, n checks leave the count at n, and other keys alone. */
  lemma {:induction false} RepeatChecksCount(db: Db, key: string, limit: int, n: nat)
    requires key !in db && n <= MaxInt64
    ensures var r := RepeatChecks(db, key, limit, n);
      (n == 0 ==> key !in r) &&
      (n > 0 ==> key in r && r[key].value == Counter(n)) &&
      forall k :: k != key ==> Unchanged(db, r, k)
  {
    if n > 0 {
      RepeatChecksCount(db, key, limit, n - 1);
      var prev := RepeatChecks(db, key, limit, n - 1);
      CheckLimitCounts(prev, key, limit, map[]);
      forall k | k != key
        ensures Unchanged(db, RepeatChecks(db, key, limit, n), k)
      {
        assert Unchanged(db, prev, k);
        CheckLimitFrame(prev, key, limit, map[], k);
      }
    }
  }

  /** With a fresh counter, the first `limit` checks pass and the next one is
      refused; the counters of every other key are left alone. */
  lemma {:induction false} LimitReachedOnExtraCall(db: Db, key: string, limit: int, n: nat)
    requires key !in db && 0 <= limit < MaxInt64 && n <= limit
    ensures n < limit ==> !CheckLimitSpec(RepeatChecks(db, key, limit, n), key, limit, map[]).overLimit
    ensures CheckLimitSpec(RepeatChecks(db, key, limit, limit), key, limit, map[]).overLimit
  {
    RepeatChecksCount(db, key, limit, n);
    CheckLimitCounts(RepeatChecks(db, key, limit, n), key, limit, map[]);
    RepeatChecksCount(db, key, limit, limit);
    CheckLimitCounts(RepeatChecks(db, key, limit, limit), key, limit, map[]);
  }

  /** The window: an hour after a counter's first hit the counter is gone, so
      the next check counts from 1 again. */
  lemma WindowRestartsAfterHour(db: Db, key: string, limit: int)
    requires key !in db
    ensures var d := Lapse(CheckLimitSpec(db, key, limit, map[]).db, Hour);
      key !in d && CheckLimitSpec(d, key, limit, map[]).db[key].value == Counter(1)
  {
  }

  // ---------------------------------------------------------------- issuer

  /** The token the store holds for a session key, "" when there is none. */
  function StoredToken(db: Db, key: string): string {
    if key in db && db[key].value.Hash? then Field(db[key].value.fields, "token") else ""
  }

  /** A successful write of the session stores the pair it was given, with a
      full hour to live, and returns that pair. */
  lemma StoreSessionStores(db: Db, key: string, code: string, token: string, outage: Outage)
    ensures var o := StoreSession(db, key, code, token, outage);
      o.err.None? ==>
        o.code == code && o.token == token &&
        key in o.db && o.db[key].value.Hash? && o.db[key].ttl == ExpiresIn(Hour) &&
        Field(o.db[key].value.fields, "code") == code &&
        Field(o.db[key].value.fields, "token") == token
  {
    var o := StoreSession(db, key, code, token, outage);
    if o.err.None? {
      var db1 := HashSet(db, key, map["code" := code, "token" := token]);
      assert o.db == Expired(db1, key, Hour);
      assert o.db[key].value == db1[key].value;
    }
  }

  /** The stored token is reused when non-empty, otherwise the fresh one is
      taken; a Nil reply reads as no session. */
  lemma IssueTokenChoice(db: Db, phone: string, templateCode: string, codeLen: int, draw: int,
                         freshToken: string, outage: Outage)
    requires 1 <= codeLen <= 18 && 0 <= draw < Pow10(codeLen) && |freshToken| == TokenLength
    ensures var o := IssueSpec(db, phone, templateCode, codeLen, draw, freshToken, outage);
      var stored := StoredToken(db, SessionKey(phone, templateCode));
      o.err.None? ==>
        (SessionRead !in outage ==> o.token == if stored != "" then stored else freshToken) &&
        (SessionRead in outage ==> outage[SessionRead] == Nil && o.token == freshToken)
  {
    var key := SessionKey(phone, templateCode);
    var read := Faulted(At(outage, SessionRead), HGetAllReply(db, key));
    if !(read.Err? && read.error != Nil) {
      var stored := if read.Ok? then Field(read.value, "token") else "";
      var token := if |stored| == 0 then freshToken else stored;
      StoreSessionStores(db, key, GenerateCode(codeLen, draw), token, outage);
    }
  }

  /** After a successful issue the session holds the returned code and token
      with a full hour to live, and the code is codeLen digits denoting the
      draw. */
  lemma IssueStoresSession(db: Db, phone: string, templateCode: string, codeLen: int, draw: int,
                           freshToken: string, outage: Outage)
    requires 1 <= codeLen <= 18 && 0 <= draw < Pow10(codeLen) && |freshToken| == TokenLength
    ensures var o := IssueSpec(db, phone, templateCode, codeLen, draw, freshToken, outage);
      var key := SessionKey(phone, templateCode);
      o.err.None? ==>
        key in o.db && o.db[key].value.Hash? && o.db[key].ttl == ExpiresIn(Hour) &&
        Field(o.db[key].value.fields, "code") == o.code &&
        Field(o.db[key].value.fields, "token") == o.token &&
        |o.code| == codeLen && AllDigits(o.code) && DecimalValue(o.code) == draw
  {
    var key := SessionKey(phone, templateCode);
    var read := Faulted(At(outage, SessionRead), HGetAllReply(db, key));
    if !(read.Err? && read.error != Nil) {
      var stored := if read.Ok? then Field(read.value, "token") else "";
      var token := if |stored| == 0 then freshToken else stored;
      StoreSessionStores(db, key, GenerateCode(codeLen, draw), token, outage);
    }
  }

  /** An issue, successful or not, changes no key but the session key; in
      particular it leaves every rate-limit counter of a valid phone alone. */
  lemma IssueFrame(db: Db, phone: string, templateCode: string, codeLen: int, draw: int,
                   freshToken: string, outage: Outage, other: string)
    requires 1 <= codeLen <= 18 && 0 <= draw < Pow10(codeLen) && |freshToken| == TokenLength
    requires other != SessionKey(phone, templateCode)
    ensures Unchanged(db, IssueSpec(db, phone, templateCode, codeLen, draw, freshToken, outage).db, other)
  {
    var key := SessionKey(phone, templateCode);
    var read := Faulted(At(outage, SessionRead), HGetAllReply(db, key));
    if !(read.Err? && read.error != Nil) {
      var stored := if read.Ok? then Field(read.value, "token") else "";
      var token := if |stored| == 0 then freshToken else stored;
      StoreSessionFrame(db, key, GenerateCode(codeLen, draw), token, outage, other);
    }
  }

  lemma StoreSessionFrame(db: Db, key: string, code: string, token: string, outage: Outage, other: string)
    requires other != key
    ensures Unchanged(db, StoreSession(db, key, code, token, outage).db, other)
  {
    if HMSetReply(db, key).Ok? {
      var db1 := HashSet(db, key, map["code" := code, "token" := token]);
      assert Unchanged(db, db1, other);
    }
  }

  lemma IssueKeepsCounters(db: Db, phone: string, templateCode: string, codeLen: int, draw: int,
                           freshToken: string, outage: Outage, p: string, t: string)
    requires 1 <= codeLen <= 18 && 0 <= draw < Pow10(codeLen) && |freshToken| == TokenLength
    requires ValidatePhone(phone)
    ensures var o := IssueSpec(db, phone, templateCode, codeLen, draw, freshToken, outage);
      Unchanged(db, o.db, SendLimitKey(p, t)) && Unchanged(db, o.db, VerifyLimitKey(p, t))
  {
    SessionKeyIsNotALimitKey(phone, templateCode, p, t);
    IssueFrame(db, phone, templateCode, codeLen, draw, freshToken, outage, SendLimitKey(p, t));
    IssueFrame(db, phone, templateCode, codeLen, draw, freshToken, outage, VerifyLimitKey(p, t));
  }

  /** A read error other than Nil, or a session key holding a counter, ends
      the issue before anything is written. */
  lemma IssueReadErrorWritesNothing(db: Db, phone: string, templateCode: string, codeLen: int, draw: int,
                                    freshToken: string, outage: Outage)
    requires 1 <= codeLen <= 18 && 0 <= draw < Pow10(codeLen) && |freshToken| == TokenLength
    requires (SessionRead in outage && outage[SessionRead] != Nil) ||
             (SessionRead !in outage && HGetAllReply(db, SessionKey(phone, templateCode)).Err?)
    ensures var o := IssueSpec(db, phone, templateCode, codeLen, draw, freshToken, outage);
      o.db == db && o.err.Some? && o.code == "" && o.token == ""
  {
  }

  // ---------------------------------------------------------------- verifier

  /** The verifier's state machine, first match wins: no session, then the
      token, then the code.  Only "ok" is valid; every other outcome leaves the
      store as it was. */
  lemma VerifyStateMachine(db: Db, phone: string, templateCode: string, token: string, code: string,
                           outage: Outage)
    requires SessionExists !in outage && SessionLoad !in outage
    ensures var o := VerifySpec(db, phone, templateCode, token, code, outage);
      var key := SessionKey(phone, templateCode);
      (key !in db ==> o.status == "code_expire") &&
      (key in db && db[key].value.Hash? ==>
         var f := db[key].value.fields;
         o.status == (if token != Field(f, "token") then "token_invalid"
                      else if code != Field(f, "code") then "code_invalid"
                      else "ok")) &&
      (key in db && db[key].value.Counter? ==> o.status == "system_err") &&
      (o.valid <==> o.status == "ok") &&
      (o.status != "ok" ==> o.db == db)
  {
  }

  /** On "ok" the result carries no error, and, unless the deletion failed,
      the session and both counters of the identity are gone while every other
      key is as it was. */
  lemma VerifyOkCleansUp(db: Db, phone: string, templateCode: string, token: string, code: string,
                         outage: Outage)
    ensures var o := VerifySpec(db, phone, templateCode, token, code, outage);
      o.status == "ok" ==>
        o.valid && o.err.None? &&
        (Cleanup !in outage ==>
           SessionKey(phone, templateCode) !in o.db &&
           SendLimitKey(phone, templateCode) !in o.db &&
           VerifyLimitKey(phone, templateCode) !in o.db &&
           forall k :: (k in db && k != SessionKey(phone, templateCode) &&
                        k != SendLimitKey(phone, templateCode) &&
                        k != VerifyLimitKey(phone, templateCode)) ==> k in o.db && o.db[k] == db[k])
  {
  }

  /** Every outcome other than "ok" is invalid and writes nothing. */
  lemma VerifyFailureWritesNothing(db: Db, phone: string, templateCode: string, token: string, code: string,
                                   outage: Outage)
    ensures var o := VerifySpec(db, phone, templateCode, token, code, outage);
      (o.status == "ok" <==> o.valid) && (!o.valid ==> o.db == db) &&
      (o.err.Some? ==> o.status in {"code_expire", "system_err"})
  {
  }

  // ---------------------------------------------------------------- together

  /** Issuing and then verifying with the returned pair gives "ok"; a second
      verification with the same pair finds no session. */
  lemma {:induction false} IssueThenVerify(db: Db, phone: string, templateCode: string, codeLen: int, draw: int,
                                           freshToken: string)
    requires 1 <= codeLen <= 18 && 0 <= draw < Pow10(codeLen) && |freshToken| == TokenLength
    requires IssueSpec(db, phone, templateCode, codeLen, draw, freshToken, map[]).err.None?
    ensures var i := IssueSpec(db, phone, templateCode, codeLen, draw, freshToken, map[]);
      var v1 := VerifySpec(i.db, phone, templateCode, i.token, i.code, map[]);
      var v2 := VerifySpec(v1.db, phone, templateCode, i.token, i.code, map[]);
      v1.status == "ok" && v1.valid && v2.status == "code_expire" && !v2.valid
  {
    IssueStoresSession(db, phone, templateCode, codeLen, draw, freshToken, map[]);
    var i := IssueSpec(db, phone, templateCode, codeLen, draw, freshToken, map[]);
    VerifyStateMachine(i.db, phone, templateCode, i.token, i.code, map[]);
    VerifyOkCleansUp(i.db, phone, templateCode, i.token, i.code, map[]);
  }

  /** Issuing twice keeps the first (non-empty) token and replaces the code:
      the first code is then refused as code_invalid and the second accepted. */
  lemma {:induction false} ReissueKeepsToken(db: Db, phone: string, templateCode: string, codeLen: int,
                                             draw1: int, draw2: int, fresh1: string, fresh2: string)
    requires 1 <= codeLen <= 18 && 0 <= draw1 < Pow10(codeLen) && 0 <= draw2 < Pow10(codeLen)
    requires |fresh1| == TokenLength && |fresh2| == TokenLength && draw1 != draw2
    requires IssueSpec(db, phone, templateCode, codeLen, draw1, fresh1, map[]).err.None?
    ensures var i1 := IssueSpec(db, phone, templateCode, codeLen, draw1, fresh1, map[]);
      var i2 := IssueSpec(i1.db, phone, templateCode, codeLen, draw2, fresh2, map[]);
      i2.err.None? && i2.token == i1.token && i2.code != i1.code &&
      VerifySpec(i2.db, phone, templateCode, i1.token, i1.code, map[]).status == "code_invalid" &&
      VerifySpec(i2.db, phone, templateCode, i2.token, i2.code, map[]).status == "ok"
  {
    var key := SessionKey(phone, templateCode);
    IssueStoresSession(db, phone, templateCode, codeLen, draw1, fresh1, map[]);
    IssueTokenChoice(db, phone, templateCode, codeLen, draw1, fresh1, map[]);
    var i1 := IssueSpec(db, phone, templateCode, codeLen, draw1, fresh1, map[]);
    assert i1.token != "";
    assert StoredToken(i1.db, key) == i1.token;
    IssueTokenChoice(i1.db, phone, templateCode, codeLen, draw1, fresh2, map[]);
    IssueStoresSession(i1.db, phone, templateCode, codeLen, draw2, fresh2, map[]);
    IssueTokenChoice(i1.db, phone, templateCode, codeLen, draw2, fresh2, map[]);
    var i2 := IssueSpec(i1.db, phone, templateCode, codeLen, draw2, fresh2, map[]);
    GenerateCodeInjective(codeLen, draw1, draw2);
    VerifyStateMachine(i2.db, phone, templateCode, i1.token, i1.code, map[]);
    VerifyStateMachine(i2.db, phone, templateCode, i2.token, i2.code, map[]);
  }

  /** After a successful verification the identity's send quota starts over. */
  lemma SendQuotaResetAfterOk(db: Db, phone: string, templateCode: string, token: string, code: string,
                              limit: int)
    requires limit >= 1
    ensures var v := VerifySpec(db, phone, templateCode, token, code, map[]);
      v.status == "ok" ==>
        var c := CheckLimitSpec(v.db, SendLimitKey(phone, templateCode), limit, map[]);
        c.err.None? && !c.overLimit
  {
  }
}
