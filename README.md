# smsverify in Dafny

A model of the core of smsverify, a small HTTP service that issues and checks
SMS verification codes, with proofs about it.

- A client POSTs a phone number and a template code to `/sms/code/send`.
- The service rate-limits the request per phone and template. It creates or
  reuses a 16-character token, generates a zero-padded numeric code and
  stores the pair in Redis under a session key for one hour. The token goes
  back to the client.
- The client later POSTs phone, template, token and code to
  `/sms/code/verify`. That path is rate-limited separately. The service
  answers one of `code_expire`, `system_err`, `token_invalid`,
  `code_invalid` or `ok`. On `ok` it deletes the session and both
  counters of that phone and template.
- The gateway client signs its requests. It concatenates the parameter
  names in ascending order, each followed by its first value, wraps the
  result in the application secret, takes the MD5 digest and prints it as
  upper-case hex.

The model's modules:

- `Redis` (redis.dfy): the part of the Redis store the service uses.
  - The store is a map from key to entry. An entry is a counter or a hash,
    with or without an expiry.
  - INCR, EXPIRE, TTL, HGETALL, HMSET, EXISTS and DEL are pure functions
    on that map.
  - The class `RedisClient` holds the map and applies them.
  - Every command takes an optional injected error. A command that fails
    is not applied.
- `Validate` (validate.dfy): phone validation.
- `SmsKeys` (sms_keys.dfy): the Redis key formats. The session key keeps
  the `%!s(MISSING)` suffix that Go's `Sprintf` produces, because the
  format string has three verbs and only two arguments.
- `SmsCode` (sms_code.dfy): generation of zero-padded decimal codes.
- `Sms` (sms.dfy): the protocol.
  - The class `Sms` holds the Redis client and the configuration and has
    imperative methods for the limiter, the issuer and the verifier.
  - Each method is proved to return, and to leave in the store, exactly
    what a specification function of the old store gives
    (`CheckLimitSpec`, `IssueSpec`, `VerifySpec`).
  - A store outage is a map from each command site (`Step`) to the error
    it returns.
- `SmsProperties` (sms_properties.dfy): lemmas about those specification
  functions.
- `Service` (service.dfy): the two HTTP handlers as methods of the class
  `Service`, proved equal to `SendCodeSpec` and `VerifyCodeSpec`.
  - A form is the map of submitted values.
  - A handler returns a response record or an internal error.
- `ServiceProperties` (service_properties.dfy): guard order, the handler
  outcomes, and an end-to-end send-then-verify run.
- `SmsSender` (sms_sender.dfy): `AliSmsSender.Sign`.
  - The parameter names are collected in a loop and sorted in place by an
    insertion sort on an array, then concatenated in a second loop.
  - The method is proved to return the upper-case hex of the digest of the
    string `SignInput` defines: the secret, then each name with its first
    value in ascending name order, then the secret again.
  - The digest function is a parameter.

The code and the design differ in a few places. In each case the model
follows the code:

- `checkLimit` compares against the configured limit, not against its
  `maxLimit` argument (sms/sms.go:51). Both callers pass the configured
  limit, so the result is the same.
- Not every store error of a check is passed up. Errors of INCR and of
  the first EXPIRE are returned with "over the limit". Past the limit,
  an error of the TTL read or of the healing EXPIRE is dropped
  (sms/sms.go:52-54). The check then reports "over the limit" with no
  error. A failed TTL read counts as a TTL of 0, so no healing EXPIRE
  follows.
- The session key is `<phone>_verify_pair_<template>_%!s(MISSING)`. It has
  no `sms_verfiy#` prefix.

## Model

| member | source | states |
|---|---|---|
| Validate.AllDigits | util/validate.go:9-13 | true exactly when every character is a decimal digit |
| Validate.ValidatePhone | util/validate.go:5-15 | accepted exactly when the phone has 11 characters, all of them digits |
| Validate.RejectedExamples | util/validate.go:5-15 | a short number, a 12-character one and one containing a letter are rejected; an 11-digit number is accepted |
| SmsKeys.SendLimitKey | sms/sms.go:31 | the send counter key is prefix, `send_limit_`, phone, `_`, template: its length is the sum of the parts |
| SmsKeys.VerifyLimitKey | sms/sms.go:36 | the verify counter key, with the same shape |
| SmsKeys.SessionKey | sms/sms.go:63 | the session key is phone, `_verify_pair_`, template and the `_%!s(MISSING)` suffix |
| SmsKeys.LimitKeysDiffer | sms/sms.go:31-36 | no send counter key equals any verify counter key |
| SmsKeys.SessionKeyIsNotALimitKey | sms/sms.go:31-36 | a session key of a phone starting with a digit is never a counter key |
| SmsKeys.SendLimitKeyInjective | sms/sms.go:31 | for phones of equal length, equal send keys mean equal phone and template |
| SmsKeys.VerifyLimitKeyInjective | sms/sms.go:36 | the same for verify keys |
| SmsKeys.SessionKeyInjective | sms/sms.go:63 | the same for session keys |
| SmsKeys.KeysCollideWithoutFixedLength | sms/sms.go:31 | without a fixed phone length, two different phone/template pairs share a key |
| SmsCode.DecimalValue | sms/sms.go:115 | the value of a digit string is below 10 to the power of its length |
| SmsCode.ZeroPadded | sms/sms.go:115 | `%0<width>d`: exactly `width` digits whose decimal value is the number |
| SmsCode.ZeroPaddedOfDecimalValue | sms/sms.go:115 | padding the value of a digit string gives back the string |
| SmsCode.GenerateCode | sms/sms.go:111-116 | the code has the configured length, only digits, and value equal to the draw below 10^length |
| SmsCode.GenerateCodeInjective | sms/sms.go:111-116 | different draws give different codes |
| SmsCode.EveryCodeIsGenerated | sms/sms.go:111-116 | every digit string of the configured length is the code of some draw |
| SmsCode.LeadingZerosKept | sms/sms.go:115 | draw 123 with length 6 gives "000123" |
| Sms.Sms.CheckSendCodeLimit | sms/sms.go:30-33 | checks the send counter key of phone and template against the configured limit |
| Sms.Sms.CheckVerifyCodeLimit | sms/sms.go:35-38 | checks the verify counter key against the configured limit |
| Sms.Sms.CheckLimit | sms/sms.go:40-59 | the over-limit flag, the error and the new store are those of `CheckLimitSpec` on the old store |
| Sms.Sms.GenerateCodeAndToken | sms/sms.go:62-83 | code, token, error and new store are those of `IssueSpec` on the old store |
| Sms.Sms.VerifyCode | sms/sms.go:86-109 | status, validity, error and new store are those of `VerifySpec` on the old store |
| SmsProperties.CheckLimitCounts | sms/sms.go:41-58 | a successful check raises the counter by one and reports over-limit exactly when the new count exceeds the limit |
| SmsProperties.CheckLimitExpiry | sms/sms.go:45-55 | an hour's expiry at the first hit; later hits keep the expiry; past the limit a counter without expiry gets an hour |
| SmsProperties.OverLimitCounterExpires | sms/sms.go:51-56 | with TTL and heal working, a counter reported over the limit always has an expiry afterwards |
| SmsProperties.CheckLimitFailsClosed | sms/sms.go:41-49 | every store error reads as over the limit; a failed INCR changes nothing; a failed first EXPIRE leaves a counter of 1 with no expiry |
| SmsProperties.CheckLimitFrame | sms/sms.go:40-59 | a check changes no key but its own |
| SmsProperties.SendAndVerifyCountersIndependent | sms/sms.go:30-38 | send checks never touch verify counters, and the other way round |
| SmsProperties.RepeatChecksCount | sms/sms.go:41-50 | n fault-free checks of a fresh key leave its count at n and every other key unchanged |
| SmsProperties.LimitReachedOnExtraCall | sms/sms.go:51-58 | from a fresh key, the first `limit` checks pass and the next one is refused |
| SmsProperties.WindowRestartsAfterHour | sms/sms.go:45-50 | an hour after the first hit the counter is gone and counting restarts at 1 |
| SmsProperties.StoreSessionStores | sms/sms.go:76-82 | a successful HMSET and EXPIRE leave the given code and token in the session hash with an hour to live |
| SmsProperties.StoreSessionFrame | sms/sms.go:76-82 | writing the session changes no other key |
| SmsProperties.IssueTokenChoice | sms/sms.go:64-74 | the stored token is reused when non-empty; otherwise, or when the session is missing, the fresh token is used |
| SmsProperties.IssueStoresSession | sms/sms.go:75-82 | on success the session hash holds exactly the returned code and token and expires in an hour; the code has the configured length and its value is the draw |
| SmsProperties.IssueFrame | sms/sms.go:62-83 | issuing changes no key but the session key |
| SmsProperties.IssueKeepsCounters | sms/sms.go:62-83 | for a valid phone, issuing leaves every send and verify counter unchanged |
| SmsProperties.IssueReadErrorWritesNothing | sms/sms.go:64-67 | a read error other than "missing" aborts with empty results and an unchanged store |
| SmsProperties.VerifyStateMachine | sms/sms.go:86-108 | no session gives code_expire, a non-hash gives system_err, then token_invalid, code_invalid or ok in that order; valid exactly on ok; only ok changes the store |
| SmsProperties.VerifyOkCleansUp | sms/sms.go:102-108 | on ok the session and both counters of the identity are gone and every other key is kept |
| SmsProperties.VerifyFailureWritesNothing | sms/sms.go:88-101 | a failed verification leaves the store as it was; an error comes only with code_expire or system_err |
| SmsProperties.IssueThenVerify | sms/sms.go:62-109 | verifying a freshly issued pair gives ok; verifying it a second time gives code_expire |
| SmsProperties.ReissueKeepsToken | sms/sms.go:68-76 | re-issuing keeps the token, replaces the code, invalidates the old code and accepts the new one |
| SmsProperties.SendQuotaResetAfterOk | sms/sms.go:102-107 | after a successful verification the next send check starts a fresh window and passes |
| Redis.IncrReply | sms/sms.go:41-44 | INCR fails exactly on a non-counter or at the 64-bit maximum, and otherwise returns the old count plus one |
| Redis.TtlReply | sms/sms.go:52-55 | the TTL is negative exactly when the key is missing or has no expiry |
| Redis.HGetAllReply | sms/sms.go:64-67 | HGETALL fails exactly on a non-hash; a missing key reads as an empty hash |
| Redis.Deleted | sms/sms.go:106 | DEL removes exactly the listed keys and keeps every other entry |
| Service.FailWithStatus | service/service.go:181-186 | a response with the given status and message and no data |
| Service.Fail | service/service.go:177-179 | a failure response: status "fail", the given message, no data |
| Service.OkResponse | service/service.go:188-194 | a response with status "ok", the message and the data |
| Service.Service.SendCode | service/service.go:128-175 | the result and the new store are those of `SendCodeSpec` on the old store |
| Service.Service.VerifyCode | service/service.go:196-249 | the result and the new store are those of `VerifyCodeSpec` on the old store |
| ServiceProperties.SendCodeGuardOrder | service/service.go:129-140 | the send guards pass exactly for an 11-digit phone and a non-empty template; otherwise the first failing guard's message is returned |
| ServiceProperties.VerifyCodeGuardOrder | service/service.go:197-216 | the verify guards are the send guards, then token, then code, each with its message |
| ServiceProperties.RefusedRequestsTouchNothing | service/service.go:129-140 | a request refused by a guard gets a "fail" response and leaves the store unchanged |
| ServiceProperties.SendCodeLimitBeforeIssue | service/service.go:142-152 | over the send limit the answer is limit_control with its message and the session is untouched |
| ServiceProperties.SendCodeOutcome | service/service.go:142-174 | past the guards, a limiter or issuer store error becomes an internal error; a send within the limit that issues without error is answered "ok" with the issued token; an "ok" answer carries the stored token, and the session expires in an hour with a code of the configured length |
| ServiceProperties.VerifyCodeOutcome | service/service.go:224-248 | limit errors become internal errors; over the limit gives limit_control with the session untouched; a verifier store error (a failed EXISTS or HGETALL) becomes an internal error, not a status; otherwise the verifier's status is passed on with an empty message |
| ServiceProperties.SendThenVerify | service/service.go:128-249 | send on a fresh identity, then verify with the returned token and the code: ok; the same verification again: code_expire |
| SmsSender.Get | sms/sms_sender.go:177 | the first value under the name, or "" when there is none |
| SmsSender.LessTransitive | sms/sms_sender.go:174 | string order is transitive |
| SmsSender.LessTotal | sms/sms_sender.go:174 | of two different strings, one is before the other |
| SmsSender.SortedKeys | sms/sms_sender.go:170-174 | the parameter names in ascending order, each exactly once |
| SmsSender.SortedUnique | sms/sms_sender.go:174 | two ascending sequences with the same elements are equal, so the sorted order is unique |
| SmsSender.CollectKeys | sms/sms_sender.go:170-173 | every parameter name is collected exactly once |
| SmsSender.SortStrings | sms/sms_sender.go:174 | after sorting, the array is ascending and a permutation of what it held |
| SmsSender.Sign | sms/sms_sender.go:169-183 | the signature is the upper-case hex of the digest of secret + sorted name/first-value pairs + secret |
| SmsSender.HexEncode | sms/sms_sender.go:182 | two hex characters per byte |
| SmsSender.ToUpper | sms/sms_sender.go:182 | upper-casing keeps the length |
| SmsSender.ToUpperConcat | sms/sms_sender.go:182 | upper-casing distributes over concatenation |
| SmsSender.UpperHexIsUpperHexEncode | sms/sms_sender.go:182 | upper-casing lower-case hex equals hex written with the upper-case alphabet |
| SmsSender.UpperHexEncodeAlphabet | sms/sms_sender.go:182 | upper-case hex uses only 0-9 and A-F |
| SmsSender.SignatureIsUpperHex | sms/sms_sender.go:182 | the signature has two characters per digest byte, all in 0-9A-F |
| SmsSender.CanonicalOfSameFirstValues | sms/sms_sender.go:176-178 | the concatenation depends only on the first value of each name |
| SmsSender.SignInputUsesFirstValues | sms/sms_sender.go:169-179 | parameter sets with the same names and first values are signed identically |
| SmsSender.CanonicalAppend | sms/sms_sender.go:176-178 | concatenating over two lists of names is the concatenation of the two results |
| SmsSender.TestCallKeysSorted | sms/sms_sender_test.go:13-22 | the nine names of the gateway test, in sorted order, are app_key, fields, format, method, num_iid, session, sign_method, timestamp, v |
| SmsSender.TestCallCanonical | sms/sms_sender_test.go:13-23 | the names and values of the test, concatenated in that order |
| SmsSender.TestCallSignInput | sms/sms_sender_test.go:10-23 | the string digested for the test is "helloworld", the concatenated pairs, then "helloworld" again |

## Left out

- The HTTP layer is not modelled: routing, `MakeHandler`, JSON encoding, logging, `Ping`, `Run` and `main.go`. A handler's internal error stands for the error handed to that layer.
- `AliSmsSender.Send`, `NewAliSmsSender` and the HTTP client are not modelled. They are network I/O, and the handlers never call `Send`.
- Configuration loading (config/config.go) is not modelled. The limit and the code length are a `Config` value. The code length is at least 1, as config.go's default of 6 guarantees.
- Randomness is a parameter: the number `rand.Int63n` would draw and the 16-character token `util.RandString(16)` would produce. Seeding from the clock is not modelled. So is the alphabet of the token.
- Time is the `Lapse` function on the store, which drops entries whose expiry has run out. Expiries count whole seconds.
- Redis is a single-threaded map. Concurrent requests are not modelled. Nor is the gap between INCR and EXPIRE, or between checking and writing the session.
- Sms.Sms.VerifyCode: the deletion of the session and the counters runs in a goroutine the source does not wait for. In the model it happens at once, and a fault at the `Cleanup` step stands for a deletion that failed. A request that interleaves with the goroutine is not modelled.
- Sms.Sms.CheckLimit: a failed healing EXPIRE is ignored, as in the source. A command whose error is injected is modelled as not applied at all. A command that applies and still reports an error is not modelled.
- SmsCode.GenerateCode: only lengths 1 to 18 are modelled. There `int64(math.Pow(10, n))` is exact. From 19 up, 10^n does not fit in an int64, and Go leaves the result of that float-to-int64 conversion to the implementation. On amd64 it gives the minimum int64, and `rand.Int63n` panics on that non-positive bound. Other platforms may saturate to the maximum int64 and produce a 19-digit code.
- Validate.ValidatePhone: counts characters and accepts only ASCII digits. Go counts bytes and accepts every Unicode decimal digit (`unicode.IsDigit`). The two agree on ASCII input.
- SmsSender.ToUpper: only ASCII letters are upper-cased, which covers everything hex encoding produces.
- SmsSender.Sign: MD5 is an opaque parameter. So the test's expected signature `66987CB115214E59E6EC978214934FB8` is not proved; the proof stops at the exact string digested.
- SmsSender.Less: compares strings character by character. Go compares UTF-8 bytes, and the two orders agree.
- Go maps iterate in random order. The model collects the names in any order the map yields, and the result does not depend on it.
