/** The store keys of sms/sms.go.  The two rate-limit keys are namespaced by
    the prefix "sms_verfiy#" (spelt so in the source); the session key's format
    string has three verbs but only two arguments, so Go's formatter renders
    the third as "%!s(MISSING)" and the key carries no namespace prefix. */
module SmsKeys {
  import opened Validate

  const RedisKeyPrefix: string := "sms_verfiy#"
  const MissingArgument: string := "%!s(MISSING)"

  function SendLimitKey(phone: string, templateCode: string): (k: string)
    ensures |k| == 22 + |phone| + 1 + |templateCode|
  {
    RedisKeyPrefix + "send_limit_" + phone + "_" + templateCode
  }

  function VerifyLimitKey(phone: string, templateCode: string): (k: string)
    ensures |k| == 24 + |phone| + 1 + |templateCode|
  {
    RedisKeyPrefix + "verify_limit_" + phone + "_" + templateCode
  }

  function SessionKey(phone: string, templateCode: string): (k: string)
    ensures |k| == |phone| + 13 + |templateCode| + 13
  {
    phone + "_verify_pair_" + templateCode + "_" + MissingArgument
  }

  /** The send and verify counters of any two identities are different keys. */
  lemma LimitKeysDiffer(p1: string, t1: string, p2: string, t2: string)
    ensures SendLimitKey(p1, t1) != VerifyLimitKey(p2, t2)
  {
    assert SendLimitKey(p1, t1)[11] == 's';
    assert VerifyLimitKey(p2, t2)[11] == 'v';
  }

  /** A session key never coincides with a rate-limit key once the phone
      starts with a digit (as every validated phone does). */
  lemma {:induction false} SessionKeyIsNotALimitKey(phone: string, templateCode: string, p: string, t: string)
    requires |phone| > 0 && IsDigit(phone[0])
    ensures SessionKey(phone, templateCode) != SendLimitKey(p, t)
    ensures SessionKey(phone, templateCode) != VerifyLimitKey(p, t)
  {
    assert SessionKey(phone, templateCode)[0] == phone[0];
    assert SendLimitKey(p, t)[0] == 's';
    assert VerifyLimitKey(p, t)[0] == 's';
  }

  /** With phones of one fixed length, each key determines its identity. */
  lemma {:induction false} SendLimitKeyInjective(p1: string, t1: string, p2: string, t2: string)
    requires |p1| == |p2| && SendLimitKey(p1, t1) == SendLimitKey(p2, t2)
    ensures p1 == p2 && t1 == t2
  {
    var k := SendLimitKey(p1, t1);
    assert p1 == k[22..22 + |p1|] == p2;
    assert t1 == k[23 + |p1|..] == t2;
  }

  lemma {:induction false} VerifyLimitKeyInjective(p1: string, t1: string, p2: string, t2: string)
    requires |p1| == |p2| && VerifyLimitKey(p1, t1) == VerifyLimitKey(p2, t2)
    ensures p1 == p2 && t1 == t2
  {
    var k := VerifyLimitKey(p1, t1);
    assert p1 == k[24..24 + |p1|] == p2;
    assert t1 == k[25 + |p1|..] == t2;
  }

  lemma {:induction false} SessionKeyInjective(p1: string, t1: string, p2: string, t2: string)
    requires |p1| == |p2| && SessionKey(p1, t1) == SessionKey(p2, t2)
    ensures p1 == p2 && t1 == t2
  {
    var k := SessionKey(p1, t1);
    assert p1 == k[..|p1|] == p2;
    assert t1 == k[|p1| + 13..|k| - 13] == t2;
  }

  /** Why the fixed phone length matters: without it, two identities share a
      counter. */
  lemma KeysCollideWithoutFixedLength()
    ensures SendLimitKey("1_2", "3") == SendLimitKey("1", "2_3")
    ensures SessionKey("1_verify_pair_2", "3") == SessionKey("1", "2_verify_pair_3")
  {
  }
}
