/**
 The coordination-store keys and placement URLs the scheduler builds, and a
 parser that recovers the provider and consumer from a host key.
 */
module Keys {

  import opened Maybe

  /** The namespace under which claim and release messages are published. */
  const Prefix: string := "/hosts"

  /** The store key of the message for `consumer` on provider `target`. */
  function HostKey(target: string, consumer: string): string
  {
    Prefix + "/" + target + "/" + consumer
  }

  /** A key in the namespace scheduling and release messages are published under. */
  predicate IsHostKey(key: string)
  {
    |key| >= |Prefix| + 1 && key[..|Prefix| + 1] == Prefix + "/"
  }

  /** The store key where the provisioning agent reports an instance's address. */
  function BootedKey(instance: string): string
  {
    "/booted/" + instance
  }

  /** Every host key lies in the `/hosts/` namespace, and no `/booted/` key does. */
  lemma {:induction false} HostKeyNamespace(target: string, consumer: string, instance: string)
    ensures IsHostKey(HostKey(target, consumer))
    ensures !IsHostKey(BootedKey(instance))
    ensures HostKey(target, consumer) != BootedKey(instance)
  {
    var h := HostKey(target, consumer);
    var b := BootedKey(instance);
    assert h == (Prefix + "/") + (target + "/" + consumer);
    assert b[1] == 'b';
  }

  /** The placement path a claim for `consumer` is PUT to. */
  function ClaimUrl(consumer: string): string
  {
    "/allocations/" + consumer
  }

  /** The position of the first '/' in `s`, if any. */
  function FirstSlash(s: string): (r: Option<nat>)
    ensures r.None? <==> '/' !in s
    ensures r.Some? ==> r.value < |s| && s[r.value] == '/' && '/' !in s[..r.value]
  {
    if |s| == 0 then None
    else if s[0] == '/' then Some(0)
    else
      match FirstSlash(s[1..])
      case None => None
      case Some(j) =>
        assert s[..j + 1] == [s[0]] + s[1..][..j];
        Some(j + 1)
  }

  /** Splits a host key back into its provider and consumer parts. */
  function ParseHostKey(key: string): (r: Option<(string, string)>)
    ensures r.Some? ==> '/' !in r.value.0 && HostKey(r.value.0, r.value.1) == key
  {
    var head := Prefix + "/";
    if |key| < |head| || key[..|head|] != head then None
    else
      var rest := key[|head|..];
      match FirstSlash(rest)
      case None => None
      case Some(j) =>
        assert rest == rest[..j] + "/" + rest[j + 1..];
        assert key == head + rest;
        Some((rest[..j], rest[j + 1..]))
  }

  lemma {:induction false} FirstSlashAfter(t: string, c: string)
    requires '/' !in t
    ensures FirstSlash(t + "/" + c) == Some(|t|)
  {
    var s := t + "/" + c;
    assert s[|t|] == '/';
  }

  /** A host key whose provider id holds no '/' parses back to that provider and consumer. */
  lemma {:induction false} ParseHostKeyRoundTrip(target: string, consumer: string)
    requires '/' !in target
    ensures ParseHostKey(HostKey(target, consumer)) == Some((target, consumer))
  {
    var key := HostKey(target, consumer);
    var head := Prefix + "/";
    assert key == head + (target + "/" + consumer);
    assert key[..|head|] == head;
    assert key[|head|..] == target + "/" + consumer;
    FirstSlashAfter(target, consumer);
    var rest := target + "/" + consumer;
    assert rest[..|target|] == target;
    assert rest[|target| + 1..] == consumer;
  }

  /** Distinct (provider, consumer) pairs get distinct host keys when provider ids hold no '/'. */
  lemma HostKeyInjective(t1: string, c1: string, t2: string, c2: string)
    requires '/' !in t1 && '/' !in t2
    requires HostKey(t1, c1) == HostKey(t2, c2)
    ensures t1 == t2 && c1 == c2
  {
    ParseHostKeyRoundTrip(t1, c1);
    ParseHostKeyRoundTrip(t2, c2);
  }

}
