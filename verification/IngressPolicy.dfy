/** HTTP publication naming: who may claim which DNS name (internal/computeingress/policy.go). */
module IngressPolicy {
  import opened Wrappers

  const SCHEMA := "anas.compute-http-authorization/v1"
  const RANDOM_HEX: nat := 32
  const MAX_LABEL: nat := 63
  const MAX_BASE: nat := 189
  const MAX_HOST: nat := 253

  type Byte = n: nat | n < 256
  type Digest = s: seq<Byte> | |s| == 32 witness seq(32, _ => 0)

  /** The library primitives naming depends on: address syntax, strict base64, HMAC-SHA-256. */
  datatype Primitives = Primitives(
    isAddress: string -> bool,
    decode: string -> Option<seq<Byte>>,
    encode: seq<Byte> -> string,
    mac: (seq<Byte>, string) -> Digest)

  datatype Domain = Domain(mode: string, prefix: string)
  datatype Policy = Policy(ports: seq<nat>, auth: string, domain: Domain)
  datatype ForwardAuth = ForwardAuth(provider: string, middleware: string)
  datatype Authorization = Authorization(
    schema: string, deployment: string, consumer: string, resource: string, provider: string, iface: string,
    project: string, instancePrefix: string, leaseSecretRef: string, baseDomain: string, policy: Policy,
    forwardAuth: Option<ForwardAuth>)

  // ------------------------------------------------------- name syntax

  predicate Lower(c: char) { 'a' <= c <= 'z' }
  predicate Upper(c: char) { 'A' <= c <= 'Z' }
  predicate Digit(c: char) { '0' <= c <= '9' }
  predicate LowerOrDigit(c: char) { Lower(c) || Digit(c) }

  predicate All(s: string, p: char -> bool) {
    forall i :: 0 <= i < |s| ==> p(s[i])
  }

  /** One DNS label: 1 to 63 of a-z, 0-9 and inner hyphens. */
  predicate DnsLabel(s: string) {
    1 <= |s| <= MAX_LABEL && LowerOrDigit(s[0]) && LowerOrDigit(s[|s| - 1]) && All(s, c => LowerOrDigit(c) || c == '-')
  }

  predicate Identity(s: string) {
    1 <= |s| <= 63 && Lower(s[0]) && All(s, c => LowerOrDigit(c) || c == '_')
  }

  predicate ProjectName(s: string) {
    1 <= |s| <= 63 && Lower(s[0]) && All(s, c => LowerOrDigit(c) || c == '-')
  }

  predicate InstancePrefix(s: string) {
    6 <= |s| <= 55 && "anas-" <= s && All(s[5..], c => LowerOrDigit(c) || c == '-')
  }

  predicate WorkloadName(s: string) {
    1 <= |s| <= 256 && (LowerOrDigit(s[0]) || Upper(s[0])) &&
    All(s, c => LowerOrDigit(c) || Upper(c) || c in "._:-")
  }

  predicate MiddlewareName(s: string) {
    exists k :: 1 <= k <= 128 && k <= |s| && (LowerOrDigit(s[0]) || Upper(s[0])) &&
      All(s[..k], c => LowerOrDigit(c) || Upper(c) || c in "_-") && s[k..] in {"@docker", "@file"}
  }

  predicate RandomLabelShape(s: string) {
    |s| == RANDOM_HEX && All(s, c => Digit(c) || 'a' <= c <= 'f')
  }

  /** The dot-separated parts of a name. */
  function Split(s: string): seq<string> {
    if s == [] then [""]
    else
      var rest := Split(s[1..]);
      if s[0] == '.' then [""] + rest else [[s[0]] + rest[0]] + rest[1..]
  }

  predicate ValidBaseDomain(lib: Primitives, s: string) {
    |s| <= MAX_BASE && '.' in s && !lib.isAddress(s) &&
    var labels := Split(s); forall i :: 0 <= i < |labels| ==> DnsLabel(labels[i])
  }

  // ------------------------------------------------------- the frozen grant

  predicate ValidPolicy(p: Policy) {
    1 <= |p.ports| <= 64 && (forall i :: 0 <= i < |p.ports| ==> 1 <= p.ports[i] <= 65535) &&
    (forall i, j :: 0 <= i < j < |p.ports| ==> p.ports[i] != p.ports[j]) &&
    p.auth in {"none", "forward_auth"} && DnsLabel(p.domain.prefix) &&
    match p.domain.mode
    case "fixed" => true
    case "named" => |p.domain.prefix| <= 61
    case "random" => |p.domain.prefix| <= MAX_LABEL - 1 - RANDOM_HEX
    case _ => false
  }

  function ToUpper(s: string): string {
    seq(|s|, i requires 0 <= i < |s| => if Lower(s[i]) then (s[i] as int - 32) as char else s[i])
  }

  predicate ValidIdentity(a: Authorization) {
    a.schema == SCHEMA && 1 <= |a.deployment| <= 128 && All(a.deployment, c => c !in "/\\\r\n\0") &&
    Identity(a.consumer) && Identity(a.resource) && Identity(a.provider) && ProjectName(a.project) &&
    InstancePrefix(a.instancePrefix) && a.iface in {"incus_vm", "incus_container"} &&
    a.leaseSecretRef
      == "ANAS_COMPUTE_RESOURCE__" + ToUpper(a.consumer) + "__" + ToUpper(a.resource) + "__LEASE_SECRET" &&
    (forall i, j :: 0 <= i < j < |a.policy.ports| ==> a.policy.ports[i] <= a.policy.ports[j]) &&
    if a.policy.auth == "none" then a.forwardAuth.None?
    else a.forwardAuth.Some? && Identity(a.forwardAuth.value.provider) && MiddlewareName(a.forwardAuth.value.middleware)
  }

  predicate Valid(lib: Primitives, a: Authorization) {
    ValidIdentity(a) && ValidBaseDomain(lib, a.baseDomain) && ValidPolicy(a.policy)
  }

  // ------------------------------------------------------- deriving names

  function Lowest(n: nat): char
    requires n < 16
  {
    "0123456789abcdef"[n]
  }

  function Hex(bytes: seq<Byte>): string {
    if bytes == [] then "" else [Lowest(bytes[0] / 16), Lowest(bytes[0] % 16)] + Hex(bytes[1..])
  }

  function NamingKey(lib: Primitives, secret: string): Option<seq<Byte>> {
    var key :- lib.decode(secret);
    if |key| != 32 || lib.encode(key) != secret then None else Some(key)
  }

  function RandomSuffix(lib: Primitives, key: seq<Byte>, workload: string): string {
    HexShape(lib.mac(key, workload));
    Hex(lib.mac(key, workload))[..RANDOM_HEX]
  }

  /** The consumer's prediction. */
  function Host(lib: Primitives, p: Policy, base: string, workload: string, tag: string,
                secret: string): Option<string> {
    if !ValidPolicy(p) || !ValidBaseDomain(lib, base) || !WorkloadName(workload) then None
    else
      var name :-
        if p.domain.mode == "fixed" then (if tag != "" then None else Some(p.domain.prefix))
        else if p.domain.mode == "named" then (if !DnsLabel(tag) then None else Some(p.domain.prefix + "-" + tag))
        else if tag != "" then None
        else
          var key :- NamingKey(lib, secret);
          Some(p.domain.prefix + "-" + RandomSuffix(lib, key, workload));
      if !DnsLabel(name) then None else Some(name + "." + base)
  }

  /** The label a random-mode consumer puts in its request. */
  function RandomLabel(lib: Primitives, p: Policy, workload: string, secret: string): Option<string> {
    if p.domain.mode != "random" || !WorkloadName(workload) then None
    else
      var key :- NamingKey(lib, secret);
      Some(RandomSuffix(lib, key, workload))
  }

  function HasSuffix(s: string, suffix: string): bool {
    |s| >= |suffix| && s[|s| - |suffix|..] == suffix
  }

  predicate ClaimsHost(a: Authorization, host: string) {
    var suffix := "." + a.baseDomain;
    HasSuffix(host, suffix) && ClaimsLabel(a.policy.domain, host[..|host| - |suffix|])
  }

  predicate ClaimsLabel(d: Domain, tag: string) {
    DnsLabel(tag) && (tag == d.prefix || (d.mode != "fixed" && d.prefix + "-" <= tag))
  }

  /** The mediator's side: it holds no naming key, so a random label is checked for shape only. */
  function HostForLabel(lib: Primitives, a: Authorization, tag: string): Option<string> {
    if !Valid(lib, a) then None
    else
      var d := a.policy.domain;
      var name :-
        if d.mode == "fixed" then (if tag != "" then None else Some(d.prefix))
        else if d.mode == "named" then (if !DnsLabel(tag) then None else Some(d.prefix + "-" + tag))
        else if !RandomLabelShape(tag) then None
        else Some(d.prefix + "-" + tag);
      var host := name + "." + a.baseDomain;
      if !DnsLabel(name) || !ClaimsHost(a, host) then None else Some(host)
  }

  predicate NamespaceOverlaps(a: Authorization, b: Authorization) {
    var x, y := a.policy.domain, b.policy.domain;
    a.baseDomain == b.baseDomain &&
    (x.prefix == y.prefix || (x.mode != "fixed" && x.prefix + "-" <= y.prefix) ||
      (y.mode != "fixed" && y.prefix + "-" <= x.prefix))
  }

  // ------------------------------------------------------- hosts split one way only

  /** A host is its first label, a dot, and the rest: labels hold no dot. */
  lemma FirstDotSplits(l: string, base: string, m: string, other: string)
    requires DnsLabel(l) && DnsLabel(m) && l + "." + base == m + "." + other
    ensures l == m && base == other
  {
    var host := l + "." + base;
    assert host[|l|] == '.' && host[|m|] == '.';
    assert forall i :: 0 <= i < |l| ==> host[i] == l[i] != '.';
    assert forall i :: 0 <= i < |m| ==> host[i] == m[i] != '.';
    assert l == host[..|l|] && m == host[..|m|];
    assert base == host[|l| + 1..] && other == host[|m| + 1..];
  }

  lemma ClaimedIsLabelAndBase(a: Authorization, host: string)
    requires ClaimsHost(a, host)
    ensures var l := host[..|host| - |"." + a.baseDomain|];
            ClaimsLabel(a.policy.domain, l) && host == l + "." + a.baseDomain
  {
    var suffix := "." + a.baseDomain;
    assert host == host[..|host| - |suffix|] + host[|host| - |suffix|..];
  }

  lemma LabelAndBaseIsClaimed(a: Authorization, l: string)
    requires ClaimsLabel(a.policy.domain, l)
    ensures ClaimsHost(a, l + "." + a.baseDomain)
  {
    var suffix := "." + a.baseDomain;
    var host := l + "." + a.baseDomain;
    assert host == l + suffix;
    assert host[|host| - |suffix|..] == suffix && host[..|host| - |suffix|] == l;
  }

  /** Two subtrees that share a label: one prefix is the other, or lies under it. */
  lemma SharedLabelNests(x: Domain, y: Domain, l: string)
    requires ClaimsLabel(x, l) && ClaimsLabel(y, l)
    ensures x.prefix == y.prefix || (x.mode != "fixed" && x.prefix + "-" <= y.prefix) ||
            (y.mode != "fixed" && y.prefix + "-" <= x.prefix)
  {
    if l != x.prefix && l != y.prefix {
      assert x.prefix == l[..|x.prefix|] && y.prefix == l[..|y.prefix|];
      if |x.prefix| < |y.prefix| {
        assert y.prefix[..|x.prefix| + 1] == l[..|x.prefix| + 1] == x.prefix + "-";
      } else if |y.prefix| < |x.prefix| {
        assert x.prefix[..|y.prefix| + 1] == l[..|y.prefix| + 1] == y.prefix + "-";
      }
    }
  }

  ghost predicate ShareHost(a: Authorization, b: Authorization) {
    exists host :: ClaimsHost(a, host) && ClaimsHost(b, host)
  }

  /** The overlap test is exact: it holds just when some host is claimed by both grants. */
  lemma OverlapsIffSharedHost(a: Authorization, b: Authorization)
    requires DnsLabel(a.policy.domain.prefix) && DnsLabel(b.policy.domain.prefix)
    ensures NamespaceOverlaps(a, b) <==> ShareHost(a, b)
  {
    if NamespaceOverlaps(a, b) {
      var x, y := a.policy.domain, b.policy.domain;
      var l := if y.mode != "fixed" && y.prefix + "-" <= x.prefix then x.prefix else y.prefix;
      LabelAndBaseIsClaimed(a, l);
      LabelAndBaseIsClaimed(b, l);
    }
    if ShareHost(a, b) {
      var host :| ClaimsHost(a, host) && ClaimsHost(b, host);
      SharedHostOverlaps(a, b, host);
    }
  }

  lemma SharedHostOverlaps(a: Authorization, b: Authorization, host: string)
    requires ClaimsHost(a, host) && ClaimsHost(b, host)
    ensures NamespaceOverlaps(a, b)
  {
    ClaimedIsLabelAndBase(a, host);
    ClaimedIsLabelAndBase(b, host);
    var l, m := host[..|host| - |"." + a.baseDomain|], host[..|host| - |"." + b.baseDomain|];
    FirstDotSplits(l, a.baseDomain, m, b.baseDomain);
    SharedLabelNests(a.policy.domain, b.policy.domain, l);
  }

  // ------------------------------------------------------- a set of grants

  predicate SameLease(a: Authorization, b: Authorization) {
    a.consumer == b.consumer && a.resource == b.resource
  }

  /** The grants live apart: distinct leases, no host claimed twice, no reserved host claimed. */
  ghost predicate Disjoint(lib: Primitives, grants: seq<Authorization>, reserved: seq<string>) {
    (forall i :: 0 <= i < |grants| ==> Valid(lib, grants[i])) &&
    (forall i, j :: 0 <= j < i < |grants| ==> !SameLease(grants[i], grants[j]) && !ShareHost(grants[i], grants[j])) &&
    (forall i, k :: 0 <= i < |grants| && 0 <= k < |reserved| ==> !ClaimsHost(grants[i], reserved[k]))
  }

  ghost predicate Apart(a: Authorization, earlier: seq<Authorization>) {
    forall k :: 0 <= k < |earlier| ==> !SameLease(a, earlier[k]) && !ShareHost(a, earlier[k])
  }

  ghost predicate Unreserved(a: Authorization, reserved: seq<string>) {
    forall k :: 0 <= k < |reserved| ==> !ClaimsHost(a, reserved[k])
  }

  lemma DisjointGrows(lib: Primitives, grants: seq<Authorization>, a: Authorization, reserved: seq<string>)
    ensures Disjoint(lib, grants + [a], reserved)
            <==> Disjoint(lib, grants, reserved) && Valid(lib, a) && Apart(a, grants) && Unreserved(a, reserved)
  {
    var all := grants + [a];
    assert all[|grants|] == a && forall i :: 0 <= i < |grants| ==> all[i] == grants[i];
    if Disjoint(lib, all, reserved) {
      assert Disjoint(lib, grants, reserved);
      assert Apart(a, grants);
    }
  }

  lemma DisjointPrefix(lib: Primitives, grants: seq<Authorization>, n: nat, reserved: seq<string>)
    requires n <= |grants|
    ensures Disjoint(lib, grants, reserved) ==> Disjoint(lib, grants[..n], reserved)
  {
  }

  method ValidateNamespaces(lib: Primitives, grants: seq<Authorization>, reserved: seq<string>) returns (ok: bool)
    ensures ok <==> Disjoint(lib, grants, reserved)
  {
    var i := 0;
    while i < |grants|
      invariant i <= |grants| && Disjoint(lib, grants[..i], reserved)
    {
      var valid := Valid(lib, grants[i]);
      var apart := false;
      if valid {
        apart := CheckEarlier(grants[i], grants[..i]);
        if apart { apart := CheckReserved(grants[i], reserved); }
      }
      DisjointGrows(lib, grants[..i], grants[i], reserved);
      assert grants[..i + 1] == grants[..i] + [grants[i]];
      DisjointPrefix(lib, grants, i + 1, reserved);
      if !apart { return false; }
      i := i + 1;
    }
    assert grants[..i] == grants;
    ok := true;
  }

  method CheckEarlier(a: Authorization, earlier: seq<Authorization>) returns (ok: bool)
    requires DnsLabel(a.policy.domain.prefix)
    requires forall k :: 0 <= k < |earlier| ==> DnsLabel(earlier[k].policy.domain.prefix)
    ensures ok <==> Apart(a, earlier)
  {
    var j := 0;
    while j < |earlier|
      invariant j <= |earlier| && Apart(a, earlier[..j])
    {
      OverlapsIffSharedHost(a, earlier[j]);
      if SameLease(a, earlier[j]) || NamespaceOverlaps(a, earlier[j]) { return false; }
      j := j + 1;
    }
    assert earlier[..j] == earlier;
    ok := true;
  }

  method CheckReserved(a: Authorization, reserved: seq<string>) returns (ok: bool)
    ensures ok <==> Unreserved(a, reserved)
  {
    var k := 0;
    while k < |reserved|
      invariant k <= |reserved| && Unreserved(a, reserved[..k])
    {
      if ClaimsHost(a, reserved[k]) { return false; }
      k := k + 1;
    }
    assert reserved[..k] == reserved;
    ok := true;
  }

  /** Grants that pass can never derive the same host, whatever labels are asked for, nor a reserved one. */
  lemma DisjointGrantsDeriveDistinctHosts(lib: Primitives, grants: seq<Authorization>, reserved: seq<string>,
                                          i: nat, j: nat, s: string, t: string)
    requires Disjoint(lib, grants, reserved) && i < |grants| && j < |grants|
    requires HostForLabel(lib, grants[i], s).Some?
    ensures HostForLabel(lib, grants[i], s).value !in reserved
    ensures i != j ==> HostForLabel(lib, grants[i], s) != HostForLabel(lib, grants[j], t)
  {
    var host := HostForLabel(lib, grants[i], s).value;
    assert ClaimsHost(grants[i], host);
    if i != j && HostForLabel(lib, grants[j], t) == Some(host) {
      assert ClaimsHost(grants[j], host);
      assert ShareHost(grants[i], grants[j]) && ShareHost(grants[j], grants[i]);
      assert false;
    }
  }

  // ------------------------------------------------------- prediction and mediation agree

  predicate HexText(s: string) {
    All(s, c => Digit(c) || 'a' <= c <= 'f')
  }

  lemma {:induction false} HexShape(bytes: seq<Byte>)
    ensures |Hex(bytes)| == 2 * |bytes| && HexText(Hex(bytes))
  {
    if bytes != [] { HexShape(bytes[1..]); }
  }

  lemma RandomSuffixShape(lib: Primitives, key: seq<Byte>, workload: string)
    ensures RandomLabelShape(RandomSuffix(lib, key, workload)) && DnsLabel(RandomSuffix(lib, key, workload))
  {
    HexShape(lib.mac(key, workload));
  }

  /** Prefix, hyphen, label: a DNS label exactly when it fits in 63 characters. */
  lemma JoinedLabel(prefix: string, tag: string)
    requires DnsLabel(prefix) && DnsLabel(tag)
    ensures DnsLabel(prefix + "-" + tag) <==> |prefix| + 1 + |tag| <= MAX_LABEL
    ensures prefix + "-" <= prefix + "-" + tag
  {
    var name := prefix + "-" + tag;
    assert name[|name| - 1] == tag[|tag| - 1] && name[0] == prefix[0];
    forall i | 0 <= i < |name|
      ensures LowerOrDigit(name[i]) || name[i] == '-'
    {
      if i < |prefix| {
        assert name[i] == prefix[i];
      } else if i > |prefix| {
        assert name[i] == tag[i - |prefix| - 1];
      }
    }
  }

  /** The label a consumer sends for the host it predicts. */
  function SentLabel(lib: Primitives, p: Policy, workload: string, tag: string, secret: string): Option<string> {
    if p.domain.mode != "random" then Some(tag)
    else if tag != "" then None
    else RandomLabel(lib, p, workload, secret)
  }

  /** The prediction is the mediator's answer to the label sent: same host, same refusals. */
  lemma PredictionIsMediation(lib: Primitives, a: Authorization, workload: string, tag: string, secret: string)
    requires Valid(lib, a)
    ensures Host(lib, a.policy, a.baseDomain, workload, tag, secret) ==
            if !WorkloadName(workload) then None
            else match SentLabel(lib, a.policy, workload, tag, secret)
                 case None => None
                 case Some(sent) => HostForLabel(lib, a, sent)
  {
    var d := a.policy.domain;
    if WorkloadName(workload) && SentLabel(lib, a.policy, workload, tag, secret).Some? {
      var sent := SentLabel(lib, a.policy, workload, tag, secret).value;
      if d.mode == "random" {
        RandomSuffixShape(lib, NamingKey(lib, secret).value, workload);
      }
      DerivedIsClaimed(lib, a, sent);
    }
  }

  /** The claim check never refuses a derived name. */
  lemma DerivedIsClaimed(lib: Primitives, a: Authorization, tag: string)
    requires Valid(lib, a)
    ensures var d := a.policy.domain;
            (d.mode == "fixed" ==> ClaimsHost(a, d.prefix + "." + a.baseDomain)) &&
            (d.mode != "fixed" && DnsLabel(tag) && |d.prefix| + 1 + |tag| <= MAX_LABEL ==>
              DnsLabel(d.prefix + "-" + tag) && ClaimsHost(a, d.prefix + "-" + tag + "." + a.baseDomain))
            && (d.mode != "fixed" && DnsLabel(tag) && |d.prefix| + 1 + |tag| > MAX_LABEL ==>
                !DnsLabel(d.prefix + "-" + tag))
  {
    var d := a.policy.domain;
    if d.mode == "fixed" {
      LabelAndBaseIsClaimed(a, d.prefix);
    } else if DnsLabel(tag) {
      JoinedLabel(d.prefix, tag);
      if |d.prefix| + 1 + |tag| <= MAX_LABEL { LabelAndBaseIsClaimed(a, d.prefix + "-" + tag); }
    }
  }

  /** Every derived host is claimed and within the limits of section 2.3.4 of RFC 1035. */
  lemma DerivedHostFits(lib: Primitives, a: Authorization, tag: string)
    requires HostForLabel(lib, a, tag).Some?
    ensures var host := HostForLabel(lib, a, tag).value;
            ClaimsHost(a, host) && |host| <= MAX_HOST && |host| - |a.baseDomain| - 1 <= MAX_LABEL
  {
    ClaimedIsLabelAndBase(a, HostForLabel(lib, a, tag).value);
  }

  /** Random mode always fits: with a good naming key no workload is refused for its length. */
  lemma RandomAlwaysFits(lib: Primitives, a: Authorization, workload: string, secret: string)
    requires Valid(lib, a) && a.policy.domain.mode == "random"
    ensures Host(lib, a.policy, a.baseDomain, workload, "", secret).Some? <==>
              WorkloadName(workload) &&
              NamingKey(lib, secret).Some?
  {
    if WorkloadName(workload) && NamingKey(lib, secret).Some? {
      RandomSuffixShape(lib, NamingKey(lib, secret).value, workload);
      JoinedLabel(a.policy.domain.prefix, RandomSuffix(lib, NamingKey(lib, secret).value, workload));
    }
  }

  // ------------------------------------------------------- what the names say

  /** The value of a hexadecimal digit. */
  function DigitValue(c: char): int {
    if Digit(c) then c as int - '0' as int else c as int - 'a' as int + 10
  }

  /** The byte written as the two digits at `2 * i`. */
  function ByteAt(s: string, i: nat): int
    requires 2 * i + 1 < |s|
  {
    16 * DigitValue(s[2 * i]) + DigitValue(s[2 * i + 1])
  }

  lemma LowestValue(n: nat)
    requires n < 16
    ensures DigitValue(Lowest(n)) == n
  {
  }

  lemma {:induction false} HexSpells(bytes: seq<Byte>, i: nat)
    requires i < |bytes|
    ensures |Hex(bytes)| == 2 * |bytes| && ByteAt(Hex(bytes), i) == bytes[i]
    decreases |bytes|
  {
    HexShape(bytes);
    var rest := Hex(bytes[1..]);
    HexShape(bytes[1..]);
    assert Hex(bytes) == [Lowest(bytes[0] / 16), Lowest(bytes[0] % 16)] + rest;
    if i == 0 {
      LowestValue(bytes[0] / 16);
      LowestValue(bytes[0] % 16);
    } else {
      HexSpells(bytes[1..], i - 1);
      assert Hex(bytes)[2 * i] == rest[2 * (i - 1)] && Hex(bytes)[2 * i + 1] == rest[2 * (i - 1) + 1];
    }
  }

  /** The naming key is the decoded secret, if that has 32 bytes and is spelled canonically. */
  ghost predicate KeyOf(lib: Primitives, secret: string, key: seq<Byte>) {
    lib.decode(secret) == Some(key) && |key| == 32 && lib.encode(key) == secret
  }

  /** In random mode a label exists for every workload name under a good secret, and for nothing else; it spells
      the first 16 bytes of the code that the key gives the workload. */
  lemma RandomLabelSpellsMac(lib: Primitives, p: Policy, workload: string, secret: string)
    ensures RandomLabel(lib, p, workload, secret).Some? <==>
              p.domain.mode == "random" && WorkloadName(workload) && exists key :: KeyOf(lib, secret, key)
    ensures forall key, i ::
              RandomLabel(lib, p, workload, secret).Some? && KeyOf(lib, secret, key) && 0 <= i < 16 ==>
                |RandomLabel(lib, p, workload, secret).value| == 32 &&
                ByteAt(RandomLabel(lib, p, workload, secret).value, i) == lib.mac(key, workload)[i]
  {
    if NamingKey(lib, secret).Some? { assert KeyOf(lib, secret, NamingKey(lib, secret).value); }
    if RandomLabel(lib, p, workload, secret).Some? {
      var key := NamingKey(lib, secret).value;
      var l := RandomLabel(lib, p, workload, secret).value;
      HexShape(lib.mac(key, workload));
      forall i | 0 <= i < 16
        ensures |l| == 32 && ByteAt(l, i) == lib.mac(key, workload)[i]
      {
        HexSpells(lib.mac(key, workload), i);
        assert l[2 * i] == Hex(lib.mac(key, workload))[2 * i];
        assert l[2 * i + 1] == Hex(lib.mac(key, workload))[2 * i + 1];
      }
    }
  }

  /** Lower-case hexadecimal text of one length is determined by the bytes it spells. */
  lemma SpellingIsUnique(s: string, t: string, n: nat)
    requires |s| == |t| == 2 * n && HexText(s) && HexText(t)
    requires forall i :: 0 <= i < n ==> ByteAt(s, i) == ByteAt(t, i)
    ensures s == t
  {
    forall j | 0 <= j < 2 * n
      ensures s[j] == t[j]
    {
      var i := j / 2;
      assert ByteAt(s, i) == ByteAt(t, i);
      DigitsAreUnique(s[2 * i], s[2 * i + 1], t[2 * i], t[2 * i + 1]);
    }
  }

  lemma DigitsAreUnique(a: char, b: char, c: char, d: char)
    requires forall x :: x in [a, b, c, d] ==> Digit(x) || 'a' <= x <= 'f'
    requires 16 * DigitValue(a) + DigitValue(b) == 16 * DigitValue(c) + DigitValue(d)
    ensures a == c && b == d
  {
    assert a in [a, b, c, d] && b in [a, b, c, d] && c in [a, b, c, d] && d in [a, b, c, d];
  }

  lemma HostOfLabel(lib: Primitives, p: Policy, base: string, workload: string, secret: string)
    requires ValidPolicy(p) && ValidBaseDomain(lib, base) && p.domain.mode == "random" && WorkloadName(workload)
    requires NamingKey(lib, secret).Some?
    ensures var l := RandomLabel(lib, p, workload, secret);
            && l.Some? && RandomLabelShape(l.value)
            && Host(lib, p, base, workload, "", secret) == Some(p.domain.prefix + "-" + l.value + "." + base)
  {
    RandomSuffixShape(lib, NamingKey(lib, secret).value, workload);
    JoinedLabel(p.domain.prefix, RandomSuffix(lib, NamingKey(lib, secret).value, workload));
  }

  /** Prefix, hyphen, tag, dot, base: the tag can be read back. */
  lemma SameTagsIff(prefix: string, s: string, t: string, base: string)
    ensures prefix + "-" + s + "." + base == prefix + "-" + t + "." + base <==> s == t
  {
    var x, y := prefix + "-" + s + "." + base, prefix + "-" + t + "." + base;
    if x == y {
      assert |s| == |t|;
      assert s == x[|prefix| + 1..|prefix| + 1 + |s|] == y[|prefix| + 1..|prefix| + 1 + |t|] == t;
    }
  }

  /** Under one grant and one secret two workloads get the same host if and only if the codes of both agree in
      their first 16 bytes. */
  lemma SameHostIffSameMac(lib: Primitives, p: Policy, base: string, secret: string, key: seq<Byte>, a: string,
                           b: string)
    requires ValidPolicy(p) && ValidBaseDomain(lib, base) && p.domain.mode == "random" && KeyOf(lib, secret, key)
    requires WorkloadName(a) && WorkloadName(b)
    ensures var x, y := Host(lib, p, base, a, "", secret), Host(lib, p, base, b, "", secret);
            x.Some? && y.Some? && (x == y <==> lib.mac(key, a)[..16] == lib.mac(key, b)[..16])
  {
    RandomLabelSpellsMac(lib, p, a, secret);
    RandomLabelSpellsMac(lib, p, b, secret);
    var l, m := RandomLabel(lib, p, a, secret).value, RandomLabel(lib, p, b, secret).value;
    HostOfLabel(lib, p, base, a, secret);
    HostOfLabel(lib, p, base, b, secret);
    if lib.mac(key, a)[..16] == lib.mac(key, b)[..16] {
      forall i | 0 <= i < 16
        ensures ByteAt(l, i) == ByteAt(m, i)
      {
        assert lib.mac(key, a)[i] == lib.mac(key, a)[..16][i] == lib.mac(key, b)[..16][i];
      }
      SpellingIsUnique(l, m, 16);
    }
    if l == m {
      forall i | 0 <= i < 16
        ensures lib.mac(key, a)[i] == lib.mac(key, b)[i]
      {
        assert ByteAt(l, i) == ByteAt(m, i);
      }
      assert lib.mac(key, a)[..16] == lib.mac(key, b)[..16];
    }
    SameTagsIff(p.domain.prefix, l, m, base);
  }

  /** In named mode the host is prefix, hyphen, tag, dot, base, for every tag that is a label and leaves the first
      label within 63 characters, and for nothing else; distinct tags give distinct hosts. */
  lemma NamedHostIs(lib: Primitives, p: Policy, base: string, workload: string, secret: string, s: string, t: string)
    requires ValidPolicy(p) && ValidBaseDomain(lib, base) && p.domain.mode == "named"
    ensures var x, y := Host(lib, p, base, workload, s, secret), Host(lib, p, base, workload, t, secret);
            && (x.Some? <==> WorkloadName(workload) && DnsLabel(s) && |p.domain.prefix| + 1 + |s| <= MAX_LABEL)
            && (x.Some? ==> x.value == p.domain.prefix + "-" + s + "." + base)
            && (x.Some? && y.Some? ==> (x == y <==> s == t))
  {
    if DnsLabel(s) { JoinedLabel(p.domain.prefix, s); }
    if DnsLabel(t) { JoinedLabel(p.domain.prefix, t); }
    SameTagsIff(p.domain.prefix, s, t, base);
  }

  /** In fixed mode there is one host, and no tag is taken. */
  lemma FixedHostIs(lib: Primitives, p: Policy, base: string, workload: string, tag: string, secret: string)
    requires ValidPolicy(p) && ValidBaseDomain(lib, base) && p.domain.mode == "fixed"
    ensures Host(lib, p, base, workload, tag, secret)
            == if WorkloadName(workload) && tag == "" then Some(p.domain.prefix + "." + base) else None
  {
  }

  /** Nothing is predicted outside a valid policy, base domain and workload name. */
  lemma HostNeedsValidInputs(lib: Primitives, p: Policy, base: string, workload: string, tag: string, secret: string)
    requires Host(lib, p, base, workload, tag, secret).Some?
    ensures ValidPolicy(p) && ValidBaseDomain(lib, base) && WorkloadName(workload)
  {
  }

  // ------------------------------------------------------- the labels of a base domain

  function Joined(parts: seq<string>): string {
    if parts == [] then "" else if |parts| == 1 then parts[0] else parts[0] + "." + Joined(parts[1..])
  }

  /** The labels of a name hold no dot and, joined by dots, are the name. */
  lemma {:induction false} SplitIsExact(s: string)
    ensures Split(s) != [] && Joined(Split(s)) == s
    ensures forall i :: 0 <= i < |Split(s)| ==> '.' !in Split(s)[i]
    decreases |s|
  {
    if s != [] {
      var rest := Split(s[1..]);
      SplitIsExact(s[1..]);
      var parts := Split(s);
      if s[0] == '.' {
        assert parts[1..] == rest;
        assert Joined(parts) == "" + "." + Joined(rest);
      } else {
        assert parts[1..] == rest[1..] && parts[0] == [s[0]] + rest[0];
        if |rest| > 1 { assert Joined(parts) == [s[0]] + (rest[0] + "." + Joined(rest[1..])); }
      }
    }
  }
}
