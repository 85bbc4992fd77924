/** Names a machine gets on the host: its domain, its MAC address and its volumes. */
module Naming {
  import opened IPv4
  import opened Dhcp

  function HexDigit(d: nat): char
    requires d < 16
  {
    if d < 10 then '0' + d as char else 'a' + (d - 10) as char
  }

  function HexByte(b: byte): string {
    [HexDigit(b / 16), HexDigit(b % 16)]
  }

  // ---- MAC addresses ----

  /** deriveDomainMAC, given the FNV sum of the domain name: its three low bytes behind the libvirt prefix. */
  function DeriveMac(sum: nat): string {
    "52:54:00:" + HexByte(sum % 0x100) + ":" + HexByte(sum / 0x100 % 0x100) + ":" + HexByte(sum / 0x1_0000 % 0x100)
  }

  /** The value of a lower-case hexadecimal digit. */
  function HexValue(c: char): int {
    if '0' <= c <= '9' then c as int - '0' as int else c as int - 'a' as int + 10
  }

  lemma HexReads(b: byte)
    ensures var s := HexByte(b); |s| == 2 && HexValue(s[0]) * 16 + HexValue(s[1]) == b
  {
  }

  lemma HexByteInjective(a: byte, b: byte)
    ensures HexByte(a) == HexByte(b) <==> a == b
  {
    if HexByte(a) == HexByte(b) {
      assert HexByte(a)[0] == HexByte(b)[0] && HexByte(a)[1] == HexByte(b)[1];
      assert a / 16 == b / 16 && a % 16 == b % 16;
    }
  }

  lemma LowThreeBytes(s: nat)
    ensures s % 0x100_0000 == s % 0x100 + 0x100 * (s / 0x100 % 0x100) + 0x1_0000 * (s / 0x1_0000 % 0x100)
  {
    var a := s / 0x100;
    assert a / 0x100 == s / 0x1_0000;
    assert a / 0x100 / 0x100 == s / 0x100_0000;
  }

  lemma MacParts(sum: nat)
    ensures var m := DeriveMac(sum);
            |m| == 17 && m[9..11] == HexByte(sum % 0x100) && m[12..14] == HexByte(sum / 0x100 % 0x100)
            && m[15..17] == HexByte(sum / 0x1_0000 % 0x100) && Lower(m) == m
  {
  }

  /** The MAC is the prefix of libvirt and the three low bytes of the sum, the lowest one first. */
  lemma MacReads(sum: nat)
    ensures var m := DeriveMac(sum);
            && |m| == 17 && m[..9] == "52:54:00:" && m[11] == ':' && m[14] == ':'
            && HexValue(m[9]) * 16 + HexValue(m[10]) == sum % 0x100
            && HexValue(m[12]) * 16 + HexValue(m[13]) == sum / 0x100 % 0x100
            && HexValue(m[15]) * 16 + HexValue(m[16]) == sum / 0x1_0000 % 0x100
  {
    HexReads(sum % 0x100);
    HexReads(sum / 0x100 % 0x100);
    HexReads(sum / 0x1_0000 % 0x100);
  }

  /** Two domains share a MAC exactly when the 24 low bits of their sums agree; letter case cannot tell them apart. */
  lemma MacsAgree(s: nat, t: nat)
    ensures EqualFold(DeriveMac(s), DeriveMac(t)) <==> s % 0x100_0000 == t % 0x100_0000
  {
    MacParts(s);
    MacParts(t);
    LowThreeBytes(s);
    LowThreeBytes(t);
    HexByteInjective(s % 0x100, t % 0x100);
    HexByteInjective(s / 0x100 % 0x100, t / 0x100 % 0x100);
    HexByteInjective(s / 0x1_0000 % 0x100, t / 0x1_0000 % 0x100);
  }

  // ---- domain names ----

  const MAX_LENGTH: nat := 63
  const HASH_LENGTH: nat := 6
  const MAX_PREFIX: nat := 56  // MAX_LENGTH - 1 - HASH_LENGTH

  /** A SHA-256 sum. */
  type Digest = d: seq<byte> | |d| == 32 witness seq(32, i => 0)

  /** Namespace and name of a LibvirtMachine. */
  datatype Key = Key(namespace: string, name: string)

  predicate IsAlnum(c: char) { 'a' <= c <= 'z' || '0' <= c <= '9' }

  /** Letters, digits and dashes, with a letter or digit at both ends (section 2.1 of RFC 1123). */
  predicate IsLabel(s: string) {
    && 0 < |s| <= MAX_LENGTH
    && (forall i :: 0 <= i < |s| ==> IsAlnum(s[i]) || s[i] == '-')
    && IsAlnum(s[0]) && IsAlnum(s[|s| - 1])
  }

  /** Dot-separated runs of letters, digits and dashes, each with a letter or digit at both ends. */
  predicate IsSubdomain(s: string) {
    && 0 < |s| <= 253
    && (forall i :: 0 <= i < |s| ==> IsAlnum(s[i]) || s[i] == '-' || s[i] == '.')
    && IsAlnum(s[0]) && IsAlnum(s[|s| - 1])
    && (forall i :: 0 < i < |s| - 1 && s[i] == '.' ==> IsAlnum(s[i - 1]) && IsAlnum(s[i + 1]))
  }

  function HexEncode(d: seq<byte>): (s: string)
    ensures |s| == 2 * |d|
    ensures forall i :: 0 <= i < |s| ==> IsAlnum(s[i])
  {
    if d == [] then "" else HexByte(d[0]) + HexEncode(d[1..])
  }

  function ReplaceDots(s: string): string {
    seq(|s|, i requires 0 <= i < |s| => if s[i] == '.' then '-' else s[i])
  }

  function TrimRight(s: string): (r: string)
    ensures r <= s
    ensures r != "" ==> r[|r| - 1] != '-'
    ensures (exists i :: 0 <= i < |s| && s[i] != '-') ==> r != ""
  {
    if s == "" || s[|s| - 1] != '-' then s else TrimRight(s[..|s| - 1])
  }

  function ShortHash(sha: string -> Digest, k: Key): string {
    HexEncode(sha(k.namespace + "/" + k.name))[..HASH_LENGTH]
  }

  function Prefix(k: Key): string {
    var prefix := k.namespace + "-" + ReplaceDots(k.name);
    if |prefix| > MAX_PREFIX then TrimRight(prefix[..MAX_PREFIX]) else prefix
  }

  function DomainName(sha: string -> Digest, k: Key): string {
    Prefix(k) + "-" + ShortHash(sha, k)
  }

  /** Every machine the API admits gets a domain name that is a valid host label of at most 63 octets. */
  lemma DomainNameIsLabel(sha: string -> Digest, k: Key)
    requires IsLabel(k.namespace) && IsSubdomain(k.name)
    ensures IsLabel(DomainName(sha, k))
  {
    var whole := k.namespace + "-" + ReplaceDots(k.name);
    assert forall i :: 0 <= i < |whole| ==> IsAlnum(whole[i]) || whole[i] == '-';
    assert whole[0] == k.namespace[0];
    if |whole| > MAX_PREFIX {
      assert whole[..MAX_PREFIX][0] != '-';
    }
    assert Prefix(k) <= whole && 0 < |Prefix(k)| <= MAX_PREFIX;
    var n := DomainName(sha, k);
    assert n[0] == whole[0];
    assert n[|n| - 1] == ShortHash(sha, k)[5];
  }

  /** The short hash is the first three bytes of the digest of "namespace/name" in hexadecimal. */
  lemma ShortHashReads(sha: string -> Digest, k: Key, i: nat)
    requires i < 3
    ensures var s, d := ShortHash(sha, k), sha(k.namespace + "/" + k.name);
            |s| == 6 && HexValue(s[2 * i]) * 16 + HexValue(s[2 * i + 1]) == d[i]
  {
    HexAt(sha(k.namespace + "/" + k.name), i);
  }

  lemma {:induction false} HexAt(d: seq<byte>, i: nat)
    requires i < |d|
    ensures var s := HexEncode(d); HexValue(s[2 * i]) * 16 + HexValue(s[2 * i + 1]) == d[i]
  {
    if i == 0 { HexReads(d[0]); } else { HexAt(d[1..], i - 1); }
  }

  /** Different machines are hashed on different texts: no namespace contains a slash. */
  lemma HashedTextsDiffer(j: Key, k: Key)
    requires '/' !in j.namespace && '/' !in k.namespace
    ensures j.namespace + "/" + j.name == k.namespace + "/" + k.name <==> j == k
  {
    var s, t := j.namespace + "/" + j.name, k.namespace + "/" + k.name;
    if s == t {
      var m, n := |j.namespace|, |k.namespace|;
      assert s[m] == '/' && t[n] == '/';
      assert forall i :: 0 <= i < m ==> s[i] != '/';
      assert forall i :: 0 <= i < n ==> t[i] != '/';
      assert s[..m] == j.namespace && t[..n] == k.namespace && s[m + 1..] == j.name && t[n + 1..] == k.name;
    }
  }

  /** Character i of "namespace-name", with a dash for a dot in the name. */
  function Letter(k: Key, i: nat): char
    requires i <= |k.namespace| + |k.name|
  {
    var n := |k.namespace|;
    if i < n then k.namespace[i] else if i == n || k.name[i - n - 1] == '.' then '-' else k.name[i - n - 1]
  }

  /** The prefix is that text; if it has more than 56 characters, its first 56 without the dashes at their end. */
  lemma PrefixReads(k: Key)
    ensures var r, length := Prefix(k), |k.namespace| + 1 + |k.name|;
            && |r| <= length && (forall i :: 0 <= i < |r| ==> r[i] == Letter(k, i))
            && (length <= 56 ==> |r| == length)
            && (56 < length ==>
                  |r| <= 56 && (r != "" ==> r[|r| - 1] != '-') && forall i :: |r| <= i < 56 ==> Letter(k, i) == '-')
  {
    var whole := k.namespace + "-" + ReplaceDots(k.name);
    assert forall i :: 0 <= i < |whole| ==> whole[i] == Letter(k, i);
    if |whole| > 56 {
      TrimmedRest(whole[..56]);
      forall i | |Prefix(k)| <= i < 56 ensures Letter(k, i) == '-' {
        assert whole[..56][i] == whole[i];
      }
    }
  }

  lemma {:induction false} TrimmedRest(s: string)
    ensures forall i :: |TrimRight(s)| <= i < |s| ==> s[i] == '-'
  {
    if s != "" && s[|s| - 1] == '-' { TrimmedRest(s[..|s| - 1]); }
  }

  lemma PartsAgree(p: string, q: string, s: string, t: string)
    requires |s| == |t|
    ensures p + "-" + s == q + "-" + t <==> p == q && s == t
  {
    var m, n := p + "-" + s, q + "-" + t;
    assert m[..|p|] == p && m[|p| + 1..] == s;
    assert n[..|q|] == q && n[|q| + 1..] == t;
    if m == n { assert |p| == |q|; }
  }

  /** Two machines share a domain name exactly when both their 24-bit digests and their prefixes coincide. */
  lemma DomainNamesAgree(sha: string -> Digest, j: Key, k: Key)
    ensures DomainName(sha, j) == DomainName(sha, k) <==> ShortHash(sha, j) == ShortHash(sha, k) && Prefix(j) == Prefix(k)
  {
    PartsAgree(Prefix(j), Prefix(k), ShortHash(sha, j), ShortHash(sha, k));
  }

  /** A name with dots has the same prefix as the name with dashes in their place, in every namespace. */
  lemma DotsMerge(namespace: string, name: string)
    ensures Prefix(Key(namespace, name)) == Prefix(Key(namespace, ReplaceDots(name)))
  {
    assert ReplaceDots(ReplaceDots(name)) == ReplaceDots(name);
  }

  /** So uniqueness rests on the short hash alone: these two machines share a domain name exactly when their short hashes coincide. */
  lemma DotAndDashShare(sha: string -> Digest)
    ensures var j, k := Key("a", "b.c"), Key("a", "b-c");
            && IsSubdomain(j.name) && IsSubdomain(k.name) && j != k
            && (DomainName(sha, j) == DomainName(sha, k) <==> ShortHash(sha, j) == ShortHash(sha, k))
  {
    DotsMerge("a", "b.c");
    assert ReplaceDots("b.c") == "b-c";
    assert "b.c"[1] != "b-c"[1];
    DomainNamesAgree(sha, Key("a", "b.c"), Key("a", "b-c"));
  }

  // ---- volumes ----

  function DiskName(domain: string): string { domain + ".qcow2" }

  function IsoName(domain: string): string { "cloudinit-" + domain + ".iso" }

  /** Disks and cloud-init images of all domains have pairwise different names. */
  lemma VolumeNamesDiffer(d: string, e: string)
    ensures DiskName(d) == DiskName(e) <==> d == e
    ensures IsoName(d) == IsoName(e) <==> d == e
    ensures DiskName(d) != IsoName(e)
  {
    assert DiskName(d)[..|DiskName(d)| - 6] == d && DiskName(e)[..|DiskName(e)| - 6] == e;
    assert IsoName(d)[10..|IsoName(d)| - 4] == d && IsoName(e)[10..|IsoName(e)| - 4] == e;
    assert DiskName(d)[|DiskName(d)| - 1] == '2' && IsoName(e)[|IsoName(e)| - 1] == 'o';
  }
}
