/** Keys and payloads of the connection-kill ConfigMap (internal/connkill/signaler.go). */
module KillKeys {
  import opened Api

  /**
   * A decoded data value. Signals and acks are JSON objects that share field names, so each is read as
   * one record in which absent fields are zero.
   */
  datatype Payload =
    | Malformed
    | Payload(
        ip: Address,
        number: int,
        token: Option<Token>,
        node: string,
        fsNamespace: string,
        fsName: string,
        killed: int,
        errors: int)

  type ConfigMap = map<string, Payload>

  const KILL := "kill_"
  const ACK := "ack_"
  const MAX_KEY := 253
  const HASH := 16

  /** The first eight bytes of a digest in hexadecimal; nothing but its length is known. */
  type Digest = string -> string

  ghost predicate ValidDigest(h: Digest) {
    forall s {:trigger h(s)} :: |h(s)| == HASH
  }

  function Body(node: string, ns: string, name: string): string {
    node + "_" + ns + "_" + name
  }

  /** The longest prefix is "kill" and takes one separator. */
  predicate Fits(node: string, ns: string, name: string) {
    |Body(node, ns, name)| <= MAX_KEY - 4 - 1
  }

  function Suffix(h: Digest, node: string, ns: string, name: string): string {
    var body := Body(node, ns, name);
    if |body| <= MAX_KEY - 4 - 1 then body
    else body[..MAX_KEY - 4 - 1 - 1 - HASH] + "-" + h(body)
  }

  function KillKey(h: Digest, node: string, ns: string, name: string): string {
    KILL + Suffix(h, node, ns, name)
  }

  function AckKey(h: Digest, node: string, ns: string, name: string): string {
    ACK + Suffix(h, node, ns, name)
  }

  predicate IsKill(key: string) { KILL <= key }

  predicate IsAck(key: string) { ACK <= key }

  /** What follows the prefix of a kill or ack key. */
  function SuffixOf(key: string): string
    requires IsKill(key) || IsAck(key)
  {
    if IsKill(key) then key[|KILL|..] else key[|ACK|..]
  }

  /** Both keys fit the limit, keep their prefixes apart and share one suffix, truncated or not. */
  lemma KeysShareSuffix(h: Digest, node: string, ns: string, name: string)
    requires ValidDigest(h)
    ensures var kill, ack := KillKey(h, node, ns, name), AckKey(h, node, ns, name);
            && |kill| <= MAX_KEY && |ack| <= MAX_KEY
            && IsKill(kill) && IsAck(ack) && !IsAck(kill) && !IsKill(ack)
            && SuffixOf(kill) == SuffixOf(ack) == Suffix(h, node, ns, name)
            && ack == ACK + SuffixOf(kill)
  {
    SuffixesAreFaithful(Suffix(h, node, ns, name), Suffix(h, node, ns, name));
    assert KillKey(h, node, ns, name)[0] == 'k';
  }

  /** Keys with different suffixes differ. */
  lemma KeysApart(h: Digest, node: string, node': string, ns: string, name: string)
    requires Suffix(h, node, ns, name) != Suffix(h, node', ns, name)
    ensures KillKey(h, node, ns, name) != KillKey(h, node', ns, name)
    ensures AckKey(h, node, ns, name) != AckKey(h, node', ns, name)
  {
    hide Suffix;
    SuffixesAreFaithful(Suffix(h, node, ns, name), Suffix(h, node', ns, name));
  }

  /** A suffix determines each of its keys and is determined by it. */
  lemma SuffixesAreFaithful(x: string, y: string)
    ensures IsKill(KILL + x) && SuffixOf(KILL + x) == x
    ensures IsAck(ACK + x) && !IsKill(ACK + x) && SuffixOf(ACK + x) == x
    ensures KILL + x == KILL + y ==> x == y
    ensures ACK + x == ACK + y ==> x == y
    ensures KILL + x != ACK + y
  {
    assert (KILL + x)[|KILL|..] == x && (KILL + y)[|KILL|..] == y;
    assert (ACK + x)[|ACK|..] == x && (ACK + y)[|ACK|..] == y;
    assert (KILL + x)[0] == 'k' && (ACK + y)[0] == 'a' && (ACK + x)[0] == 'a';
    assert KILL[0] == 'k' && ACK[0] == 'a';
  }

  /** A key is its prefix and its suffix. */
  lemma Rejoined(key: string)
    ensures IsKill(key) ==> !IsAck(key) && KILL + SuffixOf(key) == key
    ensures IsAck(key) ==> !IsKill(key) && ACK + SuffixOf(key) == key
  {
    if IsKill(key) {
      assert key[0] == KILL[0] == 'k' && ACK[0] == 'a';
    }
    if IsAck(key) {
      assert key[0] == ACK[0] == 'a' && KILL[0] == 'k';
    }
  }

  predicate Plain(s: string) {
    forall i :: 0 <= i < |s| ==> s[i] != '_'
  }

  /** Two strings without the separator, each followed by it, can be told apart from what follows. */
  lemma SplitAtSeparator(a: string, b: string, x: string, y: string)
    requires Plain(a) && Plain(b)
    requires a + "_" + x == b + "_" + y
    ensures a == b && x == y
  {
    var s := a + "_" + x;
    assert s[|a|] == '_' && s[|b|] == '_';
    assert forall i :: 0 <= i < |a| ==> s[i] == a[i];
    assert forall i :: 0 <= i < |b| ==> s[i] == b[i];
    assert |a| == |b|;
    assert s[|a| + 1..] == x && s[|b| + 1..] == y;
  }

  /** Untruncated suffixes of separator-free names are injective. */
  lemma SuffixInjective(h: Digest, node: string, ns: string, name: string, node': string, ns': string, name': string)
    requires Plain(node) && Plain(ns) && Plain(node') && Plain(ns')
    requires Fits(node, ns, name) && Fits(node', ns', name')
    requires Suffix(h, node, ns, name) == Suffix(h, node', ns', name')
    ensures node == node' && ns == ns' && name == name'
  {
    assert Body(node, ns, name) == node + "_" + (ns + "_" + name);
    assert Body(node', ns', name') == node' + "_" + (ns' + "_" + name');
    SplitAtSeparator(node, node', ns + "_" + name, ns' + "_" + name');
    SplitAtSeparator(ns, ns', name, name');
  }

  /** What the two keys look like when they fit. */
  lemma KeysSpelledOut(h: Digest)
    ensures KillKey(h, "n1", "apps", "db") == "kill_n1_apps_db"
    ensures AckKey(h, "n1", "apps", "db") == "ack_n1_apps_db"
  {
  }

  /** Two truncated suffixes collide exactly if their bodies share the first 231 characters and the digest. */
  lemma TruncatedCollide(h: Digest, node: string, ns: string, name: string, node': string, ns': string, name': string)
    requires ValidDigest(h) && !Fits(node, ns, name) && !Fits(node', ns', name')
    ensures var x, y := Body(node, ns, name), Body(node', ns', name');
            Suffix(h, node, ns, name) == Suffix(h, node', ns', name') <==> x[..231] == y[..231] && h(x) == h(y)
  {
    var x, y := Body(node, ns, name), Body(node', ns', name');
    var s, t := Suffix(h, node, ns, name), Suffix(h, node', ns', name');
    assert s[..231] == x[..231] && t[..231] == y[..231];
    assert s[232..] == h(x) && t[232..] == h(y);
  }

  /** Two strings without the separator, each preceded by it, can be told apart from what comes before. */
  lemma SplitAtLastSeparator(a: string, b: string, x: string, y: string)
    requires Plain(x) && Plain(y)
    requires a + "_" + x == b + "_" + y
    ensures a == b && x == y
  {
    var s := a + "_" + x;
    assert s[|a|] == '_' && s[|b|] == '_';
    assert forall i :: |a| < i < |s| ==> s[i] == x[i - |a| - 1];
    assert forall i :: |b| < i < |s| ==> s[i] == y[i - |b| - 1];
    assert |a| == |b|;
    assert s[..|a|] == a && s[..|b|] == b;
    assert s[|a| + 1..] == x && s[|b| + 1..] == y;
  }

  predicate EndsWith(key: string, end: string) {
    |end| <= |key| && key[|key| - |end|..] == end
  }

  function ServiceEnd(ns: string, name: string): string {
    "_" + ns + "_" + name
  }

  lemma Regrouped(a: string, b: string, c: string)
    ensures a + (b + c) == (a + b) + c
  {
  }

  lemma EndRegrouped(a: string, ns: string, name: string)
    ensures a + ServiceEnd(ns, name) == (a + "_" + ns) + "_" + name
  {
  }

  lemma EndsApart(a: string, ns: string, name: string, b: string, ns': string, name': string)
    requires Plain(ns) && Plain(name) && Plain(ns') && Plain(name')
    requires a + ServiceEnd(ns, name) == b + ServiceEnd(ns', name')
    ensures ns == ns' && name == name'
  {
    EndRegrouped(a, ns, name);
    EndRegrouped(b, ns', name');
    hide Plain, ServiceEnd;
    SplitAtLastSeparator(a + "_" + ns, b + "_" + ns', name, name');
    SplitAtLastSeparator(a, b, ns, ns');
  }

  lemma FittingSuffix(h: Digest, node: string, ns: string, name: string)
    requires Fits(node, ns, name)
    ensures Suffix(h, node, ns, name) == node + ServiceEnd(ns, name)
    ensures Suffix(h, node, ns, name) == node + "_" + (ns + "_" + name)
  {
  }

  lemma FrontAndEnd(key: string, end: string)
    requires EndsWith(key, end)
    ensures key == key[..|key| - |end|] + end
  {
  }

  lemma EndsWithItsEnd(front: string, end: string)
    ensures EndsWith(front + end, end)
  {
  }

  /** The end of an untruncated key tells the service apart, for names without the separator. */
  lemma EndTellsService(h: Digest, prefix: string, node: string, ns: string, name: string, ns': string, name': string)
    requires Plain(ns) && Plain(name) && Plain(ns') && Plain(name') && Fits(node, ns, name)
    ensures EndsWith(prefix + Suffix(h, node, ns, name), ServiceEnd(ns', name')) <==> ns == ns' && name == name'
  {
    var key, end := prefix + Suffix(h, node, ns, name), ServiceEnd(ns', name');
    FittingSuffix(h, node, ns, name);
    hide Suffix, ServiceEnd, EndsWith, Plain, Fits;
    Regrouped(prefix, node, ServiceEnd(ns, name));
    EndsWithItsEnd(prefix + node, ServiceEnd(ns, name));
    if EndsWith(key, end) {
      FrontAndEnd(key, end);
      EndsApart(prefix + node, ns, name, key[..|key| - |end|], ns', name');
    }
  }

  lemma PrefixCancels(p: string, a: string, b: string)
    ensures p + a <= p + b <==> a <= b
  {
    assert (p + a)[|p|..] == a && (p + b)[|p|..] == b;
    if p + a <= p + b {
      assert (p + b)[..|p + a|] == p + a;
      assert b[..|a|] == (p + b)[|p|..|p + a|] == a;
    }
  }

  lemma HeadAndRest(a: string, key: string)
    requires a <= key
    ensures key == a + key[|a|..]
  {
  }

  /** And its beginning tells the node apart. */
  lemma StartTellsNode(h: Digest, prefix: string, node: string, ns: string, name: string, node': string)
    requires Plain(node) && Plain(node') && Fits(node, ns, name)
    ensures prefix + node' + "_" <= prefix + Suffix(h, node, ns, name) <==> node == node'
  {
    var body := Suffix(h, node, ns, name);
    FittingSuffix(h, node, ns, name);
    hide Suffix, ServiceEnd, Plain, Fits;
    Regrouped(prefix, node', "_");
    PrefixCancels(prefix, node' + "_", body);
    if node' + "_" <= body {
      HeadAndRest(node' + "_", body);
      SplitAtSeparator(node, node', ns + "_" + name, body[|node' + "_"|..]);
    }
  }

  /** The shared ConfigMap as the API server stores it. */
  class ConfigMapStore {
    var data: Option<ConfigMap>

    constructor (data: Option<ConfigMap>)
      ensures this.data == data
    {
      this.data := data;
    }
  }

  function Contents(data: Option<ConfigMap>): ConfigMap {
    if data.Some? then data.value else map[]
  }
}
