/**
 * The Proxy-Cheap residential adapter: an on-demand provider. A proxy is a
 * session string; the adapter never queries the provider. The session
 * strings `createProxies` generates are supplied as `generate`, whose `i`-th
 * value is the string the `i`-th call of the random generator returns.
 */
module ProxyCheap {
  import opened Wrappers
  import opened Proxy

  /** Maps a session string to a canonical record. The session is both the
      key and the name, and the record carries no transport details. */
  function ConvertToProxy(session: string): (r: ProxyRefreshed)
    ensures r.connectorType == ProxyCheapResidentialType
    ensures r.key == session && r.name == session
    ensures r.status == Started
    ensures r.config == EmptyConfig
  {
    ProxyRefreshed(ProxyCheapResidentialType, session, session, Started, EmptyConfig)
  }

  /** Two sessions give the same record only if they are the same session. */
  lemma ConvertToProxyInjective(a: string, b: string)
    ensures ConvertToProxy(a) == ConvertToProxy(b) <==> a == b
  {
  }

  /** `getProxies(keys)`: every requested key is reported as a live proxy, one
      record per key, in request order; nothing is filtered. */
  function GetProxies(keys: seq<string>): (r: seq<ProxyRefreshed>)
    ensures |r| == |keys|
    ensures forall i :: 0 <= i < |r| ==> r[i].connectorType == ProxyCheapResidentialType
    ensures forall i :: 0 <= i < |r| ==> r[i].key == keys[i] && r[i].name == keys[i]
    ensures forall i :: 0 <= i < |r| ==> r[i].status == Started && r[i].config == EmptyConfig
    ensures Keys(r) == keys
  {
    seq(|keys|, i requires 0 <= i < |keys| => ConvertToProxy(keys[i]))
  }

  /** `createProxies(count)`: exactly `count` new sessions, the `i`-th keyed by
      the `i`-th generated string, all started and without transport details. */
  function CreateProxies(count: nat, generate: nat -> string): (r: seq<ProxyRefreshed>)
    ensures |r| == count
    ensures forall i :: 0 <= i < count ==> r[i].connectorType == ProxyCheapResidentialType
    ensures forall i :: 0 <= i < count ==> r[i].key == generate(i) && r[i].name == generate(i)
    ensures forall i :: 0 <= i < count ==> r[i].status == Started && r[i].config == EmptyConfig
  {
    var r := seq(count, i requires 0 <= i < count => ConvertToProxy(generate(i)));
    assert forall i :: 0 <= i < count ==> r[i] == ConvertToProxy(generate(i));
    r
  }

  /** Re-querying the sessions just created reports them unchanged. */
  lemma {:induction false} GetProxiesFindsCreated(count: nat, generate: nat -> string)
    ensures GetProxies(Keys(CreateProxies(count, generate))) == CreateProxies(count, generate)
  {
    var created := CreateProxies(count, generate);
    var found := GetProxies(Keys(created));
    assert |found| == |created|;
    forall i | 0 <= i < |created| ensures found[i] == created[i] {
      assert found[i] == ConvertToProxy(created[i].key);
    }
  }

  /** `createProxies` takes no excluded keys, so nothing keeps a generated
      session from coinciding with a key the caller already tracks. */
  lemma CreateProxiesMayReuseKnownKey(known: string)
    ensures var created := CreateProxies(1, (i: nat) => known);
      |created| == 1 && created[0].key == known
  {
  }

  /** `startProxies`: sessions are live as soon as they exist; the call always
      succeeds. */
  function StartProxies(keys: seq<string>): (r: Outcome<string>)
    ensures r.Pass?
  {
    Pass
  }

  /** `removeProxies(keys)`: acknowledges every input key in input order and
      asks nothing of the provider, whether the entry is forced or not. */
  function RemoveProxies(keys: seq<ProxyKeyToRemove>): (r: Removal)
    ensures r.renewRequests == []
    ensures r.acknowledged.Success?
    ensures |r.acknowledged.value| == |keys|
    ensures forall i :: 0 <= i < |keys| ==> r.acknowledged.value[i] == keys[i].key
  {
    Removal([], Success(KeysToRemove(keys)))
  }
}
