/**
 * The canonical records every connector adapter produces and consumes:
 * `IConnectorProxyRefreshed`, `IProxyTransport` and `IProxyKeyToRemove`.
 */
module Proxy {
  import opened Wrappers

  /** The `type` discriminant naming the adapter that produced a record. */
  datatype ConnectorType = HypeproxyType | ProxyCheapResidentialType

  /** Lifecycle state of a proxy. The adapters here only ever report `Started`;
      the other members of the enumeration are not distinguished. */
  datatype ProxyStatus = Started | OtherStatus(tag: string)

  /** Transport protocol of a proxy; the adapters here only produce `Http`. */
  datatype ProxyType = Http | OtherProxyType(tag: string)

  datatype Address = Address(hostname: string, port: int)

  datatype Auth = Auth(username: string, password: string)

  /** How a client routes traffic through one proxy. `EmptyConfig` is the `{}`
      of adapters whose provider gives no per-proxy host and port. */
  datatype ProxyConfig =
    | Transport(proxyType: ProxyType, address: Address, auth: Auth)
    | EmptyConfig

  /** One proxy as reported by an adapter; `key` is its sole identity. */
  datatype ProxyRefreshed = ProxyRefreshed(
    connectorType: ConnectorType,
    key: string,
    name: string,
    status: ProxyStatus,
    config: ProxyConfig)

  /** A proxy the caller drops; `force` asks the provider to rotate its IP. */
  datatype ProxyKeyToRemove = ProxyKeyToRemove(key: string, force: bool)

  /** A rejected IP-renewal request for the proxy `key`. */
  datatype RenewError = RenewFailed(key: string)

  /** The observable effect of `removeProxies`: the remote renewal requests it
      issues, and the key list it resolves with or the error it rejects with. */
  datatype Removal = Removal(renewRequests: seq<string>, acknowledged: Result<seq<string>, RenewError>)

  /** The keys of a list of records, in order. */
  function Keys(records: seq<ProxyRefreshed>): seq<string>
  {
    seq(|records|, i requires 0 <= i < |records| => records[i].key)
  }

  /** The keys of a list of removal requests, in order (`keys.map((p) => p.key)`). */
  function KeysToRemove(keys: seq<ProxyKeyToRemove>): seq<string>
  {
    seq(|keys|, i requires 0 <= i < |keys| => keys[i].key)
  }

  lemma KeysToRemoveOfCons(k: ProxyKeyToRemove, keys: seq<ProxyKeyToRemove>)
    ensures KeysToRemove([k] + keys) == [k.key] + KeysToRemove(keys)
  {
    var lhs := KeysToRemove([k] + keys);
    forall i | 0 <= i < |lhs| ensures lhs[i] == ([k.key] + KeysToRemove(keys))[i] {
      if i > 0 {
        assert ([k] + keys)[i] == keys[i - 1];
      }
    }
  }
}
