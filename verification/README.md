# Scrapoxy connector adapters, modelled in Dafny

Scrapoxy's backend talks to each proxy provider through a connector adapter.
Every adapter implements the same four operations: `getProxies`,
`createProxies`, `startProxies` and `removeProxies`. Each one reports proxies
as canonical `IConnectorProxyRefreshed` records. This project models two
adapters and proves what each operation returns.

- **Hypeproxy** is a fixed-pool provider. Its adapter maps the account's
  listing through `convertToProxy`. `getProxies` filters that listing by key.
  `createProxies` hands out the first `count` entries whose key is not
  excluded. `removeProxies` asks the provider to renew the IP of every forced
  entry and then acknowledges every input key. One failed renewal fails the
  whole call.
- **Proxy-Cheap residential** is an on-demand provider. A proxy is just a
  session string. `getProxies` reports one record per requested key.
  `createProxies` mints `count` records from generated session strings.
  `removeProxies` echoes the input keys.

Files:

- `wrappers.dfy` holds `Option`, `Result` and `Outcome`.
- `seqs.dfy` holds `Filter` and `Take`, which model `Array.prototype.filter`
  and `slice(0, n)`, plus the subsequence lemmas.
- `proxy.dfy` holds the canonical records shared by both adapters.
- `hypeproxy.dfy` and `pc_residential.dfy` hold the two adapters.

Inputs that the code obtains from outside are passed in as parameters:

- the Hypeproxy listing returned by `getInformations()` is `listing`;
- the outcome of `directRenewIp(key)` is the oracle `renew: string -> bool`;
- the strings returned by successive `generateRandomString(8)` calls are
  `generate: nat -> string`, where `generate(i)` is the `i`-th call's result.

The adapters keep no state between calls, so every operation is a pure
function of its arguments. Both `startProxies` bodies are empty. They are
modelled the same way: a call that asks nothing of the provider and always
resolves.

## Model

| member | source | states |
|---|---|---|
| Hypeproxy.ConvertToProxy | packages/backend/connectors/src/hypeproxy/hypeproxy.service.ts:21-42 | Every listing entry maps to a record, although the type admits `undefined`. The record has the Hypeproxy type, status STARTED, key = id, name = shortId and an HTTP transport. The mapping is lossless: `ProviderView` recovers the entry's hub, port, user and password. |
| Hypeproxy.Select | packages/backend/connectors/src/hypeproxy/hypeproxy.service.ts:64-68 | The `map(convertToProxy).filter(p => p && …)` pipeline, cast to records, equals a plain filter of the mapped listing. So the `p &&` guard drops nothing. |
| Hypeproxy.GetProxies | packages/backend/connectors/src/hypeproxy/hypeproxy.service.ts:60-70 | A record is returned iff it is a mapped listing entry whose key is requested. Every listed entry with a requested id is present. Each record appears exactly as often as in the listing, and none otherwise. The result is in listing order, as a subsequence. |
| Hypeproxy.CreateProxies | packages/backend/connectors/src/hypeproxy/hypeproxy.service.ts:72-87 | Every record comes from the listing and has no excluded key. The length is at most `count`: exactly `count` when enough entries are eligible, otherwise all of them. The result is a prefix of the eligible entries in listing order. |
| Hypeproxy.CreateProxiesGrowsByCount | packages/backend/connectors/src/hypeproxy/hypeproxy.service.ts:78-84 | For the same listing and exclusions, the result for a smaller count is a prefix of the result for a larger one. |
| Hypeproxy.CreatedAreNotAlive | packages/backend/connectors/src/hypeproxy/hypeproxy.service.ts:60-87 | `createProxies` excluding the known keys never returns a record that `getProxies` reports for those keys. |
| Hypeproxy.KeyIdentifiesRecord | packages/backend/connectors/src/hypeproxy/hypeproxy.service.ts:33-39 | Because key = id, a listing with distinct ids maps to distinct records, and the key alone identifies a mapped record. |
| Hypeproxy.GetProxiesFindsCreated | packages/backend/connectors/src/hypeproxy/hypeproxy.service.ts:60-87 | On a listing with distinct ids, `getProxies` on the keys of a `createProxies` result returns that result exactly, in the same order. |
| Hypeproxy.StartProxies | packages/backend/connectors/src/hypeproxy/hypeproxy.service.ts:89-93 | Starting always succeeds and issues no provider request. |
| Hypeproxy.RenewRequests | packages/backend/connectors/src/hypeproxy/hypeproxy.service.ts:98-100 | Every forced entry's key is requested. Every requested key belongs to a forced entry, so a key that is never forced is never requested. Requests follow input order. |
| Hypeproxy.RenewRequestsAreForcedKeys | packages/backend/connectors/src/hypeproxy/hypeproxy.service.ts:98-100 | The requests are exactly the keys of the forced entries, one per entry, duplicates included, in input order. |
| Hypeproxy.RenewAll | packages/backend/connectors/src/hypeproxy/hypeproxy.service.ts:102 | Awaiting all renewals succeeds iff every request succeeds. On failure the error names a requested key whose renewal failed. |
| Hypeproxy.RemoveProxies | packages/backend/connectors/src/hypeproxy/hypeproxy.service.ts:95-105 | The call issues the forced entries' renewal requests. It resolves iff every forced key renews. Then it returns every input key, forced or not, with the same length and order. Otherwise it rejects with a failed forced key and returns no key list. |
| ProxyCheap.ConvertToProxy | packages/backend/connectors/src/proxy-cheap-residential/pc-residential.service.ts:14-24 | A session maps to a record with the Proxy-Cheap type, key = name = session, status STARTED and an empty config. |
| ProxyCheap.ConvertToProxyInjective | packages/backend/connectors/src/proxy-cheap-residential/pc-residential.service.ts:14-24 | Two sessions give the same record iff they are the same session. |
| ProxyCheap.GetProxies | packages/backend/connectors/src/proxy-cheap-residential/pc-residential.service.ts:30-36 | One STARTED record per requested key, with the same length and order. Record i has the Proxy-Cheap type, key and name `keys[i]`, and an empty config. Reading the keys back gives the request. |
| ProxyCheap.CreateProxies | packages/backend/connectors/src/proxy-cheap-residential/pc-residential.service.ts:38-47 | Exactly `count` records. Record i has the Proxy-Cheap type, key and name equal to the i-th generated string, status STARTED and an empty config. |
| ProxyCheap.GetProxiesFindsCreated | packages/backend/connectors/src/proxy-cheap-residential/pc-residential.service.ts:30-47 | `getProxies` on the keys of a `createProxies` result returns that result unchanged. |
| ProxyCheap.CreateProxiesMayReuseKnownKey | packages/backend/connectors/src/proxy-cheap-residential/pc-residential.service.ts:38-47 | With no exclusion parameter, a created session can carry a key the caller already tracks. |
| ProxyCheap.StartProxies | packages/backend/connectors/src/proxy-cheap-residential/pc-residential.service.ts:49-53 | Starting always succeeds and does nothing. |
| ProxyCheap.RemoveProxies | packages/backend/connectors/src/proxy-cheap-residential/pc-residential.service.ts:55-59 | Issues no renewal request for any entry, forced or not. Always succeeds, returning the input keys with the same length and order. |
| Seqs.Filter | packages/backend/connectors/src/hypeproxy/hypeproxy.service.ts:64-66 | The filter keeps exactly the elements that satisfy the predicate, each with its original multiplicity, in original order. |
| Seqs.Take | packages/backend/connectors/src/hypeproxy/hypeproxy.service.ts:81-84 | `slice(0, n)` returns a prefix of length `min(n, length)`. |

## Left out

- The HTTP client (`HypeproxyApi`), its credential token and its agent pool are left out. The listing and the renewal outcomes are parameters instead.
- `generateRandomString` is a parameter. The model claims neither that generated sessions are fresh, nor distinct, nor 8 characters long, because the code does not check any of these.
- Hypeproxy.GetProxies: a rejected `getInformations()` call makes `getProxies` reject too, and that failure path is not modelled. The listing is taken as already fetched, so the model always returns a list.
- Hypeproxy.CreateProxies: a rejected `getInformations()` call makes `createProxies` reject too, and that failure path is not modelled, for the same reason.
- Hypeproxy.RenewAll: `.map((p) => this.api.directRenewIp(p.key))` sends every forced renewal request before anything is awaited. `Promise.all` then only waits for them, and it rejects with whichever failure arrives first. The model also sends all of them, but reports the first failing key in input order. Which failure surfaces is the only thing that depends on timing.
- Hypeproxy.RenewAll: the model rejects with `RenewFailed(key)`. The code rejects with the error value `directRenewIp` raised, whose contents the model does not carry.
- The concurrency of the renewal batch is left out. The model treats the batch as one all-or-nothing step.
- Negative or fractional `count` values are out of scope: `count` is a `nat`. A negative count would make `slice(0, count)` drop elements from the end.
- `IHypeproxyProxy` is not part of this model beyond the six fields `convertToProxy` reads. The model also does not enumerate `EProxyStatus` or `EProxyType`, whose other members these adapters never produce. The connector type strings are an enumeration here, not their literal values.
- Proxy-Cheap's `createProxies` takes only `count`. A general reconciliation rule says created proxies avoid the caller's excluded keys, but this adapter's code does not enforce it. So that adapter gets no exclusion postcondition; `ProxyCheap.CreateProxiesMayReuseKnownKey` records the gap instead.
- A general rule says each provider reports a key at most once per listing. The Hypeproxy code does not check this. Only the lemmas that need it assume it, as `DistinctIds`.
- `Logger.debug` calls are left out, since they have no behavioural effect.
- The xproxy front-end factory (`xproxy.factory.ts`) is left out. It is UI registration with no algorithmic content.
