/**
 * The Hypeproxy adapter: a fixed-pool provider. Every operation works on the
 * account's current listing (the result of the provider's `getInformations`
 * call, passed in as `listing`); forced removals ask the provider to renew a
 * proxy's IP, whose outcome is the oracle `renew`.
 */
module Hypeproxy {
  import opened Wrappers
  import opened Proxy
  import Seqs

  /** One entry of the provider's listing: the fields the adapter reads. */
  datatype HypeproxyProxy = HypeproxyProxy(
    id: string,
    shortId: string,
    hub: string,
    httpPort: int,
    user: string,
    password: string)

  /** Maps a listing entry to a canonical record. The result type admits an
      absent record, but every entry maps to one, and no information is lost:
      `ProviderView` reads the entry back. */
  function ConvertToProxy(proxy: HypeproxyProxy): (r: Option<ProxyRefreshed>)
    ensures r.Some?
    ensures r.value.connectorType == HypeproxyType
    ensures r.value.status == Started
    ensures r.value.key == proxy.id && r.value.name == proxy.shortId
    ensures r.value.config.Transport? && r.value.config.proxyType == Http
    ensures ProviderView(r.value) == Some(proxy)
  {
    var config := Transport(Http, Address(proxy.hub, proxy.httpPort), Auth(proxy.user, proxy.password));
    Some(ProxyRefreshed(HypeproxyType, proxy.id, proxy.shortId, Started, config))
  }

  /** The listing entry an HTTP record describes: the key is the entry's id,
      the name its short id, the transport its hub, port and credentials. */
  function ProviderView(p: ProxyRefreshed): Option<HypeproxyProxy>
  {
    if p.config.Transport? && p.config.proxyType == Http then
      Some(HypeproxyProxy(p.key, p.name, p.config.address.hostname, p.config.address.port,
                          p.config.auth.username, p.config.auth.password))
    else
      None
  }

  /** The whole listing mapped to canonical records, in listing order. */
  function MappedListing(listing: seq<HypeproxyProxy>): seq<ProxyRefreshed>
  {
    seq(|listing|, i requires 0 <= i < |listing| => ConvertToProxy(listing[i]).value)
  }

  /** The provider never reports the same id twice in one listing. */
  ghost predicate DistinctIds(listing: seq<HypeproxyProxy>)
  {
    forall i, j :: 0 <= i < j < |listing| ==> listing[i].id != listing[j].id
  }

  /** `listing.map(convertToProxy).filter((p) => p && keep(p))`, cast to a
      list of records: the mapped entries that exist and that `keep` accepts. */
  function Select(listing: seq<HypeproxyProxy>, keep: ProxyRefreshed -> bool): (r: seq<ProxyRefreshed>)
    ensures r == Seqs.Filter(MappedListing(listing), keep)
  {
    if |listing| == 0 then []
    else
      var p := ConvertToProxy(listing[0]);
      var rest := Select(listing[1..], keep);
      assert MappedListing(listing)[1..] == MappedListing(listing[1..]);
      if p.Some? && keep(p.value) then [p.value] + rest else rest
  }

  /** `getProxies(keys)`: exactly the listed proxies whose key is requested,
      each as often as the listing holds it, in listing order. Requested keys
      the listing lacks are dropped. */
  function GetProxies(listing: seq<HypeproxyProxy>, keys: seq<string>): (r: seq<ProxyRefreshed>)
    ensures forall x :: x in r <==> x in MappedListing(listing) && x.key in keys
    ensures forall i :: 0 <= i < |listing| && listing[i].id in keys ==> ConvertToProxy(listing[i]).value in r
    ensures forall x :: multiset(r)[x] == if x.key in keys then multiset(MappedListing(listing))[x] else 0
    ensures Seqs.IsSubsequence(r, MappedListing(listing))
  {
    var r := Select(listing, (p: ProxyRefreshed) => p.key in keys);
    assert forall i :: 0 <= i < |listing| ==> MappedListing(listing)[i] == ConvertToProxy(listing[i]).value;
    r
  }

  /** The mapped entries whose key is not excluded, in listing order: the
      pool `createProxies` draws from. */
  function Eligible(listing: seq<HypeproxyProxy>, excludeKeys: seq<string>): seq<ProxyRefreshed>
  {
    Seqs.Filter(MappedListing(listing), (p: ProxyRefreshed) => p.key !in excludeKeys)
  }

  /** `createProxies(count, excludeKeys)`: no new proxy is provisioned; the
      first `count` eligible entries of the listing are handed out, or all of
      them when there are fewer. */
  function CreateProxies(listing: seq<HypeproxyProxy>, count: nat, excludeKeys: seq<string>): (r: seq<ProxyRefreshed>)
    ensures forall x :: x in r ==> x in MappedListing(listing) && x.key !in excludeKeys
    ensures |r| <= count
    ensures |r| == if count <= |Eligible(listing, excludeKeys)| then count else |Eligible(listing, excludeKeys)|
    ensures r <= Eligible(listing, excludeKeys)
    ensures Seqs.IsSubsequence(r, MappedListing(listing))
  {
    var eligible := Select(listing, (p: ProxyRefreshed) => p.key !in excludeKeys);
    assert eligible == Eligible(listing, excludeKeys);
    var r := Seqs.Take(eligible, count);
    assert r == eligible[..|r|];
    Seqs.PrefixOfSubsequence(eligible, MappedListing(listing), |r|);
    assert forall x :: x in r ==> x in eligible;
    r
  }

  /** `startProxies`: Hypeproxy proxies are always on; the call asks nothing of
      the provider and always succeeds. */
  function StartProxies(keys: seq<string>): (r: Outcome<string>)
    ensures r.Pass?
  {
    Pass
  }

  /** The renewal requests `removeProxies` issues: the key of every forced
      entry, in input order, and nothing for the other entries. */
  function RenewRequests(keys: seq<ProxyKeyToRemove>): (r: seq<string>)
    ensures forall i :: 0 <= i < |keys| && keys[i].force ==> keys[i].key in r
    ensures forall k :: k in r ==> exists i :: 0 <= i < |keys| && keys[i].force && keys[i].key == k
    ensures Seqs.IsSubsequence(r, KeysToRemove(keys))
  {
    if |keys| == 0 then []
    else
      var rest := RenewRequests(keys[1..]);
      assert KeysToRemove(keys)[1..] == KeysToRemove(keys[1..]);
      assert forall k :: k in rest ==> exists i :: 0 <= i < |keys| && keys[i].force && keys[i].key == k by {
        forall k | k in rest ensures exists i :: 0 <= i < |keys| && keys[i].force && keys[i].key == k {
          var j :| 0 <= j < |keys[1..]| && keys[1..][j].force && keys[1..][j].key == k;
          assert keys[j + 1] == keys[1..][j];
        }
      }
      if keys[0].force then
        assert ([keys[0].key] + rest)[1..] == rest;
        [keys[0].key] + rest
      else
        rest
  }

  /** The requests are exactly `keys.filter((p) => p.force).map((p) => p.key)`:
      one per forced entry, duplicates included, in input order. */
  lemma {:induction false} RenewRequestsAreForcedKeys(keys: seq<ProxyKeyToRemove>)
    ensures RenewRequests(keys) == KeysToRemove(Seqs.Filter(keys, (p: ProxyKeyToRemove) => p.force))
  {
    if |keys| > 0 {
      var isForced := (p: ProxyKeyToRemove) => p.force;
      var forced := Seqs.Filter(keys[1..], isForced);
      RenewRequestsAreForcedKeys(keys[1..]);
      assert RenewRequests(keys[1..]) == KeysToRemove(forced);
      if keys[0].force {
        assert Seqs.Filter(keys, isForced) == [keys[0]] + forced;
        assert RenewRequests(keys) == [keys[0].key] + RenewRequests(keys[1..]);
        KeysToRemoveOfCons(keys[0], forced);
      } else {
        assert Seqs.Filter(keys, isForced) == forced;
        assert RenewRequests(keys) == RenewRequests(keys[1..]);
      }
    }
  }

  /** Awaits the renewal requests together: resolves when every one succeeds,
      and rejects with a failed one otherwise. */
  function RenewAll(requests: seq<string>, renew: string -> bool): (r: Outcome<RenewError>)
    ensures r.Pass? <==> forall i :: 0 <= i < |requests| ==> renew(requests[i])
    ensures r.Fail? ==> r.error.key in requests && !renew(r.error.key)
  {
    if |requests| == 0 then Pass
    else if !renew(requests[0]) then Fail(RenewFailed(requests[0]))
    else
      var rest := RenewAll(requests[1..], renew);
      assert forall i :: 1 <= i < |requests| ==> requests[i] == requests[1..][i - 1];
      rest
  }

  /** `removeProxies(keys)`: renews the IP of every forced proxy, then
      acknowledges every input key, forced or not, in input order. A single
      failed renewal rejects the whole call, with no key list. */
  function RemoveProxies(keys: seq<ProxyKeyToRemove>, renew: string -> bool): (r: Removal)
    ensures r.renewRequests == RenewRequests(keys)
    ensures r.acknowledged.Success? <==> forall i :: 0 <= i < |keys| && keys[i].force ==> renew(keys[i].key)
    ensures r.acknowledged.Success? ==>
      |r.acknowledged.value| == |keys| && forall i :: 0 <= i < |keys| ==> r.acknowledged.value[i] == keys[i].key
    ensures r.acknowledged.Failure? ==>
      exists i :: 0 <= i < |keys| && keys[i].force && keys[i].key == r.acknowledged.error.key && !renew(keys[i].key)
  {
    var requests := RenewRequests(keys);
    match RenewAll(requests, renew)
    case Pass => Removal(requests, Success(KeysToRemove(keys)))
    case Fail(e) => Removal(requests, Failure(e))
  }

  /** A larger count only extends the selection: asking for more proxies never
      reorders or replaces the ones a smaller request would have received. */
  lemma CreateProxiesGrowsByCount(listing: seq<HypeproxyProxy>, m: nat, n: nat, excludeKeys: seq<string>)
    requires m <= n
    ensures CreateProxies(listing, m, excludeKeys) <= CreateProxies(listing, n, excludeKeys)
  {
  }

  /** Reconciliation step 2 excludes every known key, so the proxies handed out
      never overlap the live ones that `getProxies` reports for those keys. */
  lemma CreatedAreNotAlive(listing: seq<HypeproxyProxy>, count: nat, knownKeys: seq<string>)
    ensures forall x :: x in CreateProxies(listing, count, knownKeys) ==> x !in GetProxies(listing, knownKeys)
  {
  }

  /** With distinct ids, a record in the mapped listing is identified by its key. */
  lemma {:induction false} KeyIdentifiesRecord(listing: seq<HypeproxyProxy>)
    requires DistinctIds(listing)
    ensures Seqs.Distinct(MappedListing(listing))
    ensures forall x, y :: x in MappedListing(listing) && y in MappedListing(listing) && x.key == y.key ==> x == y
  {
    var mapped := MappedListing(listing);
    forall x, y | x in mapped && y in mapped && x.key == y.key ensures x == y {
      var i :| 0 <= i < |mapped| && mapped[i] == x;
      var j :| 0 <= j < |mapped| && mapped[j] == y;
      assert listing[i].id == listing[j].id;
    }
  }

  /** Re-querying the proxies just handed out returns them unchanged: on the
      same listing, `getProxies` with the keys of a `createProxies` result
      gives back exactly that result. */
  lemma {:induction false} GetProxiesFindsCreated(listing: seq<HypeproxyProxy>, count: nat, excludeKeys: seq<string>)
    requires DistinctIds(listing)
    ensures var created := CreateProxies(listing, count, excludeKeys);
      GetProxies(listing, Keys(created)) == created
  {
    var created := CreateProxies(listing, count, excludeKeys);
    var mapped := MappedListing(listing);
    var keep := (p: ProxyRefreshed) => p.key in Keys(created);
    KeyIdentifiesRecord(listing);
    forall x | x in mapped ensures keep(x) <==> x in created {
      if x.key in Keys(created) {
        var j :| 0 <= j < |created| && Keys(created)[j] == x.key;
        assert created[j] in mapped;
      }
      if x in created {
        var j :| 0 <= j < |created| && created[j] == x;
        assert Keys(created)[j] == x.key;
      }
    }
    Seqs.FilterBySubsequence(mapped, created, keep);
    assert GetProxies(listing, Keys(created)) == Select(listing, keep);
  }
}
