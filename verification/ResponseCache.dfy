/** The response cache for immutable historical data (internal/cache/cache.go). The digest of a request body is a
    parameter: SHA-256 is not part of this model. */
module ResponseCache {
  import opened Wrappers
  import opened Text

  const CACHEABLE: set<string> := {
    "header.GetByHeight", "blob.Get", "blob.GetAll", "blob.GetProof", "share.GetEDS",
    "share.GetSharesByNamespace", "share.GetNamespaceData",
    "block", "block_results", "validators", "commit", "header"
  }

  const NEVER_CACHED: set<string> := {
    "header.NetworkHead", "header.SyncState", "state.Balance", "status", "health", "net_info", "node.Info",
    "broadcast_tx_sync", "broadcast_tx_async", "broadcast_tx_commit", "blob.Submit", "state.SubmitTx",
    "state.Transfer", "state.SubmitPayForBlob", "state.CancelUnbondingDelegation", "state.BeginRedelegate",
    "state.Undelegate", "state.Delegate"
  }

  predicate IsCacheable(rpc: string, height: int) {
    height > 0 && rpc !in NEVER_CACHED && rpc in CACHEABLE
  }

  /** The cache key: method, height and digest of the body, separated by colons. */
  function Key(digest: string -> string, rpc: string, height: int, params: string): string {
    rpc + ":" + Decimal(height) + ":" + digest(params)
  }

  lemma LastColon(a: string, b: string, c: string, d: string)
    requires ':' !in b && ':' !in d && a + ":" + b == c + ":" + d
    ensures a == c && b == d
  {
    var s := a + ":" + b;
    assert s[|a|] == ':' && (c + ":" + d)[|c|] == ':';
    assert forall k :: |a| < k < |s| ==> s[k] in b;
    assert forall k :: |c| < k < |s| ==> (c + ":" + d)[k] in d;
    assert |a| == |c|;
    assert a == s[..|a|] && c == (c + ":" + d)[..|c|];
    assert b == s[|a| + 1..] && d == (c + ":" + d)[|c| + 1..];
  }

  predicate Int64(n: int) {
    -0x8000_0000_0000_0000 <= n < 0x8000_0000_0000_0000
  }

  /** Keys tell requests apart, whatever characters the method contains: equal keys mean equal methods, heights and
      body digests, as long as digests contain no colon (they are hexadecimal). */
  lemma KeyIsInjective(digest: string -> string, rpc: string, height: int, params: string, rpc': string, height': int,
                       params': string)
    requires forall x :: ':' !in digest(x)
    requires Int64(height) && Int64(height')
    requires Key(digest, rpc, height, params) == Key(digest, rpc', height', params')
    ensures rpc == rpc' && height == height' && digest(params) == digest(params')
  {
    LastColon(rpc + ":" + Decimal(height), digest(params), rpc' + ":" + Decimal(height'), digest(params'));
    assert ':' !in Decimal(height) && ':' !in Decimal(height');
    LastColon(rpc, Decimal(height), rpc', Decimal(height'));
    ParseOfDecimal(height);
    ParseOfDecimal(height');
  }

  /** A stored response and when it expires. */
  datatype Entry = Entry(response: string, expires: int)

  /** The unexpired response under a key. */
  function Found(entries: map<string, Entry>, key: string, now: int): Option<string> {
    if key in entries && now < entries[key].expires then Some(entries[key].response) else None
  }

  class RedisCache {
    var entries: map<string, Entry>
    const ttl: int
    const maxEntrySize: int
    const digest: string -> string

    constructor (ttl: int, maxEntrySize: int, digest: string -> string)
      ensures entries == map[] && this.digest == digest
      ensures this.ttl == (if ttl == 0 then 720 * 3600 * 1000000000 else ttl)
      ensures this.maxEntrySize == (if maxEntrySize == 0 then 5 * 1024 * 1024 else maxEntrySize)
    {
      this.entries, this.digest := map[], digest;
      this.ttl := if ttl == 0 then 720 * 3600 * 1000000000 else ttl;
      this.maxEntrySize := if maxEntrySize == 0 then 5 * 1024 * 1024 else maxEntrySize;
    }

    /** The entries after storing a response: responses above the size limit are skipped. */
    function AfterSet(before: map<string, Entry>, rpc: string, height: int, params: string, response: string, now: int,
                      reachable: bool): map<string, Entry> {
      if |response| <= maxEntrySize && reachable
      then before[Key(digest, rpc, height, params) := Entry(response, now + ttl)]
      else before
    }

    /** None on a miss, after expiry, and when the server cannot be reached. */
    method Get(rpc: string, height: int, params: string, now: int, reachable: bool) returns (r: Option<string>)
      ensures var key := Key(digest, rpc, height, params);
              r == if reachable then Found(entries, key, now) else None
    {
      var key := Key(digest, rpc, height, params);
      if reachable && key in entries && now < entries[key].expires {
        return Some(entries[key].response);
      }
      return None;
    }

    method Set(rpc: string, height: int, params: string, response: string, now: int, reachable: bool)
      modifies this
      ensures entries == AfterSet(old(entries), rpc, height, params, response, now, reachable)
    {
      if |response| > maxEntrySize {
        return;
      }
      if reachable {
        entries := entries[Key(digest, rpc, height, params) := Entry(response, now + ttl)];
      }
    }
  }

  /** What `Set` stores is what `Get` finds for that request, until it expires; a response that is too large leaves what
      was there. */
  lemma SetThenGet(c: RedisCache, before: map<string, Entry>, rpc: string, height: int, params: string,
                   response: string, setAt: int, now: int)
    ensures var key := Key(c.digest, rpc, height, params);
            var after := c.AfterSet(before, rpc, height, params, response, setAt, true);
            Found(after, key, now) == if |response| > c.maxEntrySize then Found(before, key, now)
                                      else if now < setAt + c.ttl then Some(response)
                                      else None
  {
  }

  /** Storing a response changes nothing for a request with another method, height or body digest. */
  lemma SetChangesNoOther(c: RedisCache, before: map<string, Entry>, rpc: string, height: int, params: string,
                          response: string, setAt: int, reachable: bool, now: int, rpc': string, height': int,
                          params': string)
    requires forall x :: ':' !in c.digest(x)
    requires Int64(height) && Int64(height')
    requires rpc != rpc' || height != height' || c.digest(params) != c.digest(params')
    ensures var key, after := Key(c.digest, rpc', height', params'),
                              c.AfterSet(before, rpc, height, params, response, setAt, reachable);
            Found(after, key, now) == Found(before, key, now)
  {
    if Key(c.digest, rpc, height, params) == Key(c.digest, rpc', height', params') {
      KeyIsInjective(c.digest, rpc, height, params, rpc', height', params');
    }
  }
}
