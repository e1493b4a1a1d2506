/**
 Tunnel counters. A token is charged before its tunnel is registered and refunded when
 the registration fails or its session is torn down. API keys are counted in the key
 store, other tokens in the token store, anonymous ones nowhere.
 (internal/server/auth.go, internal/server/key_store.go, internal/server/server.go)
 */
module Quotas {
  import opened Wrappers
  import opened Tunnels

  datatype Slot = Slot(count: nat, max: int)

  type Store = map<string, Slot>

  predicate IsAPIKey(token: string) {
    "htk_" <= token
  }

  datatype ChargeError = UnknownToken | LimitReached

  /** IncrementTunnels, the same in both stores. */
  function Increment(store: Store, token: string): Result<Store, ChargeError> {
    if token !in store then Err(UnknownToken)
    else if store[token].count >= store[token].max then Err(LimitReached)
    else Ok(store[token := store[token].(count := store[token].count + 1)])
  }

  /** DecrementTunnels, with its floor at zero. */
  function Decrement(store: Store, token: string): Store {
    if token in store && store[token].count > 0
    then store[token := store[token].(count := store[token].count - 1)]
    else store
  }

  datatype Quotas = Quotas(keys: Store, tokens: Store)

  /** The charge of handleTunnelRequest. */
  function Charge(q: Quotas, token: string): Result<Quotas, ChargeError> {
    if IsAnon(token) then Ok(q)
    else if IsAPIKey(token) then
      match Increment(q.keys, token)
      case Ok(keys) => Ok(q.(keys := keys))
      case Err(e) => Err(e)
    else
      match Increment(q.tokens, token)
      case Ok(tokens) => Ok(q.(tokens := tokens))
      case Err(e) => Err(e)
  }

  /** decrementTunnels */
  function Refund(q: Quotas, token: string): Quotas {
    if IsAnon(token) then q
    else if IsAPIKey(token) then q.(keys := Decrement(q.keys, token))
    else q.(tokens := Decrement(q.tokens, token))
  }

  function StoreOf(q: Quotas, token: string): Store {
    if IsAPIKey(token) then q.keys else q.tokens
  }

  function Count(q: Quotas, token: string): nat {
    if token in StoreOf(q, token) then StoreOf(q, token)[token].count else 0
  }

  /** The most a token may hold at once; nothing for a token no store knows. */
  function Limit(q: Quotas, token: string): nat {
    if token in StoreOf(q, token) && StoreOf(q, token)[token].max > 0 then StoreOf(q, token)[token].max else 0
  }

  /** A charge is granted to anonymous tokens and to tokens below their limit; otherwise the
      error says whether the token is unknown to its store or at its limit. */
  lemma ChargeGrantedIff(q: Quotas, token: string)
    ensures var store := if "htk_" <= token then q.keys else q.tokens;
            var charge := Charge(q, token);
            && (charge.Ok? <==> "anon:" <= token || (token in store && store[token].count < store[token].max))
            && (charge == Err(UnknownToken) <==> !("anon:" <= token) && token !in store)
            && (charge == Err(LimitReached) <==>
                  !("anon:" <= token) && token in store && store[token].count >= store[token].max)
    ensures Charge(q, token).Ok? <==> IsAnon(token) || Count(q, token) < Limit(q, token)
  {
  }

  lemma ChargeEffect(q: Quotas, token: string)
    requires !IsAnon(token) && Charge(q, token).Ok?
    ensures var q' := Charge(q, token).value;
            && Count(q', token) == Count(q, token) + 1 <= Limit(q', token)
            && (forall t :: t != token ==> Count(q', t) == Count(q, t))
            && (forall t :: Limit(q', t) == Limit(q, t))
  {
  }

  lemma RefundEffect(q: Quotas, token: string)
    requires !IsAnon(token)
    ensures var q' := Refund(q, token);
            && Count(q', token) == (if Count(q, token) > 0 then Count(q, token) - 1 else 0)
            && (forall t :: t != token ==> Count(q', t) == Count(q, t))
            && (forall t :: Limit(q', t) == Limit(q, t))
  {
  }

  /** A charge that was granted is undone by one refund. */
  lemma RefundUndoesCharge(q: Quotas, token: string)
    requires Charge(q, token).Ok?
    ensures Refund(Charge(q, token).value, token) == q
  {
    if !IsAnon(token) {
      var q' := Charge(q, token).value;
      assert Decrement(StoreOf(q', token), token) == StoreOf(q, token);
    }
  }

  class TokenInfo {
    var tunnelCount: nat
    const maxTunnels: int

    constructor (maxTunnels: int)
      ensures tunnelCount == 0 && this.maxTunnels == maxTunnels
    {
      this.tunnelCount, this.maxTunnels := 0, maxTunnels;
    }
  }

  class TokenStore {
    var tokens: map<string, TokenInfo>
    ghost var slots: Store

    ghost predicate Valid()
      reads this, tokens.Values
    {
      && slots.Keys == tokens.Keys
      && (forall t :: t in tokens ==> slots[t] == Slot(tokens[t].tunnelCount, tokens[t].maxTunnels))
      && (forall a, b :: a in tokens && b in tokens && tokens[a] == tokens[b] ==> a == b)
    }

    constructor ()
      ensures Valid() && tokens == map[] && slots == map[]
    {
      tokens, slots := map[], map[];
    }

    /** A token without tunnels, with this limit. */
    method Enter(raw: string, maxTunnels: int)
      requires Valid()
      modifies this
      ensures Valid() && slots == old(slots)[raw := Slot(0, maxTunnels)]
      ensures fresh(tokens.Values - old(tokens.Values))
    {
      var info := new TokenInfo(maxTunnels);
      ghost var before := tokens.Values;
      assert forall t :: t in tokens ==> tokens[t] in before && tokens[t] != info;
      tokens := tokens[raw := info];
      assert tokens.Values <= before + {info};
      slots := slots[raw := Slot(0, maxTunnels)];
    }

    method IncrementTunnels(token: string) returns (err: Option<ChargeError>)
      requires Valid()
      modifies this`slots, tokens.Values
      ensures Valid()
      ensures match Increment(old(slots), token)
              case Ok(store) => err == None && slots == store
              case Err(e) => err == Some(e) && slots == old(slots)
    {
      if token !in tokens {
        return Some(UnknownToken);
      }
      var info := tokens[token];
      if info.tunnelCount >= info.maxTunnels {
        return Some(LimitReached);
      }
      info.tunnelCount := info.tunnelCount + 1;
      slots := slots[token := Slot(info.tunnelCount, info.maxTunnels)];
      return None;
    }

    method DecrementTunnels(token: string)
      requires Valid()
      modifies this`slots, tokens.Values
      ensures Valid()
      ensures slots == Decrement(old(slots), token)
    {
      if token in tokens {
        var info := tokens[token];
        if info.tunnelCount > 0 {
          info.tunnelCount := info.tunnelCount - 1;
          slots := slots[token := Slot(info.tunnelCount, info.maxTunnels)];
        }
      }
    }
  }

  /** The counters of these tokens at the start, empty ones left out. */
  ghost function Configured(rawTokens: seq<string>, max: int): Store {
    map raw | raw in rawTokens && raw != "" :: Slot(0, max)
  }

  lemma ConfiguredNext(rawTokens: seq<string>, i: nat, max: int)
    requires i < |rawTokens|
    ensures var before, after := Configured(rawTokens[..i], max), Configured(rawTokens[..i + 1], max);
            after == if rawTokens[i] == "" then before else before[rawTokens[i] := Slot(0, max)]
  {
    assert rawTokens[..i + 1] == rawTokens[..i] + [rawTokens[i]];
  }

  /** NewTokenStore: every token of the configuration that is not empty starts at zero with the
      configured limit; there is no store if one of them cannot be hashed. */
  method NewTokenStore(rawTokens: seq<string>, maxTunnelsPerToken: int, hashable: string -> bool) returns (ts: TokenStore?)
    ensures ts == null <==> exists i :: 0 <= i < |rawTokens| && rawTokens[i] != "" && !hashable(rawTokens[i])
    ensures ts != null ==>
              && fresh(ts) && ts.Valid()
              && ts.slots == map raw | raw in rawTokens && raw != "" :: Slot(0, maxTunnelsPerToken)
  {
    var store := new TokenStore();
    for i := 0 to |rawTokens|
      invariant fresh(store) && fresh(store.tokens.Values) && store.Valid()
      invariant store.slots == Configured(rawTokens[..i], maxTunnelsPerToken)
      invariant forall k :: 0 <= k < i ==> rawTokens[k] == "" || hashable(rawTokens[k])
    {
      var raw := rawTokens[i];
      ConfiguredNext(rawTokens, i, maxTunnelsPerToken);
      if raw != "" {
        if !hashable(raw) {
          return null;
        }
        store.Enter(raw, maxTunnelsPerToken);
      }
    }
    assert rawTokens[..|rawTokens|] == rawTokens;
    return store;
  }
}
