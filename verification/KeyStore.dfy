/**
 API keys and the subdomains they own. Every operation runs under the store's lock, so a
 run of the store is a sequence of whole operations; what is left open is the order in
 which Go walks its map, the key that is generated, and whether the file is written.
 (internal/server/key_store.go)
 */
module KeyStores {
  import opened Wrappers
  import opened Names
  import opened Quotas

  datatype KeyInfo = KeyInfo(
    name: string,
    subdomains: seq<string>,
    maxTunnels: int,
    active: bool,
    tunnelCount: nat)

  type Keys = map<string, KeyInfo>

  predicate Owns(keys: Keys, id: string, sub: string) {
    id in keys && keys[id].active && sub in keys[id].subdomains
  }

  // ---------------------------------------------------------------- the owner of a name

  /** What findSubdomainOwnerLocked may return, whatever order it walks the map in: some
      active key that owns the name, or the empty string if there is none. */
  ghost predicate IsOwnerAnswer(keys: Keys, sub: string, answer: string) {
    Owns(keys, answer, sub) || (answer == "" && forall id :: !Owns(keys, id, sub))
  }

  /** No name has two active owners. */
  ghost predicate Partition(keys: Keys) {
    forall a, b, sub :: Owns(keys, a, sub) && Owns(keys, b, sub) ==> a == b
  }

  /** The empty string is what the lookup returns for "nobody". */
  predicate EmptyKeyActive(keys: Keys) {
    "" in keys && keys[""].active
  }

  ghost predicate Sound(keys: Keys) {
    Partition(keys) && !EmptyKeyActive(keys)
  }

  /** The lookup does not depend on the order of the map exactly when the names are
      partitioned among the active keys. */
  lemma LookupOrderIndependentIff(keys: Keys)
    ensures (forall sub, r, r' :: IsOwnerAnswer(keys, sub, r) && IsOwnerAnswer(keys, sub, r') ==> r == r')
            <==> Partition(keys)
  {
    if forall sub, r, r' :: IsOwnerAnswer(keys, sub, r) && IsOwnerAnswer(keys, sub, r') ==> r == r' {
      forall a, b, sub | Owns(keys, a, sub) && Owns(keys, b, sub)
        ensures a == b
      {
        assert IsOwnerAnswer(keys, sub, a) && IsOwnerAnswer(keys, sub, b);
      }
    }
  }

  // ---------------------------------------------------------------- operations

  datatype KeyError = NameRequired | BadName(why: NameError) | AlreadyOwned | InvalidKey | NotFound | NotSaved

  /** What the lookups for these names may answer. */
  ghost predicate Answers(keys: Keys, subs: seq<string>, owners: seq<string>) {
    |owners| == |subs| && forall i :: 0 <= i < |subs| ==> IsOwnerAnswer(keys, subs[i], owners[i])
  }

  /** The first of the requested names that cannot be claimed, and why, given the answers. */
  function ClaimError(subs: seq<string>, owners: seq<string>): Option<KeyError>
    requires |owners| == |subs|
  {
    if subs == [] then None
    else if ValidateSubdomain(subs[0]).Some? then Some(BadName(ValidateSubdomain(subs[0]).value))
    else if owners[0] != "" then Some(AlreadyOwned)
    else ClaimError(subs[1..], owners[1..])
  }

  function CreateKeyError(name: string, subs: seq<string>, owners: seq<string>, saved: bool): Option<KeyError>
    requires |owners| == |subs|
  {
    if name == "" then Some(NameRequired)
    else if ClaimError(subs, owners).Some? then ClaimError(subs, owners)
    else if !saved then Some(NotSaved)
    else None
  }

  function NewInfo(name: string, subs: seq<string>, maxTunnels: int): KeyInfo {
    KeyInfo(name, subs, if maxTunnels <= 0 then 10 else maxTunnels, true, 0)
  }

  function Created(keys: Keys, name: string, subs: seq<string>, owners: seq<string>, maxTunnels: int, key: string,
                   saved: bool): Keys
    requires |owners| == |subs|
  {
    if CreateKeyError(name, subs, owners, saved).Some? then keys
    else keys[key := NewInfo(name, subs, maxTunnels)]
  }

  function AddSubdomainError(keys: Keys, id: string, sub: string, owner: string, saved: bool): Option<KeyError> {
    if ValidateSubdomain(sub).Some? then Some(BadName(ValidateSubdomain(sub).value))
    else if id !in keys || !keys[id].active then Some(InvalidKey)
    else if owner != "" then (if owner == id then None else Some(AlreadyOwned))
    else if !saved then Some(NotSaved)
    else None
  }

  /** A name that could not be saved stays claimed in memory. */
  function Added(keys: Keys, id: string, sub: string, owner: string): Keys {
    if ValidateSubdomain(sub).Some? || id !in keys || !keys[id].active || owner != "" then keys
    else keys[id := keys[id].(subdomains := keys[id].subdomains + [sub])]
  }

  function Without(subs: seq<string>, sub: string): seq<string> {
    if subs == [] then []
    else if subs[0] == sub then Without(subs[1..], sub)
    else [subs[0]] + Without(subs[1..], sub)
  }

  function Removed(keys: Keys, id: string, sub: string): Keys {
    if id !in keys then keys
    else keys[id := keys[id].(subdomains := Without(keys[id].subdomains, sub))]
  }

  /** The preview under which the admin dashboard may name a key (key_store.go). */
  function Preview(key: string): string {
    if |key| < 12 then key else key[..8] + "..." + key[|key| - 4..]
  }

  /** Two keys share a preview if they are the same, or if both are long enough to be cut and
      agree in their first eight and their last four characters. A preview that was cut is no
      longer than fifteen characters, so no shorter key spells it. */
  lemma PreviewSharedIff(a: string, b: string)
    ensures Preview(a) == Preview(b) <==>
              || a == b
              || (|a| >= 12 && |b| >= 12 && a[..8] == b[..8] && a[|a| - 4..] == b[|b| - 4..])
    ensures if |a| < 12 then Preview(a) == a
            else |Preview(a)| == 15 && Preview(a)[..8] == a[..8] && Preview(a)[8..11] == "..." && Preview(a)[11..] == a[|a| - 4..]
  {
    if |a| >= 12 {
      PreviewParts(a);
    }
    if |b| >= 12 {
      PreviewParts(b);
    }
  }

  lemma PreviewParts(key: string)
    requires |key| >= 12
    ensures var p := Preview(key);
            |p| == 15 && p[..8] == key[..8] && p[8..11] == "..." && p[11..] == key[|key| - 4..]
            && p == p[..8] + p[8..11] + p[11..]
  {
  }

  /** findKeyByIDOrPreview may pick `target`: the key itself, or failing that any whose
      preview is asked for. */
  predicate MayPick(keys: Keys, idOrPreview: string, target: string) {
    target in keys && (target == idOrPreview || (idOrPreview !in keys && Preview(target) == idOrPreview))
  }

  function Revoked(keys: Keys, target: string): Keys {
    if target in keys then keys[target := keys[target].(active := false)] else keys
  }

  // ---------------------------------------------------------------- runs

  datatype Op =
    | Create(name: string, subs: seq<string>, owners: seq<string>, maxTunnels: int, key: string, saved: bool)
    | Add(id: string, sub: string, owner: string)
    | Remove(id: string, sub: string)
    | Revoke(idOrPreview: string, target: string)
    | CountTo(id: string, count: nat)

  /** Generated keys are new; a lookup answers as the map allows; a revocation picks a match. */
  ghost predicate MayDo(keys: Keys, op: Op) {
    match op
    case Create(_, subs, owners, _, key, _) => IsAPIKey(key) && key !in keys && Answers(keys, subs, owners)
    case Add(_, sub, owner) => IsOwnerAnswer(keys, sub, owner)
    case Remove(_, _) => true
    case Revoke(idOrPreview, target) => MayPick(keys, idOrPreview, target)
    case CountTo(id, _) => id in keys
  }

  ghost function Do(keys: Keys, op: Op): Keys
    requires MayDo(keys, op)
  {
    match op
    case Create(name, subs, owners, maxTunnels, key, saved) => Created(keys, name, subs, owners, maxTunnels, key, saved)
    case Add(id, sub, owner) => Added(keys, id, sub, owner)
    case Remove(id, sub) => Removed(keys, id, sub)
    case Revoke(_, target) => Revoked(keys, target)
    case CountTo(id, count) => keys[id := keys[id].(tunnelCount := count)]
  }

  ghost predicate IsRun(stores: seq<Keys>, ops: seq<Op>) {
    && |stores| == |ops| + 1
    && forall i {:trigger ops[i]} :: 0 <= i < |ops| ==> MayDo(stores[i], ops[i]) && stores[i + 1] == Do(stores[i], ops[i])
  }

  lemma {:induction false} WithoutKeepsRest(subs: seq<string>, sub: string, other: string)
    ensures other in Without(subs, sub) <==> other in subs && other != sub
  {
    if subs != [] {
      WithoutKeepsRest(subs[1..], sub, other);
    }
  }

  lemma {:induction false} ClaimsAreFree(keys: Keys, subs: seq<string>, owners: seq<string>, sub: string)
    requires Answers(keys, subs, owners) && ClaimError(subs, owners).None? && sub in subs
    ensures ValidSubdomain(sub) && IsOwnerAnswer(keys, sub, "")
  {
    if sub != subs[0] {
      assert sub in subs[1..];
      ClaimsAreFree(keys, subs[1..], owners[1..], sub);
    }
  }

  ghost predicate Claimable(keys: Keys, sub: string) {
    ValidSubdomain(sub) && forall id :: !Owns(keys, id, sub)
  }

  /** Unless the empty string is an active key, the answers do not matter: the names can be
      claimed exactly when each is valid and has no owner. */
  lemma {:induction false} ClaimsGrantedIff(keys: Keys, subs: seq<string>, owners: seq<string>)
    requires Answers(keys, subs, owners) && !EmptyKeyActive(keys)
    ensures ClaimError(subs, owners).None? <==> forall i :: 0 <= i < |subs| ==> Claimable(keys, subs[i])
  {
    if subs != [] {
      ClaimsGrantedIff(keys, subs[1..], owners[1..]);
      assert forall i :: 0 < i < |subs| ==> subs[i] == subs[1..][i - 1];
      assert forall i :: 0 <= i < |subs[1..]| ==> subs[1..][i] == subs[i + 1];
      assert IsOwnerAnswer(keys, subs[0], owners[0]);
      if owners[0] == "" {
        NobodyOwns(keys, subs[0]);
      }
    }
  }

  /** What CreateKey answers: an empty name is refused first, then the first requested name that
      cannot be claimed, with its reason, then a failure to save. */
  lemma CreateVerdict(keys: Keys, name: string, subs: seq<string>, owners: seq<string>, saved: bool)
    requires Answers(keys, subs, owners) && !EmptyKeyActive(keys)
    ensures var err := CreateKeyError(name, subs, owners, saved);
            && (err == Some(NameRequired) <==> name == "")
            && (name != "" && (forall i :: 0 <= i < |subs| ==> Claimable(keys, subs[i])) ==>
                  err == if saved then None else Some(NotSaved))
            && (name != "" && !(forall i :: 0 <= i < |subs| ==> Claimable(keys, subs[i])) ==>
                  exists i :: && 0 <= i < |subs| && !Claimable(keys, subs[i])
                              && (forall k :: 0 <= k < i ==> Claimable(keys, subs[k]))
                              && err == Some(Objection(subs[i])))
  {
    ClaimsGrantedIff(keys, subs, owners);
    if name != "" && ClaimError(subs, owners).Some? {
      FirstObjection(keys, subs, owners);
    }
  }

  /** Why a name that cannot be claimed cannot. */
  function Objection(sub: string): KeyError {
    match ValidateSubdomain(sub)
    case Some(why) => BadName(why)
    case None => AlreadyOwned
  }

  lemma {:induction false} FirstObjection(keys: Keys, subs: seq<string>, owners: seq<string>)
    requires Answers(keys, subs, owners) && !EmptyKeyActive(keys) && ClaimError(subs, owners).Some?
    ensures ClaimError(subs, owners).value != NameRequired
    ensures exists i :: && 0 <= i < |subs| && !Claimable(keys, subs[i])
                        && (forall k :: 0 <= k < i ==> Claimable(keys, subs[k]))
                        && ClaimError(subs, owners) == Some(Objection(subs[i]))
  {
    assert IsOwnerAnswer(keys, subs[0], owners[0]);
    if Claimable(keys, subs[0]) {
      var rest := subs[1..];
      FirstObjection(keys, rest, owners[1..]);
      var i :| && 0 <= i < |rest| && !Claimable(keys, rest[i]) && (forall k :: 0 <= k < i ==> Claimable(keys, rest[k]))
               && ClaimError(subs, owners) == Some(Objection(rest[i]));
      assert subs[i + 1] == rest[i] && forall k :: 0 < k < i + 1 ==> subs[k] == rest[k - 1];
    } else {
      assert owners[0] == "" ==> ValidateSubdomain(subs[0]).Some? by {
        if owners[0] == "" {
          NobodyOwns(keys, subs[0]);
        }
      }
    }
  }

  /** What AddSubdomain answers on a sound store. */
  lemma AddVerdict(keys: Keys, id: string, sub: string, owner: string, saved: bool)
    requires Sound(keys) && IsOwnerAnswer(keys, sub, owner)
    ensures AddSubdomainError(keys, id, sub, owner, saved)
            == if !ValidSubdomain(sub) then Some(BadName(ValidateSubdomain(sub).value))
               else if !(id in keys && keys[id].active) then Some(InvalidKey)
               else if Owns(keys, id, sub) then None
               else if exists other :: Owns(keys, other, sub) then Some(AlreadyOwned)
               else if saved then None
               else Some(NotSaved)
  {
    if owner == "" {
      NobodyOwns(keys, sub);
    }
  }

  /** Unless the empty string is an active key, "nobody" means that there is no owner. */
  lemma NobodyOwns(keys: Keys, sub: string)
    requires IsOwnerAnswer(keys, sub, "")
    ensures !EmptyKeyActive(keys) ==> forall id :: !Owns(keys, id, sub)
  {
  }

  /** After an operation, whoever owns a name either owned it before or claimed it now; what
      is claimed is well formed and had no owner, unless the empty string is an active key. */
  lemma ClaimStep(keys: Keys, op: Op, id: string, sub: string)
    requires MayDo(keys, op) && Owns(Do(keys, op), id, sub) && !Owns(keys, id, sub)
    ensures ValidSubdomain(sub) && (!EmptyKeyActive(keys) ==> forall other :: !Owns(keys, other, sub))
    ensures op.Create? ==> id == op.key
    ensures op.Add? ==> id == op.id && sub == op.sub
    ensures op.Create? || op.Add?
  {
    match op
    case Create(name, subs, owners, maxTunnels, key, saved) => ClaimsAreFree(keys, subs, owners, sub);
    case Add(_, added, owner) => NobodyOwns(keys, added);
    case Remove(_, removed) => WithoutKeepsRest(keys[id].subdomains, removed, sub);
    case _ =>
  }

  /** Exactly who owns what after an operation. */
  lemma OwnershipAfter(keys: Keys, op: Op, id: string, sub: string)
    requires MayDo(keys, op)
    ensures Owns(Do(keys, op), id, sub) <==>
      match op
      case Create(name, subs, owners, _, key, saved) =>
        || Owns(keys, id, sub)
        || (id == key && sub in subs && CreateKeyError(name, subs, owners, saved).None?)
      case Add(to, added, owner) =>
        || Owns(keys, id, sub)
        || (id == to && sub == added && ValidSubdomain(added) && to in keys && keys[to].active && owner == "")
      case Remove(from, removed) => Owns(keys, id, sub) && !(id == from && sub == removed)
      case Revoke(_, target) => Owns(keys, id, sub) && id != target
      case CountTo(_, _) => Owns(keys, id, sub)
  {
    match op
    case Remove(from, removed) =>
      if id == from && id in keys {
        WithoutKeepsRest(keys[id].subdomains, removed, sub);
      }
    case _ =>
  }

  lemma SoundStep(keys: Keys, op: Op)
    requires Sound(keys) && MayDo(keys, op)
    ensures Sound(Do(keys, op))
  {
    var keys' := Do(keys, op);
    assert op.Create? ==> op.key[..4] == "htk_";
    forall a, b, sub | Owns(keys', a, sub) && Owns(keys', b, sub)
      ensures a == b
    {
      if !Owns(keys, a, sub) {
        ClaimStep(keys, op, a, sub);
      }
      if !Owns(keys, b, sub) {
        ClaimStep(keys, op, b, sub);
      }
    }
  }

  /** From any store whose names are partitioned, every run of the store keeps them
      partitioned, and whatever is owned at the end is well formed or was owned by the
      same key at the start. */
  lemma {:induction false} PartitionAlways(stores: seq<Keys>, ops: seq<Op>, i: nat)
    requires IsRun(stores, ops) && Sound(stores[0]) && i < |stores|
    ensures Sound(stores[i])
    ensures forall id, sub :: Owns(stores[i], id, sub) ==> ValidSubdomain(sub) || Owns(stores[0], id, sub)
  {
    if i > 0 {
      PartitionAlways(stores, ops, i - 1);
      var keys, op := stores[i - 1], ops[i - 1];
      SoundStep(keys, op);
      forall id, sub | Owns(stores[i], id, sub)
        ensures ValidSubdomain(sub) || Owns(stores[0], id, sub)
      {
        if !Owns(keys, id, sub) {
          ClaimStep(keys, op, id, sub);
        }
      }
    }
  }

  // ---------------------------------------------------------------- the empty key

  lemma {:induction false} LongerThanAll(ids: set<string>) returns (n: nat)
    ensures forall id :: id in ids ==> |id| < n
  {
    if ids == {} {
      n := 0;
    } else {
      var id :| id in ids;
      var m := LongerThanAll(ids - {id});
      n := if m > |id| then m else |id| + 1;
    }
  }

  /** There is always another key to generate. */
  lemma NewKey(keys: Keys) returns (key: string)
    ensures IsAPIKey(key) && key !in keys
  {
    var n := LongerThanAll(keys.Keys);
    key := "htk_" + seq(n, i => '0');
  }

  lemma NameIsValid()
    ensures ValidSubdomain("app")
  {
    assert MatchesSubdomainRe("app");
    assert "app"[1] == 'p' && "app"[2] == 'p' && "api"[2] == 'i';
    assert forall r :: r in RESERVED_SUBDOMAINS ==> r == "api" || r[0] != 'a' || |r| > 3;
  }

  lemma OneMore(stores: seq<Keys>, ops: seq<Op>, op: Op) returns (stores': seq<Keys>, ops': seq<Op>)
    requires IsRun(stores, ops) && MayDo(stores[|ops|], op)
    ensures IsRun(stores', ops') && |ops'| == |ops| + 1
    ensures stores'[0] == stores[0] && stores'[|ops'|] == Do(stores[|ops|], op)
  {
    stores', ops' := stores + [Do(stores[|ops|], op)], ops + [op];
  }

  /** Whoever else owns the name gives it up, the empty key claims it, and the next key that is
      created with it owns it too. */
  lemma EmptyKeyBreaksPartition(keys: Keys) returns (stores: seq<Keys>, ops: seq<Op>)
    requires Partition(keys) && EmptyKeyActive(keys)
    ensures IsRun(stores, ops) && stores[0] == keys && !Partition(stores[|ops|])
  {
    NameIsValid();
    stores, ops := EmptyKeyClaims(keys);
    var now := stores[|ops|];
    var key := NewKey(now);
    var create := Create("a", ["app"], [""], 10, key, true);
    assert ClaimError(["app"][1..], [""][1..]).None?;
    assert ClaimError(["app"], [""]).None?;
    stores, ops := OneMore(stores, ops, create);
    assert Owns(stores[|ops|], "", "app") && Owns(stores[|ops|], key, "app");
    assert key[..4] == "htk_";
  }

  lemma EmptyKeyClaims(keys: Keys) returns (stores: seq<Keys>, ops: seq<Op>)
    requires Partition(keys) && EmptyKeyActive(keys)
    ensures IsRun(stores, ops) && stores[0] == keys && Owns(stores[|ops|], "", "app")
    ensures IsOwnerAnswer(stores[|ops|], "app", "")
  {
    NameIsValid();
    stores, ops := [keys], [];
    if !Owns(keys, "", "app") {
      if id :| Owns(keys, id, "app") {
        stores, ops := OneMore(stores, ops, Remove(id, "app"));
        forall other
          ensures !Owns(stores[|ops|], other, "app")
        {
          OwnershipAfter(keys, Remove(id, "app"), other, "app");
        }
      }
      assert forall other :: !Owns(stores[|ops|], other, "app");
      stores, ops := OneMore(stores, ops, Add("", "app", ""));
    }
  }

  /** Every run of the store keeps the partition. */
  ghost predicate KeepsPartition(keys: Keys) {
    forall stores, ops :: IsRun(stores, ops) && stores[0] == keys ==> Partition(stores[|ops|])
  }

  /** From a partitioned store every run keeps the partition exactly when the empty string is
      not one of its active keys. */
  lemma KeepsPartitionIff(keys: Keys)
    requires Partition(keys)
    ensures KeepsPartition(keys) <==> !EmptyKeyActive(keys)
  {
    if EmptyKeyActive(keys) {
      var stores, ops := EmptyKeyBreaksPartition(keys);
    } else {
      forall stores, ops | IsRun(stores, ops) && stores[0] == keys
        ensures Partition(stores[|ops|])
      {
        PartitionAlways(stores, ops, |ops|);
      }
    }
  }

  // ---------------------------------------------------------------- the store

  class APIKey {
    const name: string
    var subdomains: seq<string>
    const maxTunnels: int
    var active: bool
    var tunnelCount: nat

    constructor (name: string, subdomains: seq<string>, maxTunnels: int)
      ensures Info() == KeyInfo(name, subdomains, maxTunnels, true, 0)
    {
      this.name, this.subdomains, this.maxTunnels := name, subdomains, maxTunnels;
      active, tunnelCount := true, 0;
    }

    function Info(): KeyInfo
      reads this
    {
      KeyInfo(name, subdomains, maxTunnels, active, tunnelCount)
    }
  }

  lemma {:induction false} SomeAnswers(keys: Keys, subs: seq<string>) returns (owners: seq<string>)
    ensures Answers(keys, subs, owners)
  {
    if subs == [] {
      owners := [];
    } else {
      var rest := SomeAnswers(keys, subs[1..]);
      if id :| Owns(keys, id, subs[0]) {
        owners := [id] + rest;
      } else {
        owners := [""] + rest;
      }
    }
  }

  /** Names that may be claimed do not decide. */
  lemma {:induction false} GoodFront(subs: seq<string>, owners: seq<string>, i: nat)
    requires |owners| == |subs| && i <= |subs|
    requires forall k :: 0 <= k < i ==> ValidSubdomain(subs[k]) && owners[k] == ""
    ensures ClaimError(subs, owners) == ClaimError(subs[i..], owners[i..])
  {
    if i > 0 {
      GoodFront(subs, owners, i - 1);
      assert subs[i - 1..][1..] == subs[i..] && owners[i - 1..][1..] == owners[i..];
    }
  }

  /** The counters of a store, as the quota accounting sees them. */
  function Slots(keys: Keys): Store {
    map id | id in keys :: Slot(keys[id].tunnelCount, keys[id].maxTunnels)
  }

  /** The key's counter is the one in `store`; names, limits and active flags are untouched.
      This is the step CountTo of the store's runs. */
  function Recounted(keys: Keys, id: string, store: Store): Keys {
    if id in keys && id in store then keys[id := keys[id].(tunnelCount := store[id].count)] else keys
  }

  /** To the tunnel counters only a create matters: it adds one that starts at zero. Renaming
      and revoking leave every counter and limit as it is. */
  lemma CountersAfter(keys: Keys, op: Op)
    requires MayDo(keys, op)
    ensures var before, after := Slots(keys), Slots(Do(keys, op));
            if op.CountTo? then after == before[op.id := Slot(op.count, keys[op.id].maxTunnels)]
            else if op.Create? && CreateKeyError(op.name, op.subs, op.owners, op.saved).None? then
              after == before[op.key := Slot(0, if op.maxTunnels <= 0 then 10 else op.maxTunnels)]
            else after == before
  {
  }

  class KeyStore {
    var keys: map<string, APIKey>
    ghost var infos: Keys

    ghost predicate Valid()
      reads this, keys.Values
    {
      && infos.Keys == keys.Keys
      && (forall id :: id in keys ==> keys[id].Info() == infos[id])
      && (forall a, b :: a in keys && b in keys && keys[a] == keys[b] ==> a == b)
    }

    /** The answer depends on the order of the loop unless names are partitioned. */
    method FindSubdomainOwner(sub: string) returns (owner: string)
      requires Valid()
      ensures IsOwnerAnswer(infos, sub, owner)
    {
      var ids := keys.Keys;
      while ids != {}
        invariant ids <= keys.Keys
        invariant forall id :: id in keys && id !in ids ==> !Owns(infos, id, sub)
        decreases ids
      {
        var id :| id in ids;
        ids := ids - {id};
        var k := keys[id];
        if k.active {
          for i := 0 to |k.subdomains|
            invariant sub !in k.subdomains[..i]
          {
            if k.subdomains[i] == sub {
              return id;
            }
          }
          assert k.subdomains[..|k.subdomains|] == k.subdomains;
        }
      }
      return "";
    }

    /** The loop of CreateKey over the requested names; `owners` is what the lookups answered. */
    method CheckClaims(subs: seq<string>) returns (err: Option<KeyError>, ghost owners: seq<string>)
      requires Valid()
      ensures Answers(infos, subs, owners) && err == ClaimError(subs, owners)
      ensures !EmptyKeyActive(infos) ==> (err.None? <==> forall i :: 0 <= i < |subs| ==> Claimable(infos, subs[i]))
    {
      owners := SomeAnswers(infos, subs);
      for i := 0 to |subs|
        invariant Answers(infos, subs, owners)
        invariant ClaimError(subs, owners) == ClaimError(subs[i..], owners[i..])
        invariant forall k :: 0 <= k < i ==> ValidSubdomain(subs[k]) && owners[k] == ""
      {
        var bad := ValidateSubdomain(subs[i]);
        if bad.Some? {
          Granted(subs, owners);
          return Some(BadName(bad.value)), owners;
        }
        var owner := FindSubdomainOwner(subs[i]);
        owners := owners[i := owner];
        GoodFront(subs, owners, i);
        if owner != "" {
          Granted(subs, owners);
          return Some(AlreadyOwned), owners;
        }
        GoodFront(subs, owners, i + 1);
      }
      Granted(subs, owners);
      return None, owners;
    }

    lemma Granted(subs: seq<string>, owners: seq<string>)
      requires Answers(infos, subs, owners)
      ensures !EmptyKeyActive(infos) ==>
                (ClaimError(subs, owners).None? <==> forall i :: 0 <= i < |subs| ==> Claimable(infos, subs[i]))
    {
      if !EmptyKeyActive(infos) {
        ClaimsGrantedIff(infos, subs, owners);
      }
    }


    /** `key` is the generated one, `saved` whether the file could be written. A failure
        leaves the store as it was. */
    method CreateKey(name: string, subs: seq<string>, maxTunnels: int, key: string, saved: bool)
      returns (err: Option<KeyError>, ghost owners: seq<string>)
      requires Valid() && key !in keys
      modifies this
      ensures Valid()
      ensures Answers(old(infos), subs, owners) && err == CreateKeyError(name, subs, owners, saved)
      ensures infos == Created(old(infos), name, subs, owners, maxTunnels, key, saved)
      ensures !EmptyKeyActive(old(infos)) && name != "" && saved ==>
                (err.None? <==> forall i :: 0 <= i < |subs| ==> Claimable(old(infos), subs[i]))
      ensures err.Some? ==> keys == old(keys) && infos == old(infos)
    {
      if name == "" {
        owners := SomeAnswers(infos, subs);
        return Some(NameRequired), owners;
      }
      err, owners := CheckClaims(subs);
      if err.Some? {
        return;
      }
      err := StoreKey(key, NewInfo(name, subs, maxTunnels), saved);
    }

    /** The rest of CreateKey: the key is entered, and taken out again if it cannot be saved. */
    method StoreKey(key: string, info: KeyInfo, saved: bool) returns (err: Option<KeyError>)
      requires Valid() && key !in keys && info.active && info.tunnelCount == 0
      modifies this
      ensures Valid() && err == if saved then None else Some(NotSaved)
      ensures infos == if saved then old(infos)[key := info] else old(infos)
      ensures !saved ==> keys == old(keys)
    {
      var k := new APIKey(info.name, info.subdomains, info.maxTunnels);
      assert forall id :: id in keys ==> keys[id] in keys.Values && keys[id] != k;
      keys := keys[key := k];
      if !saved {
        keys := keys - {key};
        assert keys == old(keys);
        return Some(NotSaved);
      }
      infos := infos[key := info];
      return None;
    }

    /** Decided by one answer of the owner lookup, made when the name and the key are good. */
    method AddSubdomain(id: string, sub: string, saved: bool) returns (err: Option<KeyError>)
      requires Valid()
      modifies this`infos, keys.Values
      ensures Valid()
      ensures exists owner ::
                && (ValidSubdomain(sub) && id in old(infos) && old(infos)[id].active ==>
                      IsOwnerAnswer(old(infos), sub, owner))
                && err == AddSubdomainError(old(infos), id, sub, owner, saved)
                && infos == Added(old(infos), id, sub, owner)
    {
      var bad := ValidateSubdomain(sub);
      if bad.Some? {
        assert infos == Added(infos, id, sub, "");
        return Some(BadName(bad.value));
      }
      if id !in keys || !keys[id].active {
        assert infos == Added(infos, id, sub, "");
        return Some(InvalidKey);
      }
      var k := keys[id];
      var owner := FindSubdomainOwner(sub);
      ghost var after := Added(infos, id, sub, owner);
      if owner != "" {
        return if owner == id then None else Some(AlreadyOwned);
      }
      k.subdomains := k.subdomains + [sub];
      infos := infos[id := k.Info()];
      assert infos == after;
      return if saved then None else Some(NotSaved);
    }

    method RemoveSubdomain(id: string, sub: string, saved: bool) returns (err: Option<KeyError>)
      requires Valid()
      modifies this`infos, keys.Values
      ensures Valid()
      ensures err == if id !in old(infos) then Some(InvalidKey) else if !saved then Some(NotSaved) else None
      ensures infos == Removed(old(infos), id, sub)
    {
      if id !in keys {
        return Some(InvalidKey);
      }
      var k := keys[id];
      var filtered := [];
      for i := 0 to |k.subdomains|
        invariant filtered + Without(k.subdomains[i..], sub) == Without(k.subdomains, sub)
      {
        assert k.subdomains[i..][1..] == k.subdomains[i + 1..];
        if k.subdomains[i] != sub {
          filtered := filtered + [k.subdomains[i]];
        }
      }
      assert filtered == Without(k.subdomains, sub);
      ghost var after := Removed(infos, id, sub);
      k.subdomains := filtered;
      infos := infos[id := k.Info()];
      assert infos == after;
      return if saved then None else Some(NotSaved);
    }

    method RevokeKey(idOrPreview: string, saved: bool) returns (err: Option<KeyError>)
      requires Valid()
      modifies this`infos, keys.Values
      ensures Valid()
      ensures err == Some(NotFound) ==> infos == old(infos) && forall id :: !MayPick(infos, idOrPreview, id)
      ensures err != Some(NotFound) ==>
                && err == (if saved then None else Some(NotSaved))
                && exists target :: MayPick(old(infos), idOrPreview, target) && infos == Revoked(old(infos), target)
      ensures idOrPreview in old(infos) ==>
                err != Some(NotFound) && infos == old(infos)[idOrPreview := old(infos)[idOrPreview].(active := false)]
      ensures idOrPreview !in old(infos) ==>
                if err == Some(NotFound) then forall id :: id in old(infos) ==> Preview(id) != idOrPreview
                else exists id :: id in old(infos) && Preview(id) == idOrPreview
                                  && infos == old(infos)[id := old(infos)[id].(active := false)]
    {
      var picked := idOrPreview;
      if idOrPreview !in keys {
        var ids := keys.Keys;
        var found := false;
        while ids != {} && !found
          invariant ids <= keys.Keys
          invariant !found ==> forall id :: id in keys && id !in ids ==> Preview(id) != idOrPreview
          invariant found ==> picked in keys && Preview(picked) == idOrPreview
          decreases ids
        {
          var id :| id in ids;
          ids := ids - {id};
          if Preview(id) == idOrPreview {
            picked, found := id, true;
          }
        }
        if !found {
          return Some(NotFound);
        }
      }
      assert MayPick(infos, idOrPreview, picked);
      var k := keys[picked];
      k.active := false;
      infos := infos[picked := k.Info()];
      assert infos == Revoked(old(infos), picked);
      return if saved then None else Some(NotSaved);
    }

    method IncrementTunnels(key: string) returns (err: Option<ChargeError>)
      requires Valid()
      modifies this`infos, keys.Values
      ensures Valid()
      ensures match Increment(Slots(old(infos)), key)
              case Ok(store) => err == None && Slots(infos) == store && infos == Recounted(old(infos), key, store)
              case Err(e) => err == Some(e) && infos == old(infos)
    {
      if key !in keys {
        return Some(UnknownToken);
      }
      var k := keys[key];
      if k.tunnelCount >= k.maxTunnels {
        return Some(LimitReached);
      }
      k.tunnelCount := k.tunnelCount + 1;
      infos := infos[key := k.Info()];
      return None;
    }

    method DecrementTunnels(key: string)
      requires Valid()
      modifies this`infos, keys.Values
      ensures Valid()
      ensures Slots(infos) == Decrement(Slots(old(infos)), key)
      ensures infos == Recounted(old(infos), key, Decrement(Slots(old(infos)), key))
    {
      if key in keys {
        var k := keys[key];
        if k.tunnelCount > 0 {
          k.tunnelCount := k.tunnelCount - 1;
          infos := infos[key := k.Info()];
        }
      }
    }
  }
}
