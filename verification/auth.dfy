// API keys and their in-memory store, internal/auth/auth.go.

module Auth {
  import opened Common

  // A key's fields, as a value.
  datatype KeyInfo = KeyInfo(
    id: string, name: string, prefix: string, hash: string, enabled: bool, expiresAt: Option<int>,
    allowedModels: seq<string>, deniedModels: seq<string>,
    allowedProviders: seq<string>, deniedProviders: seq<string>,
    rpmLimit: int, rpsLimit: int, tpmLimit: int, dailyQuota: int, monthlyQuota: int, budgetLimit: real,
    createdAt: int, updatedAt: int)

  type View = map<string, KeyInfo>

  class APIKey {
    const id: string
    const prefix: string
    const hash: string
    const expiresAt: Option<int>
    const tpmLimit: int
    const budgetLimit: real
    const createdAt: int
    var name: string
    var enabled: bool
    var allowedModels: seq<string>
    var deniedModels: seq<string>
    var allowedProviders: seq<string>
    var deniedProviders: seq<string>
    var rpmLimit: int
    var rpsLimit: int
    var dailyQuota: int
    var monthlyQuota: int
    var updatedAt: int

    function Value(): KeyInfo
      reads this
    {
      KeyInfo(id, name, prefix, hash, enabled, expiresAt, allowedModels, deniedModels, allowedProviders,
              deniedProviders, rpmLimit, rpsLimit, tpmLimit, dailyQuota, monthlyQuota, budgetLimit,
              createdAt, updatedAt)
    }

    constructor (k: KeyInfo)
      ensures Value() == k
    {
      id, prefix, hash, name, enabled, expiresAt := k.id, k.prefix, k.hash, k.name, k.enabled, k.expiresAt;
      allowedModels, deniedModels := k.allowedModels, k.deniedModels;
      allowedProviders, deniedProviders := k.allowedProviders, k.deniedProviders;
      rpmLimit, rpsLimit, tpmLimit := k.rpmLimit, k.rpsLimit, k.tpmLimit;
      dailyQuota, monthlyQuota, budgetLimit := k.dailyQuota, k.monthlyQuota, k.budgetLimit;
      createdAt, updatedAt := k.createdAt, k.updatedAt;
    }
  }

  class MemoryKeyStore {
    var keys: map<string, APIKey>

    // Every key is stored under its own hash.
    ghost predicate Valid()
      reads this
    {
      forall h :: h in keys ==> keys[h].hash == h
    }

    ghost function Contents(): View
      reads this, keys.Values
    {
      map h | h in keys :: keys[h].Value()
    }

    constructor ()
      ensures Valid() && Contents() == map[]
    {
      keys := map[];
    }

    method GetByHash(hash: string) returns (key: Option<APIKey>)
      requires Valid()
      ensures key.Some? <==> hash in Contents()
      ensures key.Some? ==> key.value.hash == hash && key.value.Value() == Contents()[hash]
    {
      return if hash in keys then Some(keys[hash]) else None;
    }

    method Create(key: APIKey)
      requires Valid()
      modifies this
      ensures Valid() && keys == old(keys)[key.hash := key]
      ensures Contents() == old(Contents())[key.hash := key.Value()]
    {
      keys := keys[key.hash := key];
    }

    // Copies of all keys, each once, in no particular order: the caller may change them.
    method List() returns (list: seq<APIKey>)
      requires Valid()
      ensures forall i :: 0 <= i < |list| ==> fresh(list[i])
      ensures forall i, j :: 0 <= i < j < |list| ==> list[i].hash != list[j].hash
      ensures forall i :: 0 <= i < |list| ==> Copied(list[i], list[i].hash)
      ensures forall h :: h in keys ==> exists i :: 0 <= i < |list| && list[i].hash == h
    {
      list := [];
      ghost var hashes: seq<string> := [];
      var rest := keys.Keys;
      while rest != {}
        invariant rest <= keys.Keys && |list| == |hashes|
        invariant forall h :: h in keys <==> h in rest || h in hashes
        invariant forall i :: 0 <= i < |hashes| ==> hashes[i] !in rest
        invariant forall i, j :: 0 <= i < j < |hashes| ==> hashes[i] != hashes[j]
        invariant forall i :: 0 <= i < |list| ==> Copied(list[i], hashes[i]) && fresh(list[i])
      {
        var h :| h in rest;
        var copied := new APIKey(keys[h].Value());
        list, hashes := list + [copied], hashes + [h];
        rest := rest - {h};
      }
      assert forall h :: h in keys ==> h in hashes;
    }

    // An object holding the key stored under the hash.
    ghost predicate Copied(key: APIKey, hash: string)
      reads this, keys.Values, key
    {
      hash in keys && key.Value() == keys[hash].Value() && key.hash == hash
    }

    method Update(key: APIKey) returns (ok: bool)
      requires Valid()
      modifies this
      ensures Valid() && ok == (key.hash in old(keys))
      ensures keys == if ok then old(keys)[key.hash := key] else old(keys)
      ensures ok ==> Contents() == old(Contents())[key.hash := key.Value()]
    {
      if key.hash !in keys {
        return false;
      }
      keys := keys[key.hash := key];
      return true;
    }

    method Delete(hash: string) returns (ok: bool)
      requires Valid()
      modifies this
      ensures Valid() && ok == (hash in old(keys)) && keys == old(keys) - {hash}
      ensures Contents() == old(Contents()) - {hash}
    {
      if hash !in keys {
        return false;
      }
      keys := keys - {hash};
      return true;
    }
  }
}
