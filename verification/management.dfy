// Key administration by ID over the hash-keyed store, internal/api/management.go.

module Management {
  import opened Common
  import opened Auth

  const OK: int := 200
  const CREATED: int := 201
  const NO_CONTENT: int := 204
  const BAD_REQUEST: int := 400
  const NOT_FOUND: int := 404
  const INTERNAL_ERROR: int := 500

  // The write model of a key: None is an absent or null JSON field.
  datatype KeyRequest = KeyRequest(
    name: string, enabled: Option<bool>,
    allowedModels: Option<seq<string>>, deniedModels: Option<seq<string>>,
    allowedProviders: Option<seq<string>>, deniedProviders: Option<seq<string>>,
    rpmLimit: int, rpsLimit: int, dailyQuota: int, monthlyQuota: int)

  function Or<T>(o: Option<T>, default: T): T {
    if o.Some? then o.value else default
  }

  function Positive(x: int, default: int): int {
    if x > 0 then x else default
  }

  // A key after the supplied fields of a request have been taken over.
  function Patched(k: KeyInfo, req: KeyRequest, now: int): KeyInfo {
    k.(name := if req.name != "" then req.name else k.name,
       enabled := Or(req.enabled, k.enabled),
       allowedModels := Or(req.allowedModels, k.allowedModels),
       deniedModels := Or(req.deniedModels, k.deniedModels),
       allowedProviders := Or(req.allowedProviders, k.allowedProviders),
       deniedProviders := Or(req.deniedProviders, k.deniedProviders),
       rpmLimit := Positive(req.rpmLimit, k.rpmLimit),
       rpsLimit := Positive(req.rpsLimit, k.rpsLimit),
       dailyQuota := Positive(req.dailyQuota, k.dailyQuota),
       monthlyQuota := Positive(req.monthlyQuota, k.monthlyQuota),
       updatedAt := now)
  }

  // A limit in a request counts only if it is positive.
  predicate LimitTaken(before: int, after: int, supplied: int) {
    (supplied > 0 ==> after == supplied) && (supplied <= 0 ==> after == before)
  }

  predicate FieldTaken<T(==)>(before: T, after: T, supplied: Option<T>) {
    (supplied.None? ==> after == before) && (supplied.Some? ==> after == supplied.value)
  }

  // Field by field: `after` is `before` with what the request supplies, dated now.
  predicate OnlySupplied(before: KeyInfo, after: KeyInfo, req: KeyRequest, now: int) {
    && (req.name == "" ==> after.name == before.name) && (req.name != "" ==> after.name == req.name)
    && FieldTaken(before.enabled, after.enabled, req.enabled)
    && FieldTaken(before.allowedModels, after.allowedModels, req.allowedModels)
    && FieldTaken(before.deniedModels, after.deniedModels, req.deniedModels)
    && FieldTaken(before.allowedProviders, after.allowedProviders, req.allowedProviders)
    && FieldTaken(before.deniedProviders, after.deniedProviders, req.deniedProviders)
    && LimitTaken(before.rpmLimit, after.rpmLimit, req.rpmLimit)
    && LimitTaken(before.rpsLimit, after.rpsLimit, req.rpsLimit)
    && LimitTaken(before.dailyQuota, after.dailyQuota, req.dailyQuota)
    && LimitTaken(before.monthlyQuota, after.monthlyQuota, req.monthlyQuota)
    && after.id == before.id && after.prefix == before.prefix && after.hash == before.hash
    && after.expiresAt == before.expiresAt && after.tpmLimit == before.tpmLimit
    && after.budgetLimit == before.budgetLimit && after.createdAt == before.createdAt && after.updatedAt == now
  }

  lemma PatchTakesOnlySupplied(k: KeyInfo, req: KeyRequest, now: int)
    ensures OnlySupplied(k, Patched(k, req, now), req, now)
  {
  }

  // A rename changes the name and the date: in particular the four limits stay.
  lemma RenameKeepsTheRest(k: KeyInfo, name: string, now: int)
    requires name != ""
    ensures Patched(k, KeyRequest(name, None, None, None, None, None, 0, 0, 0, 0), now)
         == k.(name := name, updatedAt := now)
  {
  }

  // A random raw key, and what is derived from it.
  datatype RawKey = RawKey(id: string, prefix: string, hash: string)

  // What key generation starts from.
  function Generated(raw: RawKey, name: string, now: int): KeyInfo {
    KeyInfo(raw.id, name, raw.prefix, raw.hash, true, None, [], [], [], [],
            60, 10, 100_000, 1_000_000, 30_000_000, 0.0, now, now)
  }

  // A new key: enabled, unrestricted, 60 requests per minute, 10 per second, 100,000 tokens per
  // minute, 1,000,000 a day and 30,000,000 a month, unless the request says otherwise.
  predicate CreatedAs(key: KeyInfo, raw: RawKey, req: KeyRequest, now: int) {
    && key.id == raw.id && key.prefix == raw.prefix && key.hash == raw.hash && key.name == req.name
    && FieldTaken(true, key.enabled, req.enabled) && key.expiresAt == None
    && FieldTaken([], key.allowedModels, req.allowedModels) && FieldTaken([], key.deniedModels, req.deniedModels)
    && FieldTaken([], key.allowedProviders, req.allowedProviders)
    && FieldTaken([], key.deniedProviders, req.deniedProviders)
    && LimitTaken(60, key.rpmLimit, req.rpmLimit) && LimitTaken(10, key.rpsLimit, req.rpsLimit)
    && LimitTaken(1_000_000, key.dailyQuota, req.dailyQuota)
    && LimitTaken(30_000_000, key.monthlyQuota, req.monthlyQuota)
    && key.tpmLimit == 100_000 && key.budgetLimit == 0.0 && key.createdAt == now && key.updatedAt == now
  }

  lemma GeneratedIsCreated(raw: RawKey, req: KeyRequest, now: int)
    requires req.name != ""
    ensures CreatedAs(Patched(Generated(raw, req.name, now), req, now), raw, req, now)
  {
  }

  ghost predicate UniqueIds(v: View) {
    forall a, b :: a in v && b in v && v[a].id == v[b].id ==> a == b
  }

  ghost predicate Named(v: View, h: string, id: string) {
    h in v && v[h].id == id
  }

  // The store as the administrator sees it: a map keyed by ID.
  ghost function ById(v: View, id: string): Option<KeyInfo> {
    if exists h :: Named(v, h, id) then
      var h :| Named(v, h, id);
      Some(v[h])
    else None
  }

  lemma ByIdIs(v: View, h: string)
    requires UniqueIds(v) && h in v
    ensures ById(v, v[h].id) == Some(v[h])
  {
    assert Named(v, h, v[h].id);
  }

  // Writing a key under its hash is writing it under its ID.
  lemma ByIdUpdate(v: View, h: string, k: KeyInfo, id: string)
    requires UniqueIds(v) && if h in v then k.id == v[h].id else ById(v, k.id).None?
    ensures UniqueIds(v[h := k])
    ensures ById(v[h := k], id) == if id == k.id then Some(k) else ById(v, id)
  {
    var v' := v[h := k];
    forall a, b | a in v' && b in v' && v'[a].id == v'[b].id
      ensures a == b
    {
      if h !in v {
        assert !Named(v, a, k.id) && !Named(v, b, k.id);
      }
    }
    if id == k.id {
      ByIdIs(v', h);
    } else if a :| Named(v, a, id) {
      ByIdIs(v, a);
      ByIdIs(v', a);
    } else {
      assert forall a :: Named(v', a, id) ==> Named(v, a, id);
    }
  }

  lemma ByIdUpdates(v: View, h: string, k: KeyInfo)
    requires UniqueIds(v) && if h in v then k.id == v[h].id else ById(v, k.id).None?
    ensures UniqueIds(v[h := k])
    ensures forall id :: ById(v[h := k], id) == if id == k.id then Some(k) else ById(v, id)
  {
    forall id ensures UniqueIds(v[h := k]) && ById(v[h := k], id) == if id == k.id then Some(k) else ById(v, id) {
      ByIdUpdate(v, h, k, id);
    }
  }

  lemma ByIdWritten(v: View, v': View, h: string, k: KeyInfo)
    requires UniqueIds(v) && (if h in v then k.id == v[h].id else ById(v, k.id).None?) && v' == v[h := k]
    ensures UniqueIds(v')
    ensures forall id :: ById(v', id) == if id == k.id then Some(k) else ById(v, id)
  {
    hide ById, UniqueIds;
    ByIdUpdates(v, h, k);
    assert v' == v[h := k];
  }

  lemma ByIdRemove(v: View, h: string, id: string)
    requires UniqueIds(v) && h in v
    ensures UniqueIds(v - {h})
    ensures ById(v - {h}, id) == if id == v[h].id then None else ById(v, id)
  {
    assert forall a :: Named(v - {h}, a, id) ==> Named(v, a, id);
    if a :| Named(v, a, id) && a != h {
      ByIdIs(v, a);
      ByIdIs(v - {h}, a);
    }
  }

  lemma ByIdRemoves(v: View, h: string)
    requires UniqueIds(v) && h in v
    ensures UniqueIds(v - {h})
    ensures forall id :: ById(v - {h}, id) == if id == v[h].id then None else ById(v, id)
  {
    forall id ensures UniqueIds(v - {h}) && ById(v - {h}, id) == if id == v[h].id then None else ById(v, id) {
      ByIdRemove(v, h, id);
    }
  }

  class ManagementHandler {
    const keyStore: MemoryKeyStore

    constructor (keyStore: MemoryKeyStore)
      ensures this.keyStore == keyStore
    {
      this.keyStore := keyStore;
    }

    // The search both UpdateKey and DeleteKey do over a snapshot of the store.
    static method Find(list: seq<APIKey>, id: string) returns (found: Option<APIKey>)
      ensures found.None? ==> forall i :: 0 <= i < |list| ==> list[i].id != id
      ensures found.Some? ==> found.value in list && found.value.id == id
    {
      for i := 0 to |list|
        invariant forall j :: 0 <= j < i ==> list[j].id != id
      {
        if list[i].id == id {
          return Some(list[i]);
        }
      }
      return None;
    }

    // A copy of the key with the ID, if the store has one.
    method Snapshot(id: string) returns (found: Option<APIKey>)
      requires keyStore.Valid() && UniqueIds(keyStore.Contents())
      ensures found.Some? ==> fresh(found.value)
      ensures (if found.Some? then Some(found.value.Value()) else None) == ById(keyStore.Contents(), id)
      ensures found.Some? ==> Named(keyStore.Contents(), found.value.hash, id)
    {
      var list := keyStore.List();
      found := Find(list, id);
      if found.Some? {
        ByIdIs(keyStore.Contents(), found.value.hash);
      }
    }

    // `req` is None when the body cannot be decoded, `raw` when no random bytes can be had. Key
    // generation never repeats an ID or a hash that is in the store.
    method CreateKey(req: Option<KeyRequest>, raw: Option<RawKey>, now: int) returns (status: int)
      requires keyStore.Valid() && UniqueIds(keyStore.Contents())
      requires raw.Some? ==> raw.value.hash !in keyStore.keys && ById(keyStore.Contents(), raw.value.id).None?
      modifies keyStore
      ensures keyStore.Valid() && UniqueIds(keyStore.Contents())
      ensures status == 400 <==> req.None? || req.value.name == ""
      ensures status == 500 <==> req.Some? && req.value.name != "" && raw.None?
      ensures status in {400, 500, 201}
      ensures status != CREATED ==> keyStore.keys == old(keyStore.keys)
      ensures status == CREATED ==>
                && keyStore.keys - {raw.value.hash} == old(keyStore.keys)
                && forall x :: ById(keyStore.Contents(), x)
                            == if x == raw.value.id
                               then Some(Patched(Generated(raw.value, req.value.name, now), req.value, now))
                               else ById(old(keyStore.Contents()), x)
      ensures status == CREATED ==>
                var created := ById(keyStore.Contents(), raw.value.id);
                created.Some? && CreatedAs(created.value, raw.value, req.value, now)
    {
      hide ById, UniqueIds;
      if req.None? || req.value.name == "" {
        return BAD_REQUEST;
      }
      if raw.None? {
        return INTERNAL_ERROR;
      }
      StoreGenerated(req.value, raw.value, now);
      GeneratedIsCreated(raw.value, req.value, now);
      return CREATED;
    }

    // The generated key, with the supplied fields taken over, goes into the store.
    method StoreGenerated(req: KeyRequest, raw: RawKey, now: int)
      requires keyStore.Valid() && UniqueIds(keyStore.Contents()) && req.name != ""
      requires raw.hash !in keyStore.keys && ById(keyStore.Contents(), raw.id).None?
      modifies keyStore
      ensures keyStore.Valid() && UniqueIds(keyStore.Contents())
      ensures keyStore.keys - {raw.hash} == old(keyStore.keys)
      ensures forall x :: ById(keyStore.Contents(), x)
                       == if x == raw.id then Some(Patched(Generated(raw, req.name, now), req, now))
                          else ById(old(keyStore.Contents()), x)
    {
      hide ById, UniqueIds;
      var keyModel := new APIKey(Generated(raw, req.name, now));
      ApplyPermissions(keyModel, req);
      ApplyLimits(keyModel, req);
      assert keyModel.Value() == Patched(Generated(raw, req.name, now), req, now);
      keyStore.Create(keyModel);
      ByIdUpdates(old(keyStore.Contents()), raw.hash, keyModel.Value());
    }

    // The conditional assignments of UpdateKey.
    static method Patch(target: APIKey, req: KeyRequest, now: int)
      modifies target
      ensures target.Value() == Patched(old(target.Value()), req, now)
      ensures OnlySupplied(old(target.Value()), target.Value(), req, now)
    {
      if req.name != "" { target.name := req.name; }
      ApplyPermissions(target, req);
      ApplyLimits(target, req);
      target.updatedAt := now;
    }

    static method ApplyPermissions(target: APIKey, req: KeyRequest)
      modifies target
      ensures target.Value() == old(target.Value()).(
                enabled := Or(req.enabled, old(target.enabled)),
                allowedModels := Or(req.allowedModels, old(target.allowedModels)),
                deniedModels := Or(req.deniedModels, old(target.deniedModels)),
                allowedProviders := Or(req.allowedProviders, old(target.allowedProviders)),
                deniedProviders := Or(req.deniedProviders, old(target.deniedProviders)))
    {
      if req.enabled.Some? { target.enabled := req.enabled.value; }
      if req.allowedModels.Some? { target.allowedModels := req.allowedModels.value; }
      if req.deniedModels.Some? { target.deniedModels := req.deniedModels.value; }
      if req.allowedProviders.Some? { target.allowedProviders := req.allowedProviders.value; }
      if req.deniedProviders.Some? { target.deniedProviders := req.deniedProviders.value; }
    }

    static method ApplyLimits(target: APIKey, req: KeyRequest)
      modifies target
      ensures target.Value() == old(target.Value()).(
                rpmLimit := Positive(req.rpmLimit, old(target.rpmLimit)),
                rpsLimit := Positive(req.rpsLimit, old(target.rpsLimit)),
                dailyQuota := Positive(req.dailyQuota, old(target.dailyQuota)),
                monthlyQuota := Positive(req.monthlyQuota, old(target.monthlyQuota)))
    {
      if req.rpmLimit > 0 { target.rpmLimit := req.rpmLimit; }
      if req.rpsLimit > 0 { target.rpsLimit := req.rpsLimit; }
      if req.dailyQuota > 0 { target.dailyQuota := req.dailyQuota; }
      if req.monthlyQuota > 0 { target.monthlyQuota := req.monthlyQuota; }
    }

    // The second half of UpdateKey: change the copy and write it back. Other administrators may have
    // acted since it was read; a hash and its ID stay together whatever they do. A key deleted
    // meanwhile does not come back; one changed meanwhile is overwritten from the older copy.
    method FinishUpdate(target: APIKey, req: KeyRequest, now: int) returns (status: int)
      requires keyStore.Valid() && UniqueIds(keyStore.Contents()) && target !in keyStore.keys.Values
      requires target.hash in keyStore.keys ==> keyStore.keys[target.hash].id == target.id
      modifies keyStore, target
      ensures keyStore.Valid() && UniqueIds(keyStore.Contents())
      ensures status == if target.hash in old(keyStore.keys) then 200 else 500
      ensures status != OK ==> keyStore.keys == old(keyStore.keys)
      ensures status == OK ==>
                forall x :: ById(keyStore.Contents(), x)
                         == if x == target.id then Some(Patched(old(target.Value()), req, now))
                            else ById(old(keyStore.Contents()), x)
      ensures status == OK ==>
                && target.hash in keyStore.keys && keyStore.keys[target.hash] == target
                && OnlySupplied(old(target.Value()), target.Value(), req, now)
    {
      hide OnlySupplied, FieldTaken, LimitTaken, Patched;
      hide ById, UniqueIds;
      ghost var before := keyStore.Contents();
      Patch(target, req, now);
      assert keyStore.Contents() == before;
      var ok := keyStore.Update(target);
      if !ok {
        assert keyStore.Contents() == before;
        return INTERNAL_ERROR;
      }
      ghost var after := keyStore.Contents();
      assert after == before[target.hash := target.Value()];
      ByIdWritten(before, after, target.hash, target.Value());
      return OK;
    }

    // Undisturbed, UpdateKey changes the named key and no other. The frame is the store alone: the
    // key objects requests may still hold are never written to, the new key is a changed copy.
    method UpdateKey(id: string, req: Option<KeyRequest>, now: int) returns (status: int)
      requires keyStore.Valid() && UniqueIds(keyStore.Contents())
      modifies keyStore
      ensures keyStore.Valid() && UniqueIds(keyStore.Contents())
      ensures status == if req.None? then 400
                        else if ById(old(keyStore.Contents()), id).Some? then 200 else 404
      ensures status != OK ==> keyStore.keys == old(keyStore.keys)
      ensures status == OK ==>
                forall x :: ById(keyStore.Contents(), x)
                         == var before := ById(old(keyStore.Contents()), x);
                            if x == id then Some(Patched(before.value, req.value, now)) else before
      ensures status == OK ==>
                var before, after := ById(old(keyStore.Contents()), id), ById(keyStore.Contents(), id);
                before.Some? && after.Some? && OnlySupplied(before.value, after.value, req.value, now)
    {
      if req.None? {
        return BAD_REQUEST;
      }
      var found := Snapshot(id);
      hide ById, UniqueIds;
      if found.None? {
        return NOT_FOUND;
      }
      assert found.value !in keyStore.keys.Values;
      PatchTakesOnlySupplied(found.value.Value(), req.value, now);
      hide OnlySupplied, Patched;
      status := FinishUpdate(found.value, req.value, now);
    }

    // The second half of DeleteKey, when others may have acted since the hash was looked up: exactly
    // the key of that hash goes, and one deleted meanwhile is reported as an error.
    method FinishDelete(hash: string) returns (status: int)
      requires keyStore.Valid() && UniqueIds(keyStore.Contents())
      modifies keyStore
      ensures keyStore.Valid() && UniqueIds(keyStore.Contents())
      ensures status == if hash in old(keyStore.keys) then 204 else 500
      ensures keyStore.keys == old(keyStore.keys) - {hash}
      ensures status == NO_CONTENT ==>
                forall x :: ById(keyStore.Contents(), x)
                         == if x == old(keyStore.Contents())[hash].id then None else ById(old(keyStore.Contents()), x)
    {
      ghost var before := keyStore.Contents();
      var ok := keyStore.Delete(hash);
      hide ById, UniqueIds;
      if !ok {
        assert keyStore.Contents() == before;
        return INTERNAL_ERROR;
      }
      ByIdRemoves(before, hash);
      return NO_CONTENT;
    }

    // Undisturbed, DeleteKey removes the named key and no other; a key without a hash counts as not
    // found.
    method DeleteKey(id: string) returns (status: int)
      requires keyStore.Valid() && UniqueIds(keyStore.Contents())
      modifies keyStore
      ensures keyStore.Valid() && UniqueIds(keyStore.Contents())
      ensures var named := ById(old(keyStore.Contents()), id);
              status == if named.Some? && named.value.hash != "" then 204 else 404
      ensures status == NOT_FOUND ==> keyStore.keys == old(keyStore.keys)
      ensures status == NO_CONTENT ==>
                && keyStore.keys == old(keyStore.keys) - {ById(old(keyStore.Contents()), id).value.hash}
                && forall x :: ById(keyStore.Contents(), x)
                            == if x == id then None else ById(old(keyStore.Contents()), x)
    {
      var found := Snapshot(id);
      var hash := if found.Some? then found.value.hash else "";
      if hash == "" {
        return NOT_FOUND;
      }
      status := FinishDelete(hash);
    }

    // Creating a key and deleting it by its ID leaves the store as it was.
    method CreateThenDelete(req: KeyRequest, raw: RawKey, now: int)
      requires keyStore.Valid() && UniqueIds(keyStore.Contents()) && req.name != ""
      requires raw.hash != "" && raw.hash !in keyStore.keys && ById(keyStore.Contents(), raw.id).None?
      modifies keyStore
      ensures keyStore.keys == old(keyStore.keys)
    {
      var _ := CreateKey(Some(req), Some(raw), now);
      var _ := DeleteKey(raw.id);
    }
  }
}
