// Model and provider policy, internal/policy/engine.go.

module Policy {
  import opened Common
  import opened Auth
  import Text

  datatype Decision = Decision(allowed: bool, reason: string)

  // A list entry covers an ID when it equals it ignoring case, or is the wildcard.
  predicate Covers(entry: string, id: string) {
    Text.EqualFold(entry, id) || entry == "*"
  }

  predicate Matches(list: seq<string>, id: string) {
    exists i :: 0 <= i < |list| && Covers(list[i], id)
  }

  // The declarative rule: nothing denies it, and the allow list, if there is one, names it.
  predicate Permitted(globalDeny: seq<string>, denied: seq<string>, allowed: seq<string>, id: string) {
    !Matches(globalDeny, id) && !Matches(denied, id) && (allowed == [] || Matches(allowed, id))
  }

  predicate ModelPermitted(globalDeny: seq<string>, key: KeyInfo, model: string) {
    Permitted(globalDeny, key.deniedModels, key.allowedModels, model)
  }

  class Engine {
    var denyModels: seq<string>
    var denyProviders: seq<string>

    constructor ()
      ensures denyModels == [] && denyProviders == []
    {
      denyModels, denyProviders := [], [];
    }

    method SetGlobalDeny(models: seq<string>, providers: seq<string>)
      modifies this
      ensures denyModels == models && denyProviders == providers
    {
      denyModels, denyProviders := models, providers;
    }

    // One list scan, leaving at the first entry that covers the ID.
    static method Scan(list: seq<string>, id: string) returns (found: bool)
      ensures found == Matches(list, id)
    {
      for i := 0 to |list|
        invariant forall j :: 0 <= j < i ==> !Covers(list[j], id)
      {
        if Covers(list[i], id) {
          return true;
        }
      }
      return false;
    }

    // Allowed exactly when the rule permits; otherwise the reason names the first rule broken, in
    // the order authentication, global deny, key deny, key allow.
    method EvaluateModel(key: Option<KeyInfo>, modelID: string) returns (d: Decision)
      ensures d.allowed <==> key.Some? && ModelPermitted(denyModels, key.value, modelID)
      ensures d.allowed
         <==> && key.Some? && !Matches(denyModels, modelID) && !Matches(key.value.deniedModels, modelID)
              && (key.value.allowedModels == [] || Matches(key.value.allowedModels, modelID))
      ensures "*" in denyModels || (key.Some? && "*" in key.value.deniedModels) ==> !d.allowed
      ensures d.reason == "UNAUTHENTICATED" <==> key.None?
      ensures d.reason == "GLOBAL_MODEL_DENIED" <==> key.Some? && Matches(denyModels, modelID)
      ensures d.reason == "MODEL_DENIED"
         <==> key.Some? && !Matches(denyModels, modelID) && Matches(key.value.deniedModels, modelID)
      ensures d.reason == "MODEL_NOT_ALLOWED"
         <==> && key.Some? && !Matches(denyModels, modelID) && !Matches(key.value.deniedModels, modelID)
              && key.value.allowedModels != [] && !Matches(key.value.allowedModels, modelID)
      ensures d.reason in {"UNAUTHENTICATED", "GLOBAL_MODEL_DENIED", "MODEL_DENIED", "MODEL_NOT_ALLOWED", "ALLOWED"}
      ensures d.reason == "ALLOWED" <==> d.allowed
    {
      if key.None? {
        return Decision(false, "UNAUTHENTICATED");
      }
      WildcardsDeny(denyModels, key.value.deniedModels, modelID);
      var globally := Scan(denyModels, modelID);
      if globally {
        return Decision(false, "GLOBAL_MODEL_DENIED");
      }
      var denied := Scan(key.value.deniedModels, modelID);
      if denied {
        return Decision(false, "MODEL_DENIED");
      }
      if |key.value.allowedModels| > 0 {
        var allowed := Scan(key.value.allowedModels, modelID);
        if !allowed {
          return Decision(false, "MODEL_NOT_ALLOWED");
        }
      }
      return Decision(true, "ALLOWED");
    }

    method EvaluateProvider(key: Option<KeyInfo>, providerID: string) returns (d: Decision)
      ensures d.allowed
         <==> && key.Some? && !Matches(denyProviders, providerID) && !Matches(key.value.deniedProviders, providerID)
              && (key.value.allowedProviders == [] || Matches(key.value.allowedProviders, providerID))
      ensures "*" in denyProviders || (key.Some? && "*" in key.value.deniedProviders) ==> !d.allowed
      ensures d.reason == "UNAUTHENTICATED" <==> key.None?
      ensures d.reason == "GLOBAL_PROVIDER_DENIED" <==> key.Some? && Matches(denyProviders, providerID)
      ensures d.reason == "PROVIDER_DENIED"
         <==> key.Some? && !Matches(denyProviders, providerID) && Matches(key.value.deniedProviders, providerID)
      ensures d.reason == "PROVIDER_NOT_ALLOWED"
         <==> && key.Some? && !Matches(denyProviders, providerID) && !Matches(key.value.deniedProviders, providerID)
              && key.value.allowedProviders != [] && !Matches(key.value.allowedProviders, providerID)
      ensures d.reason in {"UNAUTHENTICATED", "GLOBAL_PROVIDER_DENIED", "PROVIDER_DENIED",
                           "PROVIDER_NOT_ALLOWED", "ALLOWED"}
      ensures d.reason == "ALLOWED" <==> d.allowed
    {
      if key.None? {
        return Decision(false, "UNAUTHENTICATED");
      }
      WildcardsDeny(denyProviders, key.value.deniedProviders, providerID);
      var globally := Scan(denyProviders, providerID);
      if globally {
        return Decision(false, "GLOBAL_PROVIDER_DENIED");
      }
      var denied := Scan(key.value.deniedProviders, providerID);
      if denied {
        return Decision(false, "PROVIDER_DENIED");
      }
      if |key.value.allowedProviders| > 0 {
        var allowed := Scan(key.value.allowedProviders, providerID);
        if !allowed {
          return Decision(false, "PROVIDER_NOT_ALLOWED");
        }
      }
      return Decision(true, "ALLOWED");
    }
  }

  // An entry covers every ID if it is the wildcard, and otherwise exactly the spellings of one.
  lemma CoversByLetters(entry: string, id: string)
    ensures Covers(entry, id) <==> entry == "*" || Text.SameButCase(entry, id)
  {
    Text.FoldIgnoresExactlyCase(entry, id);
  }

  lemma WildcardMatches(list: seq<string>, id: string)
    requires "*" in list
    ensures Matches(list, id)
  {
    var i :| 0 <= i < |list| && list[i] == "*";
    assert Covers(list[i], id);
  }

  lemma WildcardsDeny(deny: seq<string>, denied: seq<string>, id: string)
    ensures "*" in deny ==> Matches(deny, id)
    ensures "*" in denied ==> Matches(denied, id)
  {
    if "*" in deny {
      WildcardMatches(deny, id);
    }
    if "*" in denied {
      WildcardMatches(denied, id);
    }
  }

  // A wildcard in a deny list denies every ID ...
  lemma WildcardDeniesAll(deny: seq<string>, denied: seq<string>, allowed: seq<string>, id: string)
    requires "*" in deny || "*" in denied
    ensures !Permitted(deny, denied, allowed, id)
  {
    WildcardsDeny(deny, denied, id);
  }

  // ... and one in the allow list restricts nothing.
  lemma WildcardAllowsAll(deny: seq<string>, denied: seq<string>, allowed: seq<string>, id: string)
    requires "*" in allowed
    ensures Permitted(deny, denied, allowed, id) <==> Permitted(deny, denied, [], id)
  {
    WildcardMatches(allowed, id);
  }

  // Every entry of `a` is also in `b`.
  predicate Within(a: seq<string>, b: seq<string>) {
    forall i :: 0 <= i < |a| ==> a[i] in b
  }

  lemma MatchesGrows(a: seq<string>, b: seq<string>, id: string)
    requires Within(a, b) && Matches(a, id)
    ensures Matches(b, id)
  {
    var i :| 0 <= i < |a| && Covers(a[i], id);
    var j :| 0 <= j < |b| && b[j] == a[i];
  }

  // Extending deny lists never permits more; extending an allow list that is not empty never
  // permits less.
  lemma PermissionIsMonotone(deny: seq<string>, deny': seq<string>, denied: seq<string>, denied': seq<string>,
                             allowed: seq<string>, allowed': seq<string>, id: string)
    requires Within(deny, deny') && Within(denied, denied')
    requires (allowed' != [] && Within(allowed', allowed)) || allowed == allowed'
    requires Permitted(deny', denied', allowed', id)
    ensures Permitted(deny, denied, allowed, id)
  {
    if Matches(deny, id) {
      MatchesGrows(deny, deny', id);
    }
    if Matches(denied, id) {
      MatchesGrows(denied, denied', id);
    }
    if allowed' != [] && allowed != allowed' {
      MatchesGrows(allowed', allowed, id);
    }
  }

  // A first allow list is the exception: of what was permitted without one, exactly the IDs it
  // covers stay.
  lemma FirstAllowListRestricts(deny: seq<string>, denied: seq<string>, allowed: seq<string>, id: string)
    requires allowed != []
    ensures Permitted(deny, denied, allowed, id) <==> Permitted(deny, denied, [], id) && Matches(allowed, id)
  {
  }

  lemma MatchesIgnoresCase(list: seq<string>, id: string, id': string)
    requires Text.EqualFold(id, id') && Matches(list, id)
    ensures Matches(list, id')
  {
    var i :| 0 <= i < |list| && Covers(list[i], id);
    assert Covers(list[i], id');
  }

  // Spelling an ID in another case changes no decision.
  lemma PermissionIgnoresCase(deny: seq<string>, denied: seq<string>, allowed: seq<string>, id: string, id': string)
    requires Text.SameButCase(id, id') && Permitted(deny, denied, allowed, id)
    ensures Permitted(deny, denied, allowed, id')
  {
    Text.FoldIgnoresExactlyCase(id, id');
    if Matches(deny, id') {
      MatchesIgnoresCase(deny, id', id);
    }
    if Matches(denied, id') {
      MatchesIgnoresCase(denied, id', id);
    }
    if allowed != [] {
      MatchesIgnoresCase(allowed, id, id');
    }
  }

  // Two lists of the same entries, each in whatever case.
  predicate Respelled(a: seq<string>, b: seq<string>) {
    |a| == |b| && forall i :: 0 <= i < |a| ==> Text.SameButCase(a[i], b[i])
  }

  lemma WildcardHasNoCase(entry: string, entry': string)
    requires Text.SameButCase(entry, entry')
    ensures entry == "*" <==> entry' == "*"
  {
    Text.FoldIgnoresExactlyCase(entry, entry');
    assert |Text.ToLower(entry)| == |entry| && |Text.ToLower(entry')| == |entry'|;
    if |entry| == 1 {
      assert Text.ToLower(entry)[0] == Text.ToLower(entry')[0];
      assert entry == "*" <==> entry[0] == '*';
      assert entry' == "*" <==> entry'[0] == '*';
    }
  }

  lemma MatchesIgnoresEntryCase(list: seq<string>, list': seq<string>, id: string)
    requires Respelled(list, list') && Matches(list, id)
    ensures Matches(list', id)
  {
    var i :| 0 <= i < |list| && Covers(list[i], id);
    WildcardHasNoCase(list[i], list'[i]);
    Text.FoldIgnoresExactlyCase(list[i], list'[i]);
    assert Covers(list'[i], id);
  }

  lemma RespelledBack(a: seq<string>, b: seq<string>)
    requires Respelled(a, b)
    ensures Respelled(b, a)
  {
    forall i | 0 <= i < |a|
      ensures Text.SameButCase(b[i], a[i])
    {
      Text.FoldIgnoresExactlyCase(a[i], b[i]);
      Text.FoldIgnoresExactlyCase(b[i], a[i]);
    }
  }

  // Nor does spelling the entries in another case.
  lemma PermissionIgnoresEntryCase(deny: seq<string>, deny': seq<string>, denied: seq<string>, denied': seq<string>,
                                   allowed: seq<string>, allowed': seq<string>, id: string)
    requires Respelled(deny, deny') && Respelled(denied, denied') && Respelled(allowed, allowed')
    requires Permitted(deny, denied, allowed, id)
    ensures Permitted(deny', denied', allowed', id)
  {
    RespelledBack(deny, deny');
    RespelledBack(denied, denied');
    if Matches(deny', id) {
      MatchesIgnoresEntryCase(deny', deny, id);
    }
    if Matches(denied', id) {
      MatchesIgnoresEntryCase(denied', denied, id);
    }
    if allowed != [] {
      MatchesIgnoresEntryCase(allowed, allowed', id);
    }
  }

  // A key denied everything, one denied a model in another case, and one denied another model.
  lemma DenialsOfSonnet()
    ensures !Permitted([], ["*"], [], "cc-sonnet")
    ensures !Permitted([], ["CC-Sonnet"], [], "cc-sonnet")
    ensures Permitted([], ["cc-haiku"], [], "cc-sonnet")
  {
    WildcardDeniesAll([], ["*"], [], "cc-sonnet");
    assert Text.ToLower("CC-Sonnet") == "cc-sonnet" == Text.ToLower("cc-sonnet");
    assert Covers(["CC-Sonnet"][0], "cc-sonnet");
    assert |Text.ToLower("cc-haiku")| == 8 && |Text.ToLower("cc-sonnet")| == 9;
  }
}
