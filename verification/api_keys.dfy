/** The API-key registry and default-model choice of the settings page
    (`src/components/settings/api-keys-form.tsx`). */
module ApiKeys {
  import opened Wrappers
  import opened Strings
  import Lists

  /** A stored key. `addedAt` is the timestamp the caller supplies. */
  datatype ApiKey = ApiKey(service: string, key: string, addedAt: string)

  datatype AIModel = AIModel(id: string, name: string, provider: string)

  /** The model that needs no key of the user's. */
  const FreeModel: string := "gpt-4o-mini"

  /** The `AI_MODELS` table. */
  const Models: seq<AIModel> := [
    AIModel("claude-3-sonnet-20240229", "Claude 3.5 Sonnet (Recommended - Most Capable)", "anthropic"),
    AIModel("gpt-4o", "GPT-4o (Requires OpenAI API Key)", "openai"),
    AIModel("gpt-4o-mini", "GPT-4o Mini (Free)", "openai")
  ]

  /** The page's state: the stored keys, the text typed per service, which
      keys are shown, and the default model. */
  datatype Settings = Settings(
    keys: seq<ApiKey>,
    drafts: map<string, string>,
    visible: map<string, bool>,
    defaultModel: string)

  /** `AI_MODELS.find(m => m.id === id)`. */
  function FindModel(id: string): (m: Option<AIModel>)
    ensures m.Some? <==> exists i :: 0 <= i < |Models| && Models[i].id == id
    ensures m.Some? ==> m.value in Models && m.value.id == id
  {
    if Models[0].id == id then Some(Models[0])
    else if Models[1].id == id then Some(Models[1])
    else if Models[2].id == id then Some(Models[2])
    else None
  }

  /** `keys.findIndex(k => k.service === service)`. */
  function FindIndex(keys: seq<ApiKey>, service: string): (r: int)
    ensures -1 <= r < |keys|
    ensures r == -1 <==> forall i :: 0 <= i < |keys| ==> keys[i].service != service
    ensures r >= 0 ==> keys[r].service == service
    ensures r >= 0 ==> forall i :: 0 <= i < r ==> keys[i].service != service
  {
    if |keys| == 0 then -1
    else if keys[0].service == service then 0
    else
      var r := FindIndex(keys[1..], service);
      if r == -1 then -1 else r + 1
  }

  /** `keys.some(k => k.service === service)`. */
  predicate HasKey(keys: seq<ApiKey>, service: string) {
    exists i :: 0 <= i < |keys| && keys[i].service == service
  }

  /** `getExistingKey`: the first stored key for the service, if any. */
  function ExistingKey(keys: seq<ApiKey>, service: string): (k: Option<ApiKey>)
    ensures k.Some? <==> HasKey(keys, service)
    ensures k.Some? ==> k.value in keys && k.value.service == service
  {
    var i := FindIndex(keys, service);
    if i >= 0 then Some(keys[i]) else None
  }

  /** At most one stored key per service. */
  predicate OneKeyPerService(keys: seq<ApiKey>) {
    forall i, j :: 0 <= i < |keys| && 0 <= j < |keys| && keys[i].service == keys[j].service ==> i == j
  }

  /** The list update inside `handleUpdateKey`: replace the service's
      entry in place, or append a new one. */
  function Upsert(keys: seq<ApiKey>, newKey: ApiKey): (r: seq<ApiKey>)
    ensures HasKey(keys, newKey.service) ==> |r| == |keys|
    ensures !HasKey(keys, newKey.service) ==> r == keys + [newKey]
    ensures HasKey(keys, newKey.service) ==>
      exists i :: && 0 <= i < |keys| && keys[i].service == newKey.service && r == keys[i := newKey]
                  && forall j :: 0 <= j < i ==> keys[j].service != newKey.service
    ensures newKey in r
  {
    var i := FindIndex(keys, newKey.service);
    if i >= 0 then
      assert keys[i := newKey][i] == newKey;
      keys[i := newKey]
    else keys + [newKey]
  }

  /** Both branches of the upsert keep at most one key per service. */
  lemma UpsertKeepsOneKeyPerService(keys: seq<ApiKey>, newKey: ApiKey)
    requires OneKeyPerService(keys)
    ensures OneKeyPerService(Upsert(keys, newKey))
    ensures forall k :: k in Upsert(keys, newKey) && k.service == newKey.service ==> k == newKey
  {
    var r := Upsert(keys, newKey);
    var i := FindIndex(keys, newKey.service);
    if i < 0 {
      assert forall a :: 0 <= a < |keys| ==> r[a] == keys[a];
    }
  }

  /** The draft typed for a service; a service never typed into is
      `undefined`, which the save handler treats like an empty string. */
  function Draft(st: Settings, service: string): string {
    if service in st.drafts then st.drafts[service] else ""
  }

  /** `handleUpdateKey`: a blank draft changes nothing; otherwise the
      trimmed draft is stored for the service and the draft is cleared. */
  function UpdateKey(st: Settings, service: string, now: string): (st': Settings)
    ensures IsBlank(Draft(st, service)) ==> st' == st
    ensures !IsBlank(Draft(st, service)) ==>
      && st'.keys == Upsert(st.keys, ApiKey(service, Trim(Draft(st, service)), now))
      && st'.drafts == st.drafts[service := ""]
      && st'.visible == st.visible && st'.defaultModel == st.defaultModel
  {
    var draft := Draft(st, service);
    TrimEmptyIffBlank(draft);
    if Trim(draft) == "" then st
    else
      st.(keys := Upsert(st.keys, ApiKey(service, Trim(draft), now)),
          drafts := st.drafts[service := ""])
  }

  /** After an upsert, the key looked up for the service is the new one. */
  lemma UpsertThenLookup(keys: seq<ApiKey>, newKey: ApiKey)
    ensures ExistingKey(Upsert(keys, newKey), newKey.service) == Some(newKey)
  {
    var r := Upsert(keys, newKey);
    var i := FindIndex(r, newKey.service);
    if HasKey(keys, newKey.service) {
      var j :| && 0 <= j < |keys| && keys[j].service == newKey.service && r == keys[j := newKey]
               && forall k :: 0 <= k < j ==> keys[k].service != newKey.service;
      assert r[j] == newKey;
      assert i == j;
    } else {
      assert r[|keys|] == newKey;
      assert i == |keys|;
    }
  }

  /** The stored key is the draft without surrounding white space: never
      empty, never starting or ending with white space. */
  lemma UpdateKeyStoresTrimmed(st: Settings, service: string, now: string)
    requires !IsBlank(Draft(st, service))
    ensures var k := ExistingKey(UpdateKey(st, service, now).keys, service);
      && k.Some? && k.value.key == Trim(Draft(st, service)) && k.value.key != ""
      && !IsSpace(k.value.key[0]) && !IsSpace(k.value.key[|k.value.key| - 1])
  {
    TrimEmptyIffBlank(Draft(st, service));
    UpsertThenLookup(st.keys, ApiKey(service, Trim(Draft(st, service)), now));
  }

  /** `handleRemoveKey`: drops every key of the service and its
      visibility flag, and falls back to the free model when the default
      model is a keyed model of that provider. */
  function RemoveKey(st: Settings, service: string): (st': Settings)
    ensures forall k :: k in st'.keys <==> k in st.keys && k.service != service
    ensures st'.keys == Without(st.keys, service)
    ensures !HasKey(st'.keys, service)
    ensures service !in st'.visible
    ensures forall s :: s != service ==> (s in st'.visible <==> s in st.visible)
    ensures forall s :: s != service && s in st.visible ==> st'.visible[s] == st.visible[s]
    ensures st'.drafts == st.drafts
    ensures var m := FindModel(st.defaultModel);
      if m.Some? && m.value.provider == service && m.value.id != FreeModel
      then st'.defaultModel == FreeModel
      else st'.defaultModel == st.defaultModel
  {
    var current := FindModel(st.defaultModel);
    var model :=
      if current.Some? && current.value.provider == service && current.value.id != FreeModel
      then FreeModel else st.defaultModel;
    Settings(Without(st.keys, service), st.drafts, st.visible - {service}, model)
  }

  /** Removing a service's key keeps the other keys in their order: the
      keys before and after any cut are filtered separately. */
  lemma RemoveKeyKeepsOrder(st: Settings, service: string, i: nat)
    requires i <= |st.keys|
    ensures RemoveKey(st, service).keys
      == Without(st.keys[..i], service) + Without(st.keys[i..], service)
  {
    WithoutKeepsOrder(st.keys[..i], st.keys[i..], service);
    assert st.keys[..i] + st.keys[i..] == st.keys;
  }

  /** `keys.filter(k => k.service !== service)`. */
  function Without(keys: seq<ApiKey>, service: string): (r: seq<ApiKey>)
    ensures |r| <= |keys|
    ensures forall k :: k in r <==> k in keys && k.service != service
  {
    if |keys| == 0 then []
    else (if keys[0].service != service then [keys[0]] else []) + Without(keys[1..], service)
  }

  /** The filter keeps the surviving entries in their order: filtering a
      concatenation is concatenating the filtered parts, and a list without
      the service comes through unchanged. */
  lemma {:induction false} WithoutKeepsOrder(a: seq<ApiKey>, b: seq<ApiKey>, service: string)
    ensures Without(a + b, service) == Without(a, service) + Without(b, service)
    decreases |a|
  {
    if |a| > 0 {
      assert (a + b)[1..] == a[1..] + b;
      WithoutKeepsOrder(a[1..], b, service);
    } else {
      assert a + b == b;
    }
  }

  lemma {:induction false} WithoutOtherServiceIsIdentity(keys: seq<ApiKey>, service: string)
    requires forall i :: 0 <= i < |keys| ==> keys[i].service != service
    ensures Without(keys, service) == keys
    decreases |keys|
  {
    if |keys| > 0 {
      WithoutOtherServiceIsIdentity(keys[1..], service);
      assert [keys[0]] + keys[1..] == keys;
    }
  }

  /** The filter is order-preserving: what it keeps is a subsequence, so a
      registry with one key per service still has one after a removal. */
  lemma {:induction false} WithoutKeepsOneKeyPerService(keys: seq<ApiKey>, service: string)
    requires OneKeyPerService(keys)
    ensures OneKeyPerService(Without(keys, service))
    decreases |keys|
  {
    if |keys| > 0 {
      var rest := keys[1..];
      assert OneKeyPerService(rest) by {
        forall a, b | 0 <= a < |rest| && 0 <= b < |rest| && rest[a].service == rest[b].service
          ensures a == b
        {
          assert keys[a + 1] == rest[a] && keys[b + 1] == rest[b];
        }
      }
      WithoutKeepsOneKeyPerService(rest, service);
      var tail := Without(rest, service);
      if keys[0].service != service {
        forall k | k in tail ensures k.service != keys[0].service {
          var j :| 0 <= j < |rest| && rest[j] == k;
          assert keys[j + 1] == k;
        }
        var r := [keys[0]] + tail;
        forall a, b | 0 <= a < |r| && 0 <= b < |r| && r[a].service == r[b].service
          ensures a == b
        {
          if a > 0 { assert r[a] == tail[a - 1] && r[a] in tail; }
          if b > 0 { assert r[b] == tail[b - 1] && r[b] in tail; }
        }
      }
    }
  }

  /** `isModelSelectable`. */
  function IsModelSelectable(keys: seq<ApiKey>, id: string): (selectable: bool)
    ensures selectable ==> exists i :: 0 <= i < |Models| && Models[i].id == id
  {
    if id == FreeModel then
      assert Models[2].id == FreeModel;
      true
    else
      var m := FindModel(id);
      m.Some? && HasKey(keys, m.value.provider)
  }

  /** The free model is always selectable, another known model exactly when
      a key for its provider is stored, an unknown id never. */
  lemma SelectableCases(keys: seq<ApiKey>, id: string)
    ensures id == FreeModel ==> IsModelSelectable(keys, id)
    ensures forall i :: 0 <= i < |Models| && Models[i].id == id && id != FreeModel ==>
      (IsModelSelectable(keys, id) <==> HasKey(keys, Models[i].provider))
    ensures (forall i :: 0 <= i < |Models| ==> Models[i].id != id) ==> !IsModelSelectable(keys, id)
  {
    assert Models[2].id == FreeModel;
  }

  /** `handleModelChange`: an unknown id, or a keyed model without its key,
      leaves the default as it is. */
  function ChangeModel(st: Settings, id: string): (st': Settings)
    ensures IsModelSelectable(st.keys, id) ==> st' == st.(defaultModel := id)
    ensures !IsModelSelectable(st.keys, id) ==> st' == st
  {
    var m := FindModel(id);
    if m.None? then st
    else if m.value.id != FreeModel && !HasKey(st.keys, m.value.provider) then st
    else st.(defaultModel := id)
  }

  /** The page's invariant: one key per service and a selectable default. */
  predicate Valid(st: Settings) {
    OneKeyPerService(st.keys) && IsModelSelectable(st.keys, st.defaultModel)
  }

  /** Saving a key keeps the invariant. */
  lemma UpdateKeyKeepsValid(st: Settings, service: string, now: string)
    requires Valid(st)
    ensures Valid(UpdateKey(st, service, now))
  {
    var st' := UpdateKey(st, service, now);
    if !IsBlank(Draft(st, service)) {
      var newKey := ApiKey(service, Trim(Draft(st, service)), now);
      UpsertKeepsOneKeyPerService(st.keys, newKey);
      UpsertKeepsServices(st.keys, newKey);
    }
  }

  /** An upsert never loses a service. */
  lemma UpsertKeepsServices(keys: seq<ApiKey>, newKey: ApiKey)
    ensures forall s :: HasKey(keys, s) ==> HasKey(Upsert(keys, newKey), s)
  {
    var r := Upsert(keys, newKey);
    forall s | HasKey(keys, s) ensures HasKey(r, s) {
      var i :| 0 <= i < |keys| && keys[i].service == s;
      if HasKey(keys, newKey.service) {
        var j :| && 0 <= j < |keys| && keys[j].service == newKey.service && r == keys[j := newKey]
                 && forall k :: 0 <= k < j ==> keys[k].service != newKey.service;
        if i == j { assert r[j].service == s; } else { assert r[i].service == s; }
      } else {
        assert r[i] == keys[i];
      }
    }
  }

  /** Removing a key keeps the invariant: a default that needed the key is
      reset to the free model. */
  lemma RemoveKeyKeepsValid(st: Settings, service: string)
    requires Valid(st)
    ensures Valid(RemoveKey(st, service))
  {
    var st' := RemoveKey(st, service);
    WithoutKeepsOneKeyPerService(st.keys, service);
    if st'.defaultModel != FreeModel {
      var m := FindModel(st.defaultModel);
      assert m.Some?;
      var i :| 0 <= i < |st.keys| && st.keys[i].service == m.value.provider;
      assert st.keys[i] in st'.keys;
    }
  }

  /** Changing the model keeps the invariant. */
  lemma ChangeModelKeepsValid(st: Settings, id: string)
    requires Valid(st)
    ensures Valid(ChangeModel(st, id))
  {
  }
}
