/** What the export promises about its output, proved about the
    specification functions of module Exporter. */
module ExportProperties {
  import opened HassData
  import opened OrderedDicts
  import opened Resolver
  import opened Exporter

  /** Python dict keys: no entity id occurs twice among the settings. */
  ghost predicate DistinctKeys(settings: seq<(EntityId, AssistantSetting)>) {
    forall i, j :: 0 <= i < j < |settings| ==> settings[i].0 != settings[j].0
  }

  /** The entity ids of the settings, in iteration order. */
  function Ids(settings: seq<(EntityId, AssistantSetting)>): (ids: seq<EntityId>)
    ensures |ids| == |settings|
    decreases |settings|
  {
    if settings == [] then [] else Ids(settings[..|settings| - 1]) + [settings[|settings| - 1].0]
  }

  /** The ids of the included entities, in iteration order. */
  function IncludedIds(ctx: ExportContext, settings: seq<(EntityId, AssistantSetting)>): seq<EntityId>
    decreases |settings|
  {
    if settings == [] then []
    else
      var (id, setting) := settings[|settings| - 1];
      IncludedIds(ctx, settings[..|settings| - 1]) + (if Included(ctx, id, setting) then [id] else [])
  }

  /** `a` is `b` with some elements left out, the rest in their order. */
  ghost predicate IsSubsequence<T>(a: seq<T>, b: seq<T>)
    decreases |b|
  {
    a == [] ||
    (b != [] &&
     ((a[|a| - 1] == b[|b| - 1] && IsSubsequence(a[..|a| - 1], b[..|b| - 1])) ||
      IsSubsequence(a, b[..|b| - 1])))
  }

  /** The condition under which an entity aborts the export: it is included,
      has no registry entry and no non-empty override name. */
  predicate Unresolvable(ctx: ExportContext, id: EntityId, setting: AssistantSetting) {
    Included(ctx, id, setting) && id !in ctx.entities && !Truthy(setting.name)
  }

  // ---- inclusion ----

  /** An id is a key of the exported dict exactly when some setting with that
      id passes the inclusion test. */
  lemma {:induction false} ExportedIffIncluded(ctx: ExportContext, settings: seq<(EntityId, AssistantSetting)>,
                                               data: ExposedData, id: EntityId)
    requires ExportFrom(ctx, settings) == Ok(data)
    ensures id in data.values <==>
            exists i :: 0 <= i < |settings| && settings[i].0 == id && Included(ctx, settings[i].0, settings[i].1)
    decreases |settings|
  {
    if settings != [] {
      var n := |settings| - 1;
      var before := settings[..n];
      var (last, setting) := settings[n];
      var earlier := ExportFrom(ctx, before).value;
      ExportedIffIncluded(ctx, before, earlier, id);
      assert forall i :: 0 <= i < n ==> before[i] == settings[i];
      assert data.values.Keys == if Included(ctx, last, setting) then earlier.values.Keys + {last} else earlier.values.Keys;
      if id in data.values && !(last == id && Included(ctx, last, setting)) {
        assert id in earlier.values;
        var i :| 0 <= i < n && before[i].0 == id && Included(ctx, before[i].0, before[i].1);
        assert settings[i] == before[i];
      }
    }
  }

  /** An entity in the never-exposed set is never exported, whatever its
      settings and the configuration. */
  lemma NeverExposedNeverExported(manager: Option<ExposedEntitiesManager>, ga: Option<GoogleAssistantData>,
                                  neverExposed: set<EntityId>, entities: map<EntityId, RegistryEntry>,
                                  devices: map<DeviceId, DeviceEntry>, data: ExposedData, id: EntityId)
    requires Export(manager, ga, neverExposed, entities, devices) == Exported(data)
    requires id in neverExposed
    ensures id !in data.values
  {
    ExportedIffIncluded(ContextOf(ga.value, neverExposed, entities, devices),
                        manager.value.googleAssistantSettings, data, id);
  }

  /** An entity whose `should_expose` is true and which is not never-exposed
      is exported, whatever `expose_by_default` and `exposed_domains` say. */
  lemma ExplicitExposureWins(manager: Option<ExposedEntitiesManager>, ga: Option<GoogleAssistantData>,
                             neverExposed: set<EntityId>, entities: map<EntityId, RegistryEntry>,
                             devices: map<DeviceId, DeviceEntry>, data: ExposedData, i: nat)
    requires Export(manager, ga, neverExposed, entities, devices) == Exported(data)
    requires i < |manager.value.googleAssistantSettings|
    requires IsTrue(manager.value.googleAssistantSettings[i].1.shouldExpose)
    requires manager.value.googleAssistantSettings[i].0 !in neverExposed
    ensures manager.value.googleAssistantSettings[i].0 in data.values
  {
    ExportedIffIncluded(ContextOf(ga.value, neverExposed, entities, devices),
                        manager.value.googleAssistantSettings, data, manager.value.googleAssistantSettings[i].0);
  }

  /** An entity whose `should_expose` is unset or false, and which is not
      never-exposed, is exported exactly when `expose_by_default` is true and
      its domain is among `exposed_domains` (missing keys read as `False`
      and `[]`). */
  lemma FalsyExposureFollowsDomainDefault(manager: Option<ExposedEntitiesManager>, ga: Option<GoogleAssistantData>,
                                          neverExposed: set<EntityId>, entities: map<EntityId, RegistryEntry>,
                                          devices: map<DeviceId, DeviceEntry>, data: ExposedData, i: nat)
    requires Export(manager, ga, neverExposed, entities, devices) == Exported(data)
    requires DistinctKeys(manager.value.googleAssistantSettings)
    requires i < |manager.value.googleAssistantSettings|
    requires !IsTrue(manager.value.googleAssistantSettings[i].1.shouldExpose)
    requires manager.value.googleAssistantSettings[i].0 !in neverExposed
    ensures var config := if ga.value.config.Some? then ga.value.config.value else GoogleConfig(None, None);
            var id := manager.value.googleAssistantSettings[i].0;
            id in data.values <==>
              IsTrue(config.exposeByDefault) && config.exposedDomains.Some? && Domain(id) in config.exposedDomains.value
  {
    var settings := manager.value.googleAssistantSettings;
    ExportedIffIncluded(ContextOf(ga.value, neverExposed, entities, devices), settings, data, settings[i].0);
  }

  /** Without `expose_by_default` in the configuration, only entities whose
      `should_expose` is true (and not never-exposed) are exported. */
  lemma MissingDefaultExportsOnlyExplicit(manager: Option<ExposedEntitiesManager>, ga: Option<GoogleAssistantData>,
                                          neverExposed: set<EntityId>, entities: map<EntityId, RegistryEntry>,
                                          devices: map<DeviceId, DeviceEntry>, data: ExposedData, id: EntityId)
    requires Export(manager, ga, neverExposed, entities, devices) == Exported(data)
    requires ga.value.config.None? || ga.value.config.value.exposeByDefault.None?
    ensures id in data.values <==>
            id !in neverExposed &&
            exists i :: 0 <= i < |manager.value.googleAssistantSettings| &&
                        manager.value.googleAssistantSettings[i].0 == id &&
                        IsTrue(manager.value.googleAssistantSettings[i].1.shouldExpose)
  {
    ExportedIffIncluded(ContextOf(ga.value, neverExposed, entities, devices),
                        manager.value.googleAssistantSettings, data, id);
  }

  // ---- order and contents ----

  /** With distinct setting ids, the exported keys are the included ids in
      the settings' order. */
  lemma {:induction false} ExportedKeysAreIncludedIds(ctx: ExportContext, settings: seq<(EntityId, AssistantSetting)>,
                                                      data: ExposedData)
    requires DistinctKeys(settings)
    requires ExportFrom(ctx, settings) == Ok(data)
    ensures data.keys == IncludedIds(ctx, settings)
    decreases |settings|
  {
    if settings != [] {
      var n := |settings| - 1;
      var before := settings[..n];
      var (last, setting) := settings[n];
      var earlier := ExportFrom(ctx, before).value;
      ExportedKeysAreIncludedIds(ctx, before, earlier);
      if Included(ctx, last, setting) {
        ExportedIffIncluded(ctx, before, earlier, last);
        assert last !in earlier.values;
      }
    }
  }

  /** The included ids are a subsequence of all the ids. */
  lemma {:induction false} IncludedIdsAreSubsequence(ctx: ExportContext, settings: seq<(EntityId, AssistantSetting)>)
    ensures IsSubsequence(IncludedIds(ctx, settings), Ids(settings))
    decreases |settings|
  {
    if settings != [] {
      var n := |settings| - 1;
      var before := settings[..n];
      IncludedIdsAreSubsequence(ctx, before);
      var ids := Ids(settings);
      assert ids[..n] == Ids(before);
      var kept := IncludedIds(ctx, settings);
      assert ids == Ids(before) + [settings[n].0];
      if Included(ctx, settings[n].0, settings[n].1) {
        assert kept == IncludedIds(ctx, before) + [settings[n].0];
        assert kept[..|kept| - 1] == IncludedIds(ctx, before);
        assert ids[..|ids| - 1] == Ids(before);
        assert kept[|kept| - 1] == ids[|ids| - 1];
      } else {
        assert kept == IncludedIds(ctx, before);
        assert ids[..|ids| - 1] == Ids(before);
        assert IsSubsequence(kept, ids[..|ids| - 1]);
      }
    }
  }

  /** The keys of a successful export are the settings' ids with some left
      out, in their original order and each once. */
  lemma ExportedKeysInSettingsOrder(manager: Option<ExposedEntitiesManager>, ga: Option<GoogleAssistantData>,
                                    neverExposed: set<EntityId>, entities: map<EntityId, RegistryEntry>,
                                    devices: map<DeviceId, DeviceEntry>, data: ExposedData)
    requires Export(manager, ga, neverExposed, entities, devices) == Exported(data)
    requires DistinctKeys(manager.value.googleAssistantSettings)
    ensures IsSubsequence(data.keys, Ids(manager.value.googleAssistantSettings))
    ensures forall i, j :: 0 <= i < j < |data.keys| ==> data.keys[i] != data.keys[j]
  {
    var ctx := ContextOf(ga.value, neverExposed, entities, devices);
    ExportedKeysAreIncludedIds(ctx, manager.value.googleAssistantSettings, data);
    IncludedIdsAreSubsequence(ctx, manager.value.googleAssistantSettings);
  }

  /** With distinct setting ids, the value exported for an included entity
      is the record resolved from its own settings. */
  lemma {:induction false} ExportedValueIsResolved(ctx: ExportContext, settings: seq<(EntityId, AssistantSetting)>,
                                                   data: ExposedData, i: nat)
    requires DistinctKeys(settings)
    requires ExportFrom(ctx, settings) == Ok(data)
    requires i < |settings| && Included(ctx, settings[i].0, settings[i].1)
    ensures settings[i].0 in data.values
    ensures ResolveEntry(ctx, settings[i].0, settings[i].1) == Ok(data.values[settings[i].0])
    decreases |settings|
  {
    var n := |settings| - 1;
    var before := settings[..n];
    var earlier := ExportFrom(ctx, before).value;
    if i < n {
      assert before[i] == settings[i];
      ExportedValueIsResolved(ctx, before, earlier, i);
    }
  }

  // ---- names and aliases ----

  /** A fallback chain ending in a non-empty string is non-empty. */
  lemma {:induction false} FirstNonEmptyIsNonEmpty(candidates: seq<Option<string>>, fallback: string)
    requires fallback != ""
    ensures FirstNonEmpty(candidates, fallback) != ""
    decreases |candidates|
  {
    if candidates != [] && !Truthy(candidates[0]) {
      FirstNonEmptyIsNonEmpty(candidates[1..], fallback);
    }
  }

  /** Replacing the last candidate `x or y` by the two candidates `x`, `y`
      does not change the chain's result. */
  lemma {:induction false} FirstNonEmptyFlattensOr(prefix: seq<Option<string>>, x: Option<string>, y: Option<string>,
                                                   fallback: string)
    ensures FirstNonEmpty(prefix + [Or(x, y)], fallback) == FirstNonEmpty(prefix + [x, y], fallback)
    decreases |prefix|
  {
    if prefix == [] {
      assert prefix + [Or(x, y)] == [Or(x, y)];
      assert prefix + [x, y] == [x, y];
      assert [x, y][1..] == [y];
      assert [y][1..] == [];
      assert [Or(x, y)][1..] == [];
    } else {
      assert (prefix + [Or(x, y)])[1..] == prefix[1..] + [Or(x, y)];
      assert (prefix + [x, y])[1..] == prefix[1..] + [x, y];
      FirstNonEmptyFlattensOr(prefix[1..], x, y, fallback);
    }
  }

  /** The display name is the first non-empty of: registry name, override
      name, registry original name, device user name, device name, and the
      entity id; so it is non-empty when the id is. The device names count
      only when the device is consulted. */
  lemma ResolvedName(ctx: ExportContext, id: EntityId, setting: AssistantSetting)
    requires ResolveEntry(ctx, id, setting).Ok?
    ensures var device := ConsultedDeviceEntry(ctx, id, setting);
            ResolveEntry(ctx, id, setting).value.name ==
            FirstNonEmpty([RegistryName(ctx, id), setting.name, RegistryOriginalName(ctx, id),
                           if device.Some? then device.value.nameByUser else None,
                           if device.Some? then device.value.name else None], id)
    ensures id != "" ==> ResolveEntry(ctx, id, setting).value.name != ""
  {
    var device := ConsultedDeviceEntry(ctx, id, setting);
    var prefix := [RegistryName(ctx, id), setting.name, RegistryOriginalName(ctx, id)];
    var byUser := if device.Some? then device.value.nameByUser else None;
    var name := if device.Some? then device.value.name else None;
    assert prefix + [DeviceName(device)] ==
           [RegistryName(ctx, id), setting.name, RegistryOriginalName(ctx, id), DeviceName(device)];
    assert ResolveEntry(ctx, id, setting).value.name == FirstNonEmpty(prefix + [DeviceName(device)], id);
    assert DeviceName(device) == Or(byUser, name);
    FirstNonEmptyFlattensOr(prefix, byUser, name, id);
    assert prefix + [byUser, name] == [RegistryName(ctx, id), setting.name, RegistryOriginalName(ctx, id), byUser, name];
    if id != "" {
      FirstNonEmptyIsNonEmpty(prefix + [byUser, name], id);
    }
  }

  /** The device registry matters only through the device the export
      consults: two device registries that agree on it (or any two, when no
      device is consulted) give the same record. */
  lemma DeviceOnlyWhenConsulted(ctx: ExportContext, devices: map<DeviceId, DeviceEntry>,
                                id: EntityId, setting: AssistantSetting)
    requires var did := ConsultedDevice(ctx, id, setting);
             did.Some? ==> Get(ctx.devices, did.value) == Get(devices, did.value)
    ensures ResolveEntry(ctx, id, setting) == ResolveEntry(ctx.(devices := devices), id, setting)
  {
  }

  /** The aliases exported for an entity are its registry aliases, in order,
      or none without a registry entry. */
  lemma ExportedAliases(manager: Option<ExposedEntitiesManager>, ga: Option<GoogleAssistantData>,
                        neverExposed: set<EntityId>, entities: map<EntityId, RegistryEntry>,
                        devices: map<DeviceId, DeviceEntry>, data: ExposedData, id: EntityId)
    requires Export(manager, ga, neverExposed, entities, devices) == Exported(data)
    requires DistinctKeys(manager.value.googleAssistantSettings)
    requires id in data.values
    ensures data.values[id].aliases == if id in entities then entities[id].aliases else []
  {
    var ctx := ContextOf(ga.value, neverExposed, entities, devices);
    var settings := manager.value.googleAssistantSettings;
    ExportedIffIncluded(ctx, settings, data, id);
    var i :| 0 <= i < |settings| && settings[i].0 == id && Included(ctx, settings[i].0, settings[i].1);
    ExportedValueIsResolved(ctx, settings, data, i);
  }

  /** Every exported name is non-empty when the entity id is. */
  lemma ExportedNamesNonEmpty(manager: Option<ExposedEntitiesManager>, ga: Option<GoogleAssistantData>,
                              neverExposed: set<EntityId>, entities: map<EntityId, RegistryEntry>,
                              devices: map<DeviceId, DeviceEntry>, data: ExposedData, id: EntityId)
    requires Export(manager, ga, neverExposed, entities, devices) == Exported(data)
    requires DistinctKeys(manager.value.googleAssistantSettings)
    requires id in data.values && id != ""
    ensures data.values[id].name != ""
  {
    var ctx := ContextOf(ga.value, neverExposed, entities, devices);
    var settings := manager.value.googleAssistantSettings;
    ExportedIffIncluded(ctx, settings, data, id);
    var i :| 0 <= i < |settings| && settings[i].0 == id && Included(ctx, settings[i].0, settings[i].1);
    ExportedValueIsResolved(ctx, settings, data, i);
    ResolvedName(ctx, id, settings[i].1);
  }

  // ---- aborts ----

  /** The loop fails exactly when some included entity is unresolvable, and
      then with the error of the first such entity. */
  lemma {:induction false} FailsAtFirstUnresolvable(ctx: ExportContext, settings: seq<(EntityId, AssistantSetting)>)
    ensures ExportFrom(ctx, settings).Err? <==>
            exists i :: 0 <= i < |settings| && Unresolvable(ctx, settings[i].0, settings[i].1)
    ensures ExportFrom(ctx, settings).Err? ==>
            exists i :: 0 <= i < |settings| && Unresolvable(ctx, settings[i].0, settings[i].1) &&
                        ExportFrom(ctx, settings).error == NoRegistryEntry(settings[i].0) &&
                        forall j :: 0 <= j < i ==> !Unresolvable(ctx, settings[j].0, settings[j].1)
    decreases |settings|
  {
    if settings != [] {
      var n := |settings| - 1;
      var before := settings[..n];
      FailsAtFirstUnresolvable(ctx, before);
      assert forall i :: 0 <= i < n ==> before[i] == settings[i];
      if ExportFrom(ctx, before).Err? {
        var i :| 0 <= i < n && Unresolvable(ctx, before[i].0, before[i].1) &&
                 ExportFrom(ctx, before).error == NoRegistryEntry(before[i].0) &&
                 forall j :: 0 <= j < i ==> !Unresolvable(ctx, before[j].0, before[j].1);
        assert settings[i] == before[i];
      } else if Unresolvable(ctx, settings[n].0, settings[n].1) {
        assert ExportFrom(ctx, settings).error == NoRegistryEntry(settings[n].0);
      }
    }
  }

  /** The three ways an export produces nothing (the early return for a
      missing manager, the caught `KeyError` of the missing `google_assistant`
      data, the caught `AttributeError` of a missing registry entry), and
      when it succeeds. */
  lemma ExportOutcomes(manager: Option<ExposedEntitiesManager>, ga: Option<GoogleAssistantData>,
                       neverExposed: set<EntityId>, entities: map<EntityId, RegistryEntry>,
                       devices: map<DeviceId, DeviceEntry>)
    ensures Export(manager, ga, neverExposed, entities, devices) == ManagerUnavailable <==> manager.None?
    ensures Export(manager, ga, neverExposed, entities, devices) == Failed(MissingGoogleAssistantData) <==>
            manager.Some? && ga.None?
    ensures manager.Some? && ga.Some? ==>
            var ctx := ContextOf(ga.value, neverExposed, entities, devices);
            var settings := manager.value.googleAssistantSettings;
            (Export(manager, ga, neverExposed, entities, devices).Exported? <==>
             forall i :: 0 <= i < |settings| ==> !Unresolvable(ctx, settings[i].0, settings[i].1))
  {
    if manager.Some? && ga.Some? {
      FailsAtFirstUnresolvable(ContextOf(ga.value, neverExposed, entities, devices),
                               manager.value.googleAssistantSettings);
    }
  }
}
