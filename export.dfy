/** `export_google_assistant_entities` (`__init__.py` lines 19-119): the
    specification of the whole export as a function, the loop that builds the
    dict, and the service call that writes it only when the export succeeds. */
module Exporter {
  import opened HassData
  import opened OrderedDicts
  import opened Resolver

  /** What one call produces: the dict to write, the early return when the
      manager is missing (lines 29-31), or an exception caught at line 118. */
  datatype Outcome = Exported(data: ExposedData) | ManagerUnavailable | Failed(error: ExportError)

  /** Lines 36-38: a missing `config` is `{}`, a missing `expose_by_default`
      is `False`, missing `exposed_domains` is `[]`. */
  function ContextOf(ga: GoogleAssistantData, neverExposed: set<EntityId>,
                     entities: map<EntityId, RegistryEntry>, devices: map<DeviceId, DeviceEntry>): ExportContext
  {
    var config := if ga.config.Some? then ga.config.value else GoogleConfig(None, None);
    ExportContext(
      neverExposed,
      IsTrue(config.exposeByDefault),
      if config.exposedDomains.Some? then config.exposedDomains.value else [],
      entities,
      devices)
  }

  /** The dict the loop of lines 45-101 has built after the given settings,
      or the error of the first included entity it cannot resolve. */
  function ExportFrom(ctx: ExportContext, settings: seq<(EntityId, AssistantSetting)>): (r: Result<ExposedData, ExportError>)
    ensures r.Ok? ==> r.value.Valid()
    decreases |settings|
  {
    if settings == [] then Ok(Empty)
    else
      var before := ExportFrom(ctx, settings[..|settings| - 1]);
      var (id, setting) := settings[|settings| - 1];
      if before.Err? || !Included(ctx, id, setting) then before
      else match ResolveEntry(ctx, id, setting)
        case Err(e) => Err(e)
        case Ok(entity) => Ok(Put(before.value, id, entity))
  }

  /** The whole export, from the data in `hass.data` and the two registries. */
  function Export(manager: Option<ExposedEntitiesManager>, ga: Option<GoogleAssistantData>,
                  neverExposed: set<EntityId>, entities: map<EntityId, RegistryEntry>,
                  devices: map<DeviceId, DeviceEntry>): Outcome
  {
    if manager.None? then ManagerUnavailable
    else if ga.None? then Failed(MissingGoogleAssistantData)
    else match ExportFrom(ContextOf(ga.value, neverExposed, entities, devices), manager.value.googleAssistantSettings)
      case Err(e) => Failed(e)
      case Ok(data) => Exported(data)
  }

  /** Once the export of a prefix has failed, the export of the whole fails
      the same way: the first exception abandons the loop. */
  lemma {:induction false} FailureIsFinal(ctx: ExportContext, settings: seq<(EntityId, AssistantSetting)>, k: nat)
    requires k <= |settings|
    requires ExportFrom(ctx, settings[..k]).Err?
    ensures ExportFrom(ctx, settings) == ExportFrom(ctx, settings[..k])
    decreases |settings| - k
  {
    if k < |settings| {
      var before := settings[..|settings| - 1];
      assert before[..k] == settings[..k];
      FailureIsFinal(ctx, before, k);
    } else {
      assert settings[..k] == settings;
    }
  }

  /** Lines 24-101: reads the manager and configuration, then walks the
      settings in order, skipping excluded entities and putting the resolved
      name and aliases of each included one into the dict. */
  method BuildExport(manager: Option<ExposedEntitiesManager>, ga: Option<GoogleAssistantData>,
                     neverExposed: set<EntityId>, entities: map<EntityId, RegistryEntry>,
                     devices: map<DeviceId, DeviceEntry>) returns (outcome: Outcome)
    ensures outcome == Export(manager, ga, neverExposed, entities, devices)
  {
    if manager.None? {
      return ManagerUnavailable;
    }
    var settings := manager.value.googleAssistantSettings;
    if ga.None? {
      return Failed(MissingGoogleAssistantData);
    }
    var ctx := ContextOf(ga.value, neverExposed, entities, devices);

    var data := Empty;
    var i := 0;
    while i < |settings|
      invariant i <= |settings|
      invariant ExportFrom(ctx, settings[..i]) == Ok(data)
    {
      var (id, setting) := settings[i];
      i := i + 1;
      assert settings[..i][..i - 1] == settings[..i - 1];
      if !Included(ctx, id, setting) {
        continue;
      }
      var entry := Get(entities, id);
      var aliases := if entry.Some? && entry.value.aliases != [] then entry.value.aliases else [];
      var gaName := setting.name;
      var friendly := if entry.Some? then entry.value.name else None;
      var original := if entry.Some? then entry.value.originalName else None;
      var deviceName := None;
      if !Truthy(friendly) && !Truthy(original) && !Truthy(gaName) {
        if entry.None? {
          FailureIsFinal(ctx, settings, i);
          return Failed(NoRegistryEntry(id));
        }
        if Truthy(entry.value.deviceId) {
          deviceName := DeviceName(Get(devices, entry.value.deviceId.value));
        }
      }
      var displayName := DisplayName(friendly, gaName, original, deviceName, id);
      data := Put(data, id, ExportedEntity(displayName, aliases));
    }
    assert settings[..i] == settings;
    return Exported(data);
  }

  /** The `exposed.yaml` file next to `configuration.yaml`: the dict last
      written to it, if any. */
  class ExposedYaml {
    var content: Option<ExposedData>

    constructor (initial: Option<ExposedData>)
      ensures content == initial
    {
      content := initial;
    }
  }

  /** The service `ga_autoexpose.export_entities` (lines 19-119): runs the
      export and replaces the file's content only when it succeeded. */
  method ExportGoogleAssistantEntities(manager: Option<ExposedEntitiesManager>, ga: Option<GoogleAssistantData>,
                                       neverExposed: set<EntityId>, entities: map<EntityId, RegistryEntry>,
                                       devices: map<DeviceId, DeviceEntry>, file: ExposedYaml)
    returns (outcome: Outcome)
    modifies file
    ensures outcome == Export(manager, ga, neverExposed, entities, devices)
    ensures file.content == if outcome.Exported? then Some(outcome.data) else old(file.content)
  {
    outcome := BuildExport(manager, ga, neverExposed, entities, devices);
    if outcome.Exported? {
      file.content := Some(outcome.data);
    }
  }
}
