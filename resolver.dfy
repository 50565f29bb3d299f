/** Per-entity decisions of the export: whether an entity is included
    (`__init__.py` lines 48-63) and what its exported record is (lines 67-101). */
module Resolver {
  import opened HassData

  /** What the loop reads besides the settings themselves: the never-exposed
      set, the two configuration values after their defaults are applied, and
      the entity and device registries. */
  datatype ExportContext = ExportContext(
    neverExposed: set<EntityId>,
    exposeByDefault: bool,
    exposedDomains: seq<string>,
    entities: map<EntityId, RegistryEntry>,
    devices: map<DeviceId, DeviceEntry>)

  /** `entity_id.split(".")[0]`: the text before the first `.`, or the whole
      id when it has none. */
  function Domain(id: EntityId): (d: string)
    ensures d <= id
    ensures '.' !in d
    ensures d == id || id[|d|] == '.'
  {
    if id == [] || id[0] == '.' then [] else [id[0]] + Domain(id[1..])
  }

  /** The inclusion test: never-exposed entities are skipped; an entity whose
      `should_expose` is falsy (unset or false) is kept only when
      `expose_by_default` holds and its domain is listed; any other is kept. */
  predicate Included(ctx: ExportContext, id: EntityId, setting: AssistantSetting) {
    if id in ctx.neverExposed then false
    else if !IsTrue(setting.shouldExpose) then
      ctx.exposeByDefault && Domain(id) in ctx.exposedDomains
    else true
  }

  /** Python's `a or b` on optional strings. */
  function Or(a: Option<string>, b: Option<string>): Option<string> {
    if Truthy(a) then a else b
  }

  /** Reference definition of a fallback chain: the first non-empty candidate,
      or `fallback` when every candidate is empty. */
  function FirstNonEmpty(candidates: seq<Option<string>>, fallback: string): string {
    if candidates == [] then fallback
    else if Truthy(candidates[0]) then candidates[0].value
    else FirstNonEmpty(candidates[1..], fallback)
  }

  /** `friendly_name or google_assistant_name or original_name or device_name or entity_id`. */
  function DisplayName(friendly: Option<string>, override: Option<string>, original: Option<string>,
                       device: Option<string>, id: EntityId): (r: string)
    ensures r == FirstNonEmpty([friendly, override, original, device], id)
  {
    var chosen := Or(Or(Or(friendly, override), original), device);
    assert [device][1..] == [];
    assert [original, device][1..] == [device];
    assert [override, original, device][1..] == [original, device];
    assert [friendly, override, original, device][1..] == [override, original, device];
    var last := if Truthy(device) then device.value else id;
    assert FirstNonEmpty([device], id) == last;
    assert FirstNonEmpty([original, device], id) == if Truthy(original) then original.value else last;
    assert FirstNonEmpty([override, original, device], id)
        == if Truthy(override) then override.value else FirstNonEmpty([original, device], id);
    if Truthy(chosen) then chosen.value else id
  }

  /** `device_entry.name_by_user or device_entry.name`, or nothing when the
      device is not in the registry. */
  function DeviceName(device: Option<DeviceEntry>): Option<string> {
    if device.Some? then Or(device.value.nameByUser, device.value.name) else None
  }

  /** The registry's `name` of the entity, `None` without an entry. */
  function RegistryName(ctx: ExportContext, id: EntityId): Option<string> {
    if id in ctx.entities then ctx.entities[id].name else None
  }

  /** The registry's `original_name` of the entity, `None` without an entry. */
  function RegistryOriginalName(ctx: ExportContext, id: EntityId): Option<string> {
    if id in ctx.entities then ctx.entities[id].originalName else None
  }

  /** The device id the export looks up in the device registry for this
      entity, if it looks one up at all. */
  function ConsultedDevice(ctx: ExportContext, id: EntityId, setting: AssistantSetting): Option<DeviceId> {
    if id in ctx.entities && !Truthy(ctx.entities[id].name) && !Truthy(ctx.entities[id].originalName)
       && !Truthy(setting.name) && Truthy(ctx.entities[id].deviceId)
    then ctx.entities[id].deviceId
    else None
  }

  /** The device entry the export reads for this entity, if any. */
  function ConsultedDeviceEntry(ctx: ExportContext, id: EntityId, setting: AssistantSetting): Option<DeviceEntry> {
    var did := ConsultedDevice(ctx, id, setting);
    if did.Some? then Get(ctx.devices, did.value) else None
  }

  /** The record exported for an included entity (lines 67-101). Without a
      registry entry and without a non-empty override name, line 78 reads
      `device_id` from `None`: that is the error result. */
  function ResolveEntry(ctx: ExportContext, id: EntityId, setting: AssistantSetting): (r: Result<ExportedEntity, ExportError>)
    ensures r.Err? <==> id !in ctx.entities && !Truthy(setting.name)
    ensures r.Err? ==> r.error == NoRegistryEntry(id)
    ensures r.Ok? ==> r.value.aliases == if id in ctx.entities then ctx.entities[id].aliases else []
  {
    var entry := Get(ctx.entities, id);
    var aliases := if entry.Some? && entry.value.aliases != [] then entry.value.aliases else [];
    var gaName := setting.name;
    var friendly := if entry.Some? then entry.value.name else None;
    var original := if entry.Some? then entry.value.originalName else None;
    if !Truthy(friendly) && !Truthy(original) && !Truthy(gaName) && entry.None? then
      Err(NoRegistryEntry(id))
    else
      var deviceName :=
        if !Truthy(friendly) && !Truthy(original) && !Truthy(gaName) && Truthy(entry.value.deviceId)
        then DeviceName(Get(ctx.devices, entry.value.deviceId.value))
        else None;
      Ok(ExportedEntity(DisplayName(friendly, gaName, original, deviceName, id), aliases))
  }
}
