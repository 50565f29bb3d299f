/** The records the export reads from Home Assistant and the record it produces.
    Python's `None` is `None` here; a Python string that may be missing is an
    `Option<string>`, and it is falsy when it is missing or empty. */
module HassData {

  datatype Option<+T> = None | Some(value: T)

  datatype Result<+T, +E> = Ok(value: T) | Err(error: E)

  type EntityId = string
  type DeviceId = string

  /** Python truthiness of an optional string: `None` and `""` are falsy. */
  predicate Truthy(s: Option<string>) {
    s.Some? && s.value != ""
  }

  /** Python truthiness of an optional flag: only an explicit `True` is truthy. */
  predicate IsTrue(b: Option<bool>) {
    b == Some(true)
  }

  /** `dict.get` / `registry.async_get`: the record stored under `k`, if any. */
  function Get<K, V>(m: map<K, V>, k: K): (r: Option<V>)
    ensures r.Some? <==> k in m
    ensures r.Some? ==> r.value == m[k]
  {
    if k in m then Some(m[k]) else None
  }

  /** The per-entity settings the exposed-entities manager keeps for one
      assistant: `should_expose` (true, false or unset) and an optional
      assistant-specific `name` override. */
  datatype AssistantSetting = AssistantSetting(shouldExpose: Option<bool>, name: Option<string>)

  /** The exposed-entities manager found in `hass.data`, reduced to what
      `async_get_assistant_settings("cloud.google_assistant")` returns: the
      settings in the dict's iteration order. */
  datatype ExposedEntitiesManager =
    ExposedEntitiesManager(googleAssistantSettings: seq<(EntityId, AssistantSetting)>)

  /** The nested `config` dictionary of `hass.data["google_assistant"]`;
      either key may be missing. */
  datatype GoogleConfig = GoogleConfig(exposeByDefault: Option<bool>, exposedDomains: Option<seq<string>>)

  /** `hass.data["google_assistant"]`; its `config` key may be missing. */
  datatype GoogleAssistantData = GoogleAssistantData(config: Option<GoogleConfig>)

  /** An entity registry entry: user name, integration-supplied original name,
      aliases and owning device. */
  datatype RegistryEntry = RegistryEntry(
    name: Option<string>,
    originalName: Option<string>,
    aliases: seq<string>,
    deviceId: Option<DeviceId>)

  /** A device registry entry: default name and user-assigned name. */
  datatype DeviceEntry = DeviceEntry(name: Option<string>, nameByUser: Option<string>)

  /** One value of the exported mapping: exactly `name` and `aliases`. */
  datatype ExportedEntity = ExportedEntity(name: string, aliases: seq<string>)

  /** Why an export was abandoned after the manager was found: the
      `KeyError` of `hass.data["google_assistant"]`, or the `AttributeError`
      of reading `device_id` from a missing registry entry. */
  datatype ExportError = MissingGoogleAssistantData | NoRegistryEntry(entityId: EntityId)
}
