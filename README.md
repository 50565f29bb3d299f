# Google Assistant auto-expose: the entity export, in Dafny

This project models the `ga_autoexpose.export_entities` service of the Home
Assistant custom integration `ga_autoexpose`. The service reads the Google
Assistant settings kept by Home Assistant's exposed-entities manager. It keeps
the entities that should be exposed and gives each a display name and its
aliases from the entity and device registries. The resulting dict goes to
`exposed.yaml`. The model covers the body of `export_google_assistant_entities`:

- reading the manager and the `google_assistant` configuration, with its defaults;
- the filtering loop and its inclusion rules;
- the name fallback chain and alias copying;
- the ordered dict it builds;
- the three ways the export ends without writing anything: the early return
  when the manager is missing (lines 29-31), and the two exceptions caught at
  line 118 (the missing `google_assistant` data and the missing registry entry).

Layout, one module per concern:

- `hass_data.dfy` (`HassData`): the records read and produced. Python's falsy
  strings are `Option<string>` values that are `None` or `""`.
- `ordered_dict.dfy` (`OrderedDicts`): the Python dict that is built. It holds
  the keys in insertion order and the mapping, and `Put` is `d[k] = v`.
- `resolver.dfy` (`Resolver`): the per-entity decisions. These are the
  inclusion test, the `or` name chain with its reference definition
  `FirstNonEmpty`, and the record resolved for one entity.
- `export.dfy` (`Exporter`): `Export` specifies the whole run as a function.
  `BuildExport` is the imperative loop, proved equal to it.
  `ExportGoogleAssistantEntities` writes the file only on success.
- `properties.dfy` (`ExportProperties`): what the export promises about its output.

Behaviour of `__init__.py` that the model keeps as written:

- `should_expose: false` is treated like an unset flag (line 53). Such an
  entity is still exported when `expose_by_default` is on and its domain is
  listed.
- Each exported value has only `name` and `aliases`. There is no `room` and no
  `expose` field.
- An included entity without a registry entry and without a non-empty override
  name makes line 78 read `device_id` from `None`. The resulting exception
  abandons the whole export (line 118), and nothing is written. The model
  treats this as an abort (`NoRegistryEntry`), not as a fallback to the entity id.

## Model

| member | source | states |
|---|---|---|
| `OrderedDicts.Put` | custom_components/ga_autoexpose/__init__.py:98-101 | dict assignment keeps every key once and the keys equal to the mapping's; it sets the value and never reorders earlier keys |
| `Resolver.Domain` | custom_components/ga_autoexpose/__init__.py:60 | the domain is a prefix of the id without a `.`, and is either the whole id or followed by the id's first `.` |
| `Resolver.DisplayName` | custom_components/ga_autoexpose/__init__.py:86 | the Python `or` chain equals the first non-empty of registry name, override, original name and device name, else the entity id |
| `Resolver.ResolveEntry` | custom_components/ga_autoexpose/__init__.py:67-101 | resolution fails exactly when there is no registry entry and no non-empty override name, with that entity's error; aliases are the registry entry's, or empty without one |
| `Exporter.ExportFrom` | custom_components/ga_autoexpose/__init__.py:45-101 | the dict built by the loop has distinct keys that are exactly the keys of its mapping |
| `Exporter.FailureIsFinal` | custom_components/ga_autoexpose/__init__.py:46-119 | once an entity has raised, the export of the whole settings fails with that same error |
| `Exporter.BuildExport` | custom_components/ga_autoexpose/__init__.py:24-101 | the loop over the settings returns exactly the outcome `Export` specifies: missing manager, missing `google_assistant` data, first unresolvable entity, or the dict |
| `Exporter.ExportGoogleAssistantEntities` | custom_components/ga_autoexpose/__init__.py:19-119 | the service replaces the file's content with the dict on success and leaves it untouched on every abort |
| `ExportProperties.ExportedIffIncluded` | custom_components/ga_autoexpose/__init__.py:46-63 | an id is exported iff some setting with that id passes the inclusion test |
| `ExportProperties.NeverExposedNeverExported` | custom_components/ga_autoexpose/__init__.py:48-50 | an id in the never-exposed set is never exported, whatever its settings or the configuration |
| `ExportProperties.ExplicitExposureWins` | custom_components/ga_autoexpose/__init__.py:53-65 | an entity with truthy `should_expose` that is not never-exposed is exported, for every `expose_by_default` and `exposed_domains` |
| `ExportProperties.FalsyExposureFollowsDomainDefault` | custom_components/ga_autoexpose/__init__.py:36-63 | an entity whose `should_expose` is unset or false is exported iff `expose_by_default` is true and its domain is in `exposed_domains`, with missing keys read as `False` and `[]` |
| `ExportProperties.MissingDefaultExportsOnlyExplicit` | custom_components/ga_autoexpose/__init__.py:37-57 | without `expose_by_default`, exactly the entities with truthy `should_expose` that are not never-exposed are exported |
| `ExportProperties.ExportedKeysAreIncludedIds` | custom_components/ga_autoexpose/__init__.py:45-101 | the exported keys are the included ids in the settings' iteration order |
| `ExportProperties.IncludedIdsAreSubsequence` | custom_components/ga_autoexpose/__init__.py:46-63 | the included ids are a subsequence of the settings' ids |
| `ExportProperties.ExportedKeysInSettingsOrder` | custom_components/ga_autoexpose/__init__.py:45-101 | the keys of a successful export are a subsequence of the settings' keys in their order, with no duplicates |
| `ExportProperties.ExportedValueIsResolved` | custom_components/ga_autoexpose/__init__.py:67-101 | the value exported for an included entity is the record resolved from that entity's own settings |
| `ExportProperties.FirstNonEmptyIsNonEmpty` | custom_components/ga_autoexpose/__init__.py:86 | a fallback chain that ends in a non-empty id yields a non-empty name |
| `ExportProperties.FirstNonEmptyFlattensOr` | custom_components/ga_autoexpose/__init__.py:83-86 | the candidate `name_by_user or name` in the chain behaves as the two candidates in turn |
| `ExportProperties.ResolvedName` | custom_components/ga_autoexpose/__init__.py:72-86 | the display name is the first non-empty of registry name, override, original name, device user name, device name, entity id; it is non-empty when the id is |
| `ExportProperties.DeviceOnlyWhenConsulted` | custom_components/ga_autoexpose/__init__.py:77-83 | the device registry affects the record only through the device it consults, and only when the three names are empty and the entry has a device id |
| `ExportProperties.ExportedAliases` | custom_components/ga_autoexpose/__init__.py:69 | an exported entity's aliases are its registry aliases in order, or empty without a registry entry |
| `ExportProperties.ExportedNamesNonEmpty` | custom_components/ga_autoexpose/__init__.py:72-101 | every exported name is non-empty when the entity id is |
| `ExportProperties.FailsAtFirstUnresolvable` | custom_components/ga_autoexpose/__init__.py:46-119 | the loop fails iff some included entity has no registry entry and no non-empty override, with the error of the first such entity |
| `ExportProperties.ExportOutcomes` | custom_components/ga_autoexpose/__init__.py:24-119 | the outcome is "manager unavailable" iff the manager is missing; it is "missing Google Assistant data" iff the manager is present and `hass.data["google_assistant"]` is not; otherwise the export succeeds iff no included entity is unresolvable |

## Left out

- YAML serialisation and the file write (lines 104-114) are out of scope. Block style, unicode handling and unsorted keys belong to the YAML library. The file is a single `content` field that is replaced on success.
- Service registration and the async setup (lines 17, 122-123) are left out. They are platform plumbing.
- Logging (lines 30, 40-42, 49, 56, 62, 65, 81, 89-96, 116, 119) is left out. It has no behavioural effect.
- How `hass.data`, the entity registry and the device registry are obtained is left out; they are inputs. The `KeyError` of `hass.data["google_assistant"]` is the `MissingGoogleAssistantData` abort.
- The value of `CLOUD_NEVER_EXPOSED_ENTITIES` is a Home Assistant constant and is not part of this model. It is the `neverExposed` input.
- How the manager computes the Google Assistant settings is not part of this model. They are given as a sequence of id and setting pairs in dict order.
- Registry aliases are a sequence here. In Home Assistant they are a set, and `list()` takes the set's iteration order.
- Settings values other than `True`, `False` or unset are not modelled. The same holds for non-boolean `expose_by_default` values and non-list `exposed_domains`.
- Exceptions raised inside Home Assistant's own lookups, and a failure of the file write, are not modelled. Of the exceptions `__init__.py` can raise, only the `KeyError` at line 35 and the `AttributeError` at line 78 are.
- Exporter.ExportGoogleAssistantEntities: a failure of the write itself (lines 105-114, an `OSError` from `open` or an error partway through `yaml.dump`) is not modelled; the model's write always succeeds. In `__init__.py` such a failure is caught at line 118, and because `open(..., "w")` empties the file first, it can leave a truncated file.
- The module has no debounced re-export, room/area field, `expose` field or notification, so none is modelled.
