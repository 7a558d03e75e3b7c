# Drupal config importer, modelled in Dafny

A model of `ConfigImporter` (src/ConfigImporter.php), the class that imports one
configuration item from a YAML export directory into a Drupal site's live
configuration. It has two pieces of deterministic logic, both modelled and proved here:

- **Classification** (`getConfigEntityMeta`). A configuration ID is split on `.`
  the way PHP's `explode` does it, keeping empty segments. An ID with exactly
  three segments `provider.type.instance` is a config entity when an entity-type
  definition from the registry matches it. A definition matches when its provider
  equals the first segment and the second segment equals its config prefix. When
  it has no prefix, the second segment must equal its own type id. The first
  match in registry order decides the result. Any other ID is simple configuration.
- **Reconciliation** (`import`, `importConfig`, `importConfigEntity`). Simple
  configuration is replaced wholesale by the export. A config entity is read
  from the export under its full configuration ID but stored under its entity
  type and bare entity ID. An existing entity gets every source key set and
  keeps every other field. A missing entity is created from the export.

Modules, one file each:

- `Results` (results.dfy): `Option` and `Result`.
- `Strings` (strings.dfy): `Explode`/`Implode` with a one-character separator.
  Both halves of the round trip are proved.
- `EntityMeta` (entity_meta.dfy): entity-type definitions, the match filter and
  classification, with its lemmas.
- `Reconcile` (reconcile.dfy): records, the two stores, the source directories,
  and each import as a function from the stores before to the result and the
  stores after. The lemmas cover dispatch, idempotence and the default path.
- `ConfigImporter` (config_importer.dfy): the class `Importer`. Its fields are
  the two stores, and its methods update them in place. Each method is proved
  to leave exactly the state the matching `Reconcile` function describes.
  `SetEach` is the field-by-field `foreach` of a loaded entity, written as a
  `while` loop with its invariant.

Collaborators are replaced by plain values:

- The YAML reader (`FileStorage`) becomes a `Disk`, a map from directory path
  to a map from configuration name to record.
- The configuration factory becomes the `configs` map.
- Entity storage becomes the `entities` map, keyed by `(entity type, entity ID)`.
- The entity-type registry becomes the `definitions` sequence.
- The `config_sync_directory` setting becomes the `syncDirectory` value.

Two behaviours of the code worth noting:

- Classification scans every entity-type definition the registry returns
  (`getDefinitions()`, src/ConfigImporter.php:183), not only config-entity
  types. A content entity type whose provider and id fit the first two
  segments therefore also classifies an ID as an entity.
- Nothing checks that the ID is non-empty. The empty ID is one empty segment,
  so it is simple configuration.

## Model

| member | source | states |
|---|---|---|
| `Strings.Explode` | src/ConfigImporter.php:178 | at least one segment, no segment contains the separator, and joining the segments with the separator gives back the input (empty segments are kept) |
| `Strings.ExplodeImplode` | src/ConfigImporter.php:178 | exploding the join of separator-free segments gives back exactly those segments, so `Explode` is the inverse of `Implode` |
| `Strings.ExplodeCount` | src/ConfigImporter.php:178-179 | the number of segments is the number of separators plus one |
| `EntityMeta.Matching` | src/ConfigImporter.php:183-191 | the kept definitions are exactly those of the registry that pass the filter, and they form a subsequence of the registry, so registry order is kept |
| `EntityMeta.GetConfigEntityMeta` | src/ConfigImporter.php:177-197 | a classified entity ID never contains a dot, and its entity type is the id of some registered definition |
| `EntityMeta.ClassifyNeedsTwoDots` | src/ConfigImporter.php:178-181 | an ID with other than exactly two dots is simple configuration, whatever the definitions are |
| `EntityMeta.FirstMatchHeadsMatching` | src/ConfigImporter.php:183-192 | when definition i is the first that matches, it is the head of the filtered list that `reset` takes |
| `EntityMeta.ClassifyFirstMatch` | src/ConfigImporter.php:183-196 | when definition i is the first that matches, the result is its type id with the third segment as entity ID, whatever later definitions match |
| `EntityMeta.ClassifyIsEntityIff` | src/ConfigImporter.php:179-194 | an ID is a config entity if and only if it has three segments and some definition matches them |
| `EntityMeta.ClassifiedIdShape` | src/ConfigImporter.php:178-196 | a classified ID equals the provider, the claimed middle segment (config prefix, else type id) and the entity ID of a definition of the returned type, joined by dots |
| `EntityMeta.FourSegmentsIsSimple` | src/ConfigImporter.php:179-181 | `system.action.a.b` is simple configuration even with an `action` type from `system` registered |
| `EntityMeta.EmptyMiddleSegment` | src/ConfigImporter.php:178-191 | `a..b` has the three segments `a`, empty, `b`. A prefix-less `a` definition with type id `x` does not match it. One with an empty type id that follows does match, giving entity type empty and entity ID `b` |
| `Reconcile.Overlay` | src/ConfigImporter.php:141-145 | an updated entity has the old fields plus the source keys; source keys have the source value, other fields keep theirs, and no field is removed |
| `Reconcile.OverlayIdempotent` | src/ConfigImporter.php:142-144 | setting the same source keys a second time changes nothing |
| `Reconcile.OverlaySelf` | src/ConfigImporter.php:141-148 | merging an export into an entity created from that same export gives the entity back unchanged |
| `Reconcile.ImportConfig` | src/ConfigImporter.php:100-113 | success exactly when the export exists. On success the stored object equals the export (stale keys are gone), no other name changes, the entity store is untouched, and the object is returned. On failure: NotFound for the ID and no write |
| `Reconcile.ImportConfigEntity` | src/ConfigImporter.php:131-153 | the intended behaviour (see Findings). It reads under the full configuration ID and writes under (type, bare ID). A missing export gives NotFound, whatever the type. An unregistered type with the export present gives InvalidEntityType. Either failure writes nothing. An existing entity gets the source keys and keeps the others. A new entity equals the export. No other entity and no simple configuration changes |
| `Reconcile.ImportDispatch` | src/ConfigImporter.php:78-86 | with the intended entity import (see Findings), import succeeds exactly when the export of the full ID exists. It writes only the entity store, under the classified type and ID, when classification gives metadata, and only the simple store otherwise. It never fails with InvalidEntityType, and a failure writes nothing |
| `Reconcile.ImportIdempotent` | src/ConfigImporter.php:78-153 | importing the same ID from the same source twice gives the same result and the same stores as importing once |
| `Reconcile.ImportDefaultsToSyncDirectory` | src/ConfigImporter.php:100-103 | an import without a path behaves exactly as an import from the sync directory |
| `Reconcile.ReplaceVersusMerge` | src/ConfigImporter.php:105-148 | with stored `{a:1,b:2}` and source `{a:9}`, simple configuration becomes `{a:9}` and a config entity becomes `{a:9,b:2}` |
| `Reconcile.ImportConfigEntityAsWritten` | src/ConfigImporter.php:131-153 | the code as written: an unregistered type fails first with InvalidEntityType. When the export exists, it behaves exactly as the intended import. A failure writes nothing |
| `Reconcile.MissingExportSucceedsAsWritten` | src/ConfigImporter.php:136-152 | with the export missing, the type registered and the entity stored, the code as written succeeds and returns the entity unchanged with the stores unchanged, where the intended import fails with NotFound |
| `Reconcile.MissingExportExample` | src/ConfigImporter.php:136-152 | the same divergence on entity `action`/`go` with fields `{a:1}`, type `action` from `system`, and no `system.action.go` export |
| `ConfigImporter.SetEach` | src/ConfigImporter.php:142-144 | the loop that sets each source key on a loaded entity yields exactly the overlay of the source on the old fields |
| `ConfigImporter.Importer.constructor` | src/ConfigImporter.php:46-50 | the importer starts with the given registry, sync directory and stores |
| `ConfigImporter.Importer.Import` | src/ConfigImporter.php:78-86 | the returned result and the new stores are those of `Reconcile.Import` on the old stores |
| `ConfigImporter.Importer.ImportConfig` | src/ConfigImporter.php:100-113 | the returned result and the new stores are those of `Reconcile.ImportConfig` on the old stores |
| `ConfigImporter.Importer.ImportConfigEntity` | src/ConfigImporter.php:131-153 | the returned result and the new stores are those of `Reconcile.ImportConfigEntity` on the old stores |
| `ConfigImporter.ImportTwice` | src/ConfigImporter.php:78-86 | two imports of one ID through the object return equal results and leave the stores as a single import does |

## Left out

- YAML parsing by `FileStorage` (src/ConfigImporter.php:105-106, 136-137) is a lookup in a `Disk` map. Drupal's reader reports a missing file by returning `FALSE`. The intended model turns that into the error `NotFound` with no write; the code as written is modelled separately for config entities (see Findings).
- Reconcile.ImportConfig: a missing export gives `NotFound` with no write. In the code, `FALSE` reaches `setData` (src/ConfigImporter.php:110), whose array type hint in the framework raises an error before `save()`. The outcome is the same failure with no write; only the error's kind differs.
- Reconcile.ImportConfigEntity: states the intended behaviour, not the code as written. With the export missing, the code resolves the type first (src/ConfigImporter.php:139). It then saves and returns an existing entity unchanged, because the loop at lines 142-144 runs zero times over `FALSE`. For a new entity, `create(FALSE)` is refused by the framework. `Reconcile.ImportConfigEntityAsWritten` models this; the refused creation is the error `Unreadable`.
- Reconcile.ImportDispatch: built on the intended `Reconcile.ImportConfigEntity`. For an ID whose entity exists but whose export is missing, the code as written succeeds instead (see Findings).
- Service location and construction (`create`, `\Drupal::service`, src/ConfigImporter.php:55-61, 161-165) are left out. The sync directory is a plain value given to the constructor. An unset `config_sync_directory` setting (Misconfigured) is not modelled.
- `save()` is the assignment into the store map. The create-if-absent behaviour of `getEditable` is the map update itself. Entity construction is modelled only as "fields = record" (src/ConfigImporter.php:109-110, 148-150).
- The returned config object or entity is modelled as its name or key and its data as saved. Object identity and aliasing with the live store are left out.
- PHP loose comparison is not modelled. Numeric strings compare numerically under `==`/`!=` (src/ConfigImporter.php:184-190). The model uses plain string equality.
- PHP falsiness is not fully modelled. A config prefix or path of `"0"` is falsy in the source (src/ConfigImporter.php:101, 132, 187). The model treats only the empty string as absent.
- `ConfigImporter.SetEach` visits the source keys in an unspecified order, not the record's insertion order. The keys are distinct, so the resulting fields are the same.
- Records are maps, so the key order of a YAML mapping is not modelled.
- Concurrency is out of scope: two callers importing at once, and any atomicity of the store.

## Findings

| source | as written | input that shows it | evidently intended | confidence | as-written member | corrected member |
|---|---|---|---|---|---|---|
| src/ConfigImporter.php:136-152 | the reader's `FALSE` for a missing export is never checked. An existing entity is saved unchanged and returned as if imported | entity `action`/`go` stored as `{a:1}`, registry `[system/action]`, no `system.action.go` in the sync directory: `import('system.action.go')` returns the unchanged entity | the import fails with NotFound for `system.action.go` and writes nothing | not executed; medium: the doc comment promises "the imported config entity", and no caller can tell this call from a real import | `Reconcile.ImportConfigEntityAsWritten`, `Reconcile.MissingExportSucceedsAsWritten`, `Reconcile.MissingExportExample` | `Reconcile.ImportConfigEntity` |
