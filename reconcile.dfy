/**
 * The stores the importer writes to and what one import does to them,
 * as functions of the stores before the import.
 */
module Reconcile {
  import opened Results
  import opened EntityMeta

  /** A value of a configuration record, as a YAML document can hold it. */
  datatype Value =
    | Null
    | Bool(b: bool)
    | Int(i: int)
    | Str(s: string)
    | Sequence(items: seq<Value>)
    | Mapping(entries: map<string, Value>)

  /** A configuration record: top-level key to value. */
  type Record = map<string, Value>

  /** A directory of YAML exports: configuration name to its record. */
  type Directory = map<string, Record>

  /** The file system as far as the importer sees it: directory path to its exports. */
  type Disk = map<string, Directory>

  /** Where a config entity lives: its entity type and its bare entity ID. */
  datatype EntityKey = EntityKey(entityType: string, entityId: string)

  /** The simple-configuration store and the config-entity store. */
  datatype Stores = Stores(configs: map<string, Record>, entities: map<EntityKey, Record>)

  datatype Error =
    | NotFound(name: string)
    | InvalidEntityType(entityType: string)
      /** The code as written only: a missing export reached entity creation as FALSE. */
    | Unreadable(name: string)

  /** What an import hands back: the configuration object or the config entity, as saved. */
  datatype Imported =
    | ConfigObject(name: string, data: Record)
    | ConfigEntity(entityType: string, entityId: string, fields: Record)

  /** The result of one import and the stores after it. */
  datatype Step = Step(result: Result<Imported, Error>, stores: Stores)

  /** An empty path (PHP's NULL or "") stands for the sync directory. */
  function ResolvePath(path: string, syncDirectory: string): (dir: string)
  {
    if path == [] then syncDirectory else path
  }

  /** Reading the export named `name` from directory `dir`; absent means NotFound. */
  function ReadSource(disk: Disk, dir: string, name: string): (r: Result<Record, Error>)
    ensures r.Success? <==> dir in disk && name in disk[dir]
    ensures r.Success? ==> r.value == disk[dir][name]
    ensures r.Failure? ==> r.error == NotFound(name)
  {
    if dir in disk && name in disk[dir] then Success(disk[dir][name]) else Failure(NotFound(name))
  }

  /**
   * Setting every source key on an entity's fields: source keys take the
   * source value, every other field keeps its value, no field is removed.
   */
  function Overlay(fields: Record, data: Record): (r: Record)
    ensures r.Keys == fields.Keys + data.Keys
    ensures forall k :: k in data ==> r[k] == data[k]
    ensures forall k :: k in fields && k !in data ==> r[k] == fields[k]
  {
    fields + data
  }

  /** Overlaying the same source twice changes nothing the first time did not. */
  lemma OverlayIdempotent(fields: Record, data: Record)
    ensures Overlay(Overlay(fields, data), data) == Overlay(fields, data)
  {
  }

  /** Overlaying a record on itself gives the record back. */
  lemma OverlaySelf(data: Record)
    ensures Overlay(data, data) == data
  {
  }

  /**
   * Importing simple configuration: the stored object is replaced
   * wholesale by the source record.
   */
  function ImportConfig(st: Stores, disk: Disk, syncDirectory: string, id: string, path: string): (out: Step)
    ensures out.result.Success? <==> ResolvePath(path, syncDirectory) in disk && id in disk[ResolvePath(path, syncDirectory)]
    ensures out.result.Failure? ==> out.result.error == NotFound(id) && out.stores == st
    ensures out.result.Success? ==>
      var data := disk[ResolvePath(path, syncDirectory)][id];
      && out.result.value == ConfigObject(id, data)
      && id in out.stores.configs && out.stores.configs[id] == data
      && out.stores.configs.Keys == st.configs.Keys + {id}
      && (forall other :: other in st.configs && other != id ==> out.stores.configs[other] == st.configs[other])
      && out.stores.entities == st.entities
  {
    var read := ReadSource(disk, ResolvePath(path, syncDirectory), id);
    if read.Failure? then Step(Failure(read.error), st)
    else Step(Success(ConfigObject(id, read.value)), st.(configs := st.configs[id := read.value]))
  }

  /**
   * Importing a config entity: the source is read under the full
   * configuration ID, the entity is found under its type and bare ID, and
   * is either updated key by key or created from the source record.
   */
  function ImportConfigEntity(st: Stores, disk: Disk, defs: seq<EntityTypeDef>, syncDirectory: string,
                              configId: string, entityId: string, entityType: string, path: string): (out: Step)
    ensures out.result.Failure? ==> out.stores == st
    ensures out.result.Failure? && out.result.error.NotFound? ==> out.result.error.name == configId
    ensures out.result.Success? <==>
      && ResolvePath(path, syncDirectory) in disk && configId in disk[ResolvePath(path, syncDirectory)]
      && entityType in RegisteredTypes(defs)
    ensures !(ResolvePath(path, syncDirectory) in disk && configId in disk[ResolvePath(path, syncDirectory)])
      ==> out.result == Failure(NotFound(configId))
    ensures out.result.Failure? && ResolvePath(path, syncDirectory) in disk && configId in disk[ResolvePath(path, syncDirectory)]
      ==> out.result.error == InvalidEntityType(entityType)
    ensures out.result.Success? ==>
      var data := disk[ResolvePath(path, syncDirectory)][configId];
      var key := EntityKey(entityType, entityId);
      && key in out.stores.entities
      && out.result.value == ConfigEntity(entityType, entityId, out.stores.entities[key])
      && (key in st.entities ==>
            && out.stores.entities[key].Keys == st.entities[key].Keys + data.Keys
            && (forall k :: k in data ==> out.stores.entities[key][k] == data[k])
            && (forall k :: k in st.entities[key] && k !in data ==> out.stores.entities[key][k] == st.entities[key][k]))
      && (key !in st.entities ==> out.stores.entities[key] == data)
      && out.stores.entities.Keys == st.entities.Keys + {key}
      && (forall other :: other in st.entities && other != key ==> out.stores.entities[other] == st.entities[other])
      && out.stores.configs == st.configs
  {
    var read := ReadSource(disk, ResolvePath(path, syncDirectory), configId);
    if read.Failure? then Step(Failure(read.error), st)
    else if entityType !in RegisteredTypes(defs) then Step(Failure(InvalidEntityType(entityType)), st)
    else
      var key := EntityKey(entityType, entityId);
      var fields := if key in st.entities then Overlay(st.entities[key], read.value) else read.value;
      Step(Success(ConfigEntity(entityType, entityId, fields)), st.(entities := st.entities[key := fields]))
  }

  /** Importing a configuration ID: the entity path when it classifies as one, else the simple path. */
  function Import(st: Stores, disk: Disk, defs: seq<EntityTypeDef>, syncDirectory: string,
                  id: string, path: string): (out: Step)
  {
    match GetConfigEntityMeta(defs, id)
    case Some(meta) => ImportConfigEntity(st, disk, defs, syncDirectory, id, meta.entityId, meta.entityType, path)
    case None => ImportConfig(st, disk, syncDirectory, id, path)
  }

  /**
   * Import writes to the entity store exactly when the ID classifies as a
   * config entity, and to the simple-configuration store otherwise; either
   * way it reads the export under the full ID, and a type found by
   * classification is never rejected as invalid.
   */
  lemma ImportDispatch(st: Stores, disk: Disk, defs: seq<EntityTypeDef>, syncDirectory: string,
                       id: string, path: string)
    ensures var out := Import(st, disk, defs, syncDirectory, id, path);
      && (out.result.Success? <==> ResolvePath(path, syncDirectory) in disk && id in disk[ResolvePath(path, syncDirectory)])
      && (out.result.Failure? ==> out.result.error == NotFound(id) && out.stores == st)
      && (out.result.Success? && GetConfigEntityMeta(defs, id).Some? ==>
            var m := GetConfigEntityMeta(defs, id).value;
            && out.result.value == ConfigEntity(m.entityType, m.entityId, out.stores.entities[EntityKey(m.entityType, m.entityId)])
            && out.stores.configs == st.configs)
      && (out.result.Success? && GetConfigEntityMeta(defs, id).None? ==>
            && out.result.value == ConfigObject(id, disk[ResolvePath(path, syncDirectory)][id])
            && out.stores.entities == st.entities)
  {
  }

  /** Importing the same ID from the same source a second time leaves everything as the first import did. */
  lemma ImportIdempotent(st: Stores, disk: Disk, defs: seq<EntityTypeDef>, syncDirectory: string,
                         id: string, path: string)
    ensures var once := Import(st, disk, defs, syncDirectory, id, path);
      Import(once.stores, disk, defs, syncDirectory, id, path) == once
  {
    var once := Import(st, disk, defs, syncDirectory, id, path);
    var meta := GetConfigEntityMeta(defs, id);
    var dir := ResolvePath(path, syncDirectory);
    if meta.Some? && dir in disk && id in disk[dir] && meta.value.entityType in RegisteredTypes(defs) {
      var key := EntityKey(meta.value.entityType, meta.value.entityId);
      var data := disk[dir][id];
      if key in st.entities {
        OverlayIdempotent(st.entities[key], data);
      } else {
        OverlaySelf(data);
      }
    }
  }

  /** Without a path, the import reads from the sync directory. */
  lemma ImportDefaultsToSyncDirectory(st: Stores, disk: Disk, defs: seq<EntityTypeDef>, syncDirectory: string,
                                      id: string)
    ensures Import(st, disk, defs, syncDirectory, id, "") == Import(st, disk, defs, syncDirectory, id, syncDirectory)
  {
  }

  /**
   * The two policies side by side: a key absent from the source disappears
   * from simple configuration but survives on a config entity.
   */
  lemma ReplaceVersusMerge()
    ensures var st := Stores(map["x.settings" := map["a" := Int(1), "b" := Int(2)]], map[]);
      var disk := map["sync" := map["x.settings" := map["a" := Int(9)]]];
      ImportConfig(st, disk, "sync", "x.settings", "").stores.configs["x.settings"] == map["a" := Int(9)]
    ensures var key := EntityKey("action", "go");
      var st := Stores(map[], map[key := map["a" := Int(1), "b" := Int(2)]]);
      var disk := map["sync" := map["system.action.go" := map["a" := Int(9)]]];
      ImportConfigEntity(st, disk, [EntityTypeDef("system", "", "action")], "sync",
                         "system.action.go", "go", "action", "").stores.entities[key]
        == map["a" := Int(9), "b" := Int(2)]
  {
  }

  /**
   * `importConfigEntity` as the code is written. The YAML reader answers a
   * missing export with FALSE instead of failing, and nothing checks for
   * it: the entity type is resolved first, an existing entity goes through
   * the field loop zero times and is saved unchanged, and only creating a
   * new entity from FALSE is refused.
   */
  function ImportConfigEntityAsWritten(st: Stores, disk: Disk, defs: seq<EntityTypeDef>, syncDirectory: string,
                                       configId: string, entityId: string, entityType: string, path: string): (out: Step)
    ensures out.result.Failure? ==> out.stores == st
    ensures entityType !in RegisteredTypes(defs) ==> out.result == Failure(InvalidEntityType(entityType))
    ensures ResolvePath(path, syncDirectory) in disk && configId in disk[ResolvePath(path, syncDirectory)]
      ==> out == ImportConfigEntity(st, disk, defs, syncDirectory, configId, entityId, entityType, path)
  {
    var dir := ResolvePath(path, syncDirectory);
    var data: Option<Record> := if dir in disk && configId in disk[dir] then Some(disk[dir][configId]) else None;
    if entityType !in RegisteredTypes(defs) then Step(Failure(InvalidEntityType(entityType)), st)
    else
      var key := EntityKey(entityType, entityId);
      if key in st.entities then
        var fields := if data.Some? then Overlay(st.entities[key], data.value) else st.entities[key];
        Step(Success(ConfigEntity(entityType, entityId, fields)), st.(entities := st.entities[key := fields]))
      else if data.Some? then
        Step(Success(ConfigEntity(entityType, entityId, data.value)), st.(entities := st.entities[key := data.value]))
      else
        Step(Failure(Unreadable(configId)), st)
  }

  /**
   * Where the code as written and the intended import part: with the export
   * missing and the entity present, the code reports success and hands
   * back the entity unchanged, where a NotFound error is intended.
   */
  lemma MissingExportSucceedsAsWritten(st: Stores, disk: Disk, defs: seq<EntityTypeDef>, syncDirectory: string,
                                       configId: string, entityId: string, entityType: string, path: string)
    requires !(ResolvePath(path, syncDirectory) in disk && configId in disk[ResolvePath(path, syncDirectory)])
    requires entityType in RegisteredTypes(defs)
    requires EntityKey(entityType, entityId) in st.entities
    ensures ImportConfigEntityAsWritten(st, disk, defs, syncDirectory, configId, entityId, entityType, path)
      == Step(Success(ConfigEntity(entityType, entityId, st.entities[EntityKey(entityType, entityId)])), st)
    ensures ImportConfigEntity(st, disk, defs, syncDirectory, configId, entityId, entityType, path)
      == Step(Failure(NotFound(configId)), st)
  {
  }

  /** The smallest such input: entity `action` `go` stored, no `system.action.go` export. */
  lemma MissingExportExample()
    ensures var st := Stores(map[], map[EntityKey("action", "go") := map["a" := Int(1)]]);
      var defs := [EntityTypeDef("system", "", "action")];
      && ImportConfigEntityAsWritten(st, map["sync" := map[]], defs, "sync", "system.action.go", "go", "action", "")
           == Step(Success(ConfigEntity("action", "go", map["a" := Int(1)])), st)
      && ImportConfigEntity(st, map["sync" := map[]], defs, "sync", "system.action.go", "go", "action", "")
           == Step(Failure(NotFound("system.action.go")), st)
  {
  }
}
