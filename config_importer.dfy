/**
 * The importer object: it owns the live simple-configuration and
 * config-entity stores and updates them in place, one import at a time.
 */
module ConfigImporter {
  import opened Results
  import opened EntityMeta
  import opened Reconcile

  /**
   * The foreach over the source record that sets each key on a loaded
   * entity: every source key ends up with its source value and no other
   * field changes.
   */
  method SetEach(fields: Record, data: Record) returns (updated: Record)
    ensures updated == Overlay(fields, data)
  {
    updated := fields;
    var pending := data.Keys;
    while pending != {}
      invariant pending <= data.Keys
      invariant updated == Overlay(fields, data - pending)
      decreases pending
    {
      var key :| key in pending;
      assert data - (pending - {key}) == (data - pending)[key := data[key]];
      updated := updated[key := data[key]];
      pending := pending - {key};
    }
    assert data - {} == data;
  }

  class Importer {
    /** The entity-type registry's definitions, in registration order. */
    const definitions: seq<EntityTypeDef>
    /** The site's configured sync directory. */
    const syncDirectory: string
    /** Live simple configuration, by configuration name. */
    var configs: map<string, Record>
    /** Live config entities, by entity type and entity ID. */
    var entities: map<EntityKey, Record>

    function State(): Stores
      reads this
    {
      Stores(configs, entities)
    }

    constructor (definitions: seq<EntityTypeDef>, syncDirectory: string,
                 configs: map<string, Record>, entities: map<EntityKey, Record>)
      ensures this.definitions == definitions && this.syncDirectory == syncDirectory
      ensures State() == Stores(configs, entities)
    {
      this.definitions := definitions;
      this.syncDirectory := syncDirectory;
      this.configs := configs;
      this.entities := entities;
    }

    /** Imports `id` as a config entity or as simple configuration, whichever it classifies as. */
    method Import(id: string, path: string, disk: Disk) returns (r: Result<Imported, Error>)
      modifies this
      ensures Step(r, State()) == Reconcile.Import(old(State()), disk, definitions, syncDirectory, id, path)
    {
      var meta := GetConfigEntityMeta(definitions, id);
      if meta.Some? {
        r := ImportConfigEntity(id, meta.value.entityId, meta.value.entityType, path, disk);
      } else {
        r := ImportConfig(id, path, disk);
      }
    }

    /** Replaces the stored configuration object `id` by its export. */
    method ImportConfig(id: string, path: string, disk: Disk) returns (r: Result<Imported, Error>)
      modifies this
      ensures Step(r, State()) == Reconcile.ImportConfig(old(State()), disk, syncDirectory, id, path)
    {
      var dir := path;
      if dir == [] {
        dir := syncDirectory;
      }
      var read := ReadSource(disk, dir, id);
      if read.Failure? {
        return Failure(read.error);
      }
      configs := configs[id := read.value];
      r := Success(ConfigObject(id, read.value));
    }

    /**
     * Reads the export `configId` and updates the entity `entityId` of type
     * `entityType` key by key, or creates it from the export.
     */
    method ImportConfigEntity(configId: string, entityId: string, entityType: string, path: string, disk: Disk)
      returns (r: Result<Imported, Error>)
      modifies this
      ensures Step(r, State()) ==
        Reconcile.ImportConfigEntity(old(State()), disk, definitions, syncDirectory, configId, entityId, entityType, path)
    {
      var dir := path;
      if dir == [] {
        dir := syncDirectory;
      }
      var read := ReadSource(disk, dir, configId);
      if read.Failure? {
        return Failure(read.error);
      }
      if entityType !in RegisteredTypes(definitions) {
        return Failure(InvalidEntityType(entityType));
      }
      var key := EntityKey(entityType, entityId);
      var fields: Record;
      if key in entities {
        fields := SetEach(entities[key], read.value);
      } else {
        fields := read.value;
      }
      entities := entities[key := fields];
      r := Success(ConfigEntity(entityType, entityId, fields));
    }
  }

  /** Two imports of the same ID through the object return the same result and leave the stores as one import did. */
  method ImportTwice(importer: Importer, id: string, path: string, disk: Disk)
    returns (first: Result<Imported, Error>, second: Result<Imported, Error>)
    modifies importer
    ensures first == second
    ensures Step(second, importer.State()) ==
      Reconcile.Import(old(importer.State()), disk, importer.definitions, importer.syncDirectory, id, path)
  {
    first := importer.Import(id, path, disk);
    second := importer.Import(id, path, disk);
    ImportIdempotent(old(importer.State()), disk, importer.definitions, importer.syncDirectory, id, path);
  }
}
