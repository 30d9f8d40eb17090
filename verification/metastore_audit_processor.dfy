/**
 The Metastore audit-event normaliser: one decoded audit message (a table or a
 partition event of the Hive metastore) becomes one flat `AuditRecord`.
 */
module MetastoreAuditProcessor {
  import opened Wrappers
  import opened Avro
  import opened Jvm
  import opened AuditSchema

  /** The code the processor calls but does not define; both are total, so neither throws. */
  datatype Env = Env(
    /** `Object.toString()` of a non-null decoded value, never null. */
    toString: Value -> string,
    /** `ClusterUtil.matchClusterCode`: raw server name to cluster code. */
    matchClusterCode: JString -> JString)

  const AUDIT_HEADER := "auditHeader"

  /** The two kinds of audit event, each with its own content block. */
  datatype Variant = Table | Partition {

    function EventName(): string {
      if Table? then "MetastoreTableAuditEvent" else "MetastorePartitionAuditEvent"
    }

    function ContentKey(): string {
      if Table? then "metastoreTableAuditContent" else "metastorePartitionAuditContent"
    }

    /** The content field holding the entity before the change. */
    function OldKey(): string {
      if Table? then "oldTable" else "oldPartition"
    }

    /** The content field holding the entity after the change. */
    function NewKey(): string {
      if Table? then "newTable" else "newPartition"
    }
  }

  /** The event metadata read from a content block. */
  datatype EventInfo = EventInfo(
    eventType: JString,
    metastoreThriftUri: JString,
    metastoreVersion: JString,
    timestamp: Int64,
    isSuccessful: JString,
    isDataDeleted: JString)

  /** The entity fields read from the effective snapshot. */
  datatype EntityInfo = EntityInfo(
    dbName: JString,
    tableName: JString,
    partition: JString,
    location: JString,
    owner: JString,
    createTime: Int64,
    lastAccessTime: Int64)

  /** The kind of event a message is: a table content block wins over a partition one. */
  function Dispatch(m: Record): (r: Option<Variant>)
    ensures r == Some(Table) <==> m.Get(Table.ContentKey()) != Null
    ensures r == Some(Partition) <==>
      m.Get(Table.ContentKey()) == Null && m.Get(Partition.ContentKey()) != Null
    ensures r.Some? ==> m.Get(r.value.ContentKey()) != Null
  {
    if m.Get(Table.ContentKey()) != Null then Some(Table)
    else if m.Get(Partition.ContentKey()) != Null then Some(Partition)
    else None
  }

  /**
   A cast to `GenericData.Record` whose result is then dereferenced: a null
   fails with `ifNull`, any other non-record with a ClassCastException.
   */
  function AsRecord(v: Value, field: string, ifNull: AuditError): (r: Result<Record, AuditError>)
    ensures r.Success? <==> v.Rec?
    ensures r.Success? ==> v == Rec(r.value)
    ensures v.Null? ==> r == Failure(ifNull)
    ensures !v.Null? && !v.Rec? ==> r == Failure(NotARecord(field))
  {
    match v
    case Rec(record) => Success(record)
    case Null => Failure(ifNull)
    case _ => Failure(NotARecord(field))
  }

  /** `(long) v` on an `Object`: a cast to `Long` followed by unboxing. */
  function UnboxLong(v: Value, field: string): (r: Result<Int64, AuditError>)
    ensures r.Success? <==> v.Long?
    ensures r.Success? ==> v == Long(r.value)
    ensures v.Null? ==> r == Failure(MissingLong(field))
    ensures !v.Null? && !v.Long? ==> r == Failure(NotALong(field))
  {
    match v
    case Long(n) => Success(n)
    case Null => Failure(MissingLong(field))
    case _ => Failure(NotALong(field))
  }

  /** The effective snapshot: the new entity when there is one, else the old one. */
  function Coalesce(newer: Value, older: Value): (r: Value)
    ensures r == newer || r == older
    ensures newer != Null ==> r == newer
    ensures r == Null <==> newer == Null && older == Null
  {
    if newer != Null then newer else older
  }

  /** The content field whose cast produces the effective snapshot. */
  function SnapshotKey(v: Variant, newer: Value): string {
    if newer != Null then v.NewKey() else v.OldKey()
  }

  /** The partition key stored for the primary key: a null partition becomes "?". */
  function PartitionKey(partition: JString): (key: JString)
    ensures key.Some?
    ensures partition.Some? ==> key == partition
    ensures partition.None? ==> key == Some("?")
  {
    if partition.Some? then partition else Some("?")
  }

  /** `e` holds the event metadata of the content block `c`. */
  predicate EventOf(env: Env, c: Record, e: EventInfo) {
    && e.eventType == ValueOf(env.toString, c.Get("eventType"))
    && e.metastoreThriftUri == ValueOf(env.toString, c.Get("metastoreThriftUri"))
    && e.metastoreVersion == ValueOf(env.toString, c.Get("metastoreVersion"))
    && c.Get("timestamp") == Long(e.timestamp)
    && e.isSuccessful == ValueOf(env.toString, c.Get("isSuccessful"))
    && e.isDataDeleted == ValueOf(env.toString, c.Get("isDataDeleted"))
  }

  /** `e` holds the entity fields of the snapshot `s`. */
  predicate EntityOf(env: Env, s: Record, e: EntityInfo) {
    && e.dbName == ValueOf(env.toString, s.Get("dbName"))
    && e.tableName == ValueOf(env.toString, s.Get("tableName"))
    && e.partition == ValueOf(env.toString, s.Get("values"))
    && e.location == ValueOf(env.toString, s.Get("location"))
    && e.owner == ValueOf(env.toString, s.Get("owner"))
    && s.Get("createTime") == Long(e.createTime)
    && s.Get("lastAccessTime") == Long(e.lastAccessTime)
  }

  /** Reads the event metadata of a content block; only the `timestamp` can fail. */
  function ReadEvent(env: Env, c: Record): (r: Result<EventInfo, AuditError>)
    ensures r.Success? <==> c.Get("timestamp").Long?
    ensures r.Success? ==> EventOf(env, c, r.value)
    ensures r.Failure? ==>
      r.error == (if c.Get("timestamp").Null? then MissingLong("timestamp") else NotALong("timestamp"))
  {
    var eventType := ValueOf(env.toString, c.Get("eventType"));
    var metastoreThriftUri := ValueOf(env.toString, c.Get("metastoreThriftUri"));
    var metastoreVersion := ValueOf(env.toString, c.Get("metastoreVersion"));
    var timestamp :- UnboxLong(c.Get("timestamp"), "timestamp");
    var isSuccessful := ValueOf(env.toString, c.Get("isSuccessful"));
    var isDataDeleted := ValueOf(env.toString, c.Get("isDataDeleted"));
    Success(EventInfo(eventType, metastoreThriftUri, metastoreVersion, timestamp, isSuccessful, isDataDeleted))
  }

  /**
   Reads the entity fields of the effective snapshot of the content block `c`
   of kind `v`: its new entity when present, otherwise its old one.
   */
  function ReadEntity(env: Env, v: Variant, c: Record): (r: Result<EntityInfo, AuditError>)
    ensures c.Get(v.NewKey()).Null? && c.Get(v.OldKey()).Null? ==> r == Failure(MissingSnapshot)
    ensures r.Success? ==> c.Get(v.NewKey()).Rec? || (c.Get(v.NewKey()).Null? && c.Get(v.OldKey()).Rec?)
    ensures r.Success? && c.Get(v.NewKey()).Rec? ==> EntityOf(env, c.Get(v.NewKey()).record, r.value)
    ensures r.Success? && c.Get(v.NewKey()).Null? ==> EntityOf(env, c.Get(v.OldKey()).record, r.value)
    ensures r.Failure? ==>
      r.error.MissingSnapshot? || r.error.NotARecord? || r.error.MissingLong? || r.error.NotALong?
  {
    var newInfo := c.Get(v.NewKey());
    var oldInfo := c.Get(v.OldKey());
    var snapshot :- AsRecord(Coalesce(newInfo, oldInfo), SnapshotKey(v, newInfo), MissingSnapshot);
    var dbName := ValueOf(env.toString, snapshot.Get("dbName"));
    var tableName := ValueOf(env.toString, snapshot.Get("tableName"));
    var partition := ValueOf(env.toString, snapshot.Get("values"));
    var location := ValueOf(env.toString, snapshot.Get("location"));
    var owner := ValueOf(env.toString, snapshot.Get("owner"));
    var createTime :- UnboxLong(snapshot.Get("createTime"), "createTime");
    var lastAccessTime :- UnboxLong(snapshot.Get("lastAccessTime"), "lastAccessTime");
    Success(EntityInfo(dbName, tableName, partition, location, owner, createTime, lastAccessTime))
  }

  /** The header fields of the record, read from `auditHeader`; these reads never fail. */
  datatype HeaderInfo = HeaderInfo(server: JString, instance: JString, appName: JString)

  /** Reads the header fields of the audit header `h`. */
  function ReadHeader(env: Env, h: Record): (r: HeaderInfo)
    ensures r.instance.Some? && r.appName.Some?
  {
    HeaderInfo(
      env.matchClusterCode(ValueOf(env.toString, h.Get("server"))),
      ValueOf(env.toString, h.Get("instance")),
      ValueOf(env.toString, h.Get("appName")))
  }

  /** The record built by the `MetastoreAuditRecord` constructor and its four setters. */
  function Assemble(v: Variant, header: HeaderInfo, event: EventInfo, entity: EntityInfo,
                    oldInfo: JString, newInfo: JString): (rec: AuditRecord)
    ensures rec.partition.Some?
    ensures entity.partition.Some? ==> rec.partition == entity.partition
    ensures entity.partition.None? ==> rec.partition == Some("?")
  {
    AuditRecord(
      header.server, header.instance, header.appName, Some(v.EventName()), event.eventType, event.timestamp,
      event.metastoreThriftUri, event.metastoreVersion, event.isSuccessful, event.isDataDeleted,
      entity.dbName, entity.tableName, PartitionKey(entity.partition), entity.location, entity.owner,
      entity.createTime, entity.lastAccessTime,
      oldInfo, newInfo)
  }

  /** Reads a content block of kind `v` into a record under the given header. */
  function ReadContent(env: Env, v: Variant, header: HeaderInfo, c: Record): (r: Result<AuditRecord, AuditError>)
    ensures r.Success? ==> r.value.eventName == Some(v.EventName()) && r.value.partition.Some?
  {
    var event :- ReadEvent(env, c);
    var entity :- ReadEntity(env, v, c);
    Success(Assemble(v, header, event, entity,
      ValueOf(env.toString, c.Get(v.OldKey())), ValueOf(env.toString, c.Get(v.NewKey()))))
  }

  /** `process` on a non-null message, step by step in the order of the source. */
  function Process(env: Env, m: Record): (r: Result<AuditRecord, AuditError>)
    ensures r.Success? ==> r.value.partition.Some?
    ensures r.Success? ==> r.value.eventName in {Some(Table.EventName()), Some(Partition.EventName())}
  {
    var h :- AsRecord(m.Get(AUDIT_HEADER), AUDIT_HEADER, MissingHeader);
    var header := ReadHeader(env, h);
    var variant :- Dispatch(m).ToResultOr(UnknownEvent(m));
    // Dispatch only picks a block that is present, so the null case of this cast never arises.
    var content :- AsRecord(m.Get(variant.ContentKey()), variant.ContentKey(), UnknownEvent(m));
    ReadContent(env, variant, header, content)
  }

  /**
   `MetastoreAuditProcessor.process(record, topic)`: no record for a null
   message, otherwise exactly one record or the exception that stopped it.
   */
  function Normalize(env: Env, message: Option<Record>, topic: string): (r: Result<Option<AuditRecord>, AuditError>)
    ensures message.None? ==> r == Success(None)
    ensures message.Some? && r.Success? ==> r.value.Some?
    ensures r.Failure? ==> message.Some?
  {
    match message
    case None => Success(None)
    case Some(m) =>
      var rec :- Process(env, m);
      Success(Some(rec))
  }
}
