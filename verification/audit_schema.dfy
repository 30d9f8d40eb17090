/** The flat record the audit processor produces, and the ways it can fail. */
module AuditSchema {
  import opened Avro
  import opened Jvm

  /**
   A `MetastoreAuditRecord` once its constructor and its `setEventInfo`,
   `setTableInfo`, `setOldInfo` and `setNewInfo` setters have run.
   */
  datatype AuditRecord = AuditRecord(
    // constructor
    server: JString,
    instance: JString,
    appName: JString,
    eventName: JString,
    eventType: JString,
    timestamp: Int64,
    // setEventInfo
    metastoreThriftUri: JString,
    metastoreVersion: JString,
    isSuccessful: JString,
    isDataDeleted: JString,
    // setTableInfo
    dbName: JString,
    tableName: JString,
    partition: JString,
    location: JString,
    owner: JString,
    createTime: Int64,
    lastAccessTime: Int64,
    // setOldInfo, setNewInfo
    oldInfo: JString,
    newInfo: JString)

  /** The exception that ends the processing of one message. */
  datatype AuditError =
      /** IllegalArgumentException: neither content block is present. */
    | UnknownEvent(message: Record)
      /** NullPointerException: the message has no audit header. */
    | MissingHeader
      /** NullPointerException: neither entity snapshot is present. */
    | MissingSnapshot
      /** NullPointerException: unboxing a null required `long`. */
    | MissingLong(field: string)
      /** ClassCastException: a required `long` holds some other kind of value. */
    | NotALong(field: string)
      /** ClassCastException: a value cast to `GenericData.Record` is not one. */
    | NotARecord(field: string)
}
