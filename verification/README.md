# Metastore audit-event normaliser, in Dafny

WhereHows' metadata ETL consumes Hive metastore audit events from Kafka.
`MetastoreAuditProcessor.process(record, topic)` takes one decoded Avro audit
message and turns it into one flat `MetastoreAuditRecord`:

1. it decides the kind of event: a table event when the
   `metastoreTableAuditContent` block is present, otherwise a partition event
   when `metastorePartitionAuditContent` is, otherwise it throws;
2. it copies the audit header (`server` through `ClusterUtil.matchClusterCode`,
   `instance`, `appName`) and the event metadata (`eventType`,
   `metastoreThriftUri`, `metastoreVersion`, `timestamp`, `isSuccessful`,
   `isDataDeleted`);
3. it picks the effective entity snapshot, the new one (`newTable` /
   `newPartition`) if present, else the old one;
4. it reads `dbName`, `tableName`, `values`, `location`, `owner`, `createTime`
   and `lastAccessTime` from that snapshot, substituting `"?"` for a null
   partition;
5. it keeps `String.valueOf` renderings of both snapshots.

The model is functional. Files, one module each:

- `wrappers.dfy` (`Wrappers`): `Option` (a Java null is `None`) and `Result`
  (a value or the exception thrown instead).
- `avro.dfy` (`Avro`): decoded Avro data. A `Value` is a Java `Object` that may
  be null. The `Int`, `Bool`, `Text` and `Array` cases also stand for every
  other non-null Avro kind that is neither a Long nor a record (Double, Float,
  ByteBuffer, Map, EnumSymbol, Fixed). All of those fail both casts the same
  way. A `Record` is a `GenericData.Record`, its fields in schema order.
  `Record.Get` is `GenericData.Record.get(String)`: the value of the field of
  that name, or null when the schema has no such field.
- `jvm.dfy` (`Jvm`): Java `String` references (`JString`, where `None` is null)
  and `String.valueOf(Object)`.
- `audit_schema.dfy` (`AuditSchema`): the `AuditRecord` the constructor and
  setters build, and `AuditError`, the exceptions that end processing.
- `metastore_audit_processor.dfy` (`MetastoreAuditProcessor`): the processor,
  step by step in the order of the source. `Normalize` is `process`;
  `Process` is its body for a non-null message.
- `metastore_audit_properties.dfy` (`MetastoreAuditProperties`): a
  declarative description of the record a message should give (`Describes`),
  proved equivalent to `Process`, plus the behavioural lemmas: dispatch
  precedence, snapshot selection, failure points, fields that never fail,
  the dead `"?"` branch, and one worked example.

Code the processor calls but that is not part of this model is passed in as an
`Env`: `toString` is `Object.toString()` of the decoded values (Avro `Utf8`,
`Long`, arrays, records), and `matchClusterCode` is
`ClusterUtil.matchClusterCode`. Both are taken to be total and free of side
effects, so neither throws, and `toString` is taken to return a non-null
string (see "## Left out").

### Behaviour worth knowing

- The event names are `"MetastoreTableAuditEvent"` and
  `"MetastorePartitionAuditEvent"`.
- A message may carry both content blocks. The table block then wins and the
  partition block is never read (`TableBlockWins`).
- The `"?"` substitute for a null partition is unreachable. `String.valueOf`
  of a non-null value is its non-null `toString()`, and of null is `"null"`.
  So a snapshot without `values` gets the partition text `"null"`
  (`PartitionSentinelUnreachable`, `AlterTableExample`).
- A null audit header throws a NullPointerException at line 39
  (`MissingHeader`).
- Each `(GenericData.Record)` cast can throw a ClassCastException: header,
  content block and snapshot (`NotARecord`). Each `(long)` cast can throw
  one too (`NotALong`).

## Model

| member | source | states |
|---|---|---|
| `Avro.LookupSpec` | metadata-etl/src/main/java/metadata/etl/kafka/MetastoreAuditProcessor.java:38-81 | `get(name)` on a record gives null when no field has that name, otherwise the value of a field with that name |
| `Avro.LookupUnique` | metadata-etl/src/main/java/metadata/etl/kafka/MetastoreAuditProcessor.java:38-81 | on a record with unique field names (every Avro record), `get` gives exactly the value of the named field |
| `Jvm.ValueOf` | metadata-etl/src/main/java/metadata/etl/kafka/MetastoreAuditProcessor.java:75-79 | `String.valueOf` never returns null; it gives the text "null" exactly when the value is null or renders itself as "null" |
| `MetastoreAuditProcessor.Dispatch` | metadata-etl/src/main/java/metadata/etl/kafka/MetastoreAuditProcessor.java:48-64 | table event iff the table content block is non-null; partition event iff only the partition block is; no kind iff neither; the chosen kind's block is present |
| `MetastoreAuditProcessor.AsRecord` | metadata-etl/src/main/java/metadata/etl/kafka/MetastoreAuditProcessor.java:74-75 | a `(GenericData.Record)` cast plus dereference succeeds iff the value is a record and gives that record; null raises the site's NullPointerException; any other value raises a ClassCastException |
| `MetastoreAuditProcessor.UnboxLong` | metadata-etl/src/main/java/metadata/etl/kafka/MetastoreAuditProcessor.java:69 | `(long)` on an Object succeeds iff the value is a Long and gives its value; null fails as a missing long; any other kind fails the cast |
| `MetastoreAuditProcessor.Coalesce` | metadata-etl/src/main/java/metadata/etl/kafka/MetastoreAuditProcessor.java:73-74 | the effective snapshot is one of the two; it is the new one whenever that is non-null; it is null only when both are |
| `MetastoreAuditProcessor.PartitionKey` | metadata-etl/src/main/java/metadata/etl/kafka/MetastoreAuditProcessor.java:85-87 | the stored partition is never null: a non-null partition is kept unchanged and a null one becomes "?" |
| `MetastoreAuditProcessor.ReadHeader` | metadata-etl/src/main/java/metadata/etl/kafka/MetastoreAuditProcessor.java:38-41 | reading the header cannot fail, given that `toString` and `matchClusterCode` do not throw; `instance` and `appName` are never null |
| `MetastoreAuditProcessor.ReadEvent` | metadata-etl/src/main/java/metadata/etl/kafka/MetastoreAuditProcessor.java:66-71 | event metadata is read iff `timestamp` is a Long; the result holds the renderings of the five text fields and the timestamp; otherwise the error names `timestamp` as missing or ill-typed |
| `MetastoreAuditProcessor.ReadEntity` | metadata-etl/src/main/java/metadata/etl/kafka/MetastoreAuditProcessor.java:73-81 | both snapshots null gives the missing-snapshot failure; on success the entity fields are those of the new snapshot when present, else of the old one; only cast, null and missing-long failures occur |
| `MetastoreAuditProcessor.ReadContent` | metadata-etl/src/main/java/metadata/etl/kafka/MetastoreAuditProcessor.java:66-89 | a record read from a content block carries that block's event name and a non-null partition |
| `MetastoreAuditProcessor.Assemble` | metadata-etl/src/main/java/metadata/etl/kafka/MetastoreAuditProcessor.java:83-89 | the built record's partition is never null: it equals the read partition when that is non-null, and "?" when it is null |
| `MetastoreAuditProcessor.Process` | metadata-etl/src/main/java/metadata/etl/kafka/MetastoreAuditProcessor.java:35-90 | every record built has a non-null partition and one of the two event names |
| `MetastoreAuditProcessor.Normalize` | metadata-etl/src/main/java/metadata/etl/kafka/MetastoreAuditProcessor.java:31-92 | a null message gives no record and no failure; a non-null message gives a record or a failure, never neither |
| `MetastoreAuditProperties.ReadContentDescribes` | metadata-etl/src/main/java/metadata/etl/kafka/MetastoreAuditProcessor.java:66-89 | reading a content block gives exactly the record whose event fields, info texts and entity fields (new snapshot, else old) are those the description asks for |
| `MetastoreAuditProperties.ProcessSound` | metadata-etl/src/main/java/metadata/etl/kafka/MetastoreAuditProcessor.java:35-90 | every record produced is the described record of the message: header from `auditHeader`, table-first dispatch, event fields, new-over-old entity |
| `MetastoreAuditProperties.ProcessComplete` | metadata-etl/src/main/java/metadata/etl/kafka/MetastoreAuditProcessor.java:35-90 | whenever a record is described by a message, processing succeeds with exactly that record |
| `MetastoreAuditProperties.NormalizeSound` | metadata-etl/src/main/java/metadata/etl/kafka/MetastoreAuditProcessor.java:31-92 | on a non-null message `process` fails exactly when the body fails, and otherwise returns one record, the described one |
| `MetastoreAuditProperties.TopicIgnored` | metadata-etl/src/main/java/metadata/etl/kafka/MetastoreAuditProcessor.java:31-35 | the result never depends on the topic; a null message is a no-op |
| `MetastoreAuditProperties.TableBlockWins` | metadata-etl/src/main/java/metadata/etl/kafka/MetastoreAuditProcessor.java:49-54 | with a table content block present, replacing the partition content block by anything leaves the outcome identical |
| `MetastoreAuditProperties.PartitionBlockFallback` | metadata-etl/src/main/java/metadata/etl/kafka/MetastoreAuditProcessor.java:56-61 | with only the partition block present, a record is a `MetastorePartitionAuditEvent` read from `oldPartition`/`newPartition` |
| `MetastoreAuditProperties.UnknownEventIff` | metadata-etl/src/main/java/metadata/etl/kafka/MetastoreAuditProcessor.java:62-64 | the unknown-event exception is raised exactly when the header is a record and neither content block is present |
| `MetastoreAuditProperties.HeaderFailures` | metadata-etl/src/main/java/metadata/etl/kafka/MetastoreAuditProcessor.java:38-39 | a null audit header fails with a NullPointerException and a non-record one with a ClassCastException, before anything else |
| `MetastoreAuditProperties.ContentNotARecord` | metadata-etl/src/main/java/metadata/etl/kafka/MetastoreAuditProcessor.java:49-61 | a present content block that is not a record fails its cast |
| `MetastoreAuditProperties.ContentFailures` | metadata-etl/src/main/java/metadata/etl/kafka/MetastoreAuditProcessor.java:69-75 | a null or ill-typed `timestamp` fails first; after it, the missing-snapshot failure happens exactly when both snapshots are null; a non-record effective snapshot fails its cast |
| `MetastoreAuditProperties.SnapshotLongFailures` | metadata-etl/src/main/java/metadata/etl/kafka/MetastoreAuditProcessor.java:75-81 | `createTime` then `lastAccessTime` of the effective snapshot must be Longs, each failing as missing or ill-typed; when both are, processing succeeds |
| `MetastoreAuditProperties.SnapshotSelection` | metadata-etl/src/main/java/metadata/etl/kafka/MetastoreAuditProcessor.java:73-81 | all seven entity fields come from the new snapshot when it is present, and from the old one when it is not |
| `MetastoreAuditProperties.OldSnapshotIgnored` | metadata-etl/src/main/java/metadata/etl/kafka/MetastoreAuditProcessor.java:73-89 | with the new snapshot present, replacing the old snapshot by anything changes neither success nor any field but the old-info text |
| `MetastoreAuditProperties.HeaderNeverFails` | metadata-etl/src/main/java/metadata/etl/kafka/MetastoreAuditProcessor.java:38-41 | changing any field of the audit header never changes whether processing succeeds, given that `toString` and `matchClusterCode` do not throw |
| `MetastoreAuditProperties.EventTextNeverFails` | metadata-etl/src/main/java/metadata/etl/kafka/MetastoreAuditProcessor.java:66-71 | changing any content field other than `timestamp` and the two snapshots never changes whether processing succeeds, given that `toString` does not throw |
| `MetastoreAuditProperties.EntityTextNeverFails` | metadata-etl/src/main/java/metadata/etl/kafka/MetastoreAuditProcessor.java:75-81 | changing any field of the effective snapshot other than `createTime` and `lastAccessTime` never changes whether processing succeeds, given that `toString` does not throw |
| `MetastoreAuditProperties.PartitionSentinelUnreachable` | metadata-etl/src/main/java/metadata/etl/kafka/MetastoreAuditProcessor.java:77-87 | the stored partition is `String.valueOf` of the effective snapshot's `values`: "null" when that is absent, and "?" only when the value itself renders as "?" |
| `MetastoreAuditProperties.InfoTextsKeepBothSides` | metadata-etl/src/main/java/metadata/etl/kafka/MetastoreAuditProcessor.java:88-89 | the old- and new-info texts render the two snapshots whichever fed the entity fields, and an absent side renders as "null" |
| `MetastoreAuditProperties.AlterTableExample` | metadata-etl/src/main/java/metadata/etl/kafka/MetastoreAuditProcessor.java:73-89 | an ALTER TABLE message with both snapshots and no `values` gives event type "ALTER", timestamp 1000, location "/new", owner "o2", lastAccessTime 3 and partition "null", not "?" |

## Left out

- Avro decoding and schemas. A message arrives already decoded as a `Record`.
  The schema guarantee that field names are unique is the predicate
  `UniqueNames`; only `LookupUnique` uses it.
- `get` of a name the schema lacks is modelled as returning null. Some Avro
  versions throw instead. If a snapshot schema has no `values` field, its
  partition then renders as `"null"`.
- `Env.toString`: `toString` is taken to return a non-null string. This holds
  for every Avro generic value class: `Utf8`, boxed numbers, `ByteBuffer`,
  `GenericData.Record`, `GenericData.Array`, `GenericData.EnumSymbol`,
  `GenericData.Fixed` and maps. A `toString` that returned null would make
  `String.valueOf` return null. The partition would then reach the `"?"`
  branch, and `Jvm.ValueOf` and `PartitionSentinelUnreachable` would not
  hold for it.
- `Object.toString()` of Avro values and `ClusterUtil.matchClusterCode`
  belong to other code. Both are uninterpreted total functions.
  `matchClusterCode` may return null, so the record's `server` is not claimed
  non-null.
- Exceptions thrown by `toString` or `matchClusterCode`. They could come from
  `matchClusterCode` at line 39 or from any `String.valueOf`, and the model
  has no case for them. `MetastoreAuditProcessor.ReadHeader`,
  `MetastoreAuditProperties.HeaderNeverFails`,
  `MetastoreAuditProperties.EventTextNeverFails` and
  `MetastoreAuditProperties.EntityTextNeverFails` rest on that assumption:
  "never fails" means no failure from the source's own casts and reads.
- The `KafkaConsumerProcessor` base class, Kafka polling, offsets and the
  topic. The topic is a parameter that is never read.
- Persisting and serialising `MetastoreAuditRecord`. The constructor and the
  four setters become one immutable `AuditRecord` value.
- The text of exception messages and the exact Java exception classes.
  `AuditError` keeps one case per failure point. The unknown-event case
  carries the offending message, as the source's message text does.
- Concurrency. The method is stateless.
