/**
 What `process` promises about the records it builds, stated independently of
 the step-by-step definition and proved against it.
 */
module MetastoreAuditProperties {
  import opened Wrappers
  import opened Avro
  import opened Jvm
  import opened AuditSchema
  import opened MetastoreAuditProcessor

  /** The content fields that become the event metadata. */
  const EVENT_KEYS: set<string> :=
    {"eventType", "metastoreThriftUri", "metastoreVersion", "timestamp", "isSuccessful", "isDataDeleted"}

  /** The event metadata part of an audit record. */
  function EventPart(rec: AuditRecord): EventInfo {
    EventInfo(rec.eventType, rec.metastoreThriftUri, rec.metastoreVersion, rec.timestamp,
      rec.isSuccessful, rec.isDataDeleted)
  }

  /** The entity part of an audit record. */
  function EntityPart(rec: AuditRecord): EntityInfo {
    EntityInfo(rec.dbName, rec.tableName, rec.partition, rec.location, rec.owner,
      rec.createTime, rec.lastAccessTime)
  }

  /** The header fields of `rec` are those of the audit header `h`. */
  predicate HeaderFrom(env: Env, h: Record, rec: AuditRecord) {
    && rec.server == env.matchClusterCode(ValueOf(env.toString, h.Get("server")))
    && rec.instance == ValueOf(env.toString, h.Get("instance"))
    && rec.appName == ValueOf(env.toString, h.Get("appName"))
  }

  /**
   The event fields of `rec` are those of the content block `c` of kind `v`,
   and it keeps the renderings of both snapshots, whichever was used.
   */
  predicate EventFrom(env: Env, v: Variant, c: Record, rec: AuditRecord) {
    && rec.eventName == Some(v.EventName())
    && EventOf(env, c, EventPart(rec))
    && rec.oldInfo == ValueOf(env.toString, c.Get(v.OldKey()))
    && rec.newInfo == ValueOf(env.toString, c.Get(v.NewKey()))
  }

  /**
   `rec` is the audit record of the content block `c` of kind `v`: the entity
   fields come from its new snapshot when that is present and from its old
   snapshot when it is not.
   */
  predicate ContentDescribes(env: Env, v: Variant, c: Record, rec: AuditRecord) {
    && EventFrom(env, v, c, rec)
    && var newer := c.Get(v.NewKey());
    && var older := c.Get(v.OldKey());
    && ((newer.Rec? && EntityOf(env, newer.record, EntityPart(rec)))
        || (newer.Null? && older.Rec? && EntityOf(env, older.record, EntityPart(rec))))
  }

  /** `rec` is the audit record of `m` read as an event of kind `v`. */
  predicate DescribesAs(env: Env, m: Record, v: Variant, rec: AuditRecord) {
    && m.Get(AUDIT_HEADER).Rec?
    && HeaderFrom(env, m.Get(AUDIT_HEADER).record, rec)
    && m.Get(v.ContentKey()).Rec?
    && ContentDescribes(env, v, m.Get(v.ContentKey()).record, rec)
  }

  /**
   `rec` is the audit record of `m`: a table event when the table content
   block is present, whatever else is, and a partition event otherwise.
   */
  predicate Describes(env: Env, m: Record, rec: AuditRecord) {
    if m.Get(Table.ContentKey()) != Null then DescribesAs(env, m, Table, rec)
    else DescribesAs(env, m, Partition, rec)
  }

  /** A successful `process` is the reading of the dispatched content block under the header. */
  lemma ProcessSucceeds(env: Env, m: Record)
    requires Process(env, m).Success?
    ensures m.Get(AUDIT_HEADER).Rec? && Dispatch(m).Some?
    ensures m.Get(Dispatch(m).value.ContentKey()).Rec?
    ensures Process(env, m) == ReadContent(env, Dispatch(m).value,
      ReadHeader(env, m.Get(AUDIT_HEADER).record), m.Get(Dispatch(m).value.ContentKey()).record)
  {
  }

  /** Reading a content block gives the record the description asks for, and only that one. */
  lemma ReadContentDescribes(env: Env, v: Variant, header: HeaderInfo, c: Record, rec: AuditRecord)
    ensures ReadContent(env, v, header, c) == Success(rec) <==>
      ContentDescribes(env, v, c, rec) && (rec.server, rec.instance, rec.appName) == (header.server, header.instance, header.appName)
  {
    if ReadContent(env, v, header, c) == Success(rec) {
      assert ReadEvent(env, c) == Success(EventPart(rec));
      assert ReadEntity(env, v, c) == Success(EntityPart(rec));
    }
    if ContentDescribes(env, v, c, rec) && (rec.server, rec.instance, rec.appName) == (header.server, header.instance, header.appName) {
      assert ReadEvent(env, c) == Success(EventPart(rec));
      assert ReadEntity(env, v, c) == Success(EntityPart(rec));
    }
  }

  /** Every record `process` returns is the one the description asks for. */
  lemma ProcessSound(env: Env, m: Record)
    ensures Process(env, m).Success? ==> Describes(env, m, Process(env, m).value)
  {
    if Process(env, m).Success? {
      ProcessSucceeds(env, m);
      var v := Dispatch(m).value;
      ReadContentDescribes(env, v, ReadHeader(env, m.Get(AUDIT_HEADER).record),
        m.Get(v.ContentKey()).record, Process(env, m).value);
    }
  }

  /** Every record the description asks for is the one `process` returns. */
  lemma ProcessComplete(env: Env, m: Record, rec: AuditRecord)
    requires Describes(env, m, rec)
    ensures Process(env, m) == Success(rec)
  {
    var v := if m.Get(Table.ContentKey()) != Null then Table else Partition;
    assert DescribesAs(env, m, v, rec);
    assert Dispatch(m) == Some(v);
    ReadContentDescribes(env, v, ReadHeader(env, m.Get(AUDIT_HEADER).record),
      m.Get(v.ContentKey()).record, rec);
  }

  /** On a non-null message, `process` returns a record exactly when the step-by-step reading succeeds, and that record is the described one. */
  lemma NormalizeSound(env: Env, m: Record, topic: string)
    ensures Normalize(env, Some(m), topic).Failure? <==> Process(env, m).Failure?
    ensures Normalize(env, Some(m), topic).Success? ==>
      && Normalize(env, Some(m), topic).value.Some?
      && Describes(env, m, Normalize(env, Some(m), topic).value.value)
  {
    ProcessSound(env, m);
  }

  /** The topic never matters, and a null message is a no-op. */
  lemma TopicIgnored(env: Env, message: Option<Record>, topic1: string, topic2: string)
    ensures Normalize(env, message, topic1) == Normalize(env, message, topic2)
    ensures message.None? ==> Normalize(env, message, topic1) == Success(None)
  {
  }

  /** Once the header is a record and the dispatched content block is one, `process` is the reading of that block. */
  lemma ProcessUnfold(env: Env, m: Record, v: Variant, c: Record)
    requires m.Get(AUDIT_HEADER).Rec?
    requires Dispatch(m) == Some(v)
    requires m.Get(v.ContentKey()) == Rec(c)
    ensures Process(env, m) == ReadContent(env, v, ReadHeader(env, m.Get(AUDIT_HEADER).record), c)
  {
  }

  /** A table content block decides the outcome alone: the partition block is never read. */
  lemma TableBlockWins(env: Env, m: Record, x: Value)
    requires m.Get(Table.ContentKey()) != Null
    ensures Process(env, SetField(m, Partition.ContentKey(), x)) == Process(env, m)
  {
    var m' := SetField(m, Partition.ContentKey(), x);
    GetSetFieldOther(m, Partition.ContentKey(), x);
    assert m'.Get(AUDIT_HEADER) == m.Get(AUDIT_HEADER);
    assert m'.Get(Table.ContentKey()) == m.Get(Table.ContentKey());
  }

  /** With no table content block, a present partition block makes a partition event. */
  lemma PartitionBlockFallback(env: Env, m: Record)
    requires m.Get(Table.ContentKey()) == Null && m.Get(Partition.ContentKey()) != Null
    requires Process(env, m).Success?
    ensures Process(env, m).value.eventName == Some("MetastorePartitionAuditEvent")
    ensures DescribesAs(env, m, Partition, Process(env, m).value)
  {
    ProcessSound(env, m);
  }

  /** The unknown-event failure happens exactly when neither content block is present. */
  lemma UnknownEventIff(env: Env, m: Record)
    ensures Process(env, m) == Failure(UnknownEvent(m)) <==>
      m.Get(AUDIT_HEADER).Rec? && m.Get(Table.ContentKey()) == Null && m.Get(Partition.ContentKey()) == Null
  {
    if m.Get(AUDIT_HEADER).Rec? && Dispatch(m).Some? {
      var v := Dispatch(m).value;
      if m.Get(v.ContentKey()).Rec? {
        var c := m.Get(v.ContentKey()).record;
        ProcessUnfold(env, m, v, c);
      }
    }
  }

  /** A message whose audit header is missing or not a record fails before anything else. */
  lemma HeaderFailures(env: Env, m: Record)
    ensures m.Get(AUDIT_HEADER) == Null ==> Process(env, m) == Failure(MissingHeader)
    ensures !m.Get(AUDIT_HEADER).Null? && !m.Get(AUDIT_HEADER).Rec? ==>
      Process(env, m) == Failure(NotARecord(AUDIT_HEADER))
  {
  }

  /** A content block that is present but not a record fails the cast. */
  lemma ContentNotARecord(env: Env, m: Record, v: Variant)
    requires m.Get(AUDIT_HEADER).Rec? && Dispatch(m) == Some(v)
    requires !m.Get(v.ContentKey()).Rec?
    ensures Process(env, m) == Failure(NotARecord(v.ContentKey()))
  {
  }

  /**
   Inside the dispatched content block, the failures in source order: the
   `timestamp` first, then the missing snapshot, then the snapshot's cast.
   */
  lemma ContentFailures(env: Env, m: Record, v: Variant, c: Record)
    requires m.Get(AUDIT_HEADER).Rec? && Dispatch(m) == Some(v) && m.Get(v.ContentKey()) == Rec(c)
    ensures c.Get("timestamp").Null? ==> Process(env, m) == Failure(MissingLong("timestamp"))
    ensures !c.Get("timestamp").Null? && !c.Get("timestamp").Long? ==>
      Process(env, m) == Failure(NotALong("timestamp"))
    ensures c.Get("timestamp").Long? ==>
      (Process(env, m) == Failure(MissingSnapshot) <==> c.Get(v.NewKey()).Null? && c.Get(v.OldKey()).Null?)
    ensures c.Get("timestamp").Long? ==>
      var s := Coalesce(c.Get(v.NewKey()), c.Get(v.OldKey()));
      !s.Null? && !s.Rec? ==> Process(env, m) == Failure(NotARecord(SnapshotKey(v, c.Get(v.NewKey()))))
  {
    ProcessUnfold(env, m, v, c);
  }

  /** The effective snapshot's `createTime` and then `lastAccessTime` are required longs. */
  lemma SnapshotLongFailures(env: Env, m: Record, v: Variant, c: Record, s: Record)
    requires m.Get(AUDIT_HEADER).Rec? && Dispatch(m) == Some(v) && m.Get(v.ContentKey()) == Rec(c)
    requires c.Get("timestamp").Long?
    requires Coalesce(c.Get(v.NewKey()), c.Get(v.OldKey())) == Rec(s)
    ensures s.Get("createTime").Null? ==> Process(env, m) == Failure(MissingLong("createTime"))
    ensures !s.Get("createTime").Null? && !s.Get("createTime").Long? ==>
      Process(env, m) == Failure(NotALong("createTime"))
    ensures s.Get("createTime").Long? && s.Get("lastAccessTime").Null? ==>
      Process(env, m) == Failure(MissingLong("lastAccessTime"))
    ensures s.Get("createTime").Long? && !s.Get("lastAccessTime").Null? && !s.Get("lastAccessTime").Long? ==>
      Process(env, m) == Failure(NotALong("lastAccessTime"))
    ensures s.Get("createTime").Long? && s.Get("lastAccessTime").Long? ==> Process(env, m).Success?
  {
    ProcessUnfold(env, m, v, c);
  }

  /** The entity fields come from the new snapshot when present, otherwise from the old one. */
  lemma SnapshotSelection(env: Env, m: Record, v: Variant, c: Record)
    requires Dispatch(m) == Some(v) && m.Get(v.ContentKey()) == Rec(c)
    requires Process(env, m).Success?
    ensures !c.Get(v.NewKey()).Null? ==>
      c.Get(v.NewKey()).Rec? && EntityOf(env, c.Get(v.NewKey()).record, EntityPart(Process(env, m).value))
    ensures c.Get(v.NewKey()).Null? ==>
      c.Get(v.OldKey()).Rec? && EntityOf(env, c.Get(v.OldKey()).record, EntityPart(Process(env, m).value))
  {
    ProcessSound(env, m);
    assert DescribesAs(env, m, v, Process(env, m).value);
  }

  /** Reading the event metadata looks at nothing but its six fields. */
  lemma ReadEventCongruent(env: Env, c: Record, c': Record)
    requires forall k | k in EVENT_KEYS :: c'.Get(k) == c.Get(k)
    ensures ReadEvent(env, c') == ReadEvent(env, c)
  {
    assert "eventType" in EVENT_KEYS && "metastoreThriftUri" in EVENT_KEYS && "metastoreVersion" in EVENT_KEYS;
    assert "timestamp" in EVENT_KEYS && "isSuccessful" in EVENT_KEYS && "isDataDeleted" in EVENT_KEYS;
  }

  /** A `put` on the dispatched content block leaves the header and the dispatch as they were. */
  lemma PutContent(m: Record, v: Variant, c': Record)
    requires Dispatch(m) == Some(v)
    ensures SetField(m, v.ContentKey(), Rec(c')).Get(v.ContentKey()) == Rec(c')
    ensures SetField(m, v.ContentKey(), Rec(c')).Get(AUDIT_HEADER) == m.Get(AUDIT_HEADER)
    ensures Dispatch(SetField(m, v.ContentKey(), Rec(c'))) == Some(v)
  {
    PresentHasField(m, v.ContentKey());
    GetSetFieldSame(m, v.ContentKey(), Rec(c'));
    LookupWithOther(m.fields, v.ContentKey(), Rec(c'), AUDIT_HEADER);
    if v.Partition? {
      LookupWithOther(m.fields, v.ContentKey(), Rec(c'), Table.ContentKey());
    }
  }

  /** A `put` on a field outside the event metadata leaves the event metadata unchanged. */
  lemma PutOutsideEvent(env: Env, c: Record, f: string, x: Value)
    requires f !in EVENT_KEYS
    ensures ReadEvent(env, SetField(c, f, x)) == ReadEvent(env, c)
  {
    forall k | k in EVENT_KEYS
      ensures SetField(c, f, x).Get(k) == c.Get(k)
    {
      LookupWithOther(c.fields, f, x, k);
    }
    ReadEventCongruent(env, c, SetField(c, f, x));
  }

  /** The snapshot fields are not event metadata. */
  lemma SnapshotKeysOutsideEvent(v: Variant)
    ensures v.OldKey() !in EVENT_KEYS && v.NewKey() !in EVENT_KEYS
  {
  }

  /**
   Two content blocks with the same event metadata and the same new snapshot
   give the same record but for the old-info text.
   */
  lemma ReadContentOldInfo(env: Env, v: Variant, header: HeaderInfo, c: Record, c': Record)
    requires ReadEvent(env, c') == ReadEvent(env, c)
    requires c.Get(v.NewKey()) != Null && c'.Get(v.NewKey()) == c.Get(v.NewKey())
    ensures ReadContent(env, v, header, c').Success? == ReadContent(env, v, header, c).Success?
    ensures ReadContent(env, v, header, c).Success? ==>
      ReadContent(env, v, header, c').value ==
      ReadContent(env, v, header, c).value.(oldInfo := ValueOf(env.toString, c'.Get(v.OldKey())))
  {
    assert ReadEntity(env, v, c') == ReadEntity(env, v, c);
  }

  /**
   When the new snapshot is present, the old one can hold anything: the
   outcome is the same and only the old-info text changes.
   */
  lemma OldSnapshotIgnored(env: Env, m: Record, v: Variant, c: Record, x: Value)
    requires Dispatch(m) == Some(v) && m.Get(v.ContentKey()) == Rec(c)
    requires c.Get(v.NewKey()) != Null && HasField(c.fields, v.OldKey())
    ensures var m' := SetField(m, v.ContentKey(), Rec(SetField(c, v.OldKey(), x)));
      && Process(env, m').Success? == Process(env, m).Success?
      && (Process(env, m).Success? ==>
            Process(env, m').value == Process(env, m).value.(oldInfo := ValueOf(env.toString, x)))
  {
    var c' := SetField(c, v.OldKey(), x);
    var m' := SetField(m, v.ContentKey(), Rec(c'));
    PutContent(m, v, c');
    GetSetFieldSame(c, v.OldKey(), x);
    LookupWithOther(c.fields, v.OldKey(), x, v.NewKey());
    SnapshotKeysOutsideEvent(v);
    PutOutsideEvent(env, c, v.OldKey(), x);
    if m.Get(AUDIT_HEADER).Rec? {
      var header := ReadHeader(env, m.Get(AUDIT_HEADER).record);
      ProcessUnfold(env, m, v, c);
      ProcessUnfold(env, m', v, c');
      ReadContentOldInfo(env, v, header, c, c');
    }
  }

  /** Reading a content block succeeds exactly when its `timestamp` and the effective snapshot's two times are longs. */
  lemma ReadContentSuccess(env: Env, v: Variant, header: HeaderInfo, c: Record)
    ensures ReadContent(env, v, header, c).Success? <==>
      && c.Get("timestamp").Long?
      && var s := Coalesce(c.Get(v.NewKey()), c.Get(v.OldKey()));
      && s.Rec?
      && s.record.Get("createTime").Long?
      && s.record.Get("lastAccessTime").Long?
  {
  }

  /** Nothing inside the audit header can make processing fail. */
  lemma HeaderNeverFails(env: Env, m: Record, h: Record, f: string, x: Value)
    requires m.Get(AUDIT_HEADER) == Rec(h)
    ensures Process(env, SetField(m, AUDIT_HEADER, Rec(SetField(h, f, x)))).Success? ==
            Process(env, m).Success?
  {
    var m' := SetField(m, AUDIT_HEADER, Rec(SetField(h, f, x)));
    PresentHasField(m, AUDIT_HEADER);
    GetSetFieldSame(m, AUDIT_HEADER, Rec(SetField(h, f, x)));
    LookupWithOther(m.fields, AUDIT_HEADER, Rec(SetField(h, f, x)), Table.ContentKey());
    LookupWithOther(m.fields, AUDIT_HEADER, Rec(SetField(h, f, x)), Partition.ContentKey());
    assert Dispatch(m') == Dispatch(m);
    if Dispatch(m).Some? && m.Get(Dispatch(m).value.ContentKey()).Rec? {
      var v := Dispatch(m).value;
      var c := m.Get(v.ContentKey()).record;
      ProcessUnfold(env, m, v, c);
      ProcessUnfold(env, m', v, c);
      ReadContentSuccess(env, v, ReadHeader(env, h), c);
      ReadContentSuccess(env, v, ReadHeader(env, SetField(h, f, x)), c);
    }
  }

  /**
   No field of the content block other than `timestamp` and the two
   snapshots can make processing fail: the rest are only rendered as text.
   */
  lemma EventTextNeverFails(env: Env, m: Record, v: Variant, c: Record, f: string, x: Value)
    requires Dispatch(m) == Some(v) && m.Get(v.ContentKey()) == Rec(c)
    requires f != "timestamp" && f != v.OldKey() && f != v.NewKey()
    ensures Process(env, SetField(m, v.ContentKey(), Rec(SetField(c, f, x)))).Success? ==
            Process(env, m).Success?
  {
    var c' := SetField(c, f, x);
    var m' := SetField(m, v.ContentKey(), Rec(c'));
    PutContent(m, v, c');
    LookupWithOther(c.fields, f, x, "timestamp");
    LookupWithOther(c.fields, f, x, v.NewKey());
    LookupWithOther(c.fields, f, x, v.OldKey());
    if m.Get(AUDIT_HEADER).Rec? {
      var header := ReadHeader(env, m.Get(AUDIT_HEADER).record);
      ProcessUnfold(env, m, v, c);
      ProcessUnfold(env, m', v, c');
      ReadContentSuccess(env, v, header, c);
      ReadContentSuccess(env, v, header, c');
    }
  }

  /** A `put` of the effective snapshot makes the new value the effective snapshot and keeps the `timestamp`. */
  lemma PutEffectiveSnapshot(v: Variant, c: Record, s': Record)
    requires c.Get(SnapshotKey(v, c.Get(v.NewKey()))).Rec?
    ensures var c' := SetField(c, SnapshotKey(v, c.Get(v.NewKey())), Rec(s'));
      && c'.Get("timestamp") == c.Get("timestamp")
      && Coalesce(c'.Get(v.NewKey()), c'.Get(v.OldKey())) == Rec(s')
  {
    var k := SnapshotKey(v, c.Get(v.NewKey()));
    PresentHasField(c, k);
    GetSetFieldSame(c, k, Rec(s'));
    SnapshotKeysOutsideEvent(v);
    assert "timestamp" in EVENT_KEYS;
    LookupWithOther(c.fields, k, Rec(s'), "timestamp");
    if k == v.OldKey() {
      LookupWithOther(c.fields, k, Rec(s'), v.NewKey());
    }
  }

  /**
   No field of the effective snapshot other than `createTime` and
   `lastAccessTime` can make processing fail.
   */
  lemma EntityTextNeverFails(env: Env, m: Record, v: Variant, c: Record, s: Record, f: string, x: Value)
    requires Dispatch(m) == Some(v) && m.Get(v.ContentKey()) == Rec(c)
    requires c.Get(SnapshotKey(v, c.Get(v.NewKey()))) == Rec(s)
    requires f != "createTime" && f != "lastAccessTime"
    ensures var k := SnapshotKey(v, c.Get(v.NewKey()));
      Process(env, SetField(m, v.ContentKey(), Rec(SetField(c, k, Rec(SetField(s, f, x)))))).Success? ==
      Process(env, m).Success?
  {
    var k := SnapshotKey(v, c.Get(v.NewKey()));
    var s' := SetField(s, f, x);
    var c' := SetField(c, k, Rec(s'));
    var m' := SetField(m, v.ContentKey(), Rec(c'));
    PutContent(m, v, c');
    PutEffectiveSnapshot(v, c, s');
    LookupWithOther(s.fields, f, x, "createTime");
    LookupWithOther(s.fields, f, x, "lastAccessTime");
    if m.Get(AUDIT_HEADER).Rec? {
      var header := ReadHeader(env, m.Get(AUDIT_HEADER).record);
      ProcessUnfold(env, m, v, c);
      ProcessUnfold(env, m', v, c');
      ReadContentSuccess(env, v, header, c);
      ReadContentSuccess(env, v, header, c');
    }
  }

  /**
   The "?" substitution never fires: `String.valueOf` never yields null, so
   the stored partition is the rendering of the effective snapshot's
   `values`, and the text "null" when it has none.
   */
  lemma PartitionSentinelUnreachable(env: Env, m: Record, v: Variant, c: Record)
    requires Dispatch(m) == Some(v) && m.Get(v.ContentKey()) == Rec(c)
    requires Process(env, m).Success?
    ensures var s := Coalesce(c.Get(v.NewKey()), c.Get(v.OldKey()));
      && s.Rec?
      && Process(env, m).value.partition == ValueOf(env.toString, s.record.Get("values"))
      && (s.record.Get("values") == Null ==> Process(env, m).value.partition == Some("null"))
      && (Process(env, m).value.partition == Some("?") ==>
            s.record.Get("values") != Null && env.toString(s.record.Get("values")) == "?")
  {
    SnapshotSelection(env, m, v, c);
  }

  /**
   The old-info and new-info texts render the two snapshots as they are,
   whichever one fed the entity fields; an absent side renders as "null".
   */
  lemma InfoTextsKeepBothSides(env: Env, m: Record, v: Variant, c: Record)
    requires Dispatch(m) == Some(v) && m.Get(v.ContentKey()) == Rec(c)
    requires Process(env, m).Success?
    ensures Process(env, m).value.oldInfo == ValueOf(env.toString, c.Get(v.OldKey()))
    ensures Process(env, m).value.newInfo == ValueOf(env.toString, c.Get(v.NewKey()))
    ensures c.Get(v.OldKey()).Null? ==> Process(env, m).value.oldInfo == Some("null")
    ensures c.Get(v.NewKey()).Null? ==> Process(env, m).value.newInfo == Some("null")
  {
    ProcessSound(env, m);
    assert DescribesAs(env, m, v, Process(env, m).value);
  }

  /** The example's table before the change. */
  function OldTable(): Record {
    Record([
      Field("values", Null), Field("location", Text("/old")), Field("owner", Text("o")),
      Field("createTime", Long(1)), Field("lastAccessTime", Long(2))])
  }

  /** The example's table after the change. */
  function NewTable(): Record {
    Record([
      Field("values", Null), Field("location", Text("/new")), Field("owner", Text("o2")),
      Field("createTime", Long(1)), Field("lastAccessTime", Long(3))])
  }

  /**
   An ALTER TABLE event whose table has no partition values. The fields
   `AlterTableExample` does not check are left out, which `get` reads as null.
   */
  function AlterTableMessage(): Record {
    Record([
      Field(AUDIT_HEADER, Rec(Record([]))),
      Field("metastoreTableAuditContent", Rec(Record([
        Field("timestamp", Long(1000)),
        Field("oldTable", Rec(OldTable())),
        Field("newTable", Rec(NewTable())),
        Field("eventType", Text("ALTER"))])))])
  }

  /**
   The ALTER TABLE example: the entity fields come from the new table, and
   the partition key is the text "null", not "?".
   */
  lemma AlterTableExample(env: Env)
    requires env.toString(Text("ALTER")) == "ALTER"
    requires env.toString(Text("/new")) == "/new" && env.toString(Text("o2")) == "o2"
    ensures Process(env, AlterTableMessage()).Success?
    ensures Process(env, AlterTableMessage()).value.eventName == Some("MetastoreTableAuditEvent")
    ensures Process(env, AlterTableMessage()).value.eventType == Some("ALTER")
    ensures Process(env, AlterTableMessage()).value.timestamp == 1000
    ensures Process(env, AlterTableMessage()).value.partition == Some("null")
    ensures Process(env, AlterTableMessage()).value.location == Some("/new")
    ensures Process(env, AlterTableMessage()).value.owner == Some("o2")
    ensures Process(env, AlterTableMessage()).value.lastAccessTime == 3
  {
    var m := AlterTableMessage();
    var c := m.Get(Table.ContentKey()).record;
    assert c.Get("newTable") == Rec(NewTable());
    assert c.Get("eventType") == Text("ALTER");
    TableEventFromNewSnapshot(env, m, c, NewTable());
  }

  /** A table event whose new snapshot `s` has long times gives a record with the entity of `s`. */
  lemma TableEventFromNewSnapshot(env: Env, m: Record, c: Record, s: Record)
    requires m.Get(AUDIT_HEADER).Rec? && Dispatch(m) == Some(Table) && m.Get(Table.ContentKey()) == Rec(c)
    requires c.Get("timestamp").Long? && c.Get(Table.NewKey()) == Rec(s)
    requires s.Get("createTime").Long? && s.Get("lastAccessTime").Long?
    ensures Process(env, m).Success?
    ensures Process(env, m).value.eventName == Some(Table.EventName())
    ensures EventOf(env, c, EventPart(Process(env, m).value))
    ensures EntityOf(env, s, EntityPart(Process(env, m).value))
  {
    SnapshotLongFailures(env, m, Table, c, s);
    SnapshotSelection(env, m, Table, c);
    ProcessSound(env, m);
    assert DescribesAs(env, m, Table, Process(env, m).value);
  }
}
