/** The change events that flow through the platform (src/cdc/models.py, src/normalization/models.py). */
module Cdc {

  datatype Option<+T> = None | Some(value: T)

  datatype Result<+T, +E> = Ok(value: T) | Err(error: E)

  /** An operation string. Only the three upper-case spellings are recognised downstream. */
  datatype Operation = INSERT | UPDATE | DELETE | Unrecognised(raw: string) {
    function Text(): string {
      match this
      case INSERT => "INSERT"
      case UPDATE => "UPDATE"
      case DELETE => "DELETE"
      case Unrecognised(raw) => raw
    }
  }

  /** A row image: column name to value text. Absent columns stand for nulls. */
  type Image = map<string, string>

  const TABLE_PRIMARY_KEYS: map<string, string> :=
    map["accounts" := "account_id", "subscriptions" := "subscription_id",
        "invoices" := "invoice_id", "payments" := "payment_id"]

  /** The columns of a table's business schema. */
  function SchemaColumns(table: string): set<string> {
    if table == "accounts" then
      {"account_id", "account_name", "industry", "country", "status", "created_at", "updated_at"}
    else if table == "subscriptions" then
      {"subscription_id", "account_id", "plan_name", "billing_cycle", "monthly_amount", "status", "start_date",
       "end_date", "created_at", "updated_at"}
    else if table == "invoices" then
      {"invoice_id", "subscription_id", "invoice_date", "due_date", "invoice_amount", "invoice_status", "created_at",
       "updated_at"}
    else if table == "payments" then
      {"payment_id", "invoice_id", "payment_date", "payment_amount", "payment_method", "payment_status",
       "created_at", "updated_at"}
    else {}
  }

  lemma SchemaHasKey(table: string)
    requires table in TABLE_PRIMARY_KEYS
    ensures TABLE_PRIMARY_KEYS[table] in SchemaColumns(table) && "updated_at" in SchemaColumns(table)
  {}

  /** What of an image fits into the table. */
  function Projected(table: string, image: Image): Image {
    map col | col in image && col in SchemaColumns(table) :: image[col]
  }

  /** The row a change addresses: its table and its primary key value. */
  datatype RowKey = RowKey(table: string, pk: string)

  datatype WaveKey = WaveKey(table: string, sequence: int)

  /** The replay-stable content of an event. `canonical` is the rendering of `businessKey`. */
  datatype Change = Change(
    eventId: string, table: string, operation: Operation,
    businessKey: map<string, string>, canonical: string, sequence: int,
    eventTs: string, commitTs: string,
    payload: Option<Image>, before: Option<Image>, sourceSystem: string)
  {
    /** `str(business_key.get(pk))`. */
    function PkValue(): string {
      if table !in TABLE_PRIMARY_KEYS then ""
      else if TABLE_PRIMARY_KEYS[table] in businessKey then businessKey[TABLE_PRIMARY_KEYS[table]]
      else "None"
    }

    function Key(): RowKey { RowKey(table, PkValue()) }

    predicate Upserts() { operation.INSERT? || operation.UPDATE? }

    predicate Deletes() { operation.DELETE? }

    predicate Recognised() { Upserts() || Deletes() }
  }

  /** An event as delivered: its content, the scoped namespace of its sequence number (`entity_sequence_key`), and
      where the delivery came from. */
  datatype Event = Event(
    change: Change, entity: string, fingerprint: string, batchId: string,
    ingestionBatchId: string, sourceFile: string, late: bool)
  {
    function Id(): string { change.eventId }
    function Key(): RowKey { change.Key() }
    function Entity(): string { entity }
    function Sequence(): int { change.sequence }
    function Wave(): WaveKey { WaveKey(change.table, change.sequence) }
  }

  /** The same place in the sequence of one entity. */
  predicate SameSlot(e: Event, f: Event) { e.Entity() == f.Entity() && e.Sequence() == f.Sequence() }

  function Lookup<K, V>(m: map<K, V>, k: K): Option<V> {
    if k in m then Some(m[k]) else None
  }

  lemma SameLookups<K, V>(m: map<K, V>, n: map<K, V>)
    requires forall k :: Lookup(m, k) == Lookup(n, k)
    ensures m == n
  {
    forall k ensures k in m <==> k in n {
      assert Lookup(m, k) == Lookup(n, k);
    }
    forall k | k in m ensures m[k] == n[k] {
      assert Lookup(m, k) == Lookup(n, k);
    }
  }

  /** `compute_entity_sequence_key`. */
  function EntityKey(table: string, canonical: string): string { table + ":" + canonical }

  /** Table names hold no colon, so an entity name's first colon ends its table. */
  lemma FirstColon(table: string, canonical: string)
    requires table in TABLE_PRIMARY_KEYS
    ensures |EntityKey(table, canonical)| > |table| && EntityKey(table, canonical)[|table|] == ':'
    ensures forall i :: 0 <= i < |table| ==> EntityKey(table, canonical)[i] != ':'
    ensures EntityKey(table, canonical)[..|table|] == table && EntityKey(table, canonical)[|table| + 1..] == canonical
  {
    assert forall i :: 0 <= i < |table| ==> EntityKey(table, canonical)[i] == table[i];
  }

  /** A table and a canonical key can be read back from an entity name. */
  lemma EntityDeterminesTableAndKey(a: Change, b: Change)
    requires a.table in TABLE_PRIMARY_KEYS && b.table in TABLE_PRIMARY_KEYS
    requires EntityKey(a.table, a.canonical) == EntityKey(b.table, b.canonical)
    ensures a.table == b.table && a.canonical == b.canonical
  {
    FirstColon(a.table, a.canonical);
    FirstColon(b.table, b.canonical);
    assert |a.table| == |b.table|;
  }

  /** The event carries its own entity name and addresses a known table. */
  predicate Named(e: Event) {
    e.change.table in TABLE_PRIMARY_KEYS && e.entity == EntityKey(e.change.table, e.change.canonical)
  }

  /** The business key names the primary key column and nothing else. */
  predicate ExactBusinessKey(c: Change) {
    c.table in TABLE_PRIMARY_KEYS && c.businessKey.Keys == {TABLE_PRIMARY_KEYS[c.table]}
  }

  predicate RenderedBy(c: Change, canon: map<string, string> -> string) { c.canonical == canon(c.businessKey) }

  /** With exact business keys, rendered injectively, entities and primary keys are the same thing. */
  lemma ExactKeysIdentifyRows(e: Event, f: Event, canon: map<string, string> -> string)
    requires Named(e) && ExactBusinessKey(e.change) && RenderedBy(e.change, canon)
    requires Named(f) && ExactBusinessKey(f.change) && RenderedBy(f.change, canon)
    requires canon(e.change.businessKey) == canon(f.change.businessKey) ==> e.change.businessKey == f.change.businessKey
    ensures e.Entity() == f.Entity() <==> e.Key() == f.Key()
  {
    if e.Entity() == f.Entity() {
      EntityDeterminesTableAndKey(e.change, f.change);
    }
    if e.Key() == f.Key() {
      assert e.change.businessKey == f.change.businessKey;
    }
  }
}
