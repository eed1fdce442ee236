/**
 The rows the retention executor reads and purges, at migration 018, with the foreign keys of
 migrations 001, 003 and 008.  A column appears only when the executor, the provenance trigger or a
 foreign key between purgeable tables mentions it.  All purgeable tables live in one map, keyed by
 table and primary key, so that "the rows of the database" is one set.
 */
module RetentionSchema {
  import opened Wrappers

  type Id = nat       // a uuid, ordered as its 128-bit value
  type Time = int     // a timestamptz, in seconds
  type Space = string

  datatype Table =
    | KnowledgeItems | KnowledgeRevisions | Documents | DocumentRevisions | DocumentRevisionChunks
    | RetrievalUnits | ProvenanceLinks | IngestionJobs | JobOutbox
    | IdempotencyRecords | PendingAiActions | SessionFamilies | SessionCredentials
    | PersonalApiKeys | ApiKeyScopes | LoginThrottleBuckets

  datatype RowKey = RowKey(table: Table, id: Id)

  datatype Row =
    | KnowledgeItem(space: Space, current: Option<RowKey>, archivedAt: Option<Time>)
    | KnowledgeRevision(parent: RowKey, space: Space, createdAt: Time)
    | Document(space: Space, current: Option<RowKey>, archivedAt: Option<Time>)
    | DocumentRevision(parent: RowKey, space: Space, createdAt: Time, storageKey: Option<string>)
    | Chunk(revision: RowKey, document: RowKey, space: Space)
    | RetrievalUnit(subject: RowKey, space: Space)
    | ProvenanceLink(knowledge: RowKey, source: Option<RowKey>, space: Space)
    | IngestionJob(revision: RowKey, document: RowKey, space: Space)
    | OutboxEvent(job: RowKey)
    | IdempotencyRecord(expiresAt: Time)
    | PendingAction(expiresAt: Time)
    | SessionFamily(revokedAt: Option<Time>, absoluteExpiresAt: Time)
    | SessionCredential(family: RowKey, replacedBy: Option<RowKey>)
    | ApiKey(revokedAt: Option<Time>, keyExpiresAt: Option<Time>)
    | ApiKeyScope(key: RowKey, name: nat)  // name: the scope text, by its place in the collation
    | ThrottleBucket(updatedAt: Time, blockedUntil: Option<Time>)

  /** The purgeable rows of the database; each row sits in its own table. */
  type Rows = t: map<RowKey, Row> | forall k | k in t :: k.table == TableOf(t[k])

  function TableOf(r: Row): Table {
    match r
    case KnowledgeItem(_, _, _) => KnowledgeItems
    case KnowledgeRevision(_, _, _) => KnowledgeRevisions
    case Document(_, _, _) => Documents
    case DocumentRevision(_, _, _, _) => DocumentRevisions
    case Chunk(_, _, _) => DocumentRevisionChunks
    case RetrievalUnit(_, _) => RetrievalUnits
    case ProvenanceLink(_, _, _) => ProvenanceLinks
    case IngestionJob(_, _, _) => IngestionJobs
    case OutboxEvent(_) => JobOutbox
    case IdempotencyRecord(_) => IdempotencyRecords
    case PendingAction(_) => PendingAiActions
    case SessionFamily(_, _) => SessionFamilies
    case SessionCredential(_, _) => SessionCredentials
    case ApiKey(_, _) => PersonalApiKeys
    case ApiKeyScope(_, _) => ApiKeyScopes
    case ThrottleBucket(_, _) => LoginThrottleBuckets
  }

  function Optional(k: Option<RowKey>): set<RowKey> {
    match k case None => {} case Some(v) => {v}
  }

  /**
   The rows that `r` refers to through an ON DELETE CASCADE or ON DELETE RESTRICT key.  (The one
   ON DELETE SET NULL key, from a credential to its replacement, is not a reference here.)
   */
  function References(r: Row): set<RowKey> {
    match r
    case KnowledgeItem(_, current, _) => Optional(current)
    case KnowledgeRevision(parent, _, _) => {parent}
    case Document(_, current, _) => Optional(current)
    case DocumentRevision(parent, _, _, _) => {parent}
    case Chunk(revision, _, _) => {revision}
    case RetrievalUnit(subject, _) => {subject}
    case ProvenanceLink(knowledge, source, _) => {knowledge} + Optional(source)
    case IngestionJob(revision, _, _) => {revision}
    case OutboxEvent(job) => {job}
    case SessionCredential(family, _) => {family}
    case ApiKeyScope(key, _) => {key}
    case _ => {}
  }

  /**
   The remaining columns of the foreign keys of row `k`: targets are in the right table, and a
   composite key repeats its target's parent and space.
   */
  predicate ColumnsAgree(t: Rows, k: RowKey)
    requires k in t && References(t[k]) <= t.Keys
  {
    match t[k]
    case KnowledgeItem(space, current, _) =>
      current.Some? ==>
        t[current.value].KnowledgeRevision? && t[current.value].parent == k && t[current.value].space == space
    case KnowledgeRevision(parent, space, _) =>
      t[parent].KnowledgeItem? && t[parent].space == space
    case Document(space, current, _) =>
      current.Some? ==>
        t[current.value].DocumentRevision? && t[current.value].parent == k && t[current.value].space == space
    case DocumentRevision(parent, space, _, _) =>
      t[parent].Document? && t[parent].space == space
    case Chunk(revision, document, space) =>
      t[revision].DocumentRevision? && t[revision].parent == document && t[revision].space == space
    case RetrievalUnit(subject, space) =>
      (t[subject].KnowledgeRevision? || t[subject].Chunk?) && t[subject].space == space
    case ProvenanceLink(knowledge, source, space) =>
      t[knowledge].KnowledgeRevision? && t[knowledge].space == space &&
      (source.Some? ==>
         (t[source.value].DocumentRevision? || t[source.value].Chunk?) && t[source.value].space == space)
    case IngestionJob(revision, document, space) =>
      t[revision].DocumentRevision? && t[revision].parent == document && t[revision].space == space
    case OutboxEvent(job) => t[job].IngestionJob?
    case SessionCredential(family, replacedBy) =>
      t[family].SessionFamily? &&
      (replacedBy.Some? ==> replacedBy.value in t && t[replacedBy.value].SessionCredential?)
    case ApiKeyScope(key, _) => t[key].ApiKey?
    case _ => true
  }

  /** Row `k` satisfies all of its foreign keys. */
  predicate KeysHold(t: Rows, k: RowKey)
    requires k in t
  {
    References(t[k]) <= t.Keys && ColumnsAgree(t, k)
  }

  /** Every foreign key of every row is satisfied: what the database enforces at each commit. */
  ghost predicate Consistent(t: Rows) {
    forall k | k in t :: KeysHold(t, k)
  }

  /** The rows an ON DELETE CASCADE or RESTRICT of `k` would have to deal with. */
  function Referrers(t: Rows, k: RowKey): set<RowKey> {
    set x | x in t && k in References(t[x])
  }

  /** No row at all refers to a row of `gone`: deleting `gone` cascades to nothing and is never restricted. */
  ghost predicate Unreferenced(t: Rows, gone: set<RowKey>) {
    forall g | g in gone :: Referrers(t, g) == {}
  }

  /** Only rows of `gone` itself refer to rows of `gone`. */
  ghost predicate Detached(t: Rows, gone: set<RowKey>) {
    forall g | g in gone :: Referrers(t, g) <= gone
  }

  /** ON DELETE SET NULL on a replaced credential. */
  function Forget(r: Row, gone: set<RowKey>): Row {
    if r.SessionCredential? && r.replacedBy.Some? && r.replacedBy.value in gone
    then r.(replacedBy := None) else r
  }

  /** DELETE of exactly the rows `gone`. */
  function Delete(t: Rows, gone: set<RowKey>): (t': Rows)
    ensures t'.Keys == t.Keys - gone
    ensures forall k | k in t' :: !t[k].SessionCredential? ==> t'[k] == t[k]
  {
    map k | k in t && k !in gone :: Forget(t[k], gone)
  }

  /** A row that refers to nothing that goes keeps its keys satisfied. */
  lemma DeleteKeepsKeys(t: Rows, gone: set<RowKey>, k: RowKey)
    requires k in t && k !in gone && KeysHold(t, k) && References(t[k]) !! gone
    ensures KeysHold(Delete(t, gone), k)
  {
    assert References(Delete(t, gone)[k]) == References(t[k]);
  }

  /** Deleting rows that no other row refers to leaves every foreign key satisfied. */
  lemma DeleteKeepsConsistency(t: Rows, gone: set<RowKey>)
    requires Consistent(t) && Detached(t, gone)
    ensures Consistent(Delete(t, gone))
  {
    hide KeysHold, References;
    forall k | k in Delete(t, gone) ensures KeysHold(Delete(t, gone), k) {
      assert KeysHold(t, k);
      forall r | r in References(t[k]) ensures r !in gone {
        assert k in Referrers(t, r);
      }
      DeleteKeepsKeys(t, gone, k);
    }
  }

  /** Two deletions are one deletion of both sets. */
  lemma DeleteTwice(t: Rows, a: set<RowKey>, b: set<RowKey>)
    ensures Delete(Delete(t, a), b) == Delete(t, a + b)
  {
  }

  lemma DeleteNothing(t: Rows)
    ensures Delete(t, {}) == t
  {
  }
}
