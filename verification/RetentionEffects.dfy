/**
 What one retention call does, stated on whole snapshots: which root each half works on, which
 revision is its victim, and which rows disappear.  A child batch is cut from the rows of the
 snapshot, and a parent goes exactly when the batches of this call hold all of its children.
 */
module RetentionEffects {
  import opened Wrappers
  import opened RetentionSchema
  import opened RetentionSelection

  /** The arguments of a call that passed validation; a NULL cutoff makes nothing due. */
  datatype Policy = Policy(
    archivedBefore: Option<Time>,
    revisionBefore: Option<Time>,
    operationalBefore: Option<Time>,
    maxRows: nat)

  /** The purgeable rows, and `retention_purge_jobs`: each queued root with its copied archived_at. */
  datatype Tables = Tables(rows: Rows, queue: map<RowKey, Time>)

  datatype Effect = Effect(tables: Tables, gone: set<RowKey>, storageKey: Option<string>)

  predicate Due(at: Time, cutoff: Option<Time>) {
    cutoff.Some? && at <= cutoff.value
  }

  predicate DueIfSet(at: Option<Time>, cutoff: Option<Time>) {
    at.Some? && Due(at.value, cutoff)
  }

  function Coalesce(a: Option<Time>, b: Option<Time>): Option<Time> {
    if a.Some? then a else b
  }

  /** A root is an item or a document. */
  predicate IsRoot(r: Row) { r.KnowledgeItem? || r.Document? }

  predicate ArchivedPastCutoff(t: Rows, k: RowKey, p: Policy) {
    k in t && IsRoot(t[k]) && DueIfSet(t[k].archivedAt, p.archivedBefore)
  }

  // ---- children of a row ----

  function UnitsOf(t: Rows, subject: RowKey): (s: set<RowKey>) ensures OneTable(s) {
    set k | k in t && t[k].RetrievalUnit? && t[k].subject == subject
  }

  function LinksFrom(t: Rows, knowledge: RowKey): (s: set<RowKey>) ensures OneTable(s) {
    set k | k in t && t[k].ProvenanceLink? && t[k].knowledge == knowledge
  }

  function LinksTo(t: Rows, source: RowKey): (s: set<RowKey>) ensures OneTable(s) {
    set k | k in t && t[k].ProvenanceLink? && t[k].source == Some(source)
  }

  function RevisionsOf(t: Rows, root: RowKey): set<RowKey> {
    set k | k in t && (t[k].KnowledgeRevision? || t[k].DocumentRevision?) && t[k].parent == root
  }

  function ChunksOf(t: Rows, revision: RowKey): (s: set<RowKey>) ensures OneTable(s) {
    set k | k in t && t[k].Chunk? && t[k].revision == revision
  }

  function JobsOf(t: Rows, revision: RowKey): (s: set<RowKey>) ensures OneTable(s) {
    set k | k in t && t[k].IngestionJob? && t[k].revision == revision
  }

  function EventsOf(t: Rows, job: RowKey): (s: set<RowKey>) ensures OneTable(s) {
    set k | k in t && t[k].OutboxEvent? && t[k].job == job
  }

  function EventsUnder(t: Rows, revision: RowKey): (s: set<RowKey>) ensures OneTable(s) {
    set k | k in t && t[k].OutboxEvent? && t[k].job in JobsOf(t, revision)
  }

  function UnitsUnder(t: Rows, revision: RowKey): (s: set<RowKey>) ensures OneTable(s) {
    set k | k in t && t[k].RetrievalUnit? && t[k].subject in ChunksOf(t, revision)
  }

  function CredentialsOf(t: Rows, family: RowKey): (s: set<RowKey>) ensures OneTable(s) {
    set k | k in t && t[k].SessionCredential? && t[k].family == family
  }

  /** The scopes of a key, ordered by scope name. */
  function ScopesOf(t: Rows, key: RowKey): (ages: Ages) {
    map k | k in t && t[k].ApiKeyScope? && t[k].key == key :: t[k].name
  }

  // ---- citations ----

  /** The document revision a provenance link reaches, directly or through its chunk. */
  function CitedRevision(t: Rows, link: RowKey): Option<RowKey>
    requires link in t && t[link].ProvenanceLink?
  {
    match t[link].source
    case None => None
    case Some(s) =>
      if s.table == DocumentRevisions then Some(s)
      else if s in t && t[s].Chunk? then Some(t[s].revision)
      else None
  }

  predicate RevisionCited(t: Rows, revision: RowKey) {
    exists link | link in t :: t[link].ProvenanceLink? && CitedRevision(t, link) == Some(revision)
  }

  predicate CitesDocument(t: Rows, link: RowKey, document: RowKey)
    requires link in t
  {
    t[link].ProvenanceLink? &&
    var r := CitedRevision(t, link);
    r.Some? && r.value in t && t[r.value].DocumentRevision? && t[r.value].parent == document
  }

  predicate DocumentCited(t: Rows, document: RowKey) {
    exists link | link in t :: CitesDocument(t, link, document)
  }

  // ---- queueing roots ----

  function ItemsToQueue(t: Tables, p: Policy): Ages {
    map k | k in t.rows && t.rows[k].KnowledgeItem? && ArchivedPastCutoff(t.rows, k, p) && k !in t.queue
      :: t.rows[k].archivedAt.value
  }

  function DocumentsToQueue(t: Tables, p: Policy): Ages {
    map k | k in t.rows && t.rows[k].Document? && ArchivedPastCutoff(t.rows, k, p) && k !in t.queue
            && !DocumentCited(t.rows, k)
      :: t.rows[k].archivedAt.value
  }

  function Enqueue(t: Tables, ages: Ages): Tables {
    match First(ages)
    case None => t
    case Some(k) => t.(queue := t.queue[k := ages[k]])
  }

  function QueueRoots(t: Tables, p: Policy): Tables {
    var t1 := Enqueue(t, ItemsToQueue(t, p));
    Enqueue(t1, DocumentsToQueue(t1, p))
  }

  function QueuedItems(t: Tables, p: Policy): Ages {
    map k | k in t.queue && k in t.rows && t.rows[k].KnowledgeItem? && ArchivedPastCutoff(t.rows, k, p)
      :: t.queue[k]
  }

  function QueuedDocuments(t: Tables, p: Policy): Ages {
    map k | k in t.queue && k in t.rows && t.rows[k].Document? && ArchivedPastCutoff(t.rows, k, p)
      :: t.queue[k]
  }

  /** UPDATE ... SET current_revision_id = NULL on the root being worked on. */
  function ClearCurrent(t: Rows, root: Option<RowKey>): Rows
    requires root.Some? ==> root.value in t && IsRoot(t[root.value])
  {
    if root.Some? then t[root.value := t[root.value].(current := None)] else t
  }

  /** Once its row is gone, a root leaves the queue. */
  function Dequeue(queue: map<RowKey, Time>, root: Option<RowKey>, gone: set<RowKey>): map<RowKey, Time> {
    if root.Some? && root.value in gone then queue - {root.value} else queue
  }

  // ---- the knowledge half ----

  /** Old enough, and not the current revision of its parent. */
  predicate Superseded(t: Rows, k: RowKey, p: Policy)
    requires k in t && (t[k].KnowledgeRevision? || t[k].DocumentRevision?)
  {
    Due(t[k].createdAt, p.revisionBefore) &&
    t[k].parent in t && IsRoot(t[t[k].parent]) && t[t[k].parent].current != Some(k)
  }

  function OwnKnowledgeRevisions(t: Rows, root: Option<RowKey>): Ages {
    map k | k in t && t[k].KnowledgeRevision? && Some(t[k].parent) == root :: t[k].createdAt
  }

  function SupersededKnowledge(t: Rows, p: Policy): Ages {
    map k | k in t && t[k].KnowledgeRevision? && Superseded(t, k, p) :: t[k].createdAt
  }

  /** The root's own revisions come first, whatever their age. */
  function KnowledgeVictim(t: Rows, root: Option<RowKey>, p: Policy): Option<RowKey> {
    var own := OwnKnowledgeRevisions(t, root);
    if own != map[] then First(own) else First(SupersededKnowledge(t, p))
  }

  function KnowledgeRevisionRows(t: Rows, revision: RowKey, m: nat): set<RowKey> {
    var units := FirstById(UnitsOf(t, revision), m);
    var links := FirstById(LinksFrom(t, revision), m);
    units + links + if units == UnitsOf(t, revision) && links == LinksFrom(t, revision) then {revision} else {}
  }

  lemma InKnowledgeRevisionRows(t: Rows, revision: RowKey, m: nat, g: RowKey)
    requires g in KnowledgeRevisionRows(t, revision, m)
    ensures g == revision || g in UnitsOf(t, revision) || g in LinksFrom(t, revision)
  {
    hide UnitsOf, LinksFrom;
  }

  function KnowledgeRows(t: Rows, root: Option<RowKey>, p: Policy): set<RowKey> {
    var victim := KnowledgeVictim(t, root, p);
    var purged := if victim.Some? then KnowledgeRevisionRows(t, victim.value, p.maxRows) else {};
    purged + if root.Some? && RevisionsOf(t, root.value) <= purged then {root.value} else {}
  }

  function KnowledgeEffect(t: Tables, p: Policy): Effect {
    var root := First(QueuedItems(t, p));
    var rows := ClearCurrent(t.rows, root);
    var gone := KnowledgeRows(rows, root, p);
    Effect(Tables(Delete(rows, gone), Dequeue(t.queue, root, gone)), gone, None)
  }

  // ---- the document half ----

  function OwnDocumentRevisions(t: Rows, root: Option<RowKey>): Ages {
    map k | k in t && t[k].DocumentRevision? && Some(t[k].parent) == root && !RevisionCited(t, k) :: t[k].createdAt
  }

  function SupersededDocuments(t: Rows, p: Policy): Ages {
    map k | k in t && t[k].DocumentRevision? && Superseded(t, k, p) && !RevisionCited(t, k) :: t[k].createdAt
  }

  /** The root's own uncited revisions come first, whatever their age. */
  function DocumentVictim(t: Rows, root: Option<RowKey>, p: Policy): Option<RowKey> {
    var own := OwnDocumentRevisions(t, root);
    if own != map[] then First(own) else First(SupersededDocuments(t, p))
  }

  /** Jobs whose events all go in this call. */
  function SettledJobs(t: Rows, revision: RowKey, events: set<RowKey>): (s: set<RowKey>) ensures OneTable(s) {
    set k | k in JobsOf(t, revision) && EventsOf(t, k) <= events
  }

  /** Uncited chunks whose units all go in this call. */
  function SettledChunks(t: Rows, revision: RowKey, units: set<RowKey>): (s: set<RowKey>) ensures OneTable(s) {
    set k | k in ChunksOf(t, revision) && UnitsOf(t, k) <= units && LinksTo(t, k) == {}
  }

  /** The children of one document revision that go in one call. */
  datatype Batch = Batch(events: set<RowKey>, units: set<RowKey>, jobs: set<RowKey>, chunks: set<RowKey>)
  {
    function All(): set<RowKey> { events + units + jobs + chunks }
  }

  function DocumentBatch(t: Rows, revision: RowKey, m: nat): Batch {
    var events := FirstById(EventsUnder(t, revision), m);
    var units := FirstById(UnitsUnder(t, revision), m);
    Batch(events, units,
          FirstById(SettledJobs(t, revision, events), m), FirstById(SettledChunks(t, revision, units), m))
  }

  function DocumentRevisionRows(t: Rows, revision: RowKey, m: nat): set<RowKey> {
    var batch := DocumentBatch(t, revision, m);
    batch.All() +
    if batch.chunks == ChunksOf(t, revision) && batch.jobs == JobsOf(t, revision) && LinksTo(t, revision) == {}
    then {revision} else {}
  }

  function DocumentRows(t: Rows, root: Option<RowKey>, p: Policy): set<RowKey> {
    var victim := DocumentVictim(t, root, p);
    var purged := if victim.Some? then DocumentRevisionRows(t, victim.value, p.maxRows) else {};
    purged + if root.Some? && RevisionsOf(t, root.value) <= purged then {root.value} else {}
  }

  function StorageKeyOf(t: Rows, victim: Option<RowKey>, gone: set<RowKey>): Option<string> {
    if victim.Some? && victim.value in gone && victim.value in t && t[victim.value].DocumentRevision?
    then t[victim.value].storageKey else None
  }

  function DocumentEffect(t: Tables, p: Policy): Effect {
    var root := First(QueuedDocuments(t, p));
    var rows := ClearCurrent(t.rows, root);
    var gone := DocumentRows(rows, root, p);
    Effect(Tables(Delete(rows, gone), Dequeue(t.queue, root, gone)), gone,
           StorageKeyOf(rows, DocumentVictim(rows, root, p), gone))
  }

  // ---- expired operational records ----

  function ExpiredIdempotency(t: Rows, p: Policy): Ages {
    map k | k in t && t[k].IdempotencyRecord? && Due(t[k].expiresAt, p.operationalBefore) :: t[k].expiresAt
  }

  function ExpiredActions(t: Rows, p: Policy): Ages {
    map k | k in t && t[k].PendingAction? && Due(t[k].expiresAt, p.operationalBefore) :: t[k].expiresAt
  }

  function FamilyEnd(r: Row): Time
    requires r.SessionFamily?
  {
    if r.revokedAt.Some? then r.revokedAt.value else r.absoluteExpiresAt
  }

  function ExpiredFamilies(t: Rows, p: Policy): Ages {
    map k | k in t && t[k].SessionFamily? && Due(FamilyEnd(t[k]), p.operationalBefore) :: FamilyEnd(t[k])
  }

  function KeyEnd(r: Row): Option<Time>
    requires r.ApiKey?
  {
    Coalesce(r.revokedAt, r.keyExpiresAt)
  }

  function ExpiredKeys(t: Rows, p: Policy): Ages {
    map k | k in t && t[k].ApiKey? && DueIfSet(KeyEnd(t[k]), p.operationalBefore) :: KeyEnd(t[k]).value
  }

  function StaleBuckets(t: Rows, p: Policy): Ages {
    map k | k in t && t[k].ThrottleBucket? && Due(t[k].updatedAt, p.operationalBefore)
            && (t[k].blockedUntil.None? || Due(t[k].blockedUntil.value, p.operationalBefore))
      :: t[k].updatedAt
  }

  function FamilyRows(t: Rows, family: Option<RowKey>, m: nat): set<RowKey> {
    if family.None? then {} else
      var credentials := FirstById(CredentialsOf(t, family.value), m);
      credentials + if credentials == CredentialsOf(t, family.value) then {family.value} else {}
  }

  function KeyRows(t: Rows, key: Option<RowKey>, m: nat): set<RowKey> {
    if key.None? then {} else
      var scopes := FirstBatch(ScopesOf(t, key.value), m);
      scopes + if scopes == ScopesOf(t, key.value).Keys then {key.value} else {}
  }

  /** What goes with a family is the family or one of its credentials. */
  lemma InFamilyRows(t: Rows, family: Option<RowKey>, m: nat, g: RowKey)
    requires g in FamilyRows(t, family, m)
    ensures family.Some? && (g == family.value || (g in t && t[g].SessionCredential? && t[g].family == family.value))
  {
    hide FirstById;
  }

  lemma InKeyRows(t: Rows, key: Option<RowKey>, m: nat, g: RowKey)
    requires g in KeyRows(t, key, m)
    ensures key.Some? && (g == key.value || (g in t && t[g].ApiKeyScope? && t[g].key == key.value))
  {
    hide FirstBatch;
  }

  /** The oldest ended session family: a batch of its credentials, and the family once they are all gone. */
  function SessionRows(t: Rows, p: Policy): set<RowKey> {
    FamilyRows(t, First(ExpiredFamilies(t, p)), p.maxRows)
  }

  /** The oldest ended API key: a batch of its scopes, and the key once they are all gone. */
  function ApiKeyRows(t: Rows, p: Policy): set<RowKey> {
    KeyRows(t, First(ExpiredKeys(t, p)), p.maxRows)
  }

  function ExpiredRows(t: Rows, p: Policy): set<RowKey> {
    FirstBatch(ExpiredIdempotency(t, p), p.maxRows) +
    FirstBatch(ExpiredActions(t, p), p.maxRows) +
    (SessionRows(t, p) + ApiKeyRows(t, p))
  }

  /** The family of a call is over, and so is the key. */
  lemma FirstFamilyIsOver(t: Rows, p: Policy)
    ensures var f := First(ExpiredFamilies(t, p));
            f.Some? ==> f.value in t && t[f.value].SessionFamily? && Due(FamilyEnd(t[f.value]), p.operationalBefore)
  {
    hide FamilyEnd, Due, First;
  }

  lemma FirstKeyIsOver(t: Rows, p: Policy)
    ensures var k := First(ExpiredKeys(t, p));
            k.Some? ==> k.value in t && t[k.value].ApiKey? && DueIfSet(KeyEnd(t[k.value]), p.operationalBefore)
  {
    hide KeyEnd, Due, First;
  }

  function OperationalRows(t: Rows, p: Policy): set<RowKey> {
    ExpiredRows(t, p) + FirstBatch(StaleBuckets(t, p), p.maxRows)
  }

  function OperationalEffect(t: Tables, p: Policy): Effect {
    var gone := OperationalRows(t.rows, p);
    Effect(t.(rows := Delete(t.rows, gone)), gone, None)
  }

  // ---- the whole call ----

  function RetentionEffect(t: Tables, p: Policy): Effect {
    var k := KnowledgeEffect(QueueRoots(t, p), p);
    var d := DocumentEffect(k.tables, p);
    var o := OperationalEffect(d.tables, p);
    Effect(o.tables, k.gone + d.gone + o.gone, d.storageKey)
  }
}
