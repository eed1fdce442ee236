/**
 What one call purges, said on the rows alone: which roots are queued and worked on, which revision is
 the victim, and which rows of each table go first.  A reference for RetentionEffects that uses none of
 its selections; a child is any row with a foreign key to its parent, and a parent is free once every row
 with a foreign key to it goes.
 */
module RetentionOrder {
  import opened Wrappers
  import opened RetentionSchema
  import opened RetentionSelection
  import opened RetentionEffects
  import opened RetentionSafety

  // ---- order ----

  predicate NoLaterThan(at: Time, cutoff: Option<Time>) { cutoff.Some? && at <= cutoff.value }

  predicate Before(a: Time, i: Id, b: Time, j: Id) { a < b || (a == b && i < j) }

  /** The column a table is ordered by before the id; the other tables go by id alone. */
  function OrderColumn(r: Row): Time {
    match r
    case KnowledgeRevision(_, _, createdAt) => createdAt
    case DocumentRevision(_, _, createdAt, _) => createdAt
    case IdempotencyRecord(expiresAt) => expiresAt
    case PendingAction(expiresAt) => expiresAt
    case SessionFamily(Some(revokedAt), _) => revokedAt
    case SessionFamily(None, absoluteExpiresAt) => absoluteExpiresAt
    case ApiKey(Some(revokedAt), _) => revokedAt
    case ApiKey(None, Some(expiresAt)) => expiresAt
    case ApiKeyScope(_, name) => name
    case ThrottleBucket(updatedAt, _) => updatedAt
    case _ => 0
  }

  predicate Earlier(t: Rows, a: RowKey, b: RowKey)
    requires a in t && b in t
  {
    Before(OrderColumn(t[a]), a.id, OrderColumn(t[b]), b.id)
  }

  /** `first` is a candidate that no other comes before; there is one if there is a candidate. */
  ghost predicate IsFirst(t: Rows, candidates: set<RowKey>, first: Option<RowKey>) {
    && candidates <= t.Keys && (first.None? <==> candidates == {})
    && (first.Some? ==> first.value in candidates && forall k | k in candidates :: !Earlier(t, k, first.value))
  }

  /** `taken` are the first `m` of the candidates, or all of them. */
  ghost predicate AreFirst(t: Rows, candidates: set<RowKey>, taken: set<RowKey>, m: nat) {
    && taken <= candidates <= t.Keys
    && |taken| == (if |candidates| <= m then |candidates| else m)
    && forall a, b | a in taken && b in candidates - taken :: !Earlier(t, b, a)
  }

  /** The rows of one table. */
  function In(table: Table, keys: set<RowKey>): set<RowKey> {
    set k | k in keys && k.table == table
  }

  /** Nothing of any other table. */
  ghost predicate Only(tables: set<Table>, keys: set<RowKey>) { forall k | k in keys :: k.table in tables }

  /** The rows of a table with a foreign key to `parent`. */
  function Children(t: Rows, table: Table, parent: Option<RowKey>): set<RowKey> {
    set k | k in t && k.table == table && parent.Some? && parent.value in References(t[k])
  }

  function Grandchildren(t: Rows, table: Table, through: Table, parent: Option<RowKey>): set<RowKey> {
    set k, c | c in Children(t, through, parent) && k in Children(t, table, Some(c)) :: k
  }

  /** The candidates with no foreign key to them but from rows that go. */
  function Free(t: Rows, gone: set<RowKey>, candidates: set<RowKey>): set<RowKey> {
    set k | k in candidates && Referrers(t, k) <= gone
  }

  // ---- the roots ----

  function Archived(t: Rows, table: Table, p: Policy): set<RowKey> {
    set k | k in t && k.table == table && (t[k].KnowledgeItem? || t[k].Document?) &&
            t[k].archivedAt.Some? && NoLaterThan(t[k].archivedAt.value, p.archivedBefore)
  }

  /** A link names the revision or one of its chunks. */
  predicate Reached(t: Rows, revision: RowKey) {
    exists link | link in t ::
      link.table == ProvenanceLinks && t[link].ProvenanceLink? && t[link].source.Some? &&
      (t[link].source.value == revision || t[link].source.value in Children(t, DocumentRevisionChunks, Some(revision)))
  }

  function Unreached(t: Rows, revisions: set<RowKey>): set<RowKey> {
    set r | r in revisions && !Reached(t, r)
  }

  /** None of whose revisions a link reaches. */
  function UnreachedRoots(t: Rows, documents: set<RowKey>): set<RowKey> {
    set d | d in documents && forall r | r in Children(t, DocumentRevisions, Some(d)) :: !Reached(t, r)
  }

  function ArchivedAt(t: Rows, k: RowKey): Time {
    if k in t && (t[k].KnowledgeItem? || t[k].Document?) && t[k].archivedAt.Some? then t[k].archivedAt.value else 0
  }

  /** The longest archived candidate is added to the queue with its own archived_at. */
  ghost predicate Queued(t: Rows, queue: map<RowKey, Time>, candidates: set<RowKey>, queue': map<RowKey, Time>) {
    if candidates == {} then queue' == queue
    else exists k | k in candidates ::
      && queue' == queue[k := ArchivedAt(t, k)]
      && forall other | other in candidates :: !Before(ArchivedAt(t, other), other.id, ArchivedAt(t, k), k.id)
  }

  /** Both INSERTs: one unqueued archived item, then one unqueued archived document that no link reaches. */
  ghost predicate BothQueued(t: Tables, p: Policy, between: map<RowKey, Time>, t': Tables) {
    && t'.rows == t.rows
    && Queued(t.rows, t.queue, Archived(t.rows, KnowledgeItems, p) - t.queue.Keys, between)
    && Queued(t.rows, between, UnreachedRoots(t.rows, Archived(t.rows, Documents, p) - between.Keys), t'.queue)
  }

  /** The queued root that a half works on: no other one of its table was archived before it. */
  ghost predicate IsRootOf(t: Tables, table: Table, p: Policy, root: Option<RowKey>) {
    var queued := Archived(t.rows, table, p) * t.queue.Keys;
    && (root.None? <==> queued == {})
    && (root.Some? ==> root.value in queued &&
                       forall k | k in queued :: !Before(t.queue[k], k.id, t.queue[root.value], root.value.id))
  }

  /** The root being worked on points to no current revision any more. */
  function Unpointed(t: Rows, root: Option<RowKey>): Rows {
    map k | k in t ::
      if Some(k) == root && (t[k].KnowledgeItem? || t[k].Document?) then t[k].(current := None) else t[k]
  }

  /** The rows that go, go; a credential forgets a replacement that goes, and the queue a root that goes. */
  ghost predicate OnlyGone(t: Rows, queue: map<RowKey, Time>, root: Option<RowKey>, gone: set<RowKey>, t': Tables) {
    && t'.rows.Keys == t.Keys - gone
    && (forall k | k in t'.rows ::
          t'.rows[k] == if t[k].SessionCredential? && t[k].replacedBy.Some? && t[k].replacedBy.value in gone
                        then t[k].(replacedBy := None) else t[k])
    && t'.queue == if root.Some? && root.value in gone then queue - {root.value} else queue
  }

  // ---- the revisions ----

  /** Revisions created no later than the cutoff that their item or document does not point to. */
  function SupersededIn(t: Rows, table: Table, p: Policy): set<RowKey> {
    set r | r in t && r.table == table && (t[r].KnowledgeRevision? || t[r].DocumentRevision?) &&
            NoLaterThan(t[r].createdAt, p.revisionBefore) && t[r].parent in t && r !in References(t[t[r].parent])
  }

  /** The root's own revisions come first, whatever their age; then the old ones of any other root. */
  function OwnFirst(own: set<RowKey>, others: set<RowKey>): set<RowKey> {
    if own != {} then own else others
  }

  /**
   The knowledge half: the victim is the root's first revision or else the first superseded one; its first
   units and links go, then the victim if nothing of it is left, then the root if it has no revision left.
   */
  ghost predicate KnowledgeGoes(t: Tables, p: Policy, root: Option<RowKey>, victim: Option<RowKey>,
                                gone: set<RowKey>, t': Tables)
  {
    var rows := Unpointed(t.rows, root);
    && IsRootOf(t, KnowledgeItems, p, root)
    && IsFirst(rows, OwnFirst(Children(rows, KnowledgeRevisions, root), SupersededIn(rows, KnowledgeRevisions, p)),
               victim)
    && AreFirst(rows, Children(rows, RetrievalUnits, victim), In(RetrievalUnits, gone), p.maxRows)
    && AreFirst(rows, Children(rows, ProvenanceLinks, victim), In(ProvenanceLinks, gone), p.maxRows)
    && In(KnowledgeRevisions, gone) == Free(rows, gone, Optional(victim))
    && In(KnowledgeItems, gone) == Free(rows, gone, Optional(root))
    && Only({RetrievalUnits, ProvenanceLinks, KnowledgeRevisions, KnowledgeItems}, gone)
    && OnlyGone(rows, t.queue, root, gone, t')
  }

  /** Of a victim go its first events and units, its first free jobs and chunks, and itself if it is free. */
  ghost predicate DocumentRowsGo(t: Rows, victim: Option<RowKey>, root: Option<RowKey>, m: nat, gone: set<RowKey>) {
    && AreFirst(t, Grandchildren(t, JobOutbox, IngestionJobs, victim), In(JobOutbox, gone), m)
    && AreFirst(t, Grandchildren(t, RetrievalUnits, DocumentRevisionChunks, victim), In(RetrievalUnits, gone), m)
    && AreFirst(t, Free(t, gone, Children(t, IngestionJobs, victim)), In(IngestionJobs, gone), m)
    && AreFirst(t, Free(t, gone, Children(t, DocumentRevisionChunks, victim)), In(DocumentRevisionChunks, gone), m)
    && In(DocumentRevisions, gone) == Free(t, gone, Optional(victim))
    && In(Documents, gone) == Free(t, gone, Optional(root))
    && Only({JobOutbox, RetrievalUnits, IngestionJobs, DocumentRevisionChunks, DocumentRevisions, Documents}, gone)
  }

  /**
   The document half: only revisions that no link reaches are victims; the first events and units under the
   victim go, then its first free jobs and chunks, the victim and the root.  The storage key is the
   victim's, returned exactly when its row goes.
   */
  ghost predicate DocumentGoes(t: Tables, p: Policy, root: Option<RowKey>, victim: Option<RowKey>,
                               gone: set<RowKey>, storageKey: Option<string>, t': Tables)
  {
    var rows := Unpointed(t.rows, root);
    && IsRootOf(t, Documents, p, root)
    && IsFirst(rows, OwnFirst(Unreached(rows, Children(rows, DocumentRevisions, root)),
                              Unreached(rows, SupersededIn(rows, DocumentRevisions, p))), victim)
    && DocumentRowsGo(rows, victim, root, p.maxRows, gone)
    && storageKey == (if victim.Some? && victim.value in gone && victim.value in rows &&
                         rows[victim.value].DocumentRevision?
                      then rows[victim.value].storageKey else None)
    && OnlyGone(rows, t.queue, root, gone, t')
  }

  // ---- the operational records ----

  /** Past the cutoff, as each table counts it. */
  predicate Over(r: Row, cutoff: Option<Time>) {
    match r
    case IdempotencyRecord(expiresAt) => NoLaterThan(expiresAt, cutoff)
    case PendingAction(expiresAt) => NoLaterThan(expiresAt, cutoff)
    case SessionFamily(Some(revokedAt), _) => NoLaterThan(revokedAt, cutoff)
    case SessionFamily(None, absoluteExpiresAt) => NoLaterThan(absoluteExpiresAt, cutoff)
    case ApiKey(Some(revokedAt), _) => NoLaterThan(revokedAt, cutoff)
    case ApiKey(None, Some(expiresAt)) => NoLaterThan(expiresAt, cutoff)
    case ThrottleBucket(updatedAt, Some(blockedUntil)) =>
      NoLaterThan(updatedAt, cutoff) && NoLaterThan(blockedUntil, cutoff)
    case ThrottleBucket(updatedAt, None) => NoLaterThan(updatedAt, cutoff)
    case _ => false
  }

  function OverIn(t: Rows, table: Table, p: Policy): set<RowKey> {
    set k | k in t && k.table == table && Over(t[k], p.operationalBefore)
  }

  /** The first records, actions and buckets that are over, and one family and one key with their children. */
  ghost predicate OperationalGoes(t: Tables, p: Policy, family: Option<RowKey>, key: Option<RowKey>,
                                  gone: set<RowKey>, t': Tables)
  {
    && AreFirst(t.rows, OverIn(t.rows, IdempotencyRecords, p), In(IdempotencyRecords, gone), p.maxRows)
    && AreFirst(t.rows, OverIn(t.rows, PendingAiActions, p), In(PendingAiActions, gone), p.maxRows)
    && AreFirst(t.rows, OverIn(t.rows, LoginThrottleBuckets, p), In(LoginThrottleBuckets, gone), p.maxRows)
    && IsFirst(t.rows, OverIn(t.rows, SessionFamilies, p), family)
    && AreFirst(t.rows, Children(t.rows, SessionCredentials, family), In(SessionCredentials, gone), p.maxRows)
    && In(SessionFamilies, gone) == Free(t.rows, gone, Optional(family))
    && IsFirst(t.rows, OverIn(t.rows, PersonalApiKeys, p), key)
    && AreFirst(t.rows, Children(t.rows, ApiKeyScopes, key), In(ApiKeyScopes, gone), p.maxRows)
    && In(PersonalApiKeys, gone) == Free(t.rows, gone, Optional(key))
    && Only({IdempotencyRecords, PendingAiActions, LoginThrottleBuckets, SessionFamilies, SessionCredentials,
             PersonalApiKeys, ApiKeyScopes}, gone)
    && OnlyGone(t.rows, t.queue, None, gone, t')
  }

  // ---- the whole call ----

  ghost predicate KnowledgeStep(t: Tables, p: Policy, gone: set<RowKey>, t': Tables) {
    exists root, victim :: KnowledgeGoes(t, p, root, victim, gone, t')
  }

  ghost predicate DocumentStep(t: Tables, p: Policy, gone: set<RowKey>, storageKey: Option<string>, t': Tables) {
    exists root, victim :: DocumentGoes(t, p, root, victim, gone, storageKey, t')
  }

  ghost predicate OperationalStep(t: Tables, p: Policy, gone: set<RowKey>, t': Tables) {
    exists family, key :: OperationalGoes(t, p, family, key, gone, t')
  }

  /** Two roots are queued, then the three parts run one after another. */
  ghost predicate PurgesTheFirst(t: Tables, p: Policy, e: Effect) {
    exists between, queued: Tables, k, afterKnowledge: Tables, d, afterDocuments: Tables, o ::
      && BothQueued(t, p, between, queued)
      && KnowledgeStep(queued, p, k, afterKnowledge)
      && DocumentStep(afterKnowledge, p, d, e.storageKey, afterDocuments)
      && OperationalStep(afterDocuments, p, o, e.tables)
      && e.gone == k + d + o
  }

  // ---- candidates as the executor selects them ----

  lemma BatchTaken(t: Rows, ages: Ages, m: nat)
    requires ages.Keys <= t.Keys && forall k | k in ages :: ages[k] == OrderColumn(t[k])
    ensures AreFirst(t, ages.Keys, FirstBatch(ages, m), m)
  {
    FirstBatchSize(ages, m);
    forall a, b | a in FirstBatch(ages, m) && b in ages.Keys - FirstBatch(ages, m) ensures !Earlier(t, b, a) {
      FirstBatchIsOldest(ages, m, a, b);
    }
  }

  lemma IdBatchTaken(t: Rows, keys: set<RowKey>, m: nat)
    requires OneTable(keys) && keys <= t.Keys && forall k | k in keys :: OrderColumn(t[k]) == 0
    ensures AreFirst(t, keys, FirstById(keys, m), m)
  {
    FirstBatchSize(ById(keys), m);
    BatchTaken(t, ById(keys), m);
  }

  lemma FirstTaken(t: Rows, ages: Ages)
    requires ages.Keys <= t.Keys && forall k | k in ages :: ages[k] == OrderColumn(t[k])
    ensures IsFirst(t, ages.Keys, First(ages))
  {
  }

  lemma DeletedIsOnlyGone(t: Rows, queue: map<RowKey, Time>, root: Option<RowKey>, gone: set<RowKey>)
    ensures OnlyGone(t, queue, root, gone, Tables(Delete(t, gone), Dequeue(queue, root, gone)))
  {
  }

  lemma UnpointedIsCleared(t: Rows, root: Option<RowKey>)
    requires root.Some? ==> root.value in t && IsRoot(t[root.value])
    ensures Unpointed(t, root) == ClearCurrent(t, root)
  {
  }

  // ---- queueing ----

  lemma LinkReaches(t: Rows, link: RowKey, revision: RowKey)
    requires Consistent(t) && revision in t && t[revision].DocumentRevision?
    requires link in t && t[link].ProvenanceLink? && t[link].source.Some?
    ensures CitedRevision(t, link) == Some(revision) <==>
            (t[link].source.value == revision ||
             t[link].source.value in Children(t, DocumentRevisionChunks, Some(revision)))
  {
    assert KeysHold(t, link);
    assert KeysHold(t, t[link].source.value);
    hide Consistent;
  }

  lemma ReachedIsCited(t: Rows, revision: RowKey)
    requires Consistent(t) && revision in t && t[revision].DocumentRevision?
    ensures Reached(t, revision) <==> RevisionCited(t, revision)
  {
    hide Children, Consistent;
    forall link | link in t && t[link].ProvenanceLink? && t[link].source.Some?
      ensures CitedRevision(t, link) == Some(revision) <==>
              (t[link].source.value == revision ||
               t[link].source.value in Children(t, DocumentRevisionChunks, Some(revision)))
    {
      LinkReaches(t, link, revision);
    }
  }

  lemma DocumentRevisionsAre(t: Rows, root: Option<RowKey>)
    ensures Children(t, DocumentRevisions, root) ==
            set r | r in t && t[r].DocumentRevision? && Some(t[r].parent) == root
    ensures Children(t, KnowledgeRevisions, root) == OwnKnowledgeRevisions(t, root).Keys
  {
  }

  lemma AnyReachedIsCited(t: Rows, document: RowKey)
    requires Consistent(t)
    ensures DocumentCited(t, document) <==>
            exists r | r in Children(t, DocumentRevisions, Some(document)) :: Reached(t, r)
  {
    hide Children, Reached, CitedRevision;
    DocumentRevisionsAre(t, Some(document));
    forall r | r in t && t[r].DocumentRevision? ensures Reached(t, r) <==> RevisionCited(t, r) { ReachedIsCited(t, r); }
    forall link | link in t && CitesDocument(t, link, document)
      ensures exists r | r in Children(t, DocumentRevisions, Some(document)) :: Reached(t, r)
    {
      assert RevisionCited(t, CitedRevision(t, link).value);
    }
    forall r | r in Children(t, DocumentRevisions, Some(document)) && Reached(t, r)
      ensures DocumentCited(t, document)
    {
      var link :| link in t && t[link].ProvenanceLink? && CitedRevision(t, link) == Some(r);
      assert CitesDocument(t, link, document);
    }
  }

  lemma QueuedFirst(t: Tables, ages: Ages)
    requires ages.Keys <= t.rows.Keys && forall k | k in ages :: ages[k] == ArchivedAt(t.rows, k)
    ensures Queued(t.rows, t.queue, ages.Keys, Enqueue(t, ages).queue)
    ensures Enqueue(t, ages).rows == t.rows
  {
  }

  lemma CandidatesToQueue(t: Tables, p: Policy)
    requires Consistent(t.rows)
    ensures ItemsToQueue(t, p).Keys == Archived(t.rows, KnowledgeItems, p) - t.queue.Keys
    ensures DocumentsToQueue(t, p).Keys == UnreachedRoots(t.rows, Archived(t.rows, Documents, p) - t.queue.Keys)
  {
    hide Children, Reached, DocumentCited;
    forall k | k in t.rows && t.rows[k].Document?
      ensures DocumentCited(t.rows, k) <==>
              exists r | r in Children(t.rows, DocumentRevisions, Some(k)) :: Reached(t.rows, r)
    {
      AnyReachedIsCited(t.rows, k);
    }
  }

  /** Both INSERTs queue the longest archived root that is not queued yet. */
  lemma QueueRootsOrder(t: Tables, p: Policy)
    requires Consistent(t.rows)
    ensures BothQueued(t, p, Enqueue(t, ItemsToQueue(t, p)).queue, QueueRoots(t, p))
  {
    hide Queued, Consistent, UnreachedRoots, DocumentCited;
    CandidatesToQueue(t, p);
    QueuedFirst(t, ItemsToQueue(t, p));
    var t1 := Enqueue(t, ItemsToQueue(t, p));
    CandidatesToQueue(t1, p);
    QueuedFirst(t1, DocumentsToQueue(t1, p));
  }

  lemma RootTaken(t: Tables, p: Policy)
    ensures IsRootOf(t, KnowledgeItems, p, First(QueuedItems(t, p)))
    ensures IsRootOf(t, Documents, p, First(QueuedDocuments(t, p)))
  {
    assert QueuedItems(t, p).Keys == Archived(t.rows, KnowledgeItems, p) * t.queue.Keys;
    assert QueuedDocuments(t, p).Keys == Archived(t.rows, Documents, p) * t.queue.Keys;
  }

  // ---- the knowledge half ----

  lemma SupersededAre(t: Rows, p: Policy)
    requires Consistent(t)
    ensures SupersededIn(t, KnowledgeRevisions, p) == SupersededKnowledge(t, p).Keys
    ensures SupersededIn(t, DocumentRevisions, p) == set r | r in t && t[r].DocumentRevision? && Superseded(t, r, p)
  {
    forall r | r in t && (t[r].KnowledgeRevision? || t[r].DocumentRevision?)
      ensures t[r].parent in t && (r in References(t[t[r].parent]) <==> t[t[r].parent].current == Some(r))
    {
      assert KeysHold(t, r);
    }
  }

  lemma KnowledgeVictimTaken(t: Rows, root: Option<RowKey>, p: Policy)
    requires Consistent(t)
    ensures IsFirst(t, OwnFirst(Children(t, KnowledgeRevisions, root), SupersededIn(t, KnowledgeRevisions, p)),
                    KnowledgeVictim(t, root, p))
  {
    hide Children, SupersededIn, IsFirst, Superseded;
    DocumentRevisionsAre(t, root);
    SupersededAre(t, p);
    FirstTaken(t, OwnKnowledgeRevisions(t, root));
    FirstTaken(t, SupersededKnowledge(t, p));
  }

  lemma UnitsAre(t: Rows, k: RowKey)
    ensures Children(t, RetrievalUnits, Some(k)) == UnitsOf(t, k)
  {
  }

  lemma LinkIs(t: Rows, revision: RowKey, k: RowKey)
    requires Consistent(t) && revision in t && t[revision].KnowledgeRevision? && k in t && k.table == ProvenanceLinks
    ensures t[k].ProvenanceLink? && (revision in References(t[k]) <==> t[k].knowledge == revision)
  {
    assert KeysHold(t, k);
    hide Consistent;
  }

  lemma LinksAre(t: Rows, revision: RowKey)
    requires Consistent(t) && revision in t && t[revision].KnowledgeRevision?
    ensures Children(t, ProvenanceLinks, Some(revision)) == LinksFrom(t, revision)
  {
    hide Consistent, References;
    forall k | k in t && k.table == ProvenanceLinks
      ensures t[k].ProvenanceLink? && (revision in References(t[k]) <==> t[k].knowledge == revision)
    {
      LinkIs(t, revision, k);
    }
  }

  ghost predicate AllIn(table: Table, keys: set<RowKey>) { forall k | k in keys :: k.table == table }

  lemma InUnion(table: Table, a: set<RowKey>, b: set<RowKey>)
    ensures In(table, a + b) == In(table, a) + In(table, b)
  {
  }

  lemma InOwn(table: Table, own: Table, a: set<RowKey>)
    requires AllIn(own, a)
    ensures In(table, a) == if table == own then a else {}
  {
  }

  /** What of a table is in a union of rows of three tables. */
  lemma InThree(table: Table, a: set<RowKey>, b: set<RowKey>, c: set<RowKey>, ta: Table, tb: Table, tc: Table)
    requires AllIn(ta, a) && AllIn(tb, b) && AllIn(tc, c) && ta != tb && tb != tc && ta != tc
    ensures In(table, a + b + c) == if table == ta then a else if table == tb then b else if table == tc then c else {}
  {
    hide In, AllIn;
    InUnion(table, a + b, c);
    InUnion(table, a, b);
    InOwn(table, ta, a);
    InOwn(table, tb, b);
    InOwn(table, tc, c);
  }

  lemma AllGone(a: set<RowKey>, b: set<RowKey>, goneA: set<RowKey>, goneB: set<RowKey>, parent: set<RowKey>)
    requires goneA <= a && goneB <= b && a !! b && parent !! a && parent !! b
    ensures a + b <= goneA + goneB + parent <==> goneA == a && goneB == b
  {
    if a + b <= goneA + goneB + parent {
      forall k | k in a ensures k in goneA { assert k in goneA + goneB + parent; }
      forall k | k in b ensures k in goneB { assert k in goneA + goneB + parent; }
    }
  }

  /** Two batches of children and their parent, table by table. */
  lemma RevisionParts(all: set<RowKey>, every: set<RowKey>, units: set<RowKey>, links: set<RowKey>, revision: RowKey)
    requires AllIn(RetrievalUnits, all) && AllIn(ProvenanceLinks, every) && revision.table == KnowledgeRevisions
    requires units <= all && links <= every
    ensures var gone := units + links + if units == all && links == every then {revision} else {};
      && In(RetrievalUnits, gone) == units && In(ProvenanceLinks, gone) == links
      && In(KnowledgeRevisions, gone) == (if all + every <= gone then {revision} else {})
      && Only({RetrievalUnits, ProvenanceLinks, KnowledgeRevisions}, gone)
  {
    PartIn(RetrievalUnits, units, all);
    PartIn(ProvenanceLinks, links, every);
    var parent := if units == all && links == every then {revision} else {};
    assert AllIn(KnowledgeRevisions, parent);
    AllGone(all, every, units, links, parent);
    OnlyThree(units, links, parent);
    hide Only, AllIn, In;
    InThree(RetrievalUnits, units, links, parent, RetrievalUnits, ProvenanceLinks, KnowledgeRevisions);
    InThree(ProvenanceLinks, units, links, parent, RetrievalUnits, ProvenanceLinks, KnowledgeRevisions);
    InThree(KnowledgeRevisions, units, links, parent, RetrievalUnits, ProvenanceLinks, KnowledgeRevisions);
  }

  lemma OnlyThree(a: set<RowKey>, b: set<RowKey>, c: set<RowKey>)
    requires AllIn(RetrievalUnits, a) && AllIn(ProvenanceLinks, b) && AllIn(KnowledgeRevisions, c)
    ensures Only({RetrievalUnits, ProvenanceLinks, KnowledgeRevisions}, a + b + c)
  {
  }

  /** The purged rows of a knowledge revision, table by table. */
  lemma KnowledgeRevisionTables(t: Rows, revision: RowKey, m: nat)
    requires revision in t && t[revision].KnowledgeRevision?
    ensures var gone := KnowledgeRevisionRows(t, revision, m);
      && In(RetrievalUnits, gone) == FirstById(UnitsOf(t, revision), m)
      && In(ProvenanceLinks, gone) == FirstById(LinksFrom(t, revision), m)
      && In(KnowledgeRevisions, gone) ==
         (if UnitsOf(t, revision) + LinksFrom(t, revision) <= gone then {revision} else {})
      && Only({RetrievalUnits, ProvenanceLinks, KnowledgeRevisions}, gone)
  {
    assert AllIn(RetrievalUnits, UnitsOf(t, revision)) && AllIn(ProvenanceLinks, LinksFrom(t, revision));
    hide UnitsOf, LinksFrom, TableOf, FirstById, In, Only, AllIn;
    RevisionParts(UnitsOf(t, revision), LinksFrom(t, revision), FirstById(UnitsOf(t, revision), m),
                  FirstById(LinksFrom(t, revision), m), revision);
  }

  /** Rows of other tables are all gone or not whether the root goes or not. */
  lemma RootAside(keys: set<RowKey>, purged: set<RowKey>, root: set<RowKey>)
    requires keys !! root
    ensures keys <= purged + root <==> keys <= purged
  {
    if keys <= purged + root { forall k | k in keys ensures k in purged { assert k in purged + root; } }
  }

  /** The root goes last: when the rows purged so far hold all of its revisions. */
  lemma RootIsFree(t: Rows, root: Option<RowKey>, purged: set<RowKey>, gone: set<RowKey>)
    requires Consistent(t) && (root.Some? ==> root.value in t && IsRoot(t[root.value]))
    requires gone == purged + if root.Some? && RevisionsOf(t, root.value) <= purged then {root.value} else {}
    ensures gone == purged + Free(t, gone, Optional(root))
  {
    hide Consistent, Referrers;
    if root.Some? {
      ReferrersOfRoot(t, root.value);
      var r := if RevisionsOf(t, root.value) <= purged then {root.value} else {};
      RootAside(RevisionsOf(t, root.value), purged, r);
    }
  }

  /** A parent whose children are those of two batches is free exactly when both batches hold all. */
  lemma KnowledgeVictimIsFree(t: Rows, root: Option<RowKey>, victim: RowKey, p: Policy, purged: set<RowKey>,
                              last: set<RowKey>)
    requires Consistent(t) && RootCleared(t, root, p) && IsVictim(t, victim, root, p) && t[victim].KnowledgeRevision?
    requires last <= Optional(root) && AllIn(KnowledgeItems, last)
    ensures Free(t, purged + last, {victim}) ==
            if UnitsOf(t, victim) + LinksFrom(t, victim) <= purged then {victim} else {}
  {
    ReferrersOfKnowledgeVictim(t, victim, root, p);
    hide Referrers, Consistent, RootCleared, IsVictim;
    forall k | k in UnitsOf(t, victim) + LinksFrom(t, victim) ensures k.table != KnowledgeItems {}
    RootAside(UnitsOf(t, victim) + LinksFrom(t, victim), purged, last);
  }

  lemma InWithLast(table: Table, purged: set<RowKey>, last: set<RowKey>, own: Table)
    requires AllIn(own, last)
    ensures table != own ==> In(table, purged + last) == In(table, purged)
    ensures table == own ==> In(table, purged + last) == In(table, purged) + last
  {
    hide In, AllIn;
    InUnion(table, purged, last);
    InOwn(table, own, last);
  }

  lemma OnlyWithLast(tables: set<Table>, purged: set<RowKey>, last: set<RowKey>, own: Table, all: set<Table>)
    requires Only(tables, purged) && AllIn(own, last) && all == tables + {own}
    ensures Only(all, purged + last)
  {
  }

  lemma ChildBatches(t: Rows, victim: RowKey, m: nat)
    requires Consistent(t) && victim in t && t[victim].KnowledgeRevision?
    ensures AreFirst(t, Children(t, RetrievalUnits, Some(victim)), FirstById(UnitsOf(t, victim), m), m)
    ensures AreFirst(t, Children(t, ProvenanceLinks, Some(victim)), FirstById(LinksFrom(t, victim), m), m)
  {
    assert forall k | k in UnitsOf(t, victim) + LinksFrom(t, victim) :: OrderColumn(t[k]) == 0;
    IdBatchTaken(t, UnitsOf(t, victim), m);
    IdBatchTaken(t, LinksFrom(t, victim), m);
    hide FirstById, AreFirst, Children, UnitsOf, LinksFrom, Consistent;
    UnitsAre(t, victim);
    LinksAre(t, victim);
  }

  lemma KnowledgeVictimGoes(t: Rows, root: Option<RowKey>, victim: RowKey, p: Policy, last: set<RowKey>)
    requires Consistent(t) && RootCleared(t, root, p) && IsVictim(t, victim, root, p) && t[victim].KnowledgeRevision?
    requires last <= Optional(root) && AllIn(KnowledgeItems, last)
    ensures var gone := KnowledgeRevisionRows(t, victim, p.maxRows) + last;
      && AreFirst(t, Children(t, RetrievalUnits, Some(victim)), In(RetrievalUnits, gone), p.maxRows)
      && AreFirst(t, Children(t, ProvenanceLinks, Some(victim)), In(ProvenanceLinks, gone), p.maxRows)
      && In(KnowledgeRevisions, gone) == Free(t, gone, {victim})
      && Only({RetrievalUnits, ProvenanceLinks, KnowledgeRevisions, KnowledgeItems}, gone)
  {
    hide FirstById, AreFirst, Children, UnitsOf, LinksFrom, KnowledgeRevisionRows, Consistent, RootCleared, In, Free;
    hide Only, AllIn;
    ChildBatches(t, victim, p.maxRows);
    var purged := KnowledgeRevisionRows(t, victim, p.maxRows);
    KnowledgeRevisionTables(t, victim, p.maxRows);
    KnowledgeVictimIsFree(t, root, victim, p, purged, last);
    InWithLast(RetrievalUnits, purged, last, KnowledgeItems);
    InWithLast(ProvenanceLinks, purged, last, KnowledgeItems);
    InWithLast(KnowledgeRevisions, purged, last, KnowledgeItems);
    OnlyWithLast({RetrievalUnits, ProvenanceLinks, KnowledgeRevisions}, purged, last, KnowledgeItems,
                 {RetrievalUnits, ProvenanceLinks, KnowledgeRevisions, KnowledgeItems});
  }

  lemma OnlyIn(tables: set<Table>, table: Table, keys: set<RowKey>)
    requires Only(tables, keys) && table !in tables
    ensures In(table, keys) == {}
  {
  }

  lemma OptionalSome(k: RowKey)
    ensures Optional(Some(k)) == {k}
  {
  }

  /** A root is in its own table. */
  lemma RootTable(t: Rows, root: Option<RowKey>, gone: set<RowKey>, table: Table)
    requires root.Some? ==> root.value in t && TableOf(t[root.value]) == table
    ensures AllIn(table, Free(t, gone, Optional(root))) && Free(t, gone, Optional(root)) <= Optional(root)
  {
  }

  lemma NothingGoes(t: Rows, table: Table, last: set<RowKey>, own: Table, m: nat)
    requires AllIn(own, last) && own != table
    ensures In(table, last) == {} && AreFirst(t, Children(t, table, None), In(table, last), m)
  {
  }

  /** The rows of a call that found no victim. */
  lemma NoKnowledgeVictim(t: Rows, root: Option<RowKey>, m: nat, last: set<RowKey>)
    requires AllIn(KnowledgeItems, last)
    ensures AreFirst(t, Children(t, RetrievalUnits, None), In(RetrievalUnits, last), m)
    ensures AreFirst(t, Children(t, ProvenanceLinks, None), In(ProvenanceLinks, last), m)
    ensures In(KnowledgeRevisions, last) == {} && In(KnowledgeItems, last) == last
    ensures Only({RetrievalUnits, ProvenanceLinks, KnowledgeRevisions, KnowledgeItems}, last)
  {
    NothingGoes(t, RetrievalUnits, last, KnowledgeItems, m);
    NothingGoes(t, ProvenanceLinks, last, KnowledgeItems, m);
    NothingGoes(t, KnowledgeRevisions, last, KnowledgeItems, m);
    hide AreFirst, Children;
  }

  lemma KnowledgeRootGoes(t: Rows, victim: RowKey, m: nat, last: set<RowKey>)
    requires victim in t && t[victim].KnowledgeRevision? && AllIn(KnowledgeItems, last)
    ensures In(KnowledgeItems, KnowledgeRevisionRows(t, victim, m) + last) == last
  {
    hide KnowledgeRevisionRows, UnitsOf, LinksFrom, FirstById, In, Only, AllIn;
    KnowledgeRevisionTables(t, victim, m);
    OnlyIn({RetrievalUnits, ProvenanceLinks, KnowledgeRevisions}, KnowledgeItems, KnowledgeRevisionRows(t, victim, m));
    InWithLast(KnowledgeItems, KnowledgeRevisionRows(t, victim, m), last, KnowledgeItems);
  }

  /** What the knowledge half purges of the rows it finds, its root's pointer cleared. */
  lemma KnowledgeRowsOrder(t: Rows, root: Option<RowKey>, p: Policy)
    requires Consistent(t) && RootCleared(t, root, p) && (root.Some? ==> t[root.value].KnowledgeItem?)
    ensures var gone := KnowledgeRows(t, root, p); var victim := KnowledgeVictim(t, root, p);
      && AreFirst(t, Children(t, RetrievalUnits, victim), In(RetrievalUnits, gone), p.maxRows)
      && AreFirst(t, Children(t, ProvenanceLinks, victim), In(ProvenanceLinks, gone), p.maxRows)
      && In(KnowledgeRevisions, gone) == Free(t, gone, Optional(victim))
      && In(KnowledgeItems, gone) == Free(t, gone, Optional(root))
      && Only({RetrievalUnits, ProvenanceLinks, KnowledgeRevisions, KnowledgeItems}, gone)
  {
    hide KnowledgeVictim, AreFirst, Children, KnowledgeRevisionRows, Consistent, In, Referrers, IsVictim, RevisionsOf;
    var gone, victim := KnowledgeRows(t, root, p), KnowledgeVictim(t, root, p);
    KnowledgeVictimIsVictim(t, root, p);
    var purged := if victim.Some? then KnowledgeRevisionRows(t, victim.value, p.maxRows) else {};
    var last := Free(t, gone, Optional(root));
    RootIsFree(t, root, purged, gone);
    RootTable(t, root, gone, KnowledgeItems);
    assert victim.None? ==> Free(t, gone, Optional(victim)) == {};
    hide *;
    if victim.Some? {
      KnowledgeRootGoes(t, victim.value, p.maxRows, last);
      KnowledgeVictimGoes(t, root, victim.value, p, last);
      assert Optional(victim) == {victim.value} by { OptionalSome(victim.value); }
    } else {
      assert gone == last;
      NoKnowledgeVictim(t, root, p.maxRows, last);
    }
  }

  lemma ClearedRoot(t: Tables, p: Policy, root: Option<RowKey>)
    requires Consistent(t.rows) && (root.Some? ==> ArchivedPastCutoff(t.rows, root.value, p))
    ensures Unpointed(t.rows, root) == ClearCurrent(t.rows, root) && Consistent(ClearCurrent(t.rows, root))
    ensures RootCleared(ClearCurrent(t.rows, root), root, p)
    ensures root.Some? ==> ClearCurrent(t.rows, root)[root.value].KnowledgeItem? == t.rows[root.value].KnowledgeItem?
  {
    UnpointedIsCleared(t.rows, root);
    ClearKeepsConsistency(t.rows, root);
  }

  /** The knowledge half purges the first rows of the first revision of the first root. */
  lemma KnowledgeOrder(t: Tables, p: Policy)
    requires Consistent(t.rows)
    ensures KnowledgeStep(t, p, KnowledgeEffect(t, p).gone, KnowledgeEffect(t, p).tables)
  {
    var root := First(QueuedItems(t, p));
    var rows := ClearCurrent(t.rows, root);
    var e := KnowledgeEffect(t, p);
    RootTaken(t, p);
    ClearedRoot(t, p, root);
    hide Consistent, RootCleared, ClearCurrent, Unpointed, IsRootOf, KnowledgeVictim, KnowledgeRows, First, QueuedItems;
    hide IsFirst, AreFirst, OnlyGone, Only, Children, Free, In, OwnFirst, SupersededIn, Delete, Dequeue;
    KnowledgeVictimTaken(rows, root, p);
    KnowledgeRowsOrder(rows, root, p);
    DeletedIsOnlyGone(rows, t.queue, root, e.gone);
    assert KnowledgeGoes(t, p, root, KnowledgeVictim(rows, root, p), e.gone, e.tables);
  }

  // ---- the document half ----

  lemma DocumentVictimTaken(t: Rows, root: Option<RowKey>, p: Policy)
    requires Consistent(t)
    ensures IsFirst(t, OwnFirst(Unreached(t, Children(t, DocumentRevisions, root)),
                                Unreached(t, SupersededIn(t, DocumentRevisions, p))), DocumentVictim(t, root, p))
  {
    hide Children, SupersededIn, IsFirst, Superseded, RevisionCited, Reached;
    DocumentRevisionsAre(t, root);
    SupersededAre(t, p);
    forall r | r in t && t[r].DocumentRevision? ensures Reached(t, r) <==> RevisionCited(t, r) { ReachedIsCited(t, r); }
    FirstTaken(t, OwnDocumentRevisions(t, root));
    FirstTaken(t, SupersededDocuments(t, p));
    assert OwnDocumentRevisions(t, root).Keys == Unreached(t, Children(t, DocumentRevisions, root));
    assert SupersededDocuments(t, p).Keys == Unreached(t, SupersededIn(t, DocumentRevisions, p));
  }

  lemma JobsAndChunksAre(t: Rows, revision: RowKey)
    ensures Children(t, IngestionJobs, Some(revision)) == JobsOf(t, revision)
    ensures Children(t, DocumentRevisionChunks, Some(revision)) == ChunksOf(t, revision)
  {
  }

  lemma EventsAre(t: Rows, revision: RowKey)
    ensures Grandchildren(t, JobOutbox, IngestionJobs, Some(revision)) == EventsUnder(t, revision)
  {
    JobsAndChunksAre(t, revision);
    hide JobsOf;
    forall k | k in EventsUnder(t, revision) ensures k in Grandchildren(t, JobOutbox, IngestionJobs, Some(revision)) {
      assert k in Children(t, JobOutbox, Some(t[k].job));
    }
  }

  lemma UnitsUnderAre(t: Rows, revision: RowKey)
    ensures Grandchildren(t, RetrievalUnits, DocumentRevisionChunks, Some(revision)) == UnitsUnder(t, revision)
  {
    JobsAndChunksAre(t, revision);
    hide ChunksOf;
    forall k | k in UnitsUnder(t, revision)
      ensures k in Grandchildren(t, RetrievalUnits, DocumentRevisionChunks, Some(revision))
    {
      assert k in Children(t, RetrievalUnits, Some(t[k].subject));
    }
  }

  lemma AllOfTable(table: Table, keys: set<RowKey>, gone: set<RowKey>)
    requires AllIn(table, keys)
    ensures keys <= gone <==> keys <= In(table, gone)
  {
  }

  lemma FreeJob(t: Rows, job: RowKey, gone: set<RowKey>)
    requires Consistent(t) && job in t && t[job].IngestionJob?
    ensures Referrers(t, job) <= gone <==> EventsOf(t, job) <= In(JobOutbox, gone)
  {
    assert AllIn(JobOutbox, EventsOf(t, job));
    ReferrersOfJob(t, job);
    hide Referrers, In, EventsOf, Consistent, AllIn;
    AllOfTable(JobOutbox, EventsOf(t, job), gone);
  }

  lemma FreeJobs(t: Rows, revision: RowKey, gone: set<RowKey>)
    requires Consistent(t)
    ensures Free(t, gone, JobsOf(t, revision)) == SettledJobs(t, revision, In(JobOutbox, gone))
  {
    hide Consistent, Referrers, In, EventsOf;
    forall j | j in JobsOf(t, revision) ensures Referrers(t, j) <= gone <==> EventsOf(t, j) <= In(JobOutbox, gone) {
      FreeJob(t, j, gone);
    }
  }

  lemma UnitsGoneAndUnlinked(gone: set<RowKey>, units: set<RowKey>, links: set<RowKey>)
    requires AllIn(RetrievalUnits, units) && AllIn(ProvenanceLinks, links) && In(ProvenanceLinks, gone) == {}
    ensures units + links <= gone <==> units <= In(RetrievalUnits, gone) && links == {}
  {
    AllOfTable(RetrievalUnits, units, gone);
    AllOfTable(ProvenanceLinks, links, gone);
    hide In, AllIn;
  }

  lemma FreeChunk(t: Rows, chunk: RowKey, gone: set<RowKey>)
    requires Consistent(t) && In(ProvenanceLinks, gone) == {} && chunk in t && t[chunk].Chunk?
    ensures Referrers(t, chunk) <= gone <==> UnitsOf(t, chunk) <= In(RetrievalUnits, gone) && LinksTo(t, chunk) == {}
  {
    assert AllIn(RetrievalUnits, UnitsOf(t, chunk)) && AllIn(ProvenanceLinks, LinksTo(t, chunk));
    ReferrersOfChunk(t, chunk);
    hide Referrers, In, UnitsOf, LinksTo, Consistent, AllIn;
    UnitsGoneAndUnlinked(gone, UnitsOf(t, chunk), LinksTo(t, chunk));
  }

  lemma FreeChunks(t: Rows, revision: RowKey, gone: set<RowKey>)
    requires Consistent(t) && In(ProvenanceLinks, gone) == {}
    ensures Free(t, gone, ChunksOf(t, revision)) == SettledChunks(t, revision, In(RetrievalUnits, gone))
  {
    hide Consistent, Referrers, In, UnitsOf, LinksTo;
    forall c | c in ChunksOf(t, revision)
      ensures Referrers(t, c) <= gone <==> UnitsOf(t, c) <= In(RetrievalUnits, gone) && LinksTo(t, c) == {}
    {
      FreeChunk(t, c, gone);
    }
  }

  ghost predicate ByTable(b: Batch, parent: set<RowKey>, last: set<RowKey>) {
    && AllIn(JobOutbox, b.events) && AllIn(RetrievalUnits, b.units) && AllIn(IngestionJobs, b.jobs)
    && AllIn(DocumentRevisionChunks, b.chunks) && AllIn(DocumentRevisions, parent) && AllIn(Documents, last)
  }

  function DocumentPart(table: Table, b: Batch, parent: set<RowKey>, last: set<RowKey>): set<RowKey> {
    match table
    case JobOutbox => b.events
    case RetrievalUnits => b.units
    case IngestionJobs => b.jobs
    case DocumentRevisionChunks => b.chunks
    case DocumentRevisions => parent
    case Documents => last
    case _ => {}
  }

  /** The rows of a table among those of a document revision, the revision and its root. */
  lemma InDocumentRows(table: Table, b: Batch, parent: set<RowKey>, last: set<RowKey>)
    requires ByTable(b, parent, last)
    ensures In(table, b.All() + parent + last) == DocumentPart(table, b, parent, last)
  {
    InUnion(table, b.All() + parent, last);
    InUnion(table, b.All(), parent);
    InUnion(table, b.events + b.units + b.jobs, b.chunks);
    InUnion(table, b.events + b.units, b.jobs);
    InUnion(table, b.events, b.units);
    InOwn(table, JobOutbox, b.events);
    InOwn(table, RetrievalUnits, b.units);
    InOwn(table, IngestionJobs, b.jobs);
    InOwn(table, DocumentRevisionChunks, b.chunks);
    InOwn(table, DocumentRevisions, parent);
    InOwn(table, Documents, last);
    hide In, AllIn;
  }

  lemma OnlyDocumentRows(b: Batch, parent: set<RowKey>, last: set<RowKey>)
    requires ByTable(b, parent, last)
    ensures Only({JobOutbox, RetrievalUnits, IngestionJobs, DocumentRevisionChunks, DocumentRevisions, Documents},
                 b.All() + parent + last)
  {
  }

  lemma ChildTables(t: Rows, v: RowKey, events: set<RowKey>, units: set<RowKey>)
    ensures AllIn(JobOutbox, EventsUnder(t, v)) && AllIn(RetrievalUnits, UnitsUnder(t, v))
    ensures AllIn(IngestionJobs, JobsOf(t, v)) && AllIn(DocumentRevisionChunks, ChunksOf(t, v))
    ensures SettledJobs(t, v, events) <= JobsOf(t, v) && SettledChunks(t, v, units) <= ChunksOf(t, v)
  {
  }

  lemma PartIn(table: Table, part: set<RowKey>, keys: set<RowKey>)
    requires part <= keys && AllIn(table, keys)
    ensures AllIn(table, part)
  {
  }

  lemma BatchByTable(t: Rows, v: RowKey, m: nat, parent: set<RowKey>, last: set<RowKey>)
    requires AllIn(DocumentRevisions, parent) && AllIn(Documents, last)
    ensures ByTable(DocumentBatch(t, v, m), parent, last)
    ensures DocumentBatch(t, v, m).jobs <= JobsOf(t, v) && DocumentBatch(t, v, m).chunks <= ChunksOf(t, v)
  {
    var b := DocumentBatch(t, v, m);
    ChildTables(t, v, b.events, b.units);
    hide FirstById, EventsUnder, UnitsUnder, SettledJobs, SettledChunks, JobsOf, ChunksOf, AllIn, TableOf;
    PartIn(JobOutbox, b.events, EventsUnder(t, v));
    PartIn(RetrievalUnits, b.units, UnitsUnder(t, v));
    PartIn(IngestionJobs, b.jobs, JobsOf(t, v));
    PartIn(DocumentRevisionChunks, b.chunks, ChunksOf(t, v));
  }

  /** Rows of three tables are all gone when the gone rows of the first two are they, and the third has none. */
  lemma ThreeGone(gone: set<RowKey>, chunks: set<RowKey>, jobs: set<RowKey>, links: set<RowKey>)
    requires AllIn(DocumentRevisionChunks, chunks) && AllIn(IngestionJobs, jobs) && AllIn(ProvenanceLinks, links)
    requires In(DocumentRevisionChunks, gone) <= chunks && In(IngestionJobs, gone) <= jobs
    requires In(ProvenanceLinks, gone) == {}
    ensures chunks + jobs + links <= gone <==>
            In(DocumentRevisionChunks, gone) == chunks && In(IngestionJobs, gone) == jobs && links == {}
  {
    AllOfTable(DocumentRevisionChunks, chunks, gone);
    AllOfTable(IngestionJobs, jobs, gone);
    AllOfTable(ProvenanceLinks, links, gone);
    hide In, AllIn;
  }

  /** Nothing refers to the victim once its chunks and jobs are gone, if no link names it. */
  lemma DocumentVictimIsFree(t: Rows, root: Option<RowKey>, victim: RowKey, p: Policy, gone: set<RowKey>)
    requires Consistent(t) && RootCleared(t, root, p) && IsVictim(t, victim, root, p) && t[victim].DocumentRevision?
    requires In(ProvenanceLinks, gone) == {}
    requires In(IngestionJobs, gone) <= JobsOf(t, victim) && In(DocumentRevisionChunks, gone) <= ChunksOf(t, victim)
    ensures Free(t, gone, {victim}) ==
            if In(DocumentRevisionChunks, gone) == ChunksOf(t, victim) &&
               In(IngestionJobs, gone) == JobsOf(t, victim) && LinksTo(t, victim) == {}
            then {victim} else {}
  {
    ChildTables(t, victim, {}, {});
    assert AllIn(ProvenanceLinks, LinksTo(t, victim));
    hide Referrers, Consistent, RootCleared, IsVictim, In, ChunksOf, JobsOf, LinksTo, AllIn, SettledJobs, SettledChunks;
    ReferrersOfDocumentVictim(t, victim, root, p);
    ThreeGone(gone, ChunksOf(t, victim), JobsOf(t, victim), LinksTo(t, victim));
  }

  lemma EventBatch(t: Rows, v: RowKey, m: nat)
    ensures AreFirst(t, Grandchildren(t, JobOutbox, IngestionJobs, Some(v)), FirstById(EventsUnder(t, v), m), m)
  {
    EventsAre(t, v);
    hide AreFirst, Grandchildren, FirstById, JobsOf;
    IdBatchTaken(t, EventsUnder(t, v), m);
  }

  lemma UnitBatch(t: Rows, v: RowKey, m: nat)
    ensures AreFirst(t, Grandchildren(t, RetrievalUnits, DocumentRevisionChunks, Some(v)),
                     FirstById(UnitsUnder(t, v), m), m)
  {
    UnitsUnderAre(t, v);
    hide AreFirst, Grandchildren, FirstById, ChunksOf;
    IdBatchTaken(t, UnitsUnder(t, v), m);
  }

  lemma JobBatch(t: Rows, v: RowKey, m: nat, gone: set<RowKey>)
    requires Consistent(t)
    ensures AreFirst(t, Free(t, gone, Children(t, IngestionJobs, Some(v))),
                     FirstById(SettledJobs(t, v, In(JobOutbox, gone)), m), m)
  {
    JobsAndChunksAre(t, v);
    FreeJobs(t, v, gone);
    hide AreFirst, Children, Free, FirstById, In, EventsOf, Consistent;
    IdBatchTaken(t, SettledJobs(t, v, In(JobOutbox, gone)), m);
  }

  lemma ChunkBatch(t: Rows, v: RowKey, m: nat, gone: set<RowKey>)
    requires Consistent(t) && In(ProvenanceLinks, gone) == {}
    ensures AreFirst(t, Free(t, gone, Children(t, DocumentRevisionChunks, Some(v))),
                     FirstById(SettledChunks(t, v, In(RetrievalUnits, gone)), m), m)
  {
    JobsAndChunksAre(t, v);
    FreeChunks(t, v, gone);
    hide AreFirst, Children, Free, FirstById, In, UnitsOf, LinksTo, Consistent;
    IdBatchTaken(t, SettledChunks(t, v, In(RetrievalUnits, gone)), m);
  }

  lemma AllParts(b: Batch, parent: set<RowKey>, last: set<RowKey>, gone: set<RowKey>)
    requires ByTable(b, parent, last) && gone == b.All() + parent + last
    ensures In(JobOutbox, gone) == b.events && In(RetrievalUnits, gone) == b.units && In(IngestionJobs, gone) == b.jobs
    ensures In(DocumentRevisionChunks, gone) == b.chunks && In(DocumentRevisions, gone) == parent
    ensures In(Documents, gone) == last && In(ProvenanceLinks, gone) == {}
  {
    hide In, ByTable;
    InDocumentRows(JobOutbox, b, parent, last);
    InDocumentRows(RetrievalUnits, b, parent, last);
    InDocumentRows(IngestionJobs, b, parent, last);
    InDocumentRows(DocumentRevisionChunks, b, parent, last);
    InDocumentRows(DocumentRevisions, b, parent, last);
    InDocumentRows(Documents, b, parent, last);
    InDocumentRows(ProvenanceLinks, b, parent, last);
  }

  /** The purged rows of a document revision, table by table. */
  lemma DocumentRevisionTables(t: Rows, v: RowKey, m: nat, last: set<RowKey>, gone: set<RowKey>)
    requires v in t && t[v].DocumentRevision?
    requires AllIn(Documents, last) && gone == DocumentRevisionRows(t, v, m) + last
    ensures var b := DocumentBatch(t, v, m);
      && In(JobOutbox, gone) == b.events && In(RetrievalUnits, gone) == b.units && In(IngestionJobs, gone) == b.jobs
      && In(DocumentRevisionChunks, gone) == b.chunks && In(ProvenanceLinks, gone) == {} && In(Documents, gone) == last
      && In(DocumentRevisions, gone) ==
         (if b.chunks == ChunksOf(t, v) && b.jobs == JobsOf(t, v) && LinksTo(t, v) == {} then {v} else {})
      && b.jobs <= JobsOf(t, v) && b.chunks <= ChunksOf(t, v)
    ensures Only({JobOutbox, RetrievalUnits, IngestionJobs, DocumentRevisionChunks, DocumentRevisions, Documents}, gone)
  {
    hide DocumentBatch, In, ByTable, ChunksOf, JobsOf, LinksTo, Only;
    var b := DocumentBatch(t, v, m);
    var parent := if b.chunks == ChunksOf(t, v) && b.jobs == JobsOf(t, v) && LinksTo(t, v) == {} then {v} else {};
    assert gone == b.All() + parent + last;
    assert AllIn(DocumentRevisions, parent);
    hide *;
    BatchByTable(t, v, m, parent, last);
    OnlyDocumentRows(b, parent, last);
    AllParts(b, parent, last, gone);
  }

  lemma DocumentBatches(t: Rows, v: RowKey, m: nat, gone: set<RowKey>)
    requires Consistent(t) && In(ProvenanceLinks, gone) == {}
    requires var b := DocumentBatch(t, v, m);
      && In(JobOutbox, gone) == b.events && In(RetrievalUnits, gone) == b.units && In(IngestionJobs, gone) == b.jobs
      && In(DocumentRevisionChunks, gone) == b.chunks
    ensures AreFirst(t, Grandchildren(t, JobOutbox, IngestionJobs, Some(v)), In(JobOutbox, gone), m)
    ensures AreFirst(t, Grandchildren(t, RetrievalUnits, DocumentRevisionChunks, Some(v)), In(RetrievalUnits, gone), m)
    ensures AreFirst(t, Free(t, gone, Children(t, IngestionJobs, Some(v))), In(IngestionJobs, gone), m)
    ensures AreFirst(t, Free(t, gone, Children(t, DocumentRevisionChunks, Some(v))),
                     In(DocumentRevisionChunks, gone), m)
  {
    hide AreFirst, Grandchildren, Children, Free, In, FirstById, Consistent, EventsUnder, UnitsUnder, SettledJobs,
         SettledChunks;
    EventBatch(t, v, m);
    UnitBatch(t, v, m);
    JobBatch(t, v, m, gone);
    ChunkBatch(t, v, m, gone);
  }

  lemma DocumentVictimGoes(t: Rows, root: Option<RowKey>, victim: RowKey, p: Policy, gone: set<RowKey>)
    requires Consistent(t) && RootCleared(t, root, p) && IsVictim(t, victim, root, p) && t[victim].DocumentRevision?
    requires gone == DocumentRevisionRows(t, victim, p.maxRows) + Free(t, gone, Optional(root))
    requires AllIn(Documents, Free(t, gone, Optional(root)))
    ensures DocumentRowsGo(t, Some(victim), root, p.maxRows, gone)
  {
    hide AreFirst, Grandchildren, Children, Free, In, Only, Consistent, RootCleared, AllIn, DocumentBatch,
         DocumentRevisionRows, ChunksOf, JobsOf, LinksTo, Optional;
    OptionalSome(victim);
    DocumentRevisionTables(t, victim, p.maxRows, Free(t, gone, Optional(root)), gone);
    DocumentBatches(t, victim, p.maxRows, gone);
    DocumentVictimIsFree(t, root, victim, p, gone);
  }

  lemma NoDocumentVictim(t: Rows, root: Option<RowKey>, m: nat, gone: set<RowKey>)
    requires gone == Free(t, gone, Optional(root)) && AllIn(Documents, gone)
    ensures DocumentRowsGo(t, None, root, m, gone)
  {
    hide Referrers;
  }

  /** What the document half purges of the rows it finds, its root's pointer cleared. */
  lemma DocumentRowsOrder(t: Rows, root: Option<RowKey>, p: Policy)
    requires Consistent(t) && RootCleared(t, root, p) && (root.Some? ==> t[root.value].Document?)
    ensures DocumentRowsGo(t, DocumentVictim(t, root, p), root, p.maxRows, DocumentRows(t, root, p))
  {
    hide DocumentVictim, DocumentRowsGo, DocumentRevisionRows, Consistent, Referrers, IsVictim, RevisionsOf;
    var gone, victim := DocumentRows(t, root, p), DocumentVictim(t, root, p);
    DocumentVictimIsVictim(t, root, p);
    var purged := if victim.Some? then DocumentRevisionRows(t, victim.value, p.maxRows) else {};
    RootIsFree(t, root, purged, gone);
    RootTable(t, root, gone, Documents);
    hide *;
    if victim.Some? {
      DocumentVictimGoes(t, root, victim.value, p, gone);
    } else {
      assert gone == Free(t, gone, Optional(root));
      NoDocumentVictim(t, root, p.maxRows, gone);
    }
  }

  lemma ClearedDocument(t: Tables, p: Policy, root: Option<RowKey>)
    requires root.Some? ==> root.value in t.rows && t.rows[root.value].Document?
    ensures root.Some? ==> root.value in ClearCurrent(t.rows, root) && ClearCurrent(t.rows, root)[root.value].Document?
  {
  }

  lemma DocumentOrder(t: Tables, p: Policy)
    requires Consistent(t.rows)
    ensures var e := DocumentEffect(t, p); DocumentStep(t, p, e.gone, e.storageKey, e.tables)
  {
    var root := First(QueuedDocuments(t, p));
    var rows := ClearCurrent(t.rows, root);
    var e := DocumentEffect(t, p);
    RootTaken(t, p);
    ClearedRoot(t, p, root);
    ClearedDocument(t, p, root);
    hide Consistent, RootCleared, ClearCurrent, Unpointed, IsRootOf, DocumentVictim, DocumentRows, First;
    hide QueuedDocuments, IsFirst, DocumentRowsGo, OnlyGone, Unreached, Children, OwnFirst, SupersededIn, Delete;
    hide Dequeue;
    DocumentVictimTaken(rows, root, p);
    DocumentRowsOrder(rows, root, p);
    DeletedIsOnlyGone(rows, t.queue, root, e.gone);
    assert DocumentGoes(t, p, root, DocumentVictim(rows, root, p), e.gone, e.storageKey, e.tables);
  }

  // ---- the operational records ----

  /** A selection holds exactly the rows of its table that are over, in the order of their column. */
  ghost predicate SelectsOver(t: Rows, table: Table, p: Policy, ages: Ages) {
    OverIn(t, table, p) == ages.Keys && forall k | k in ages :: ages[k] == OrderColumn(t[k])
  }

  lemma RecordsOver(t: Rows, p: Policy)
    ensures SelectsOver(t, IdempotencyRecords, p, ExpiredIdempotency(t, p))
  {
  }

  lemma ActionsOver(t: Rows, p: Policy)
    ensures SelectsOver(t, PendingAiActions, p, ExpiredActions(t, p))
  {
  }

  lemma BucketsOver(t: Rows, p: Policy)
    ensures SelectsOver(t, LoginThrottleBuckets, p, StaleBuckets(t, p))
  {
    assert forall k | k in t :: k.table == LoginThrottleBuckets <==> t[k].ThrottleBucket?;
    hide TableOf;
  }

  lemma FamiliesOver(t: Rows, p: Policy)
    ensures SelectsOver(t, SessionFamilies, p, ExpiredFamilies(t, p))
  {
  }

  lemma KeysOver(t: Rows, p: Policy)
    ensures SelectsOver(t, PersonalApiKeys, p, ExpiredKeys(t, p))
  {
  }

  lemma OverAre(t: Rows, p: Policy)
    ensures SelectsOver(t, IdempotencyRecords, p, ExpiredIdempotency(t, p))
    ensures SelectsOver(t, PendingAiActions, p, ExpiredActions(t, p))
    ensures SelectsOver(t, LoginThrottleBuckets, p, StaleBuckets(t, p))
    ensures SelectsOver(t, SessionFamilies, p, ExpiredFamilies(t, p))
    ensures SelectsOver(t, PersonalApiKeys, p, ExpiredKeys(t, p))
  {
    hide *;
    RecordsOver(t, p);
    ActionsOver(t, p);
    BucketsOver(t, p);
    FamiliesOver(t, p);
    KeysOver(t, p);
  }


  lemma OverBatch(t: Rows, table: Table, p: Policy, ages: Ages)
    requires SelectsOver(t, table, p, ages)
    ensures AreFirst(t, OverIn(t, table, p), FirstBatch(ages, p.maxRows), p.maxRows)
    ensures IsFirst(t, OverIn(t, table, p), First(ages))
  {
    BatchTaken(t, ages, p.maxRows);
    FirstTaken(t, ages);
  }

  lemma RecordBatches(t: Rows, p: Policy)
    ensures AreFirst(t, OverIn(t, IdempotencyRecords, p), FirstBatch(ExpiredIdempotency(t, p), p.maxRows), p.maxRows)
    ensures AreFirst(t, OverIn(t, PendingAiActions, p), FirstBatch(ExpiredActions(t, p), p.maxRows), p.maxRows)
    ensures AreFirst(t, OverIn(t, LoginThrottleBuckets, p), FirstBatch(StaleBuckets(t, p), p.maxRows), p.maxRows)
    ensures IsFirst(t, OverIn(t, SessionFamilies, p), First(ExpiredFamilies(t, p)))
    ensures IsFirst(t, OverIn(t, PersonalApiKeys, p), First(ExpiredKeys(t, p)))
  {
    hide *;
    OverAre(t, p);
    OverBatch(t, IdempotencyRecords, p, ExpiredIdempotency(t, p));
    OverBatch(t, PendingAiActions, p, ExpiredActions(t, p));
    OverBatch(t, LoginThrottleBuckets, p, StaleBuckets(t, p));
    OverBatch(t, SessionFamilies, p, ExpiredFamilies(t, p));
    OverBatch(t, PersonalApiKeys, p, ExpiredKeys(t, p));
  }

  /** A parent goes with the last of its children: what a batch of children and its parent look like in `gone`. */
  ghost predicate WithParent(gone: set<RowKey>, some: set<RowKey>, all: set<RowKey>, parent: RowKey,
                             childTable: Table, parentTable: Table)
  {
    && some <= all && AllIn(childTable, all)
    && In(childTable, gone) == some && In(parentTable, gone) == if some == all then {parent} else {}
  }

  lemma ParentIsFree(t: Rows, gone: set<RowKey>, some: set<RowKey>, all: set<RowKey>, parent: RowKey,
                     childTable: Table, parentTable: Table)
    requires WithParent(gone, some, all, parent, childTable, parentTable) && Referrers(t, parent) == all
    ensures In(parentTable, gone) == Free(t, gone, {parent})
  {
    hide Referrers;
    AllOfTable(childTable, all, gone);
  }

  lemma CredentialsAre(t: Rows, family: RowKey)
    ensures Children(t, SessionCredentials, Some(family)) == CredentialsOf(t, family)
    ensures AllIn(SessionCredentials, CredentialsOf(t, family))
    ensures CredentialsOf(t, family) <= t.Keys && forall k | k in CredentialsOf(t, family) :: OrderColumn(t[k]) == 0
  {
  }

  lemma ScopesByName(t: Rows, key: RowKey)
    ensures ScopesOf(t, key).Keys <= t.Keys
    ensures forall k | k in ScopesOf(t, key) :: ScopesOf(t, key)[k] == OrderColumn(t[k])
  {
  }

  lemma ScopesAre(t: Rows, key: RowKey)
    ensures Children(t, ApiKeyScopes, Some(key)) == ScopesOf(t, key).Keys
    ensures AllIn(ApiKeyScopes, ScopesOf(t, key).Keys)
  {
    forall k | k in t && k.table == ApiKeyScopes ensures t[k].ApiKeyScope? && References(t[k]) == {t[k].key} {
      assert TableOf(t[k]) == ApiKeyScopes;
    }
    hide References;
  }

  lemma FamilyGoes(t: Rows, family: RowKey, m: nat, gone: set<RowKey>)
    requires Consistent(t) && family in t && t[family].SessionFamily?
    requires WithParent(gone, FirstById(CredentialsOf(t, family), m), CredentialsOf(t, family), family,
                        SessionCredentials, SessionFamilies)
    ensures AreFirst(t, Children(t, SessionCredentials, Some(family)), In(SessionCredentials, gone), m)
    ensures In(SessionFamilies, gone) == Free(t, gone, {family})
  {
    hide AreFirst, Children, CredentialsOf, FirstById, Referrers, Consistent, In, Free, AllIn;
    CredentialsAre(t, family);
    IdBatchTaken(t, CredentialsOf(t, family), m);
    ReferrersOfFamily(t, family);
    ParentIsFree(t, gone, FirstById(CredentialsOf(t, family), m), CredentialsOf(t, family), family,
                 SessionCredentials, SessionFamilies);
  }

  lemma KeyGoes(t: Rows, key: RowKey, m: nat, gone: set<RowKey>)
    requires Consistent(t) && key in t && t[key].ApiKey?
    requires WithParent(gone, FirstBatch(ScopesOf(t, key), m), ScopesOf(t, key).Keys, key,
                        ApiKeyScopes, PersonalApiKeys)
    ensures AreFirst(t, Children(t, ApiKeyScopes, Some(key)), In(ApiKeyScopes, gone), m)
    ensures In(PersonalApiKeys, gone) == Free(t, gone, {key})
  {
    hide AreFirst, Children, ScopesOf, FirstBatch, Referrers, Consistent, In, Free, AllIn;
    ScopesAre(t, key);
    ScopesByName(t, key);
    BatchTaken(t, ScopesOf(t, key), m);
    ReferrersOfKey(t, key);
    ParentIsFree(t, gone, FirstBatch(ScopesOf(t, key), m), ScopesOf(t, key).Keys, key, ApiKeyScopes, PersonalApiKeys);
  }

  /** The rows of one table among those of the operational part, each set from a table of its own. */
  datatype Parts = Parts(records: set<RowKey>, actions: set<RowKey>, credentials: set<RowKey>, families: set<RowKey>,
                         scopes: set<RowKey>, keys: set<RowKey>, buckets: set<RowKey>)
  {
    function All(): set<RowKey> { records + actions + ((credentials + families) + (scopes + keys)) + buckets }

    ghost predicate ByTable() {
      && AllIn(IdempotencyRecords, records) && AllIn(PendingAiActions, actions)
      && AllIn(SessionCredentials, credentials) && AllIn(SessionFamilies, families)
      && AllIn(ApiKeyScopes, scopes) && AllIn(PersonalApiKeys, keys) && AllIn(LoginThrottleBuckets, buckets)
    }

    function Part(table: Table): set<RowKey> {
      match table
      case IdempotencyRecords => records
      case PendingAiActions => actions
      case SessionCredentials => credentials
      case SessionFamilies => families
      case ApiKeyScopes => scopes
      case PersonalApiKeys => keys
      case LoginThrottleBuckets => buckets
      case _ => {}
    }
  }

  lemma InParts(table: Table, x: Parts)
    requires x.ByTable()
    ensures In(table, x.All()) == x.Part(table)
  {
    hide In, AllIn;
    InUnion(table, x.records + x.actions + ((x.credentials + x.families) + (x.scopes + x.keys)), x.buckets);
    InUnion(table, x.records + x.actions, (x.credentials + x.families) + (x.scopes + x.keys));
    InUnion(table, x.records, x.actions);
    InUnion(table, x.credentials + x.families, x.scopes + x.keys);
    InUnion(table, x.credentials, x.families);
    InUnion(table, x.scopes, x.keys);
    InOwn(table, IdempotencyRecords, x.records);
    InOwn(table, PendingAiActions, x.actions);
    InOwn(table, SessionCredentials, x.credentials);
    InOwn(table, SessionFamilies, x.families);
    InOwn(table, ApiKeyScopes, x.scopes);
    InOwn(table, PersonalApiKeys, x.keys);
    InOwn(table, LoginThrottleBuckets, x.buckets);
  }

  lemma OnlyParts(x: Parts)
    requires x.ByTable()
    ensures Only({IdempotencyRecords, PendingAiActions, LoginThrottleBuckets, SessionFamilies, SessionCredentials,
                  PersonalApiKeys, ApiKeyScopes}, x.All())
  {
  }

  function FamilyPart(t: Rows, family: Option<RowKey>, m: nat): (set<RowKey>, set<RowKey>) {
    if family.None? then ({}, {}) else
      var credentials := FirstById(CredentialsOf(t, family.value), m);
      (credentials, if credentials == CredentialsOf(t, family.value) then {family.value} else {})
  }

  function KeyPart(t: Rows, key: Option<RowKey>, m: nat): (set<RowKey>, set<RowKey>) {
    if key.None? then ({}, {}) else
      var scopes := FirstBatch(ScopesOf(t, key.value), m);
      (scopes, if scopes == ScopesOf(t, key.value).Keys then {key.value} else {})
  }

  function PartsOf(t: Rows, p: Policy): Parts {
    var family := FamilyPart(t, First(ExpiredFamilies(t, p)), p.maxRows);
    var key := KeyPart(t, First(ExpiredKeys(t, p)), p.maxRows);
    Parts(FirstBatch(ExpiredIdempotency(t, p), p.maxRows), FirstBatch(ExpiredActions(t, p), p.maxRows),
          family.0, family.1, key.0, key.1, FirstBatch(StaleBuckets(t, p), p.maxRows))
  }

  lemma PartsAdd(t: Rows, p: Policy)
    ensures PartsOf(t, p).All() == OperationalRows(t, p)
  {
    hide FirstBatch, FirstById, CredentialsOf, ScopesOf, ExpiredIdempotency, ExpiredActions, ExpiredFamilies,
         ExpiredKeys, StaleBuckets, First;
    assert FamilyPart(t, First(ExpiredFamilies(t, p)), p.maxRows).0 +
           FamilyPart(t, First(ExpiredFamilies(t, p)), p.maxRows).1 == SessionRows(t, p);
    assert KeyPart(t, First(ExpiredKeys(t, p)), p.maxRows).0 +
           KeyPart(t, First(ExpiredKeys(t, p)), p.maxRows).1 == ApiKeyRows(t, p);
    hide FamilyPart, KeyPart, SessionRows, ApiKeyRows;
  }

  lemma OverTables(t: Rows, p: Policy)
    ensures AllIn(IdempotencyRecords, ExpiredIdempotency(t, p).Keys)
    ensures AllIn(PendingAiActions, ExpiredActions(t, p).Keys)
    ensures AllIn(LoginThrottleBuckets, StaleBuckets(t, p).Keys)
    ensures AllIn(SessionFamilies, ExpiredFamilies(t, p).Keys) && AllIn(PersonalApiKeys, ExpiredKeys(t, p).Keys)
  {
    hide ExpiredIdempotency, ExpiredActions, StaleBuckets, ExpiredFamilies, ExpiredKeys, Over;
    OverAre(t, p);
  }

  lemma FamilyPartTables(t: Rows, family: Option<RowKey>, m: nat)
    requires family.Some? ==> family.value.table == SessionFamilies
    ensures AllIn(SessionCredentials, FamilyPart(t, family, m).0) && AllIn(SessionFamilies, FamilyPart(t, family, m).1)
  {
    hide FirstById, CredentialsOf;
    if family.Some? { CredentialsAre(t, family.value); }
  }

  lemma KeyPartTables(t: Rows, key: Option<RowKey>, m: nat)
    requires key.Some? ==> key.value.table == PersonalApiKeys
    ensures AllIn(ApiKeyScopes, KeyPart(t, key, m).0) && AllIn(PersonalApiKeys, KeyPart(t, key, m).1)
  {
    hide FirstBatch, ScopesOf;
    if key.Some? { ScopesAre(t, key.value); }
  }

  lemma PartsByTable(t: Rows, p: Policy)
    ensures PartsOf(t, p).ByTable()
  {
    hide FirstBatch, FamilyPart, KeyPart, ExpiredIdempotency, ExpiredActions, ExpiredFamilies, ExpiredKeys,
         StaleBuckets;
    OverTables(t, p);
    FamilyPartTables(t, First(ExpiredFamilies(t, p)), p.maxRows);
    KeyPartTables(t, First(ExpiredKeys(t, p)), p.maxRows);
  }

  lemma FamilyPartGoes(t: Rows, family: Option<RowKey>, m: nat, gone: set<RowKey>)
    requires Consistent(t) && (family.Some? ==> family.value in t && t[family.value].SessionFamily?)
    requires In(SessionCredentials, gone) == FamilyPart(t, family, m).0
    requires In(SessionFamilies, gone) == FamilyPart(t, family, m).1
    ensures AreFirst(t, Children(t, SessionCredentials, family), In(SessionCredentials, gone), m)
    ensures In(SessionFamilies, gone) == Free(t, gone, Optional(family))
  {
    hide In, FirstById, CredentialsOf, Consistent, Referrers;
    if family.Some? {
      CredentialsAre(t, family.value);
      FamilyGoes(t, family.value, m, gone);
      hide Children, AreFirst;
    }
  }

  lemma KeyPartGoes(t: Rows, key: Option<RowKey>, m: nat, gone: set<RowKey>)
    requires Consistent(t) && (key.Some? ==> key.value in t && t[key.value].ApiKey?)
    requires In(ApiKeyScopes, gone) == KeyPart(t, key, m).0
    requires In(PersonalApiKeys, gone) == KeyPart(t, key, m).1
    ensures AreFirst(t, Children(t, ApiKeyScopes, key), In(ApiKeyScopes, gone), m)
    ensures In(PersonalApiKeys, gone) == Free(t, gone, Optional(key))
  {
    hide In, FirstBatch, ScopesOf, Consistent, Referrers;
    if key.Some? {
      ScopesAre(t, key.value);
      KeyGoes(t, key.value, m, gone);
      hide Children, AreFirst;
    }
  }

  lemma InOperationalRows(t: Rows, p: Policy)
    ensures var gone := OperationalRows(t, p); var x := PartsOf(t, p);
      && In(IdempotencyRecords, gone) == x.records && In(PendingAiActions, gone) == x.actions
      && In(SessionCredentials, gone) == x.credentials && In(SessionFamilies, gone) == x.families
      && In(ApiKeyScopes, gone) == x.scopes && In(PersonalApiKeys, gone) == x.keys
      && In(LoginThrottleBuckets, gone) == x.buckets
      && Only({IdempotencyRecords, PendingAiActions, LoginThrottleBuckets, SessionFamilies, SessionCredentials,
               PersonalApiKeys, ApiKeyScopes}, gone)
  {
    hide PartsOf, OperationalRows, In, Parts.All, Parts.ByTable, Only;
    var x := PartsOf(t, p);
    PartsAdd(t, p);
    PartsByTable(t, p);
    InParts(IdempotencyRecords, x);
    InParts(PendingAiActions, x);
    InParts(SessionCredentials, x);
    InParts(SessionFamilies, x);
    InParts(ApiKeyScopes, x);
    InParts(PersonalApiKeys, x);
    InParts(LoginThrottleBuckets, x);
    OnlyParts(x);
  }

  lemma OperationalOrder(t: Tables, p: Policy)
    requires Consistent(t.rows)
    ensures OperationalStep(t, p, OperationalEffect(t, p).gone, OperationalEffect(t, p).tables)
  {
    var family, key := First(ExpiredFamilies(t.rows, p)), First(ExpiredKeys(t.rows, p));
    var e := OperationalEffect(t, p);
    FirstFamilyIsOver(t.rows, p);
    FirstKeyIsOver(t.rows, p);
    DeletedIsOnlyGone(t.rows, t.queue, None, e.gone);
    hide Consistent, AreFirst, IsFirst, OnlyGone, Only, OverIn, Children, Free, In, First, FirstBatch, OperationalRows,
         Delete, FamilyPart, KeyPart, Due, DueIfSet, FamilyEnd, KeyEnd;
    InOperationalRows(t.rows, p);
    RecordBatches(t.rows, p);
    FamilyPartGoes(t.rows, family, p.maxRows, e.gone);
    KeyPartGoes(t.rows, key, p.maxRows, e.gone);
    assert OperationalGoes(t, p, family, key, e.gone, e.tables);
  }

  // ---- the whole call ----

  /**
   Every call purges the first rows: it queues the longest archived roots, works on the first queued ones,
   takes the root's first revision before any superseded one, and leaves in no table a row that comes
   before one it purged for the same reason.
   */
  lemma EveryCallPurgesTheFirst(t: Tables, p: Policy)
    requires Consistent(t.rows)
    ensures PurgesTheFirst(t, p, RetentionEffect(t, p))
  {
    hide KnowledgeEffect, DocumentEffect, OperationalEffect, QueueRoots, Consistent, BothQueued, KnowledgeStep,
         DocumentStep, OperationalStep, Enqueue;
    var q := QueueRoots(t, p);
    QueueingKeepsRows(t, p);
    QueueRootsOrder(t, p);
    KnowledgeConserves(q, p);
    KnowledgeOrder(q, p);
    var k := KnowledgeEffect(q, p);
    DocumentConserves(k.tables, p);
    DocumentOrder(k.tables, p);
    var d := DocumentEffect(k.tables, p);
    OperationalOrder(d.tables, p);
  }
}
