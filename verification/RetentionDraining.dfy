/** How much one call does, and that calls get to the end: the batch bound and the drain argument. */
module RetentionDraining {
  import opened Wrappers
  import opened RetentionSchema
  import opened RetentionSelection
  import opened RetentionEffects
  import opened RetentionSafety
  import opened RetentionLive

  // ---- work bound ----

  lemma KnowledgeBound(t: Rows, root: Option<RowKey>, p: Policy)
    ensures |KnowledgeRows(t, root, p)| <= 2 * p.maxRows + 2
  {
    hide FirstById, RevisionsOf, UnitsOf, LinksFrom, KnowledgeVictim;
    var victim := KnowledgeVictim(t, root, p);
    if victim.Some? {
      var units := FirstById(UnitsOf(t, victim.value), p.maxRows);
      var links := FirstById(LinksFrom(t, victim.value), p.maxRows);
      assert |units + links| <= 2 * p.maxRows;
      assert KnowledgeRevisionRows(t, victim.value, p.maxRows) <= units + links + {victim.value};
    }
  }

  lemma DocumentBatchBound(t: Rows, revision: RowKey, m: nat)
    ensures |DocumentBatch(t, revision, m).All()| <= 4 * m
  {
    hide FirstById, EventsUnder, UnitsUnder, SettledJobs, SettledChunks;
    var b := DocumentBatch(t, revision, m);
    assert |b.events + b.units| <= 2 * m;
    assert |b.events + b.units + b.jobs| <= 3 * m;
  }

  lemma DocumentBound(t: Rows, root: Option<RowKey>, p: Policy)
    ensures |DocumentRows(t, root, p)| <= 4 * p.maxRows + 2
  {
    hide DocumentBatch, RevisionsOf, DocumentVictim, ChunksOf, JobsOf, LinksTo;
    var victim := DocumentVictim(t, root, p);
    if victim.Some? { DocumentBatchBound(t, victim.value, p.maxRows); }
  }

  lemma OperationalBound(t: Rows, p: Policy)
    ensures |OperationalRows(t, p)| <= 5 * p.maxRows + 2
  {
    hide FirstById, FirstBatch, First, CredentialsOf, ScopesOf, ExpiredIdempotency, ExpiredActions, StaleBuckets,
      ExpiredFamilies, ExpiredKeys;
    var m := p.maxRows;
    var a := FirstBatch(ExpiredIdempotency(t, p), m);
    var b := FirstBatch(ExpiredActions(t, p), m);
    var c := FamilyRows(t, First(ExpiredFamilies(t, p)), m);
    var d := KeyRows(t, First(ExpiredKeys(t, p)), m);
    assert |a + b| <= 2 * m && |c| <= m + 1 && |d| <= m + 1;
    assert |a + b + c| <= 3 * m + 1;
    assert |a + b + c + d| <= 4 * m + 2;
  }

  /** Work bound: a call with batch size m purges at most 11 m + 6 rows, whatever the tables hold. */
  lemma RetentionBound(t: Tables, p: Policy)
    ensures |RetentionEffect(t, p).gone| <= 11 * p.maxRows + 6
  {
    hide QueueRoots, DueIfSet, ClearCurrent, Delete, Dequeue, KnowledgeRows, DocumentRows,
      OperationalRows, StorageKeyOf, DocumentVictim;
    var q := QueueRoots(t, p);
    var k := KnowledgeEffect(q, p);
    var d := DocumentEffect(k.tables, p);
    var o := OperationalEffect(d.tables, p);
    KnowledgeBound(ClearCurrent(q.rows, First(QueuedItems(q, p))), First(QueuedItems(q, p)), p);
    var document := First(QueuedDocuments(k.tables, p));
    DocumentBound(ClearCurrent(k.tables.rows, document), document, p);
    OperationalBound(d.tables.rows, p);
    assert |k.gone + d.gone| <= 6 * p.maxRows + 4;
  }

  // ---- the queue only ever holds uncited archived documents ----

  ghost predicate QueueSound(t: Tables) {
    forall k | k in t.queue && k in t.rows && t.rows[k].Document? :: QueuedSoundly(t.rows, k)
  }

  ghost predicate QueuedSoundly(t: Rows, k: RowKey)
    requires k in t && t[k].Document?
  {
    t[k].archivedAt.Some? && !DocumentCited(t, k)
  }

  lemma QueueRootsSound(t: Tables, p: Policy)
    requires QueueSound(t)
    ensures QueueSound(QueueRoots(t, p))
  {
    hide DocumentCited, NotLater;
  }

  lemma CitedRevisionKept(t: Rows, t': Rows, p: Policy, link: RowKey)
    requires Consistent(t) && Consistent(t') && KeepsContent(t, t', p)
    requires link in t' && t'[link].ProvenanceLink? && t'[link].source.Some?
    ensures link in t && t[link].ProvenanceLink? && CitedRevision(t, link) == CitedRevision(t', link)
    ensures CitedRevision(t', link).Some? && CitedRevision(t', link).value in t'
  {
    assert SameRow(t, t', link, p) && KeysHold(t', link);
    var s := t'[link].source.value;
    assert SameRow(t, t', s, p) && KeysHold(t', s);
  }

  /** Purging rows creates no citation. */
  lemma CitationsShrink(t: Rows, t': Rows, p: Policy, document: RowKey)
    requires Consistent(t) && Consistent(t') && KeepsContent(t, t', p)
    requires DocumentCited(t', document)
    ensures DocumentCited(t, document)
  {
    hide Consistent;
    var link :| link in t' && CitesDocument(t', link, document);
    CitedRevisionKept(t, t', p, link);
    var r := CitedRevision(t', link).value;
    assert SameRow(t, t', r, p);
    assert CitesDocument(t, link, document);
  }

  lemma PurgeKeepsQueueSound(t: Tables, t': Tables, p: Policy)
    requires QueueSound(t) && Consistent(t.rows) && Consistent(t'.rows) && KeepsContent(t.rows, t'.rows, p)
    requires t'.queue.Keys <= t.queue.Keys
    ensures QueueSound(t')
  {
    hide DocumentCited, Consistent;
    forall k | k in t'.queue && k in t'.rows && t'.rows[k].Document? ensures QueuedSoundly(t'.rows, k) {
      assert SameRow(t.rows, t'.rows, k, p);
      assert QueuedSoundly(t.rows, k);
      if DocumentCited(t'.rows, k) { CitationsShrink(t.rows, t'.rows, p, k); }
    }
  }

  lemma KnowledgeQueueSound(t: Tables, p: Policy)
    requires QueueSound(t) && Consistent(t.rows)
    ensures QueueSound(KnowledgeEffect(t, p).tables)
    ensures KnowledgeEffect(t, p).tables.queue.Keys <= t.queue.Keys
  {
    hide KnowledgeRows, QueueSound, Consistent, ClearCurrent, Delete, KeepsLive, KeepsContent, QueuedItems;
    KnowledgeConserves(t, p);
    KnowledgeKeepsLive(t, p);
    PurgeKeepsQueueSound(t, KnowledgeEffect(t, p).tables, p);
  }

  lemma DocumentQueueSound(t: Tables, p: Policy)
    requires QueueSound(t) && Consistent(t.rows)
    ensures QueueSound(DocumentEffect(t, p).tables)
  {
    hide DocumentRows, QueueSound, Consistent, ClearCurrent, Delete, KeepsLive, KeepsContent, QueuedDocuments,
      StorageKeyOf, DocumentVictim;
    DocumentConserves(t, p);
    DocumentKeepsLive(t, p);
    PurgeKeepsQueueSound(t, DocumentEffect(t, p).tables, p);
  }

  lemma OperationalQueueSound(t: Tables, p: Policy)
    requires QueueSound(t) && Consistent(t.rows)
    ensures QueueSound(OperationalEffect(t, p).tables)
  {
    hide OperationalRows, QueueSound, Consistent, Delete, KeepsLive, KeepsContent;
    OperationalConserves(t, p);
    OperationalKeepsLive(t, p);
    PurgeKeepsQueueSound(t, OperationalEffect(t, p).tables, p);
  }

  /** A queued document is archived and cited by no provenance link, and a call keeps it that way. */
  lemma RetentionQueueSound(t: Tables, p: Policy)
    requires QueueSound(t) && Consistent(t.rows)
    ensures QueueSound(RetentionEffect(t, p).tables)
  {
    hide KnowledgeEffect, DocumentEffect, OperationalEffect, QueueRoots, QueueSound, Consistent;
    var q := QueueRoots(t, p);
    QueueingKeepsRows(t, p);
    QueueRootsSound(t, p);
    KnowledgeConserves(q, p);
    KnowledgeQueueSound(q, p);
    var k := KnowledgeEffect(q, p);
    DocumentConserves(k.tables, p);
    DocumentQueueSound(k.tables, p);
    OperationalQueueSound(DocumentEffect(k.tables, p).tables, p);
  }

  // ---- nothing eligible left ----

  ghost predicate KnowledgeDrained(t: Rows, p: Policy) {
    (forall k | k in t && t[k].KnowledgeItem? :: !ArchivedPastCutoff(t, k, p)) &&
    (forall k | k in t && t[k].KnowledgeRevision? :: !Superseded(t, k, p))
  }

  ghost predicate DocumentsDrained(t: Rows, p: Policy) {
    (forall k | k in t && t[k].Document? && ArchivedPastCutoff(t, k, p) :: DocumentCited(t, k)) &&
    (forall k | k in t && t[k].DocumentRevision? && Superseded(t, k, p) :: RevisionCited(t, k))
  }

  ghost predicate OperationalDrained(t: Rows, p: Policy) {
    forall k | k in t ::
      match t[k]
      case IdempotencyRecord(expiresAt) => !Due(expiresAt, p.operationalBefore)
      case PendingAction(expiresAt) => !Due(expiresAt, p.operationalBefore)
      case SessionFamily(revokedAt, absoluteExpiresAt) => !Due(FamilyEnd(t[k]), p.operationalBefore)
      case ApiKey(_, _) => !DueIfSet(KeyEnd(t[k]), p.operationalBefore)
      case ThrottleBucket(updatedAt, blockedUntil) =>
        !(Due(updatedAt, p.operationalBefore) && (blockedUntil.None? || Due(blockedUntil.value, p.operationalBefore)))
      case _ => true
  }

  /**
   Nothing eligible is left: no item archived past the cutoff, no old non-current knowledge revision,
   every past-cutoff archived document and every old non-current document revision still cited, and no
   expired operational row.
   */
  ghost predicate Drained(t: Rows, p: Policy) {
    KnowledgeDrained(t, p) && DocumentsDrained(t, p) && OperationalDrained(t, p)
  }

  // ---- the knowledge half is idle exactly when no knowledge is eligible ----

  lemma QueuedItemsEmpty(t: Tables, p: Policy)
    ensures QueuedItems(QueueRoots(t, p), p) == map[] <==>
            forall k | k in t.rows && t.rows[k].KnowledgeItem? :: !ArchivedPastCutoff(t.rows, k, p)
  {
    hide DocumentCited, NotLater, ArchivedPastCutoff;
    var q := QueueRoots(t, p);
    if k :| k in t.rows && t.rows[k].KnowledgeItem? && ArchivedPastCutoff(t.rows, k, p) {
      if k !in t.queue {
        assert k in ItemsToQueue(t, p);
        var first := First(ItemsToQueue(t, p)).value;
        assert first in QueuedItems(q, p);
      } else {
        assert k in QueuedItems(q, p);
      }
    } else if k :| k in QueuedItems(q, p) {
      assert k in t.rows;
    }
  }

  lemma KnowledgeRevisionProgress(t: Rows, revision: RowKey, m: nat)
    requires m >= 1
    ensures KnowledgeRevisionRows(t, revision, m) != {}
  {
    hide FirstById, UnitsOf, LinksFrom;
    var units := FirstById(UnitsOf(t, revision), m);
    if UnitsOf(t, revision) != {} {
      assert units <= KnowledgeRevisionRows(t, revision, m);
    } else if LinksFrom(t, revision) == {} {
      assert revision in KnowledgeRevisionRows(t, revision, m);
    } else {
      assert FirstById(LinksFrom(t, revision), m) <= KnowledgeRevisionRows(t, revision, m);
    }
  }

  lemma OwnKnowledgeIsAll(t: Rows, root: RowKey)
    requires Consistent(t) && root in t && t[root].KnowledgeItem?
    ensures OwnKnowledgeRevisions(t, Some(root)).Keys == RevisionsOf(t, root)
  {
    forall k | k in RevisionsOf(t, root) ensures k in OwnKnowledgeRevisions(t, Some(root)) {
      assert KeysHold(t, k);
    }
  }

  lemma KnowledgeIdle(t: Rows, root: Option<RowKey>, p: Policy)
    requires Consistent(t) && p.maxRows >= 1
    requires root.Some? ==> root.value in t && t[root.value].KnowledgeItem?
    ensures KnowledgeRows(t, root, p) == {} <==> root.None? && SupersededKnowledge(t, p) == map[]
  {
    hide KnowledgeRevisionRows, RevisionsOf, Superseded, Consistent, OwnKnowledgeRevisions, SupersededKnowledge;
    var own := OwnKnowledgeRevisions(t, root);
    var victim := KnowledgeVictim(t, root, p);
    if root.Some? {
      OwnKnowledgeIsAll(t, root.value);
    } else {
      NoOwnKnowledge(t);
    }
    if victim.Some? { KnowledgeRevisionProgress(t, victim.value, p.maxRows); }
  }

  lemma NoOwnKnowledge(t: Rows)
    ensures OwnKnowledgeRevisions(t, None) == map[]
  {
  }

  // ---- the document half ----

  /** An uncited archived document is in the queue, or is why another one is. */
  lemma UncitedGetsQueued(t: Tables, p: Policy, k: RowKey)
    requires k in t.rows && t.rows[k].Document? && ArchivedPastCutoff(t.rows, k, p) && !DocumentCited(t.rows, k)
    ensures QueuedDocuments(QueueRoots(t, p), p) != map[]
  {
    hide DocumentCited, NotLater, ArchivedPastCutoff;
    var q1 := Enqueue(t, ItemsToQueue(t, p));
    var q := QueueRoots(t, p);
    if k !in q1.queue {
      assert k in DocumentsToQueue(q1, p);
      var first := First(DocumentsToQueue(q1, p)).value;
      assert first in QueuedDocuments(q, p);
    } else {
      assert k in QueuedDocuments(q, p);
    }
  }

  lemma QueuedDocumentsEmpty(t: Tables, p: Policy)
    requires QueueSound(t)
    ensures QueuedDocuments(QueueRoots(t, p), p) == map[] <==>
            forall k | k in t.rows && t.rows[k].Document? && ArchivedPastCutoff(t.rows, k, p) ::
              DocumentCited(t.rows, k)
  {
    hide DocumentCited, ArchivedPastCutoff, QueueRoots;
    var q := QueueRoots(t, p);
    QueueRootsSound(t, p);
    QueueingKeepsRows(t, p);
    forall k | k in QueuedDocuments(q, p)
      ensures k in t.rows && t.rows[k].Document? && ArchivedPastCutoff(t.rows, k, p) && !DocumentCited(t.rows, k)
    {
      assert QueuedSoundly(q.rows, k);
    }
    if k :| k in t.rows && t.rows[k].Document? && ArchivedPastCutoff(t.rows, k, p) && !DocumentCited(t.rows, k) {
      UncitedGetsQueued(t, p, k);
    }
  }

  lemma DocumentBatchProgress(t: Rows, revision: RowKey, m: nat)
    requires m >= 1 && Consistent(t)
    requires revision in t && t[revision].DocumentRevision? && !RevisionCited(t, revision)
    ensures DocumentRevisionRows(t, revision, m) != {}
  {
    hide FirstById, Consistent;
    var b := DocumentBatch(t, revision, m);
    if b.All() == {} {
      assert b.events == {} && b.units == {} && b.jobs == {} && b.chunks == {};
      NoEventsMeansJobsSettled(t, revision);
      NoUnitsMeansChunksSettled(t, revision);
      if LinksTo(t, revision) != {} { LinkCites(t, revision, revision); }
    }
  }

  lemma NoEventsMeansJobsSettled(t: Rows, revision: RowKey)
    ensures EventsUnder(t, revision) == {} ==> SettledJobs(t, revision, {}) == JobsOf(t, revision)
  {
    forall j | j in JobsOf(t, revision) ensures EventsOf(t, j) <= EventsUnder(t, revision) {}
  }

  /** A link to a revision, or to one of its chunks, cites the revision. */
  lemma LinkCites(t: Rows, revision: RowKey, source: RowKey)
    requires source in t && LinksTo(t, source) != {}
    requires (source == revision && t[source].DocumentRevision?) || (t[source].Chunk? && t[source].revision == revision)
    ensures RevisionCited(t, revision)
  {
    var l :| l in LinksTo(t, source);
    assert CitedRevision(t, l) == Some(revision);
  }

  lemma NoUnitsMeansChunksSettled(t: Rows, revision: RowKey)
    requires !RevisionCited(t, revision)
    ensures UnitsUnder(t, revision) == {} ==> SettledChunks(t, revision, {}) == ChunksOf(t, revision)
  {
    forall c | c in ChunksOf(t, revision) ensures UnitsOf(t, c) <= UnitsUnder(t, revision) && LinksTo(t, c) == {} {
      if LinksTo(t, c) != {} { LinkCites(t, revision, c); }
    }
  }

  lemma CitedRevisionCitesDocument(t: Rows, revision: RowKey)
    requires revision in t && t[revision].DocumentRevision? && RevisionCited(t, revision)
    ensures DocumentCited(t, t[revision].parent)
  {
    var l :| l in t && t[l].ProvenanceLink? && CitedRevision(t, l) == Some(revision);
    assert CitesDocument(t, l, t[revision].parent);
  }

  lemma OwnDocumentsAreAll(t: Rows, root: RowKey)
    requires Consistent(t) && root in t && t[root].Document? && !DocumentCited(t, root)
    ensures OwnDocumentRevisions(t, Some(root)).Keys == RevisionsOf(t, root)
  {
    hide RevisionCited, DocumentCited;
    forall k | k in RevisionsOf(t, root) ensures k in OwnDocumentRevisions(t, Some(root)) {
      assert KeysHold(t, k);
      if RevisionCited(t, k) { CitedRevisionCitesDocument(t, k); }
    }
  }

  lemma NoOwnDocuments(t: Rows)
    ensures OwnDocumentRevisions(t, None) == map[]
  {
  }

  lemma DocumentIdle(t: Rows, root: Option<RowKey>, p: Policy)
    requires Consistent(t) && p.maxRows >= 1
    requires root.Some? ==> root.value in t && t[root.value].Document? && !DocumentCited(t, root.value)
    ensures DocumentRows(t, root, p) == {} <==> root.None? && SupersededDocuments(t, p) == map[]
  {
    hide DocumentRevisionRows, RevisionsOf, Superseded, Consistent, OwnDocumentRevisions, SupersededDocuments,
      DocumentCited, RevisionCited, IsVictim;
    var victim := DocumentVictim(t, root, p);
    DocumentVictimIsVictim(t, root, p);
    if root.Some? {
      OwnDocumentsAreAll(t, root.value);
    } else {
      NoOwnDocuments(t);
    }
    if victim.Some? {
      VictimFacts(t, root, victim.value, p);
      DocumentBatchProgress(t, victim.value, p.maxRows);
    }
  }

  // ---- the operational half ----

  lemma FamilyProgress(t: Rows, family: Option<RowKey>, m: nat)
    requires m >= 1
    ensures FamilyRows(t, family, m) == {} <==> family.None?
  {
    hide FirstById, CredentialsOf;
  }

  lemma KeyProgress(t: Rows, key: Option<RowKey>, m: nat)
    requires m >= 1
    ensures KeyRows(t, key, m) == {} <==> key.None?
  {
    hide FirstBatch, ScopesOf;
    if key.Some? { BatchEmpty(ScopesOf(t, key.value), m); }
  }

  lemma BatchEmpty(ages: Ages, m: nat)
    requires m >= 1
    ensures FirstBatch(ages, m) == {} <==> ages.Keys == {}
  {
    FirstBatchSize(ages, m);
  }

  lemma OperationalIdle(t: Rows, p: Policy)
    requires p.maxRows >= 1
    ensures OperationalRows(t, p) == {} <==>
            ExpiredIdempotency(t, p).Keys == {} && ExpiredActions(t, p).Keys == {} &&
            ExpiredFamilies(t, p).Keys == {} &&
            ExpiredKeys(t, p).Keys == {} && StaleBuckets(t, p).Keys == {}
  {
    hide ExpiredIdempotency, ExpiredActions, StaleBuckets, ExpiredFamilies, ExpiredKeys, FirstBatch, FamilyRows,
      KeyRows;
    BatchEmpty(ExpiredIdempotency(t, p), p.maxRows);
    BatchEmpty(ExpiredActions(t, p), p.maxRows);
    BatchEmpty(StaleBuckets(t, p), p.maxRows);
    FamilyProgress(t, First(ExpiredFamilies(t, p)), p.maxRows);
    KeyProgress(t, First(ExpiredKeys(t, p)), p.maxRows);
  }

  lemma NothingExpired(t: Rows, p: Policy)
    ensures OperationalDrained(t, p) <==>
            ExpiredIdempotency(t, p).Keys == {} && ExpiredActions(t, p).Keys == {} &&
            ExpiredFamilies(t, p).Keys == {} &&
            ExpiredKeys(t, p).Keys == {} && StaleBuckets(t, p).Keys == {}
  {
    hide Due, DueIfSet, FamilyEnd, KeyEnd;
    if !OperationalDrained(t, p) {
      var k :| k in t && match t[k]
        case IdempotencyRecord(expiresAt) => Due(expiresAt, p.operationalBefore)
        case PendingAction(expiresAt) => Due(expiresAt, p.operationalBefore)
        case SessionFamily(revokedAt, absoluteExpiresAt) => Due(FamilyEnd(t[k]), p.operationalBefore)
        case ApiKey(_, _) => DueIfSet(KeyEnd(t[k]), p.operationalBefore)
        case ThrottleBucket(updatedAt, blockedUntil) =>
          Due(updatedAt, p.operationalBefore) && (blockedUntil.None? || Due(blockedUntil.value, p.operationalBefore))
        case _ => false;
      assert k in ExpiredIdempotency(t, p) || k in ExpiredActions(t, p) || k in ExpiredFamilies(t, p) ||
             k in ExpiredKeys(t, p) || k in StaleBuckets(t, p);
    }
  }

  // ---- the whole call ----

  lemma KnowledgeHalfIdle(t: Tables, p: Policy)
    requires Consistent(t.rows) && p.maxRows >= 1
    ensures KnowledgeEffect(QueueRoots(t, p), p).gone == {} <==> KnowledgeDrained(t.rows, p)
    ensures KnowledgeDrained(t.rows, p) ==> KnowledgeEffect(QueueRoots(t, p), p).tables == QueueRoots(t, p)
  {
    hide KnowledgeRows, QueueRoots, Consistent, Superseded, ArchivedPastCutoff, QueuedItems, SupersededKnowledge;
    var q := QueueRoots(t, p);
    QueueingKeepsRows(t, p);
    QueuedItemsEmpty(t, p);
    var root := First(QueuedItems(q, p));
    QueuedAreRoots(q, p);
    ClearKeepsConsistency(t.rows, root);
    KnowledgeIdle(ClearCurrent(t.rows, root), root, p);
    SupersededKnowledgeEmpty(t.rows, p);
    if root.None? { DeleteNothing(t.rows); }
  }

  lemma QueuedAreRoots(t: Tables, p: Policy)
    ensures First(QueuedItems(t, p)).Some? ==>
              First(QueuedItems(t, p)).value in t.rows && t.rows[First(QueuedItems(t, p)).value].KnowledgeItem?
    ensures First(QueuedDocuments(t, p)).Some? ==>
              First(QueuedDocuments(t, p)).value in t.queue &&
              First(QueuedDocuments(t, p)).value in t.rows && t.rows[First(QueuedDocuments(t, p)).value].Document?
  {
  }

  lemma ClearKeepsCitations(t: Rows, root: Option<RowKey>, document: RowKey)
    requires root.Some? ==> root.value in t && IsRoot(t[root.value])
    requires DocumentCited(ClearCurrent(t, root), document)
    ensures DocumentCited(t, document)
  {
    var t' := ClearCurrent(t, root);
    var link :| link in t' && CitesDocument(t', link, document);
    assert CitesDocument(t, link, document);
  }

  lemma SupersededDocumentsEmpty(t: Rows, p: Policy)
    ensures SupersededDocuments(t, p) == map[] <==>
            forall k | k in t && t[k].DocumentRevision? && Superseded(t, k, p) :: RevisionCited(t, k)
  {
    hide Superseded, RevisionCited;
    if k :| k in t && t[k].DocumentRevision? && Superseded(t, k, p) && !RevisionCited(t, k) {
      assert k in SupersededDocuments(t, p);
    }
  }

  lemma SupersededKnowledgeEmpty(t: Rows, p: Policy)
    ensures SupersededKnowledge(t, p) == map[] <==> forall k | k in t && t[k].KnowledgeRevision? :: !Superseded(t, k, p)
  {
    hide Superseded;
    if k :| k in t && t[k].KnowledgeRevision? && Superseded(t, k, p) { assert k in SupersededKnowledge(t, p); }
  }

  lemma DocumentHalfIdle(t: Tables, p: Policy)
    requires Consistent(t.rows) && QueueSound(t) && p.maxRows >= 1
    ensures DocumentEffect(QueueRoots(t, p), p).gone == {} <==> DocumentsDrained(t.rows, p)
    ensures DocumentsDrained(t.rows, p) ==> DocumentEffect(QueueRoots(t, p), p).tables == QueueRoots(t, p)
  {
    hide DocumentRows, QueueRoots, Consistent, Superseded, ArchivedPastCutoff, DocumentCited, RevisionCited,
      StorageKeyOf, DocumentVictim, QueuedDocuments, SupersededDocuments;
    var q := QueueRoots(t, p);
    QueueingKeepsRows(t, p);
    QueueRootsSound(t, p);
    QueuedDocumentsEmpty(t, p);
    var root := First(QueuedDocuments(q, p));
    QueuedAreRoots(q, p);
    ClearKeepsConsistency(t.rows, root);
    if root.Some? {
      assert QueuedSoundly(q.rows, root.value);
      if DocumentCited(ClearCurrent(t.rows, root), root.value) { ClearKeepsCitations(t.rows, root, root.value); }
    }
    DocumentIdle(ClearCurrent(t.rows, root), root, p);
    SupersededDocumentsEmpty(t.rows, p);
    if root.None? { DeleteNothing(t.rows); }
  }

  lemma OperationalHalfIdle(t: Tables, p: Policy)
    requires p.maxRows >= 1
    ensures OperationalEffect(t, p).gone == {} <==> OperationalDrained(t.rows, p)
    ensures OperationalDrained(t.rows, p) ==> OperationalEffect(t, p).tables == t
  {
    hide OperationalRows, OperationalDrained, ExpiredIdempotency, ExpiredActions, StaleBuckets, ExpiredFamilies,
      ExpiredKeys;
    OperationalIdle(t.rows, p);
    NothingExpired(t.rows, p);
    DeleteNothing(t.rows);
  }

  /** A call purges nothing exactly when nothing eligible is left; then it changes no row. */
  lemma IdleExactlyWhenDrained(t: Tables, p: Policy)
    requires Consistent(t.rows) && QueueSound(t) && p.maxRows >= 1
    ensures RetentionEffect(t, p).gone == {} <==> Drained(t.rows, p)
    ensures Drained(t.rows, p) ==> RetentionEffect(t, p).tables.rows == t.rows
  {
    hide KnowledgeEffect, DocumentEffect, OperationalEffect, QueueRoots, Consistent, QueueSound,
      KnowledgeDrained, DocumentsDrained, OperationalDrained;
    var q := QueueRoots(t, p);
    QueueingKeepsRows(t, p);
    KnowledgeHalfIdle(t, p);
    if KnowledgeDrained(t.rows, p) {
      DocumentHalfIdle(t, p);
      OperationalHalfIdle(q, p);
    }
  }

  /** The tables after `n` calls with the same cutoffs. */
  ghost function Calls(t: Tables, p: Policy, n: nat): Tables
    decreases n
  {
    if n == 0 then t else Calls(RetentionEffect(t, p).tables, p, n - 1)
  }

  lemma DrainedStays(t: Tables, p: Policy, n: nat)
    requires Consistent(t.rows) && QueueSound(t) && p.maxRows >= 1 && Drained(t.rows, p)
    ensures Calls(t, p, n).rows == t.rows
    decreases n
  {
    hide RetentionEffect, Consistent, QueueSound, Drained;
    if n > 0 {
      IdleExactlyWhenDrained(t, p);
      RetentionQueueSound(t, p);
      DrainedStays(RetentionEffect(t, p).tables, p, n - 1);
    }
  }

  /** Any call made before nothing eligible is left strictly shrinks the row count. */
  lemma CallShrinks(t: Tables, p: Policy)
    requires Consistent(t.rows) && QueueSound(t) && p.maxRows >= 1 && !Drained(t.rows, p)
    ensures var t' := RetentionEffect(t, p).tables;
            |t'.rows.Keys| < |t.rows.Keys| && Consistent(t'.rows) && QueueSound(t')
  {
    hide RetentionEffect, Consistent, QueueSound, Drained;
    IdleExactlyWhenDrained(t, p);
    RetentionConserves(t, p);
    RetentionQueueSound(t, p);
    Shrinks(t, RetentionEffect(t, p));
  }

  /**
   Draining: with fixed cutoffs and no other writer, a database of N rows has nothing eligible left
   after N calls, and the next call purges nothing.
   */
  lemma {:induction false} NRowsDrainInNCalls(t: Tables, p: Policy, n: nat)
    requires Consistent(t.rows) && QueueSound(t) && p.maxRows >= 1
    requires |t.rows.Keys| <= n
    ensures Drained(Calls(t, p, n).rows, p)
    ensures RetentionEffect(Calls(t, p, n), p).gone == {}
    decreases n
  {
    hide RetentionEffect, Consistent, QueueSound, Drained;
    if Drained(t.rows, p) {
      DrainedStays(t, p, n);
      CallsKeepInvariants(t, p, n);
      IdleExactlyWhenDrained(Calls(t, p, n), p);
    } else {
      CallShrinks(t, p);
      NRowsDrainInNCalls(RetentionEffect(t, p).tables, p, n - 1);
    }
  }

  lemma Shrinks(t: Tables, e: Effect)
    requires Conserves(t, e)
    ensures |e.tables.rows.Keys| == |t.rows.Keys| - |e.gone| && Consistent(e.tables.rows)
  {
    assert t.rows.Keys == e.tables.rows.Keys + e.gone;
  }

  lemma CallsKeepInvariants(t: Tables, p: Policy, n: nat)
    requires Consistent(t.rows) && QueueSound(t)
    ensures Consistent(Calls(t, p, n).rows) && QueueSound(Calls(t, p, n))
    decreases n
  {
    hide RetentionEffect, Consistent, QueueSound;
    if n > 0 {
      RetentionConserves(t, p);
      Shrinks(t, RetentionEffect(t, p));
      RetentionQueueSound(t, p);
      CallsKeepInvariants(RetentionEffect(t, p).tables, p, n - 1);
    }
  }
}
