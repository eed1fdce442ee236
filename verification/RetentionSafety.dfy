/** What one retention call never breaks: foreign keys, the rows of live content, the row count. */
module RetentionSafety {
  import opened Wrappers
  import opened RetentionSchema
  import opened RetentionSelection
  import opened RetentionEffects

  // ---- the pointer of the root being purged ----

  lemma ClearKeepsKeys(t: Rows, root: Option<RowKey>, k: RowKey)
    requires root.Some? ==> root.value in t && IsRoot(t[root.value])
    requires k in t && KeysHold(t, k)
    ensures KeysHold(ClearCurrent(t, root), k)
  {
  }

  lemma ClearKeepsConsistency(t: Rows, root: Option<RowKey>)
    requires Consistent(t) && (root.Some? ==> root.value in t && IsRoot(t[root.value]))
    ensures Consistent(ClearCurrent(t, root)) && ClearCurrent(t, root).Keys == t.Keys
  {
    hide KeysHold;
    forall k | k in t ensures KeysHold(ClearCurrent(t, root), k) { ClearKeepsKeys(t, root, k); }
  }

  /** The root of a half is archived past the cutoff and has no current revision. */
  ghost predicate RootCleared(t: Rows, root: Option<RowKey>, p: Policy) {
    root.Some? ==> ArchivedPastCutoff(t, root.value, p) && t[root.value].current.None?
  }

  // ---- who refers to a row: the children the executor looks for, and nobody else ----

  /** Rows of the tables no foreign key points at. */
  predicate IsLeaf(r: Row) {
    r.RetrievalUnit? || r.ProvenanceLink? || r.OutboxEvent? || r.IdempotencyRecord? || r.PendingAction? ||
    r.SessionCredential? || r.ApiKeyScope? || r.ThrottleBucket?
  }

  lemma ReferrersOfLeaf(t: Rows, k: RowKey)
    requires Consistent(t) && k in t && IsLeaf(t[k])
    ensures Referrers(t, k) == {}
  {
    forall x | x in t ensures k !in References(t[x]) { assert KeysHold(t, x); }
  }

  lemma ReferrersOfJob(t: Rows, k: RowKey)
    requires Consistent(t) && k in t && t[k].IngestionJob?
    ensures Referrers(t, k) == EventsOf(t, k)
  {
    forall x | x in t ensures k in References(t[x]) <==> x in EventsOf(t, k) { assert KeysHold(t, x); }
  }

  lemma ReferrersOfChunk(t: Rows, k: RowKey)
    requires Consistent(t) && k in t && t[k].Chunk?
    ensures Referrers(t, k) == UnitsOf(t, k) + LinksTo(t, k)
  {
    forall x | x in t ensures k in References(t[x]) <==> x in UnitsOf(t, k) + LinksTo(t, k) {
      assert KeysHold(t, x);
    }
  }

  lemma ReferrersOfRoot(t: Rows, k: RowKey)
    requires Consistent(t) && k in t && IsRoot(t[k])
    ensures Referrers(t, k) == RevisionsOf(t, k)
  {
    forall x | x in t ensures k in References(t[x]) <==> x in RevisionsOf(t, k) { assert KeysHold(t, x); }
  }

  lemma ReferrersOfFamily(t: Rows, k: RowKey)
    requires Consistent(t) && k in t && t[k].SessionFamily?
    ensures Referrers(t, k) == CredentialsOf(t, k)
  {
    forall x | x in t ensures k in References(t[x]) <==> x in CredentialsOf(t, k) { assert KeysHold(t, x); }
  }

  lemma ReferrersOfKey(t: Rows, k: RowKey)
    requires Consistent(t) && k in t && t[k].ApiKey?
    ensures Referrers(t, k) == ScopesOf(t, k).Keys
  {
    forall x | x in t ensures k in References(t[x]) <==> x in ScopesOf(t, k) { assert KeysHold(t, x); }
  }

  /** A victim is a revision of the root being purged, or one that is not its parent's current one. */
  ghost predicate IsVictim(t: Rows, victim: RowKey, root: Option<RowKey>, p: Policy) {
    victim in t && (t[victim].KnowledgeRevision? || t[victim].DocumentRevision?) &&
    (Some(t[victim].parent) == root || Superseded(t, victim, p))
  }

  lemma VictimIsNotCurrent(t: Rows, victim: RowKey, root: Option<RowKey>, p: Policy, k: RowKey)
    requires Consistent(t) && RootCleared(t, root, p) && IsVictim(t, victim, root, p)
    requires k in t && IsRoot(t[k])
    ensures t[k].current != Some(victim)
  {
    assert KeysHold(t, k);
  }

  lemma ReferrersOfKnowledgeVictim(t: Rows, victim: RowKey, root: Option<RowKey>, p: Policy)
    requires Consistent(t) && RootCleared(t, root, p) && IsVictim(t, victim, root, p)
    requires t[victim].KnowledgeRevision?
    ensures Referrers(t, victim) == UnitsOf(t, victim) + LinksFrom(t, victim)
  {
    forall x | x in t ensures victim in References(t[x]) <==> x in UnitsOf(t, victim) + LinksFrom(t, victim) {
      assert KeysHold(t, x);
      if IsRoot(t[x]) { VictimIsNotCurrent(t, victim, root, p, x); }
    }
  }

  lemma ReferrerOfDocumentVictim(t: Rows, victim: RowKey, root: Option<RowKey>, p: Policy, x: RowKey)
    requires Consistent(t) && RootCleared(t, root, p) && IsVictim(t, victim, root, p)
    requires t[victim].DocumentRevision? && x in t
    ensures victim in References(t[x]) <==> x in ChunksOf(t, victim) + JobsOf(t, victim) + LinksTo(t, victim)
  {
    assert KeysHold(t, x);
    if IsRoot(t[x]) { VictimIsNotCurrent(t, victim, root, p, x); }
  }

  lemma ReferrersOfDocumentVictim(t: Rows, victim: RowKey, root: Option<RowKey>, p: Policy)
    requires Consistent(t) && RootCleared(t, root, p) && IsVictim(t, victim, root, p)
    requires t[victim].DocumentRevision?
    ensures Referrers(t, victim) == ChunksOf(t, victim) + JobsOf(t, victim) + LinksTo(t, victim)
  {
    hide References, Consistent, RootCleared, IsVictim;
    forall x | x in t
      ensures victim in References(t[x]) <==> x in ChunksOf(t, victim) + JobsOf(t, victim) + LinksTo(t, victim)
    {
      ReferrerOfDocumentVictim(t, victim, root, p, x);
    }
    ChildrenPresent(t, victim);
  }

  lemma ChildrenPresent(t: Rows, k: RowKey)
    ensures ChunksOf(t, k) + JobsOf(t, k) + LinksTo(t, k) <= t.Keys
  {
  }

  // ---- each half deletes a closed set of rows ----

  lemma KnowledgeVictimIsVictim(t: Rows, root: Option<RowKey>, p: Policy)
    ensures var v := KnowledgeVictim(t, root, p);
            v.Some? ==> IsVictim(t, v.value, root, p) && t[v.value].KnowledgeRevision?
  {
  }

  lemma KnowledgeRevisionDetached(t: Rows, root: Option<RowKey>, revision: RowKey, p: Policy)
    requires Consistent(t) && RootCleared(t, root, p)
    requires IsVictim(t, revision, root, p) && t[revision].KnowledgeRevision?
    ensures KnowledgeRevisionRows(t, revision, p.maxRows) <= t.Keys
    ensures Detached(t, KnowledgeRevisionRows(t, revision, p.maxRows))
  {
    var gone := KnowledgeRevisionRows(t, revision, p.maxRows);
    forall g | g in gone ensures g in t && Referrers(t, g) <= gone {
      if g == revision { ReferrersOfKnowledgeVictim(t, g, root, p); } else { ReferrersOfLeaf(t, g); }
    }
  }

  lemma DocumentVictimIsVictim(t: Rows, root: Option<RowKey>, p: Policy)
    ensures var v := DocumentVictim(t, root, p);
            v.Some? ==> IsVictim(t, v.value, root, p) && t[v.value].DocumentRevision? && !RevisionCited(t, v.value)
  {
  }

  lemma DetachLeaves(t: Rows, purged: set<RowKey>, leaves: set<RowKey>)
    requires Consistent(t) && Detached(t, purged)
    requires forall g | g in leaves :: g in t && IsLeaf(t[g])
    ensures Detached(t, purged + leaves)
  {
    forall g | g in leaves ensures Referrers(t, g) == {} { ReferrersOfLeaf(t, g); }
  }

  lemma DetachJobs(t: Rows, purged: set<RowKey>, jobs: set<RowKey>)
    requires Consistent(t) && Detached(t, purged)
    requires forall g | g in jobs :: g in t && t[g].IngestionJob? && EventsOf(t, g) <= purged
    ensures Detached(t, purged + jobs)
  {
    forall g | g in jobs ensures Referrers(t, g) <= purged { ReferrersOfJob(t, g); }
  }

  lemma DetachChunks(t: Rows, purged: set<RowKey>, chunks: set<RowKey>)
    requires Consistent(t) && Detached(t, purged)
    requires forall g | g in chunks :: g in t && t[g].Chunk? && UnitsOf(t, g) <= purged && LinksTo(t, g) == {}
    ensures Detached(t, purged + chunks)
  {
    forall g | g in chunks ensures Referrers(t, g) <= purged { ReferrersOfChunk(t, g); }
  }

  lemma DocumentBatchFacts(t: Rows, revision: RowKey, m: nat)
    ensures var b := DocumentBatch(t, revision, m);
            && (forall g | g in b.events + b.units :: g in t && IsLeaf(t[g]))
            && (forall g | g in b.jobs :: g in t && t[g].IngestionJob? && EventsOf(t, g) <= b.events)
            && (forall g | g in b.chunks :: g in t && t[g].Chunk? && UnitsOf(t, g) <= b.units && LinksTo(t, g) == {})
  {
  }

  lemma DocumentBatchDetached(t: Rows, revision: RowKey, m: nat)
    requires Consistent(t)
    ensures DocumentBatch(t, revision, m).All() <= t.Keys && Detached(t, DocumentBatch(t, revision, m).All())
  {
    hide DocumentBatch, Consistent, Referrers;
    var b := DocumentBatch(t, revision, m);
    DocumentBatchFacts(t, revision, m);
    DetachLeaves(t, {}, b.events + b.units);
    DetachJobs(t, {} + (b.events + b.units), b.jobs);
    DetachChunks(t, {} + (b.events + b.units) + b.jobs, b.chunks);
    assert {} + (b.events + b.units) + b.jobs + b.chunks == b.All();
  }

  lemma DocumentRevisionDetached(t: Rows, root: Option<RowKey>, revision: RowKey, p: Policy)
    requires Consistent(t) && RootCleared(t, root, p)
    requires IsVictim(t, revision, root, p) && t[revision].DocumentRevision?
    ensures DocumentRevisionRows(t, revision, p.maxRows) <= t.Keys
    ensures Detached(t, DocumentRevisionRows(t, revision, p.maxRows))
  {
    hide DocumentBatch, Consistent, Referrers, RootCleared, Superseded, ChunksOf, JobsOf, LinksTo;
    DocumentBatchDetached(t, revision, p.maxRows);
    ReferrersOfDocumentVictim(t, revision, root, p);
  }

  /** Adding a root whose revisions all go to a detached set keeps it detached. */
  lemma DetachRoot(t: Rows, purged: set<RowKey>, root: RowKey)
    requires Consistent(t) && root in t && IsRoot(t[root])
    requires Detached(t, purged) && RevisionsOf(t, root) <= purged
    ensures Detached(t, purged + {root})
  {
    ReferrersOfRoot(t, root);
  }

  lemma KnowledgeDetached(t: Rows, root: Option<RowKey>, p: Policy)
    requires Consistent(t) && RootCleared(t, root, p)
    ensures KnowledgeRows(t, root, p) <= t.Keys && Detached(t, KnowledgeRows(t, root, p))
  {
    hide KnowledgeVictim, KnowledgeRevisionRows, RevisionsOf, Consistent, IsVictim, Referrers;
    var victim := KnowledgeVictim(t, root, p);
    KnowledgeVictimIsVictim(t, root, p);
    var purged := if victim.Some? then KnowledgeRevisionRows(t, victim.value, p.maxRows) else {};
    if victim.Some? { KnowledgeRevisionDetached(t, root, victim.value, p); }
    if root.Some? && RevisionsOf(t, root.value) <= purged { DetachRoot(t, purged, root.value); }
  }

  lemma DocumentDetached(t: Rows, root: Option<RowKey>, p: Policy)
    requires Consistent(t) && RootCleared(t, root, p)
    ensures DocumentRows(t, root, p) <= t.Keys && Detached(t, DocumentRows(t, root, p))
  {
    hide DocumentVictim, DocumentRevisionRows, RevisionsOf, Consistent, IsVictim, Referrers;
    var victim := DocumentVictim(t, root, p);
    DocumentVictimIsVictim(t, root, p);
    var purged := if victim.Some? then DocumentRevisionRows(t, victim.value, p.maxRows) else {};
    if victim.Some? { DocumentRevisionDetached(t, root, victim.value, p); }
    if root.Some? && RevisionsOf(t, root.value) <= purged { DetachRoot(t, purged, root.value); }
  }

  lemma FamilyDetached(t: Rows, purged: set<RowKey>, family: Option<RowKey>, m: nat)
    requires Consistent(t) && Detached(t, purged)
    requires family.Some? ==> family.value in t && t[family.value].SessionFamily?
    ensures FamilyRows(t, family, m) <= t.Keys && Detached(t, purged + FamilyRows(t, family, m))
  {
    hide Referrers, FamilyRows, Consistent;
    forall g | g in FamilyRows(t, family, m) ensures g in t && Referrers(t, g) <= FamilyRows(t, family, m) {
      InFamilyRows(t, family, m, g);
      if Some(g) == family {
        ReferrersOfFamily(t, g);
        FamilyGoesLast(t, g, m);
      } else {
        ReferrersOfLeaf(t, g);
      }
    }
  }

  lemma FamilyGoesLast(t: Rows, family: RowKey, m: nat)
    requires family in t && t[family].SessionFamily? && family in FamilyRows(t, Some(family), m)
    ensures CredentialsOf(t, family) <= FamilyRows(t, Some(family), m)
  {
    hide FirstById;
  }

  lemma KeyGoesLast(t: Rows, key: RowKey, m: nat)
    requires key in t && t[key].ApiKey? && key in KeyRows(t, Some(key), m)
    ensures ScopesOf(t, key).Keys <= KeyRows(t, Some(key), m)
  {
    hide FirstBatch;
  }

  lemma KeyDetached(t: Rows, purged: set<RowKey>, key: Option<RowKey>, m: nat)
    requires Consistent(t) && Detached(t, purged)
    requires key.Some? ==> key.value in t && t[key.value].ApiKey?
    ensures KeyRows(t, key, m) <= t.Keys && Detached(t, purged + KeyRows(t, key, m))
  {
    hide Referrers, KeyRows, Consistent;
    forall g | g in KeyRows(t, key, m) ensures g in t && Referrers(t, g) <= KeyRows(t, key, m) {
      InKeyRows(t, key, m, g);
      if Some(g) == key {
        ReferrersOfKey(t, g);
        KeyGoesLast(t, g, m);
      } else {
        ReferrersOfLeaf(t, g);
      }
    }
  }

  lemma SessionDetached(t: Rows, purged: set<RowKey>, p: Policy)
    requires Consistent(t) && Detached(t, purged)
    ensures SessionRows(t, p) <= t.Keys && Detached(t, purged + SessionRows(t, p))
  {
    hide Detached, FamilyRows, Consistent;
    FamilyDetached(t, purged, First(ExpiredFamilies(t, p)), p.maxRows);
  }

  lemma ApiKeyDetached(t: Rows, purged: set<RowKey>, p: Policy)
    requires Consistent(t) && Detached(t, purged)
    ensures ApiKeyRows(t, p) <= t.Keys && Detached(t, purged + ApiKeyRows(t, p))
  {
    hide Detached, KeyRows, Consistent;
    KeyDetached(t, purged, First(ExpiredKeys(t, p)), p.maxRows);
  }

  lemma RecordsDetached(t: Rows, p: Policy)
    requires Consistent(t)
    ensures var records := FirstBatch(ExpiredIdempotency(t, p), p.maxRows) +
                           FirstBatch(ExpiredActions(t, p), p.maxRows);
            records <= t.Keys && Detached(t, records)
  {
    hide Consistent, Referrers, Due, FirstBatch;
    var records := FirstBatch(ExpiredIdempotency(t, p), p.maxRows) + FirstBatch(ExpiredActions(t, p), p.maxRows);
    DetachLeaves(t, {}, records);
    assert {} + records == records;
  }

  lemma SessionsAndKeysDetached(t: Rows, records: set<RowKey>, p: Policy)
    requires Consistent(t) && Detached(t, records)
    ensures SessionRows(t, p) + ApiKeyRows(t, p) <= t.Keys
    ensures Detached(t, records + (SessionRows(t, p) + ApiKeyRows(t, p)))
  {
    hide Consistent, Detached, SessionRows, ApiKeyRows;
    SessionDetached(t, records, p);
    ApiKeyDetached(t, records + SessionRows(t, p), p);
    assert records + SessionRows(t, p) + ApiKeyRows(t, p) == records + (SessionRows(t, p) + ApiKeyRows(t, p));
  }

  lemma ExpiredDetached(t: Rows, p: Policy)
    requires Consistent(t)
    ensures ExpiredRows(t, p) <= t.Keys && Detached(t, ExpiredRows(t, p))
  {
    hide Consistent, Detached, SessionRows, ApiKeyRows, ExpiredIdempotency, ExpiredActions, FirstBatch;
    RecordsDetached(t, p);
    var records := FirstBatch(ExpiredIdempotency(t, p), p.maxRows) + FirstBatch(ExpiredActions(t, p), p.maxRows);
    SessionsAndKeysDetached(t, records, p);
  }

  lemma OperationalDetached(t: Rows, p: Policy)
    requires Consistent(t)
    ensures OperationalRows(t, p) <= t.Keys && Detached(t, OperationalRows(t, p))
  {
    hide Consistent, Referrers, ExpiredRows, Due, FirstBatch;
    ExpiredDetached(t, p);
    DetachLeaves(t, ExpiredRows(t, p), FirstBatch(StaleBuckets(t, p), p.maxRows));
  }

  // ---- conservation ----

  /** An effect removes exactly the rows it reports and leaves every foreign key satisfied. */
  ghost predicate Conserves(t: Tables, e: Effect) {
    e.gone <= t.rows.Keys && e.tables.rows.Keys == t.rows.Keys - e.gone && Consistent(e.tables.rows)
  }

  lemma KnowledgeConserves(t: Tables, p: Policy)
    requires Consistent(t.rows)
    ensures Conserves(t, KnowledgeEffect(t, p))
  {
    var root := First(QueuedItems(t, p));
    ClearKeepsConsistency(t.rows, root);
    var rows := ClearCurrent(t.rows, root);
    KnowledgeDetached(rows, root, p);
    DeleteKeepsConsistency(rows, KnowledgeRows(rows, root, p));
  }

  lemma DocumentConserves(t: Tables, p: Policy)
    requires Consistent(t.rows)
    ensures Conserves(t, DocumentEffect(t, p))
  {
    var root := First(QueuedDocuments(t, p));
    ClearKeepsConsistency(t.rows, root);
    var rows := ClearCurrent(t.rows, root);
    DocumentDetached(rows, root, p);
    DeleteKeepsConsistency(rows, DocumentRows(rows, root, p));
  }

  lemma OperationalConserves(t: Tables, p: Policy)
    requires Consistent(t.rows)
    ensures Conserves(t, OperationalEffect(t, p))
  {
    OperationalDetached(t.rows, p);
    DeleteKeepsConsistency(t.rows, OperationalRows(t.rows, p));
  }

  lemma ConservesThen(t: Tables, a: Effect, b: Effect, storageKey: Option<string>)
    requires Conserves(t, a) && Conserves(a.tables, b)
    ensures Conserves(t, Effect(b.tables, a.gone + b.gone, storageKey))
  {
  }

  lemma QueueingKeepsRows(t: Tables, p: Policy)
    ensures QueueRoots(t, p).rows == t.rows
  {
  }

  lemma ConservesFromRows(t: Tables, q: Tables, e: Effect)
    requires t.rows == q.rows && Conserves(q, e)
    ensures Conserves(t, e)
  {
  }

  /**
   Conservation: a call keeps every foreign key valid, and the rows gone from the purgeable tables
   are exactly the rows it reports.
   */
  lemma RetentionConserves(t: Tables, p: Policy)
    requires Consistent(t.rows)
    ensures Conserves(t, RetentionEffect(t, p))
  {
    hide KnowledgeEffect, DocumentEffect, OperationalEffect, QueueRoots, Consistent;
    var q := QueueRoots(t, p);
    QueueingKeepsRows(t, p);
    var k := KnowledgeEffect(q, p);
    KnowledgeConserves(q, p);
    var d := DocumentEffect(k.tables, p);
    DocumentConserves(k.tables, p);
    var o := OperationalEffect(d.tables, p);
    OperationalConserves(d.tables, p);
    ConservesThen(q, k, d, None);
    ConservesThen(q, Effect(d.tables, k.gone + d.gone, None), o, d.storageKey);
    ConservesFromRows(t, q, RetentionEffect(t, p));
  }
}
