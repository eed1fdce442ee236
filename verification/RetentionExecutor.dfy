/** The executor itself, statement by statement on a mutable database. */
module RetentionExecutor {
  import opened Wrappers
  import opened RetentionSchema
  import opened RetentionSelection
  import opened RetentionEffects
  import opened RetentionSafety
  import opened RetentionLive
  import opened RetentionDraining
  import opened RetentionRuns
  import opened RetentionEligibility
  import RetentionOrder

  const DAY: Time := 86400

  datatype RetentionError = BadBatchSize | FutureCutoff | BelowSafetyFloor

  datatype AuditEvent = AuditEvent(purgedRecords: nat, perTypeWorkLimit: nat)

  datatype Purge = Purge(rows: set<RowKey>, storageKey: Option<string>)

  /** cutoff > instant, which is not true of a NULL cutoff. */
  predicate After(cutoff: Option<Time>, instant: Time) {
    cutoff.Some? && cutoff.value > instant
  }

  /** The exception an invocation raises before it touches anything, if any. */
  function Refusal(now: Time, archived: Option<Time>, revision: Option<Time>, operational: Option<Time>,
      maxRows: Option<int>)
    : Option<RetentionError>
  {
    if maxRows.None? || maxRows.value < 1 || maxRows.value > 1000 then Some(BadBatchSize)
    else if After(archived, now) || After(revision, now) || After(operational, now) then Some(FutureCutoff)
    else if After(archived, now - 365 * DAY) || After(revision, now - 1095 * DAY) || After(operational, now - 30 * DAY)
    then Some(BelowSafetyFloor)
    else None
  }

  // ---- what validation guarantees, whoever calls ----

  predicate NotAfter(cutoff: Option<Time>, instant: Time) { cutoff.Some? ==> cutoff.value <= instant }

  /** The exact calls that are carried out, and the first complaint about any other; a day has 86,400 seconds. */
  lemma AcceptedExactlyWhen(now: Time, archived: Option<Time>, revision: Option<Time>, operational: Option<Time>,
                            maxRows: Option<int>)
    ensures var refusal := Refusal(now, archived, revision, operational, maxRows);
            var inBounds := exists m | 1 <= m <= 1000 :: maxRows == Some(m);
            var inPast := NotAfter(archived, now) && NotAfter(revision, now) && NotAfter(operational, now);
      && (refusal.None? <==> inBounds && NotAfter(archived, now - 365 * 86_400) &&
                             NotAfter(revision, now - 1095 * 86_400) && NotAfter(operational, now - 30 * 86_400))
      && (refusal == Some(BadBatchSize) <==> !inBounds)
      && (refusal == Some(FutureCutoff) <==> inBounds && !inPast)
  {
    if maxRows.Some? && 1 <= maxRows.value <= 1000 { assert maxRows == Some(maxRows.value); }
  }

  /**
   The database's own floor: an accepted call purges no item or document archived less than 365 days
   ago, no content row unless its revision is 1095 days old or its item or document was archived 365
   days ago, and no record, session, credential, key, scope or bucket that has not been over for 30 days.
   */
  lemma NothingYoungerThanTheFloors(t: Tables, now: Time, archived: Option<Time>, revision: Option<Time>,
                                    operational: Option<Time>, maxRows: Option<int>, g: RowKey)
    requires Consistent(t.rows) && Refusal(now, archived, revision, operational, maxRows).None?
    requires g in RetentionEffect(t, Policy(archived, revision, operational, maxRows.value)).gone
    ensures g in t.rows
    ensures IsRoot(t.rows[g]) ==> t.rows[g].archivedAt.Some? && t.rows[g].archivedAt.value <= now - 365 * 86_400
    ensures HasHolder(t.rows[g]) ==>
      Holder(t.rows, g).Some? && Holder(t.rows, g).value in t.rows &&
      var r := t.rows[Holder(t.rows, g).value];
      (r.KnowledgeRevision? || r.DocumentRevision?) &&
      (r.createdAt <= now - 1095 * 86_400 ||
       (r.parent in t.rows && IsRoot(t.rows[r.parent]) && t.rows[r.parent].archivedAt.Some? &&
        t.rows[r.parent].archivedAt.value <= now - 365 * 86_400))
    ensures t.rows[g].IdempotencyRecord? || t.rows[g].PendingAction? ==> t.rows[g].expiresAt <= now - 30 * 86_400
    ensures t.rows[g].SessionFamily? ==> FamilyEnd(t.rows[g]) <= now - 30 * 86_400
    ensures t.rows[g].SessionCredential? ==>
      var f := t.rows[g].family;
      f in t.rows && t.rows[f].SessionFamily? && FamilyEnd(t.rows[f]) <= now - 30 * 86_400
    ensures t.rows[g].ApiKey? ==> KeyEnd(t.rows[g]).Some? && KeyEnd(t.rows[g]).value <= now - 30 * 86_400
    ensures t.rows[g].ApiKeyScope? ==>
      var k := t.rows[g].key;
      k in t.rows && t.rows[k].ApiKey? && KeyEnd(t.rows[k]).Some? && KeyEnd(t.rows[k]).value <= now - 30 * 86_400
    ensures t.rows[g].ThrottleBucket? ==>
      && t.rows[g].updatedAt <= now - 30 * 86_400
      && (t.rows[g].blockedUntil.Some? ==> t.rows[g].blockedUntil.value <= now - 30 * 86_400)
  {
    hide RetentionEffect, RevisionCited, DocumentHalfStart;
    GoneRowsWereEligible(t, Policy(archived, revision, operational, maxRows.value), g);
  }

  // ---- children after a deletion ----

  /** What stays keeps its columns, but for a credential's replacement. */
  lemma StaysAsItWas(t: Rows, gone: set<RowKey>, x: RowKey)
    requires x in Delete(t, gone)
    ensures x in t && x !in gone
    ensures if t[x].SessionCredential? then Delete(t, gone)[x].SessionCredential? else Delete(t, gone)[x] == t[x]
    ensures References(Delete(t, gone)[x]) == References(t[x])
  {
  }

  lemma UnitsAfterDelete(t: Rows, gone: set<RowKey>, k: RowKey)
    ensures UnitsOf(Delete(t, gone), k) == UnitsOf(t, k) - gone
  {
    hide Delete, References, TableOf;
    forall x ensures x in UnitsOf(Delete(t, gone), k) <==> x in UnitsOf(t, k) && x !in gone {
      if x in Delete(t, gone) { StaysAsItWas(t, gone, x); }
    }
  }

  lemma LinksFromAfterDelete(t: Rows, gone: set<RowKey>, k: RowKey)
    ensures LinksFrom(Delete(t, gone), k) == LinksFrom(t, k) - gone
  {
    hide Delete, References, TableOf;
    forall x ensures x in LinksFrom(Delete(t, gone), k) <==> x in LinksFrom(t, k) && x !in gone {
      if x in Delete(t, gone) { StaysAsItWas(t, gone, x); }
    }
  }

  lemma LinksToAfterDelete(t: Rows, gone: set<RowKey>, k: RowKey)
    ensures LinksTo(Delete(t, gone), k) == LinksTo(t, k) - gone
  {
    hide Delete, References, TableOf;
    forall x ensures x in LinksTo(Delete(t, gone), k) <==> x in LinksTo(t, k) && x !in gone {
      if x in Delete(t, gone) { StaysAsItWas(t, gone, x); }
    }
  }

  lemma LinksAndUnitsAfterDelete(t: Rows, gone: set<RowKey>, k: RowKey)
    ensures UnitsOf(Delete(t, gone), k) == UnitsOf(t, k) - gone
    ensures LinksFrom(Delete(t, gone), k) == LinksFrom(t, k) - gone
    ensures LinksTo(Delete(t, gone), k) == LinksTo(t, k) - gone
  {
    hide *;
    UnitsAfterDelete(t, gone, k);
    LinksFromAfterDelete(t, gone, k);
    LinksToAfterDelete(t, gone, k);
  }

  lemma RevisionsAfterDelete(t: Rows, gone: set<RowKey>, k: RowKey)
    ensures RevisionsOf(Delete(t, gone), k) == RevisionsOf(t, k) - gone
  {
  }

  lemma ChunksAndJobsAfterDelete(t: Rows, gone: set<RowKey>, k: RowKey)
    ensures ChunksOf(Delete(t, gone), k) == ChunksOf(t, k) - gone
    ensures JobsOf(Delete(t, gone), k) == JobsOf(t, k) - gone
  {
  }

  lemma ReferrersAfterDelete(t: Rows, gone: set<RowKey>, k: RowKey)
    ensures Referrers(Delete(t, gone), k) == Referrers(t, k) - gone
  {
    hide Delete, References, TableOf;
    forall x ensures x in Referrers(Delete(t, gone), k) <==> x in Referrers(t, k) && x !in gone {
      if x in Delete(t, gone) { StaysAsItWas(t, gone, x); }
    }
  }

  lemma LeavesAreUnreferenced(t: Rows, leaves: set<RowKey>)
    requires Consistent(t) && forall g | g in leaves :: g in t && IsLeaf(t[g])
    ensures Unreferenced(t, leaves)
  {
    forall g | g in leaves ensures Referrers(t, g) == {} { ReferrersOfLeaf(t, g); }
  }

  lemma SettledJobsAreUnreferenced(t: Rows, revision: RowKey)
    requires Consistent(t)
    ensures Unreferenced(t, SettledJobs(t, revision, {}))
  {
    forall g | g in SettledJobs(t, revision, {}) ensures Referrers(t, g) == {} { ReferrersOfJob(t, g); }
  }

  lemma SettledChunksAreUnreferenced(t: Rows, revision: RowKey)
    requires Consistent(t)
    ensures Unreferenced(t, SettledChunks(t, revision, {}))
  {
    forall g | g in SettledChunks(t, revision, {}) ensures Referrers(t, g) == {} { ReferrersOfChunk(t, g); }
  }

  /** Jobs with no event left after `gone` went are the jobs whose events were all among `events`. */
  lemma SettledJobsSeen(t: Rows, gone: set<RowKey>, revision: RowKey, events: set<RowKey>)
    requires events <= gone
    requires forall g | g in gone :: g in t && !t[g].IngestionJob? && (t[g].OutboxEvent? ==> g in events)
    ensures SettledJobs(Delete(t, gone), revision, {}) == SettledJobs(t, revision, events)
  {
    var t' := Delete(t, gone);
    forall k ensures k in SettledJobs(t', revision, {}) <==> k in SettledJobs(t, revision, events) {
      if k in JobsOf(t, revision) {
        if EventsOf(t, k) <= events { assert EventsOf(t', k) == {}; }
        if e :| e in EventsOf(t, k) && e !in events { assert e in EventsOf(t', k); }
      }
    }
  }

  lemma SettledChunksSeen(t: Rows, gone: set<RowKey>, revision: RowKey, units: set<RowKey>)
    requires units <= gone
    requires forall g | g in gone ::
      g in t && !t[g].Chunk? && !t[g].ProvenanceLink? && (t[g].RetrievalUnit? ==> g in units)
    ensures SettledChunks(Delete(t, gone), revision, {}) == SettledChunks(t, revision, units)
  {
    var t' := Delete(t, gone);
    ChunksAndJobsAfterDelete(t, gone, revision);
    assert ChunksOf(t', revision) == ChunksOf(t, revision);
    forall k ensures k in SettledChunks(t', revision, {}) <==> k in SettledChunks(t, revision, units) {
      UnitsAfterDelete(t, gone, k);
      LinksToAfterDelete(t, gone, k);
      assert LinksTo(t, k) !! gone && forall u | u in UnitsOf(t, k) && u in gone :: u in units;
      hide Delete, ChunksOf, LinksTo, UnitsOf;
      assert UnitsOf(t', k) <= {} <==> UnitsOf(t, k) <= units;
    }
  }

  lemma SettledJobsPresent(t: Rows, revision: RowKey)
    ensures forall s: set<RowKey>, k | k in SettledJobs(t, revision, s) :: k in t && t[k].IngestionJob?
  {
  }

  lemma SettledChunksPresent(t: Rows, revision: RowKey)
    ensures forall s: set<RowKey>, k | k in SettledChunks(t, revision, s) :: k in t && t[k].Chunk?
  {
  }

  lemma UnitsUnderSeen(t: Rows, gone: set<RowKey>, revision: RowKey)
    requires forall g | g in gone :: g in t && t[g].OutboxEvent?
    ensures UnitsUnder(Delete(t, gone), revision) == UnitsUnder(t, revision)
  {
    var t' := Delete(t, gone);
    assert ChunksOf(t', revision) == ChunksOf(t, revision);
  }

  lemma NothingLeft(all: set<RowKey>, taken: set<RowKey>)
    requires taken <= all
    ensures all - taken == {} <==> taken == all
  {
    assert forall x | x in all :: x in taken || x in all - taken;
  }

  /** Looking for children after the two batches went finds none exactly when the batches held them all. */
  lemma KnowledgeChildrenLeft(t: Rows, revision: RowKey, units: set<RowKey>, links: set<RowKey>)
    requires revision in t && t[revision].KnowledgeRevision?
    requires units <= UnitsOf(t, revision) && links <= LinksFrom(t, revision)
    ensures UnitsOf(Delete(t, units + links), revision) == {} <==> units == UnitsOf(t, revision)
    ensures LinksFrom(Delete(t, units + links), revision) == {} <==> links == LinksFrom(t, revision)
    ensures revision !in units + links
  {
    hide Delete;
    LinksAndUnitsAfterDelete(t, units + links, revision);
    assert UnitsOf(t, revision) - (units + links) == UnitsOf(t, revision) - units;
    assert LinksFrom(t, revision) - (units + links) == LinksFrom(t, revision) - links;
    NothingLeft(UnitsOf(t, revision), units);
    NothingLeft(LinksFrom(t, revision), links);
  }

  lemma VictimIsFree(t: Rows, gone: set<RowKey>, victim: RowKey)
    requires victim in t && victim !in gone && Referrers(t, victim) <= gone
    ensures victim in Delete(t, gone) && Unreferenced(Delete(t, gone), {victim})
  {
    hide Referrers;
    ReferrersAfterDelete(t, gone, victim);
  }

  /** The children of a document revision are in different tables. */
  lemma DocumentChildrenApart(t: Rows, revision: RowKey)
    requires revision in t && t[revision].DocumentRevision?
    ensures var others := EventsUnder(t, revision) + UnitsUnder(t, revision);
            && others + JobsOf(t, revision) !! ChunksOf(t, revision) && others !! JobsOf(t, revision)
            && others + JobsOf(t, revision) + ChunksOf(t, revision) !! LinksTo(t, revision) + {revision}
  {
  }

  lemma DocumentChildrenLeft(t: Rows, revision: RowKey, b: Batch)
    requires revision in t && t[revision].DocumentRevision?
    requires b.events <= EventsUnder(t, revision) && b.units <= UnitsUnder(t, revision)
    requires b.jobs <= JobsOf(t, revision) && b.chunks <= ChunksOf(t, revision)
    ensures ChunksOf(Delete(t, b.All()), revision) == {} <==> b.chunks == ChunksOf(t, revision)
    ensures JobsOf(Delete(t, b.All()), revision) == {} <==> b.jobs == JobsOf(t, revision)
    ensures LinksTo(Delete(t, b.All()), revision) == LinksTo(t, revision)
    ensures revision !in b.All()
  {
    hide Delete, ChunksOf, JobsOf, LinksTo, EventsUnder, UnitsUnder;
    var gone := b.All();
    LinksAndUnitsAfterDelete(t, gone, revision);
    ChunksAndJobsAfterDelete(t, gone, revision);
    DocumentChildrenApart(t, revision);
    assert ChunksOf(t, revision) - gone == ChunksOf(t, revision) - b.chunks;
    assert JobsOf(t, revision) - gone == JobsOf(t, revision) - b.jobs;
    assert LinksTo(t, revision) - gone == LinksTo(t, revision);
    NothingLeft(ChunksOf(t, revision), b.chunks);
    NothingLeft(JobsOf(t, revision), b.jobs);
  }

  lemma RootLeft(t: Rows, gone: set<RowKey>, root: RowKey)
    ensures RevisionsOf(Delete(t, gone), root) == {} <==> RevisionsOf(t, root) <= gone
  {
    hide Delete, RevisionsOf;
    RevisionsAfterDelete(t, gone, root);
    assert forall k | k in RevisionsOf(t, root) :: k in gone || k in RevisionsOf(t, root) - gone;
  }

  // ---- operational candidates after a deletion in other tables ----

  lemma ActionsSeen(t: Rows, gone: set<RowKey>, p: Policy)
    requires forall g | g in gone :: g in t && !t[g].PendingAction?
    ensures ExpiredActions(Delete(t, gone), p) == ExpiredActions(t, p)
  {
    hide Due, Delete, References, TableOf;
    var before, after := ExpiredActions(t, p), ExpiredActions(Delete(t, gone), p);
    forall x ensures x in after <==> x in before {
      if x in Delete(t, gone) { StaysAsItWas(t, gone, x); }
    }
    forall x | x in after ensures after[x] == before[x] { StaysAsItWas(t, gone, x); }
  }

  lemma FamiliesSeen(t: Rows, gone: set<RowKey>, p: Policy)
    requires forall g | g in gone :: g in t && !t[g].SessionFamily? && !t[g].SessionCredential?
    ensures ExpiredFamilies(Delete(t, gone), p) == ExpiredFamilies(t, p)
    ensures forall f :: CredentialsOf(Delete(t, gone), f) == CredentialsOf(t, f)
  {
    hide Due, FamilyEnd;
  }

  lemma FamilyRowsSeen(t: Rows, gone: set<RowKey>, p: Policy)
    requires forall g | g in gone :: g in t && !t[g].SessionFamily? && !t[g].SessionCredential?
    ensures SessionRows(Delete(t, gone), p) ==
            SessionRows(t, p)
  {
    hide Delete, ExpiredFamilies, CredentialsOf, FirstById;
    FamiliesSeen(t, gone, p);
  }

  lemma KeyRowsSeen(t: Rows, gone: set<RowKey>, p: Policy)
    requires forall g | g in gone :: g in t && !t[g].ApiKey? && !t[g].ApiKeyScope?
    ensures ApiKeyRows(Delete(t, gone), p) ==
            ApiKeyRows(t, p)
  {
    hide Delete, ExpiredKeys, ScopesOf, FirstBatch;
    KeysSeen(t, gone, p);
  }

  lemma KeysSeen(t: Rows, gone: set<RowKey>, p: Policy)
    requires forall g | g in gone :: g in t && !t[g].ApiKey? && !t[g].ApiKeyScope?
    ensures ExpiredKeys(Delete(t, gone), p) == ExpiredKeys(t, p)
    ensures forall k :: ScopesOf(Delete(t, gone), k) == ScopesOf(t, k)
  {
    hide Due, DueIfSet, KeyEnd;
  }

  lemma BucketsSeen(t: Rows, gone: set<RowKey>, p: Policy)
    requires forall g | g in gone :: g in t && !t[g].ThrottleBucket?
    ensures StaleBuckets(Delete(t, gone), p) == StaleBuckets(t, p)
  {
    hide Due;
  }

  lemma OperationalTables(t: Rows, p: Policy)
    ensures forall g | g in ExpiredIdempotency(t, p) :: g in t && t[g].IdempotencyRecord?
    ensures forall g | g in ExpiredActions(t, p) :: g in t && t[g].PendingAction?
    ensures forall g | g in StaleBuckets(t, p) :: g in t && t[g].ThrottleBucket?
    ensures forall g | g in ExpiredFamilies(t, p) :: g in t && t[g].SessionFamily?
    ensures forall g | g in ExpiredKeys(t, p) :: g in t && t[g].ApiKey?
  {
  }

  lemma FamilyTables(t: Rows, family: Option<RowKey>, m: nat)
    requires family.Some? ==> family.value in t && t[family.value].SessionFamily?
    ensures forall g | g in FamilyRows(t, family, m) :: g in t && (t[g].SessionFamily? || t[g].SessionCredential?)
  {
    hide FirstById;
  }

  lemma KeyTables(t: Rows, key: Option<RowKey>, m: nat)
    requires key.Some? ==> key.value in t && t[key.value].ApiKey?
    ensures forall g | g in KeyRows(t, key, m) :: g in t && (t[g].ApiKey? || t[g].ApiKeyScope?)
  {
    hide FirstBatch;
  }

  lemma SessionAndKeyTables(t: Rows, p: Policy)
    ensures forall g | g in SessionRows(t, p) + ApiKeyRows(t, p) ::
              g in t && (t[g].SessionFamily? || t[g].SessionCredential? || t[g].ApiKey? || t[g].ApiKeyScope?)
  {
    hide FamilyRows, KeyRows, ExpiredFamilies, ExpiredKeys;
    OperationalTables(t, p);
    FamilyTables(t, First(ExpiredFamilies(t, p)), p.maxRows);
    KeyTables(t, First(ExpiredKeys(t, p)), p.maxRows);
  }

  lemma ExpiredRowsTables(t: Rows, p: Policy)
    ensures forall g | g in ExpiredRows(t, p) :: g in t && !t[g].ThrottleBucket?
  {
    hide FirstBatch, SessionRows, ApiKeyRows, ExpiredIdempotency, ExpiredActions;
    OperationalTables(t, p);
    SessionAndKeyTables(t, p);
  }

  lemma FamilyKeyApart(t: Rows, p: Policy)
    ensures SessionRows(t, p) !! ApiKeyRows(t, p)
  {
    hide FamilyRows, KeyRows, ExpiredFamilies, ExpiredKeys;
    OperationalTables(t, p);
    FamilyTables(t, First(ExpiredFamilies(t, p)), p.maxRows);
    KeyTables(t, First(ExpiredKeys(t, p)), p.maxRows);
  }

  lemma CredentialsAreLeaves(t: Rows, family: RowKey)
    ensures CredentialsOf(t, family) <= t.Keys && forall g | g in CredentialsOf(t, family) :: IsLeaf(t[g])
  {
  }

  lemma ScopesAreLeaves(t: Rows, key: RowKey)
    ensures ScopesOf(t, key).Keys <= t.Keys && forall g | g in ScopesOf(t, key).Keys :: IsLeaf(t[g])
  {
  }

  lemma CredentialsLeft(t: Rows, family: RowKey, gone: set<RowKey>)
    requires family in t && t[family].SessionFamily? && gone <= CredentialsOf(t, family)
    ensures family !in gone && (CredentialsOf(Delete(t, gone), family) == {} <==> gone == CredentialsOf(t, family))
  {
    assert CredentialsOf(Delete(t, gone), family) == CredentialsOf(t, family) - gone;
    NothingLeft(CredentialsOf(t, family), gone);
  }

  lemma ScopesLeft(t: Rows, key: RowKey, gone: set<RowKey>)
    requires key in t && t[key].ApiKey? && gone <= ScopesOf(t, key).Keys
    ensures key !in gone && (ScopesOf(Delete(t, gone), key).Keys == {} <==> gone == ScopesOf(t, key).Keys)
  {
    hide TableOf;
    assert ScopesOf(Delete(t, gone), key).Keys == ScopesOf(t, key).Keys - gone;
    NothingLeft(ScopesOf(t, key).Keys, gone);
  }

  lemma QueuedArePastCutoff(t: Tables, p: Policy)
    ensures First(QueuedItems(t, p)).Some? ==> ArchivedPastCutoff(t.rows, First(QueuedItems(t, p)).value, p)
    ensures First(QueuedDocuments(t, p)).Some? ==> ArchivedPastCutoff(t.rows, First(QueuedDocuments(t, p)).value, p)
  {
  }

  lemma StorageKeyUnchanged(t: Rows, victim: Option<RowKey>, children: set<RowKey>, roots: set<RowKey>)
    requires victim.Some? ==> victim.value !in roots
    ensures StorageKeyOf(t, victim, children + roots) == StorageKeyOf(t, victim, children)
  {
  }

  lemma RootIsNotVictim(t: Rows, root: Option<RowKey>, p: Policy)
    requires root.Some? ==> root.value in t && IsRoot(t[root.value])
    ensures root.Some? ==> DocumentVictim(t, root, p) != root
  {
    hide DocumentVictim, RevisionCited;
    DocumentVictimIsVictim(t, root, p);
  }

  lemma ArchivingKeepsKeys(t: Rows, root: RowKey, now: Time, k: RowKey)
    requires root in t && IsRoot(t[root]) && k in t && KeysHold(t, k)
    ensures KeysHold(t[root := t[root].(archivedAt := Some(now))], k)
  {
    hide TableOf;
  }

  lemma ArchivingKeepsConsistency(t: Rows, root: RowKey, now: Time)
    requires Consistent(t) && root in t && IsRoot(t[root])
    ensures Consistent(t[root := t[root].(archivedAt := Some(now))])
  {
    hide KeysHold;
    forall k | k in t ensures KeysHold(t[root := t[root].(archivedAt := Some(now))], k) {
      ArchivingKeepsKeys(t, root, now, k);
    }
  }

  lemma InsertingKeepsConsistency(t: Rows, k: RowKey, link: Row)
    requires Consistent(t) && k !in t && k.table == ProvenanceLinks && link.ProvenanceLink?
    requires KeysHold(t[k := link], k)
    ensures Consistent(t[k := link])
  {
    var t' := t[k := link];
    forall x | x in t' ensures KeysHold(t', x) { if x != k { assert KeysHold(t, x); } }
  }

  // ---- the maintenance service ----

  /** How long the service keeps archived roots, old revisions and operational records. */
  datatype Durations = Durations(archive: Time, revision: Time, operational: Time)

  datatype ServiceError = BadSettings

  predicate Acceptable(d: Durations, batchSize: int) {
    1 <= batchSize <= 1000 && d.archive >= 365 * DAY && d.revision >= 1095 * DAY && d.operational >= 30 * DAY
  }

  /** The cutoffs of one batch, from the database's clock when it is made. */
  function PolicyAt(clock: Time, d: Durations, batchSize: nat): Policy {
    Policy(Some(clock - d.archive), Some(clock - d.revision), Some(clock - d.operational), batchSize)
  }

  /** The service's own check is the database's: it refuses exactly the settings every call would be refused under. */
  lemma SettingsTheDatabaseAccepts(d: Durations, batchSize: int, clock: Time)
    ensures Acceptable(d, batchSize) <==>
            Refusal(clock, Some(clock - d.archive), Some(clock - d.revision), Some(clock - d.operational),
                    Some(batchSize)).None?
  {
  }

  /**
   What the runner meets before each batch of a cycle: the stop event, another holder of the advisory
   lock, or its turn, with the clock when it computes the cutoffs and when the call starts.
   */
  datatype Turn = Stopped | LockTaken | Ready(clock: Time, callClock: Time)

  predicate ClockRuns(turns: seq<Turn>) {
    forall turn | turn in turns && turn.Ready? :: turn.clock <= turn.callClock
  }

  /** Each call so far was made at the turn of its number, under the cutoffs of that moment. */
  ghost predicate UnderOwnCutoffs(turns: seq<Turn>, policies: seq<Policy>, d: Durations, batchSize: int) {
    && |policies| <= |turns|
    && forall i | 0 <= i < |policies| ::
         var clock := if turns[i].Ready? then turns[i].clock else 0;
         turns[i].Ready? && batchSize >= 1 &&
         policies[i] ==
         Policy(Some(clock - d.archive), Some(clock - d.revision), Some(clock - d.operational), batchSize)
  }

  lemma NoneYet(turns: seq<Turn>, d: Durations, batchSize: int)
    ensures UnderOwnCutoffs(turns, [], d, batchSize)
  {
  }

  lemma OneMoreTurn(turns: seq<Turn>, policies: seq<Policy>, d: Durations, batchSize: int)
    requires UnderOwnCutoffs(turns, policies, d, batchSize) && |policies| < |turns| && turns[|policies|].Ready?
    ensures batchSize >= 1 ==>
              UnderOwnCutoffs(turns, policies + [PolicyAt(turns[|policies|].clock, d, batchSize)], d, batchSize)
  {
  }

  lemma ClockOf(turns: seq<Turn>, i: nat)
    requires ClockRuns(turns) && i < |turns| && turns[i].Ready?
    ensures turns[i].clock <= turns[i].callClock
  {
  }

  lemma NoCalls(t: Tables)
    ensures CallAll(t, []) == t
  {
  }

  /** One more call at the end of a series. */
  lemma {:induction false} CallsThenOne(t: Tables, ps: seq<Policy>, p: Policy)
    ensures CallAll(t, ps + [p]) == RetentionEffect(CallAll(t, ps), p).tables
    decreases |ps|
  {
    hide RetentionEffect;
    if ps == [] {
      assert CallAll(RetentionEffect(t, p).tables, []) == RetentionEffect(t, p).tables;
      assert ([] + [p])[1..] == [];
    } else {
      CallsThenOne(RetentionEffect(t, ps[0]).tables, ps[1..], p);
      assert (ps + [p])[1..] == ps[1..] + [p];
    }
  }

  /** A batch purges nothing and the database is drained, or the row count falls. */
  lemma BatchOutcome(t: Tables, p: Policy)
    requires Consistent(t.rows) && QueueSound(t) && p.maxRows >= 1
    ensures var e := RetentionEffect(t, p);
            && (e.gone == {} ==> Drained(e.tables.rows, p))
            && (e.gone != {} ==> |e.tables.rows.Keys| < |t.rows.Keys|)
  {
    hide RetentionEffect, Consistent, QueueSound, Drained;
    var e := RetentionEffect(t, p);
    IdleExactlyWhenDrained(t, p);
    RetentionConserves(t, p);
    Shrinks(t, e);
  }

  /** The three halves of a call delete different rows, so their counts add up. */
  lemma CountsAdd(t: Tables, p: Policy)
    requires Consistent(t.rows)
    ensures var k := KnowledgeEffect(QueueRoots(t, p), p); var d := DocumentEffect(k.tables, p);
            var o := OperationalEffect(d.tables, p);
            |RetentionEffect(t, p).gone| == |k.gone| + |d.gone| + |o.gone|
  {
    hide KnowledgeEffect, DocumentEffect, OperationalEffect, QueueRoots, Consistent;
    var q := QueueRoots(t, p);
    QueueingKeepsRows(t, p);
    KnowledgeConserves(q, p);
    var k := KnowledgeEffect(q, p);
    DocumentConserves(k.tables, p);
    OperationalConserves(DocumentEffect(k.tables, p).tables, p);
  }

  lemma DisjointSizes(a: set<RowKey>, b: set<RowKey>)
    requires a !! b
    ensures |a + b| == |a| + |b|
  {
  }

  lemma BatchOf(t: Rows, revision: RowKey, m: nat, b: Batch)
    requires b.events == FirstById(EventsUnder(t, revision), m) && b.units == FirstById(UnitsUnder(t, revision), m)
    requires b.jobs == FirstById(SettledJobs(t, revision, b.events), m)
    requires b.chunks == FirstById(SettledChunks(t, revision, b.units), m)
    ensures b == DocumentBatch(t, revision, m)
  {
  }

  class RetentionDatabase {
    var rows: Rows
    var queue: map<RowKey, Time>
    var audit: seq<AuditEvent>

    constructor ()
      ensures Valid() && rows == map[] && queue == map[] && audit == []
    {
      rows, queue, audit := map[], map[], [];
    }

    function Snapshot(): Tables
      reads this
    {
      Tables(rows, queue)
    }

    ghost predicate Valid()
      reads this
    {
      Consistent(rows) && QueueSound(Snapshot())
    }

    /** One DELETE statement.  Its victims have no referrer, so nothing cascades and nothing is restricted. */
    method DeleteRows(victims: set<RowKey>) returns (affected: nat)
      requires Consistent(rows) && victims <= rows.Keys && Unreferenced(rows, victims)
      modifies this`rows
      ensures rows == Delete(old(rows), victims) && Consistent(rows) && affected == |victims|
    {
      DeleteKeepsConsistency(rows, victims);
      rows := Delete(rows, victims);
      affected := |victims|;
    }

    /** DELETE of the first `m` candidates by id. */
    method DeleteFirst(candidates: set<RowKey>, m: nat) returns (batch: set<RowKey>, affected: nat)
      requires Consistent(rows) && OneTable(candidates) && candidates <= rows.Keys && Unreferenced(rows, candidates)
      modifies this`rows
      ensures batch == FirstById(candidates, m) && affected == |batch|
      ensures rows == Delete(old(rows), batch) && Consistent(rows)
    {
      hide FirstById, Referrers;
      batch := FirstById(candidates, m);
      affected := DeleteRows(batch);
    }

    method PurgeKnowledgeChildren(revision: RowKey, m: nat)
      returns (units: set<RowKey>, links: set<RowKey>, affected: nat)
      requires Consistent(rows)
      modifies this`rows
      ensures units == FirstById(UnitsOf(old(rows), revision), m)
      ensures links == FirstById(LinksFrom(old(rows), revision), m)
      ensures affected == |units + links| && units + links <= old(rows).Keys
      ensures rows == Delete(old(rows), units + links) && Consistent(rows)
    {
      hide Delete, Consistent, Referrers, FirstById, Unreferenced;
      ghost var t := rows;
      LeavesAreUnreferenced(rows, UnitsOf(rows, revision));
      units, affected := DeleteFirst(UnitsOf(rows, revision), m);
      LinksAndUnitsAfterDelete(t, units, revision);
      assert LinksFrom(rows, revision) == LinksFrom(t, revision);
      LeavesAreUnreferenced(rows, LinksFrom(rows, revision));
      var deleted;
      links, deleted := DeleteFirst(LinksFrom(rows, revision), m);
      affected := affected + deleted;
      DeleteTwice(t, units, links);
    }

    method PurgeKnowledgeRevision(revision: RowKey, m: nat, ghost root: Option<RowKey>, ghost p: Policy)
      returns (gone: set<RowKey>, affected: nat)
      requires Consistent(rows) && RootCleared(rows, root, p) && IsVictim(rows, revision, root, p)
      requires rows[revision].KnowledgeRevision?
      modifies this`rows
      ensures gone == KnowledgeRevisionRows(old(rows), revision, m) && affected == |gone|
      ensures rows == Delete(old(rows), gone) && Consistent(rows)
    {
      hide Delete, Consistent, Referrers, FirstById, UnitsOf, LinksFrom, RootCleared, Superseded, Unreferenced;
      ghost var t := rows;
      var units, links;
      units, links, affected := PurgeKnowledgeChildren(revision, m);
      gone := units + links;
      KnowledgeChildrenLeft(t, revision, units, links);
      if UnitsOf(rows, revision) == {} && LinksFrom(rows, revision) == {} {
        ReferrersOfKnowledgeVictim(t, revision, root, p);
        VictimIsFree(t, gone, revision);
        var deleted := DeleteRows({revision});
        DeleteTwice(t, gone, {revision});
        gone, affected := gone + {revision}, affected + deleted;
      }
    }

    method PurgeEventsAndUnits(revision: RowKey, m: nat)
      returns (events: set<RowKey>, units: set<RowKey>, affected: nat)
      requires Consistent(rows)
      modifies this`rows
      ensures events == FirstById(EventsUnder(old(rows), revision), m)
      ensures units == FirstById(UnitsUnder(old(rows), revision), m)
      ensures affected == |events + units|
      ensures forall g | g in events :: g in old(rows) && old(rows)[g].OutboxEvent?
      ensures forall g | g in units :: g in old(rows) && old(rows)[g].RetrievalUnit?
      ensures rows == Delete(old(rows), events + units) && Consistent(rows)
    {
      hide Delete, Consistent, Referrers, FirstById, Unreferenced;
      ghost var t := rows;
      LeavesAreUnreferenced(rows, EventsUnder(rows, revision));
      events, affected := DeleteFirst(EventsUnder(rows, revision), m);
      UnitsUnderSeen(t, events, revision);
      LeavesAreUnreferenced(rows, UnitsUnder(rows, revision));
      var deleted;
      units, deleted := DeleteFirst(UnitsUnder(rows, revision), m);
      affected := affected + deleted;
      DeleteTwice(t, events, units);
    }

    method PurgeSettledJobs(revision: RowKey, m: nat, ghost t: Rows, ghost gone: set<RowKey>, ghost events: set<RowKey>)
      returns (jobs: set<RowKey>, affected: nat)
      requires Consistent(rows) && rows == Delete(t, gone) && events <= gone
      requires forall g | g in gone :: g in t && !t[g].IngestionJob? && (t[g].OutboxEvent? ==> g in events)
      modifies this`rows
      ensures jobs == FirstById(SettledJobs(t, revision, events), m) && affected == |jobs| && jobs <= old(rows).Keys
      ensures forall g | g in jobs :: g in t && t[g].IngestionJob?
      ensures rows == Delete(t, gone + jobs) && Consistent(rows)
    {
      hide Delete, Consistent, Referrers, FirstById, Unreferenced, SettledJobs;
      SettledJobsSeen(t, gone, revision, events);
      SettledJobsAreUnreferenced(rows, revision);
      SettledJobsPresent(rows, revision);
      SettledJobsPresent(t, revision);
      jobs, affected := DeleteFirst(SettledJobs(rows, revision, {}), m);
      DeleteTwice(t, gone, jobs);
    }

    method PurgeSettledChunks(revision: RowKey, m: nat, ghost t: Rows, ghost gone: set<RowKey>,
        ghost units: set<RowKey>)
      returns (chunks: set<RowKey>, affected: nat)
      requires Consistent(rows) && rows == Delete(t, gone) && units <= gone
      requires forall g | g in gone ::
        g in t && !t[g].Chunk? && !t[g].ProvenanceLink? && (t[g].RetrievalUnit? ==> g in units)
      modifies this`rows
      ensures chunks == FirstById(SettledChunks(t, revision, units), m)
      ensures affected == |chunks| && chunks <= old(rows).Keys
      ensures rows == Delete(t, gone + chunks) && Consistent(rows)
    {
      hide Delete, Consistent, Referrers, FirstById, Unreferenced, SettledChunks;
      SettledChunksSeen(t, gone, revision, units);
      SettledChunksAreUnreferenced(rows, revision);
      SettledChunksPresent(rows, revision);
      chunks, affected := DeleteFirst(SettledChunks(rows, revision, {}), m);
      DeleteTwice(t, gone, chunks);
    }

    method PurgeDocumentChildren(revision: RowKey, m: nat) returns (batch: Batch, affected: nat)
      requires Consistent(rows)
      modifies this`rows
      ensures batch == DocumentBatch(old(rows), revision, m) && affected == |batch.All()|
      ensures rows == Delete(old(rows), batch.All()) && Consistent(rows)
    {
      hide Delete, Consistent, Referrers, FirstById, Unreferenced, SettledJobs, SettledChunks, EventsUnder, UnitsUnder,
        DocumentBatch;
      ghost var t := rows;
      var events, units, jobs, chunks, deleted;
      events, units, affected := PurgeEventsAndUnits(revision, m);
      jobs, deleted := PurgeSettledJobs(revision, m, t, events + units, events);
      DisjointSizes(events + units, jobs);
      affected := affected + deleted;
      chunks, deleted := PurgeSettledChunks(revision, m, t, events + units + jobs, units);
      DisjointSizes(events + units + jobs, chunks);
      affected := affected + deleted;
      batch := Batch(events, units, jobs, chunks);
      BatchOf(t, revision, m, batch);
    }

    method PurgeDocumentRevision(revision: RowKey, m: nat, ghost root: Option<RowKey>, ghost p: Policy)
      returns (gone: set<RowKey>, affected: nat)
      requires Consistent(rows) && RootCleared(rows, root, p) && IsVictim(rows, revision, root, p)
      requires rows[revision].DocumentRevision?
      modifies this`rows
      ensures gone == DocumentRevisionRows(old(rows), revision, m) && affected == |gone|
      ensures rows == Delete(old(rows), gone) && Consistent(rows)
    {
      hide Delete, Consistent, Referrers, Unreferenced, RootCleared, Superseded, DocumentBatch, ChunksOf, JobsOf,
      LinksTo, EventsUnder, UnitsUnder;
      ghost var t := rows;
      var batch;
      batch, affected := PurgeDocumentChildren(revision, m);
      gone := batch.All();
      DocumentBatchUnder(t, revision, m);
      DocumentChildrenLeft(t, revision, batch);
      if ChunksOf(rows, revision) == {} && JobsOf(rows, revision) == {} && LinksTo(rows, revision) == {} {
        ReferrersOfDocumentVictim(t, revision, root, p);
        VictimIsFree(t, gone, revision);
        var deleted := DeleteRows({revision});
        DeleteTwice(t, gone, {revision});
        gone, affected := gone + {revision}, affected + deleted;
      }
    }

    /** DELETE of the root once it has no revision, and of its purge job when that removed it. */
    method PurgeRoot(root: Option<RowKey>, ghost t: Rows, ghost gone: set<RowKey>)
      returns (victims: set<RowKey>, affected: nat)
      requires Consistent(rows) && Consistent(t) && rows == Delete(t, gone)
      requires root.Some? ==>
        root.value in t && IsRoot(t[root.value]) && t[root.value].current.None? && root.value !in gone
      modifies this`rows, this`queue
      ensures victims == if root.Some? && RevisionsOf(t, root.value) <= gone then {root.value} else {}
      ensures rows == Delete(t, gone + victims) && Consistent(rows) && affected == |gone + victims| - |gone|
      ensures queue == Dequeue(old(queue), root, victims)
    {
      hide Delete, Consistent, Referrers, RevisionsOf, Unreferenced;
      victims, affected := {}, 0;
      assert gone + victims == gone;
      if root.Some? {
        RootLeft(t, gone, root.value);
        if rows[root.value].current.None? && RevisionsOf(rows, root.value) == {} {
          ReferrersOfRoot(t, root.value);
          VictimIsFree(t, gone, root.value);
          victims := {root.value};
          affected := DeleteRows(victims);
          DeleteTwice(t, gone, victims);
          if affected > 0 { queue := queue - {root.value}; }
        }
      }
    }

    /** UPDATE ... SET current_revision_id = NULL ... AND current_revision_id IS NOT NULL. */
    method ClearRoot(root: Option<RowKey>, ghost p: Policy)
      requires Consistent(rows) && (root.Some? ==> ArchivedPastCutoff(rows, root.value, p))
      modifies this`rows
      ensures rows == ClearCurrent(old(rows), root) && Consistent(rows) && RootCleared(rows, root, p)
    {
      ClearKeepsConsistency(rows, root);
      if root.Some? && rows[root.value].current.Some? {
        rows := rows[root.value := rows[root.value].(current := None)];
      }
    }

    method PurgeKnowledgeVictim(root: Option<RowKey>, p: Policy) returns (gone: set<RowKey>, affected: nat)
      requires Consistent(rows) && RootCleared(rows, root, p)
      modifies this`rows
      ensures gone == (var v := KnowledgeVictim(old(rows), root, p);
                       if v.Some? then KnowledgeRevisionRows(old(rows), v.value, p.maxRows) else {})
      ensures rows == Delete(old(rows), gone) && Consistent(rows) && affected == |gone|
      ensures root.Some? ==> root.value !in gone
    {
      hide Delete, Consistent, KnowledgeVictim, KnowledgeRevisionRows, IsVictim;
      ghost var t := rows;
      var victim := KnowledgeVictim(rows, root, p);
      KnowledgeVictimIsVictim(rows, root, p);
      gone, affected := {}, 0;
      DeleteNothing(rows);
      if victim.Some? {
        VictimFacts(rows, root, victim.value, p);
        gone, affected := PurgeKnowledgeRevision(victim.value, p.maxRows, root, p);
        if root.Some? && root.value in gone { KnowledgeBatchHolder(t, victim.value, p.maxRows, root.value); }
      }
    }

    method KnowledgeHalf(p: Policy) returns (gone: set<RowKey>, affected: nat)
      requires Consistent(rows)
      modifies this`rows, this`queue
      ensures var e := KnowledgeEffect(old(Snapshot()), p); Snapshot() == e.tables && gone == e.gone
      ensures affected == |gone| && Consistent(rows)
    {
      hide Delete, Consistent, RevisionsOf, KnowledgeVictim, KnowledgeRevisionRows, QueuedItems;
      var root := First(QueuedItems(Snapshot(), p));
      QueuedArePastCutoff(Snapshot(), p);
      ClearRoot(root, p);
      ghost var t := rows;
      gone, affected := PurgeKnowledgeVictim(root, p);
      var victims, deleted := PurgeRoot(root, t, gone);
      gone, affected := gone + victims, affected + deleted;
      assert gone == KnowledgeRows(t, root, p);
    }

    method PurgeDocumentVictim(root: Option<RowKey>, p: Policy)
      returns (gone: set<RowKey>, affected: nat, storageKey: Option<string>)
      requires Consistent(rows) && RootCleared(rows, root, p)
      modifies this`rows
      ensures gone == (var v := DocumentVictim(old(rows), root, p);
                       if v.Some? then DocumentRevisionRows(old(rows), v.value, p.maxRows) else {})
      ensures rows == Delete(old(rows), gone) && Consistent(rows) && affected == |gone|
      ensures root.Some? ==> root.value !in gone
      ensures storageKey == StorageKeyOf(old(rows), DocumentVictim(old(rows), root, p), gone)
    {
      hide Delete, Consistent, DocumentVictim, DocumentRevisionRows, IsVictim, RevisionCited;
      ghost var t := rows;
      var victim := DocumentVictim(rows, root, p);
      DocumentVictimIsVictim(rows, root, p);
      gone, affected, storageKey := {}, 0, None;
      DeleteNothing(rows);
      if victim.Some? {
        VictimFacts(rows, root, victim.value, p);
        var stored := rows[victim.value].storageKey;
        gone, affected := PurgeDocumentRevision(victim.value, p.maxRows, root, p);
        if victim.value in gone { storageKey := stored; }
        if root.Some? && root.value in gone { DocumentBatchHolder(t, victim.value, p.maxRows, root.value); }
      }
    }

    method DocumentHalf(p: Policy) returns (gone: set<RowKey>, affected: nat, storageKey: Option<string>)
      requires Consistent(rows)
      modifies this`rows, this`queue
      ensures var e := DocumentEffect(old(Snapshot()), p);
              Snapshot() == e.tables && gone == e.gone && storageKey == e.storageKey
      ensures affected == |gone| && Consistent(rows)
    {
      hide Delete, Consistent, RevisionsOf, DocumentVictim, DocumentRevisionRows, QueuedDocuments, RootCleared,
        StorageKeyOf;
      var root := First(QueuedDocuments(Snapshot(), p));
      QueuedArePastCutoff(Snapshot(), p);
      ClearRoot(root, p);
      ghost var t := rows;
      ghost var victim := DocumentVictim(rows, root, p);
      gone, affected, storageKey := PurgeDocumentVictim(root, p);
      ghost var children := gone;
      var victims, deleted := PurgeRoot(root, t, gone);
      gone, affected := gone + victims, affected + deleted;
      assert gone == DocumentRows(t, root, p);
      RootIsNotVictim(t, root, p);
      StorageKeyUnchanged(t, victim, children, victims);
    }

    /** DELETE of the oldest `m` candidates. */
    method DeleteOldest(candidates: Ages, m: nat) returns (batch: set<RowKey>, affected: nat)
      requires Consistent(rows) && candidates.Keys <= rows.Keys && Unreferenced(rows, candidates.Keys)
      modifies this`rows
      ensures batch == FirstBatch(candidates, m) && affected == |batch|
      ensures rows == Delete(old(rows), batch) && Consistent(rows)
    {
      hide Delete, Referrers;
      batch := FirstBatch(candidates, m);
      affected := DeleteRows(batch);
    }

    method PurgeRecords(p: Policy) returns (gone: set<RowKey>, affected: nat)
      requires Consistent(rows)
      modifies this`rows
      ensures gone == FirstBatch(ExpiredIdempotency(old(rows), p), p.maxRows) +
                      FirstBatch(ExpiredActions(old(rows), p), p.maxRows)
      ensures rows == Delete(old(rows), gone) && Consistent(rows) && affected == |gone|
      ensures forall g | g in gone :: g in old(rows) && (old(rows)[g].IdempotencyRecord? || old(rows)[g].PendingAction?)
    {
      hide Delete, Consistent, Referrers, FirstBatch, Unreferenced, ExpiredIdempotency, ExpiredActions;
      ghost var t := rows;
      OperationalTables(t, p);
      LeavesAreUnreferenced(rows, ExpiredIdempotency(rows, p).Keys);
      gone, affected := DeleteOldest(ExpiredIdempotency(rows, p), p.maxRows);
      ActionsSeen(t, gone, p);
      OperationalTables(rows, p);
      LeavesAreUnreferenced(rows, ExpiredActions(rows, p).Keys);
      var batch, deleted := DeleteOldest(ExpiredActions(rows, p), p.maxRows);
      DeleteTwice(t, gone, batch);
      gone, affected := gone + batch, affected + deleted;
    }

    method PurgeFamily(p: Policy) returns (gone: set<RowKey>, affected: nat)
      requires Consistent(rows)
      modifies this`rows
      ensures gone == SessionRows(old(rows), p)
      ensures rows == Delete(old(rows), gone) && Consistent(rows) && affected == |gone|
    {
      hide Delete, Consistent, Referrers, FirstById, Unreferenced, ExpiredFamilies, CredentialsOf;
      ghost var t := rows;
      var family := First(ExpiredFamilies(rows, p));
      OperationalTables(rows, p);
      gone, affected := {}, 0;
      DeleteNothing(rows);
      if family.Some? {
        CredentialsAreLeaves(rows, family.value);
        LeavesAreUnreferenced(rows, CredentialsOf(rows, family.value));
        gone, affected := DeleteFirst(CredentialsOf(rows, family.value), p.maxRows);
        CredentialsLeft(t, family.value, gone);
        if CredentialsOf(rows, family.value) == {} {
          ReferrersOfFamily(t, family.value);
          VictimIsFree(t, gone, family.value);
          var deleted := DeleteRows({family.value});
          DeleteTwice(t, gone, {family.value});
          gone, affected := gone + {family.value}, affected + deleted;
        }
      }
    }

    method PurgeKey(p: Policy) returns (gone: set<RowKey>, affected: nat)
      requires Consistent(rows)
      modifies this`rows
      ensures gone == ApiKeyRows(old(rows), p)
      ensures rows == Delete(old(rows), gone) && Consistent(rows) && affected == |gone|
    {
      hide Delete, Consistent, Referrers, FirstBatch, Unreferenced, ExpiredKeys, ScopesOf;
      ghost var t := rows;
      var key := First(ExpiredKeys(rows, p));
      OperationalTables(rows, p);
      gone, affected := {}, 0;
      DeleteNothing(rows);
      if key.Some? {
        ScopesAreLeaves(rows, key.value);
        LeavesAreUnreferenced(rows, ScopesOf(rows, key.value).Keys);
        gone, affected := DeleteOldest(ScopesOf(rows, key.value), p.maxRows);
        ScopesLeft(t, key.value, gone);
        if ScopesOf(rows, key.value).Keys == {} {
          ReferrersOfKey(t, key.value);
          VictimIsFree(t, gone, key.value);
          var deleted := DeleteRows({key.value});
          DeleteTwice(t, gone, {key.value});
          gone, affected := gone + {key.value}, affected + deleted;
        }
      }
    }

    method PurgeSessionsAndKeys(p: Policy) returns (gone: set<RowKey>, affected: nat)
      requires Consistent(rows)
      modifies this`rows
      ensures gone == SessionRows(old(rows), p) +
                      ApiKeyRows(old(rows), p)
      ensures rows == Delete(old(rows), gone) && Consistent(rows) && affected == |gone|
    {
      hide Delete, Consistent, Referrers, Unreferenced, FamilyRows, KeyRows, ExpiredFamilies, ExpiredKeys;
      ghost var t := rows;
      OperationalTables(t, p);
      gone, affected := PurgeFamily(p);
      FamilyTables(t, First(ExpiredFamilies(t, p)), p.maxRows);
      KeyRowsSeen(t, gone, p);
      var batch, deleted := PurgeKey(p);
      DeleteTwice(t, gone, batch);
      FamilyKeyApart(t, p);
      gone, affected := gone + batch, affected + deleted;
    }

    method PurgeStaleBuckets(p: Policy, ghost t: Rows, ghost gone: set<RowKey>)
      returns (batch: set<RowKey>, affected: nat)
      requires Consistent(rows) && rows == Delete(t, gone)
      requires forall g | g in gone :: g in t && !t[g].ThrottleBucket?
      modifies this`rows
      ensures batch == FirstBatch(StaleBuckets(t, p), p.maxRows) && affected == |gone + batch| - |gone|
      ensures rows == Delete(t, gone + batch) && Consistent(rows)
    {
      hide Delete, Consistent, Referrers, FirstBatch, Unreferenced, StaleBuckets;
      BucketsSeen(t, gone, p);
      OperationalTables(rows, p);
      LeavesAreUnreferenced(rows, StaleBuckets(rows, p).Keys);
      batch, affected := DeleteOldest(StaleBuckets(rows, p), p.maxRows);
      DeleteTwice(t, gone, batch);
    }

    method PurgeExpired(p: Policy) returns (gone: set<RowKey>, affected: nat)
      requires Consistent(rows)
      modifies this`rows
      ensures gone == ExpiredRows(old(rows), p) && affected == |gone|
      ensures rows == Delete(old(rows), gone) && Consistent(rows)
    {
      hide Delete, Consistent, FirstBatch, SessionRows, ApiKeyRows,
        ExpiredIdempotency, ExpiredActions, ExpiredFamilies, ExpiredKeys;
      ghost var t := rows;
      gone, affected := PurgeRecords(p);
      FamilyRowsSeen(t, gone, p);
      KeyRowsSeen(t, gone, p);
      SessionAndKeyTables(t, p);
      var batch, deleted := PurgeSessionsAndKeys(p);
      DeleteTwice(t, gone, batch);
      gone, affected := gone + batch, affected + deleted;
    }

    method OperationalHalf(p: Policy) returns (gone: set<RowKey>, affected: nat)
      requires Consistent(rows)
      modifies this`rows
      ensures gone == OperationalRows(old(rows), p) && affected == |gone|
      ensures rows == Delete(old(rows), gone) && Consistent(rows)
    {
      hide Delete, Consistent, FirstBatch, ExpiredRows, StaleBuckets;
      ghost var t := rows;
      gone, affected := PurgeExpired(p);
      ExpiredRowsTables(t, p);
      var batch, deleted := PurgeStaleBuckets(p, t, gone);
      gone, affected := gone + batch, affected + deleted;
    }

    /** INSERT INTO retention_purge_jobs ... LIMIT 1. */
    method QueueOne(candidates: Ages)
      requires candidates.Keys !! queue.Keys
      modifies this`queue
      ensures Snapshot() == Enqueue(old(Snapshot()), candidates)
    {
      var first := First(candidates);
      if first.Some? { queue := queue[first.value := candidates[first.value]]; }
    }

    method QueueBoth(p: Policy)
      modifies this`queue
      ensures Snapshot() == QueueRoots(old(Snapshot()), p)
    {
      hide ArchivedPastCutoff, DocumentCited;
      QueueOne(ItemsToQueue(Snapshot(), p));
      QueueOne(DocumentsToQueue(Snapshot(), p));
    }

    /** Everything between the advisory lock and the audit row. */
    method Work(p: Policy) returns (purge: Purge, total: nat)
      requires Consistent(rows)
      modifies this`rows, this`queue
      ensures var e := RetentionEffect(old(Snapshot()), p);
              purge == Purge(e.gone, e.storageKey) && Snapshot() == e.tables && total == |e.gone|
    {
      hide Consistent, KnowledgeEffect, DocumentEffect, OperationalRows, Delete, QueueRoots;
      ghost var t := Snapshot();
      CountsAdd(t, p);
      QueueingKeepsRows(t, p);
      QueueBoth(p);
      var k, affected, d, o, storageKey;
      k, total := KnowledgeHalf(p);
      d, affected, storageKey := DocumentHalf(p);
      total := total + affected;
      o, affected := OperationalHalf(p);
      total := total + affected;
      purge := Purge(k + d + o, storageKey);
    }

    /**
     gateway_run_retention.  A refused call changes nothing.  An accepted one has exactly the effect of
     `RetentionEffect`, returns every row it deleted, and records their number once if there are any.
     */
    method RunRetention(now: Time, archived: Option<Time>, revision: Option<Time>, operational: Option<Time>,
        maxRows: Option<int>)
      returns (r: Result<Purge, RetentionError>)
      requires Valid()
      modifies this
      ensures Valid()
      ensures var refusal := Refusal(now, archived, revision, operational, maxRows);
        match refusal
        case Some(e) => r == Failure(e) && Snapshot() == old(Snapshot()) && audit == old(audit)
        case None =>
          var p := Policy(archived, revision, operational, maxRows.value);
          var e := RetentionEffect(old(Snapshot()), p);
          && r == Success(Purge(e.gone, e.storageKey)) && Snapshot() == e.tables
          && audit == old(audit) + (if e.gone == {} then [] else [AuditEvent(|e.gone|, maxRows.value)])
          && RetentionOrder.PurgesTheFirst(old(Snapshot()), p, Effect(Snapshot(), r.value.rows, r.value.storageKey))
    {
      hide Consistent, QueueSound, RetentionEffect, RetentionOrder.PurgesTheFirst;
      if maxRows.None? || maxRows.value < 1 || maxRows.value > 1000 { return Failure(BadBatchSize); }
      if After(archived, now) || After(revision, now) || After(operational, now) { return Failure(FutureCutoff); }
      if After(archived, now - 365 * DAY) || After(revision, now - 1095 * DAY) || After(operational, now - 30 * DAY) {
        return Failure(BelowSafetyFloor);
      }
      var p := Policy(archived, revision, operational, maxRows.value);
      RetentionConserves(Snapshot(), p);
      Shrinks(Snapshot(), RetentionEffect(Snapshot(), p));
      RetentionQueueSound(Snapshot(), p);
      RetentionOrder.EveryCallPurgesTheFirst(Snapshot(), p);
      var purge, total := Work(p);
      if total > 0 { audit := audit + [AuditEvent(total, maxRows.value)]; }
      r := Success(purge);
    }

    /** RetentionService.purge: check the settings, then one call under cutoffs computed now. */
    method PurgeBatch(clock: Time, callClock: Time, d: Durations, batchSize: int)
      returns (r: Result<Purge, ServiceError>)
      requires Valid() && clock <= callClock
      modifies this
      ensures Valid()
      ensures !Acceptable(d, batchSize) ==> r == Failure(BadSettings) && Snapshot() == old(Snapshot())
      ensures Acceptable(d, batchSize) ==>
                var e := RetentionEffect(old(Snapshot()), PolicyAt(clock, d, batchSize));
                r == Success(Purge(e.gone, e.storageKey)) && Snapshot() == e.tables
    {
      hide Consistent, QueueSound, RetentionEffect;
      if !Acceptable(d, batchSize) { return Failure(BadSettings); }
      var p := PolicyAt(clock, d, batchSize);
      var purged := RunRetention(callClock, p.archivedBefore, p.revisionBefore, p.operationalBefore, Some(batchSize));
      r := Success(purged.value);
    }

    /** A batch as the cycle sees it: one call more, and idle or some rows fewer. */
    method CountedBatch(clock: Time, callClock: Time, d: Durations, batchSize: int, ghost t: Tables,
        ghost policies: seq<Policy>)
      returns (r: Result<bool, ServiceError>)
      requires Valid() && clock <= callClock && Snapshot() == CallAll(t, policies)
      modifies this
      ensures Valid() && r.Success? == Acceptable(d, batchSize)
      ensures r.Failure? ==> r == Failure(BadSettings) && Snapshot() == old(Snapshot())
      ensures r.Success? ==> Snapshot() == CallAll(t, policies + [PolicyAt(clock, d, batchSize)])
      ensures r == Success(true) ==> Drained(rows, PolicyAt(clock, d, batchSize))
      ensures r == Success(false) ==> |rows.Keys| < |old(rows).Keys|
    {
      hide Consistent, QueueSound, RetentionEffect, Drained, CallAll;
      var purged := PurgeBatch(clock, callClock, d, batchSize);
      if purged.Failure? { return Failure(BadSettings); }
      BatchOutcome(CallAll(t, policies), PolicyAt(clock, d, batchSize));
      CallsThenOne(t, policies, PolicyAt(clock, d, batchSize));
      r := Success(purged.value.rows == {});
    }

    /**
     run_cycle: at most one batch per turn, each under its own cutoffs, until a batch purges nothing.  A
     cycle that ends idle has drained the database under its last cutoffs, and one with more turns than
     there are rows ends idle unless it is interrupted.
     */
    method RunCycle(turns: seq<Turn>, d: Durations, batchSize: int)
      returns (r: Result<bool, ServiceError>, calls: nat, ghost policies: seq<Policy>)
      requires Valid() && ClockRuns(turns)
      modifies this
      ensures Valid() && calls == |policies| <= |turns| && (calls > 0 ==> Acceptable(d, batchSize))
      ensures UnderOwnCutoffs(turns, policies, d, batchSize)
      ensures Snapshot() == CallAll(old(Snapshot()), policies)
      ensures r.Failure? ==> !Acceptable(d, batchSize)
      ensures r == Success(true) ==> calls > 0 && Drained(rows, policies[calls - 1])
      ensures r == Success(false) ==>
                (calls == |turns| || !turns[calls].Ready?) && |rows.Keys| + calls <= |old(rows).Keys|
    {
      hide Consistent, QueueSound, Drained, CallAll, PolicyAt, UnderOwnCutoffs, ClockRuns;
      NoneYet(turns, d, batchSize);
      ghost var t := Snapshot();
      policies := [];
      calls := 0;
      NoCalls(t);
      while calls < |turns| && turns[calls].Ready?
        invariant Valid() && calls == |policies| <= |turns| && (calls > 0 ==> Acceptable(d, batchSize))
        invariant UnderOwnCutoffs(turns, policies, d, batchSize)
        invariant Snapshot() == CallAll(t, policies)
        invariant |rows.Keys| + calls <= |t.rows.Keys|
      {
        ClockOf(turns, calls);
        OneMoreTurn(turns, policies, d, batchSize);
        var idle := CountedBatch(turns[calls].clock, turns[calls].callClock, d, batchSize, t, policies);
        if idle.Failure? { return idle, calls, policies; }
        policies := policies + [PolicyAt(turns[calls].clock, d, batchSize)];
        calls := calls + 1;
        if idle.value { return idle, calls, policies; }
      }
      return Success(false), calls, policies;
    }

    // ---- the other writers ----

    /** A service archives an item or document: archived_at is set once. */
    method Archive(root: RowKey, now: Time)
      requires Valid() && root in rows && IsRoot(rows[root]) && rows[root].archivedAt.None?
      modifies this`rows
      ensures Valid() && rows == old(rows)[root := old(rows)[root].(archivedAt := Some(now))]
      ensures OutsideWrite(old(Snapshot()), Snapshot())
    {
      hide Consistent, QueueSound, SourceDocument, ArchivedPastCutoff;
      ghost var t := Snapshot();
      rows := rows[root := rows[root].(archivedAt := Some(now))];
      ArchivingKeepsConsistency(t.rows, root, now);
      WriteKeepsQueueSound(t, Snapshot());
    }

    /** INSERT of a provenance link: the trigger and the foreign keys decide. */
    method InsertLink(k: RowKey, link: Row) returns (accepted: bool)
      requires Valid() && k !in rows && k !in queue && k.table == ProvenanceLinks && link.ProvenanceLink?
      modifies this`rows
      ensures Valid() && accepted == (TriggerAdmits(old(rows), link.source) && KeysHold(old(rows)[k := link], k))
      ensures rows == if accepted then old(rows)[k := link] else old(rows)
      ensures accepted ==> OutsideWrite(old(Snapshot()), Snapshot())
    {
      hide Consistent, QueueSound, ColumnsAgree, References;
      ghost var t := Snapshot();
      accepted := TriggerAdmits(rows, link.source) && KeysHold(rows[k := link], k);
      if accepted {
        rows := rows[k := link];
        InsertingKeepsConsistency(t.rows, k, link);
        WriteKeepsQueueSound(t, Snapshot());
      }
    }
  }
}
