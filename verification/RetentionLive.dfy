/** Content that is not archived past the cutoff goes through a retention call untouched. */
module RetentionLive {
  import opened Wrappers
  import opened RetentionSchema
  import opened RetentionSelection
  import opened RetentionEffects
  import opened RetentionSafety

  /** The item or document revision that a row belongs to. */
  function Holder(t: Rows, x: RowKey): Option<RowKey>
    requires x in t
  {
    match t[x]
    case KnowledgeRevision(_, _, _) => Some(x)
    case DocumentRevision(_, _, _, _) => Some(x)
    case Chunk(revision, _, _) => Some(revision)
    case RetrievalUnit(subject, _) =>
      if subject in t && t[subject].Chunk? then Some(t[subject].revision) else Some(subject)
    case ProvenanceLink(knowledge, _, _) => Some(knowledge)
    case IngestionJob(revision, _, _) => Some(revision)
    case OutboxEvent(job) => if job in t && t[job].IngestionJob? then Some(t[job].revision) else None
    case _ => None
  }

  predicate LiveRoot(t: Rows, k: RowKey, p: Policy) {
    k in t && IsRoot(t[k]) && !ArchivedPastCutoff(t, k, p)
  }

  /** The current revision of a live item or document. */
  predicate LiveRevision(t: Rows, r: RowKey, p: Policy) {
    r in t && (t[r].KnowledgeRevision? || t[r].DocumentRevision?) &&
    LiveRoot(t, t[r].parent, p) && t[t[r].parent].current == Some(r)
  }

  /**
   A live row: an item or document not archived past the cutoff, its current revision, or any unit,
   link, chunk, job or outbox row of that revision.
   */
  predicate Live(t: Rows, x: RowKey, p: Policy) {
    x in t && (LiveRoot(t, x, p) || (Holder(t, x).Some? && LiveRevision(t, Holder(t, x).value, p)))
  }

  /**
   Surviving rows keep their columns, except the current pointer of a root archived past the cutoff
   and a credential's pointer to a purged replacement.
   */
  ghost predicate KeepsContent(t: Rows, t': Rows, p: Policy) {
    forall k | k in t' :: k in t && SameRow(t, t', k, p)
  }

  predicate SameRow(t: Rows, t': Rows, k: RowKey, p: Policy)
    requires k in t && k in t'
  {
    || t'[k] == t[k]
    || (ArchivedPastCutoff(t, k, p) && t'[k] == t[k].(current := None))
    || (t[k].SessionCredential? && t[k].replacedBy.Some? && t[k].replacedBy.value !in t'
        && t'[k] == t[k].(replacedBy := None))
  }

  // ---- one half ----

  lemma DeleteKeepsContent(t: Rows, root: Option<RowKey>, gone: set<RowKey>, p: Policy)
    requires root.Some? ==> ArchivedPastCutoff(t, root.value, p)
    ensures KeepsContent(t, Delete(ClearCurrent(t, root), gone), p)
  {
  }

  /** A victim of the cleared rows is not the current revision of a live root of the original rows. */
  lemma VictimIsNotLive(t: Rows, root: Option<RowKey>, victim: RowKey, p: Policy)
    requires root.Some? ==> ArchivedPastCutoff(t, root.value, p)
    requires IsVictim(ClearCurrent(t, root), victim, root, p)
    ensures !LiveRevision(t, victim, p)
  {
  }

  lemma KnowledgeBatchHolder(t: Rows, revision: RowKey, m: nat, g: RowKey)
    requires g in KnowledgeRevisionRows(t, revision, m) && revision in t && t[revision].KnowledgeRevision?
    ensures g in t && !IsRoot(t[g]) && Holder(t, g) == Some(revision)
  {
    hide KnowledgeRevisionRows;
    InKnowledgeRevisionRows(t, revision, m, g);
  }

  lemma KnowledgeGoneIsNotLive(t: Rows, root: Option<RowKey>, p: Policy, g: RowKey)
    requires Consistent(t) && (root.Some? ==> ArchivedPastCutoff(t, root.value, p))
    requires g in KnowledgeRows(ClearCurrent(t, root), root, p)
    ensures !Live(t, g, p)
  {
    hide KnowledgeRevisionRows, KnowledgeVictim, RevisionsOf, Consistent, IsVictim;
    var rows := ClearCurrent(t, root);
    var victim := KnowledgeVictim(rows, root, p);
    KnowledgeVictimIsVictim(rows, root, p);
    if Some(g) != root {
      assert victim.Some?;
      VictimFacts(rows, root, victim.value, p);
      KnowledgeBatchHolder(rows, victim.value, p.maxRows, g);
      HolderIgnoresCurrent(t, root, g);
      VictimIsNotLive(t, root, victim.value, p);
    }
  }

  lemma DocumentBatchUnder(t: Rows, revision: RowKey, m: nat)
    ensures var b := DocumentBatch(t, revision, m);
            b.events <= EventsUnder(t, revision) && b.units <= UnitsUnder(t, revision) &&
            b.jobs <= JobsOf(t, revision) && b.chunks <= ChunksOf(t, revision)
  {
  }

  lemma HolderOfChild(t: Rows, revision: RowKey, g: RowKey)
    requires g in EventsUnder(t, revision) + UnitsUnder(t, revision) + JobsOf(t, revision) + ChunksOf(t, revision)
    ensures g in t && !IsRoot(t[g]) && Holder(t, g) == Some(revision)
  {
  }

  lemma DocumentBatchHolder(t: Rows, revision: RowKey, m: nat, g: RowKey)
    requires g in DocumentRevisionRows(t, revision, m) && revision in t && t[revision].DocumentRevision?
    ensures g in t && !IsRoot(t[g]) && Holder(t, g) == Some(revision)
  {
    hide DocumentBatch, EventsUnder, UnitsUnder, JobsOf, ChunksOf, LinksTo;
    DocumentBatchUnder(t, revision, m);
    if g != revision { HolderOfChild(t, revision, g); }
  }

  lemma HolderIgnoresCurrent(t: Rows, root: Option<RowKey>, x: RowKey)
    requires x in t && (root.Some? ==> root.value in t && IsRoot(t[root.value]))
    ensures Holder(ClearCurrent(t, root), x) == Holder(t, x)
  {
  }

  lemma DocumentGoneIsNotLive(t: Rows, root: Option<RowKey>, p: Policy, g: RowKey)
    requires Consistent(t) && (root.Some? ==> ArchivedPastCutoff(t, root.value, p))
    requires g in DocumentRows(ClearCurrent(t, root), root, p)
    ensures !Live(t, g, p)
  {
    hide DocumentRevisionRows, DocumentVictim, RevisionsOf, Consistent, IsVictim;
    var rows := ClearCurrent(t, root);
    var victim := DocumentVictim(rows, root, p);
    DocumentVictimIsVictim(rows, root, p);
    if Some(g) != root {
      assert victim.Some?;
      VictimFacts(rows, root, victim.value, p);
      DocumentBatchHolder(rows, victim.value, p.maxRows, g);
      HolderIgnoresCurrent(t, root, g);
      VictimIsNotLive(t, root, victim.value, p);
    }
  }

  lemma VictimFacts(t: Rows, root: Option<RowKey>, victim: RowKey, p: Policy)
    requires IsVictim(t, victim, root, p)
    ensures victim in t
  {
  }

  /** Rows of the tables that hold no content. */
  predicate IsOperational(r: Row) {
    r.IdempotencyRecord? || r.PendingAction? || r.SessionFamily? || r.SessionCredential? || r.ApiKey? ||
    r.ApiKeyScope? || r.ThrottleBucket?
  }

  lemma SessionRowsAreOperational(t: Rows, p: Policy, g: RowKey)
    requires g in SessionRows(t, p)
    ensures g in t && IsOperational(t[g])
  {
    hide FamilyRows, Due, FamilyEnd, First, ExpiredFamilies;
    FirstFamilyIsOver(t, p);
    InFamilyRows(t, First(ExpiredFamilies(t, p)), p.maxRows, g);
  }

  lemma ApiKeyRowsAreOperational(t: Rows, p: Policy, g: RowKey)
    requires g in ApiKeyRows(t, p)
    ensures g in t && IsOperational(t[g])
  {
    hide KeyRows, DueIfSet, KeyEnd, First, ExpiredKeys;
    FirstKeyIsOver(t, p);
    InKeyRows(t, First(ExpiredKeys(t, p)), p.maxRows, g);
  }

  lemma OperationalRowsAreOperational(t: Rows, p: Policy, g: RowKey)
    requires g in OperationalRows(t, p)
    ensures g in t && IsOperational(t[g])
  {
    hide Due, FirstBatch, SessionRows, ApiKeyRows;
    if g in SessionRows(t, p) {
      SessionRowsAreOperational(t, p, g);
    } else if g in ApiKeyRows(t, p) {
      ApiKeyRowsAreOperational(t, p, g);
    }
  }

  lemma OperationalGoneIsNotLive(t: Rows, p: Policy, g: RowKey)
    requires g in OperationalRows(t, p)
    ensures !Live(t, g, p)
  {
    hide OperationalRows;
    OperationalRowsAreOperational(t, p, g);
  }

  // ---- any sequence of halves ----

  /** Live rows are neither removed nor changed, and stay live. */
  ghost predicate KeepsLive(t: Rows, t': Rows, p: Policy) {
    forall x | Live(t, x, p) :: x in t' && t'[x] == t[x] && Live(t', x, p)
  }

  lemma LiveRowKept(t: Rows, t': Rows, p: Policy, x: RowKey)
    requires KeepsContent(t, t', p) && Live(t, x, p) && x in t'
    ensures t'[x] == t[x]
  {
    assert SameRow(t, t', x, p);
  }

  /** If only rows that are not live disappear, live rows stay live. */
  lemma SurvivorsStayLive(t: Rows, t': Rows, p: Policy)
    requires Consistent(t) && Consistent(t') && KeepsContent(t, t', p)
    requires forall x | Live(t, x, p) :: x in t'
    ensures KeepsLive(t, t', p)
  {
    forall x | Live(t, x, p) ensures x in t' && t'[x] == t[x] && Live(t', x, p) {
      LiveRowKept(t, t', p, x);
      if !LiveRoot(t, x, p) {
        var r := Holder(t, x).value;
        var root := t[r].parent;
        assert Live(t, r, p) && Live(t, root, p);
        LiveRowKept(t, t', p, r);
        LiveRowKept(t, t', p, root);
        HolderSurvives(t, t', p, x);
      }
    }
  }

  lemma HolderSurvives(t: Rows, t': Rows, p: Policy, x: RowKey)
    requires Consistent(t) && Consistent(t') && KeepsContent(t, t', p)
    requires x in t && x in t' && t'[x] == t[x]
    ensures Holder(t', x) == Holder(t, x)
  {
    assert KeysHold(t, x) && KeysHold(t', x);
    match t[x]
    case RetrievalUnit(subject, _) => assert SameRow(t, t', subject, p);
    case OutboxEvent(job) => assert SameRow(t, t', job, p);
    case _ =>
  }

  lemma KnowledgeKeepsLive(t: Tables, p: Policy)
    requires Consistent(t.rows)
    ensures KeepsLive(t.rows, KnowledgeEffect(t, p).tables.rows, p)
    ensures KeepsContent(t.rows, KnowledgeEffect(t, p).tables.rows, p)
  {
    hide KnowledgeRows, Live, Consistent;
    var root := First(QueuedItems(t, p));
    var gone := KnowledgeRows(ClearCurrent(t.rows, root), root, p);
    KnowledgeConserves(t, p);
    DeleteKeepsContent(t.rows, root, gone, p);
    forall x | Live(t.rows, x, p) ensures x in KnowledgeEffect(t, p).tables.rows {
      LiveIsPresent(t.rows, x, p);
      if x in gone { KnowledgeGoneIsNotLive(t.rows, root, p, x); }
    }
    SurvivorsStayLive(t.rows, KnowledgeEffect(t, p).tables.rows, p);
  }

  lemma LiveIsPresent(t: Rows, x: RowKey, p: Policy)
    requires Live(t, x, p)
    ensures x in t
  {
  }

  lemma DocumentKeepsLive(t: Tables, p: Policy)
    requires Consistent(t.rows)
    ensures KeepsLive(t.rows, DocumentEffect(t, p).tables.rows, p)
    ensures KeepsContent(t.rows, DocumentEffect(t, p).tables.rows, p)
  {
    hide DocumentRows, Live, Consistent, StorageKeyOf, DocumentVictim;
    var root := First(QueuedDocuments(t, p));
    var gone := DocumentRows(ClearCurrent(t.rows, root), root, p);
    DocumentConserves(t, p);
    DeleteKeepsContent(t.rows, root, gone, p);
    forall x | Live(t.rows, x, p) ensures x in DocumentEffect(t, p).tables.rows {
      LiveIsPresent(t.rows, x, p);
      if x in gone { DocumentGoneIsNotLive(t.rows, root, p, x); }
    }
    SurvivorsStayLive(t.rows, DocumentEffect(t, p).tables.rows, p);
  }

  lemma OperationalKeepsLive(t: Tables, p: Policy)
    requires Consistent(t.rows)
    ensures KeepsLive(t.rows, OperationalEffect(t, p).tables.rows, p)
    ensures KeepsContent(t.rows, OperationalEffect(t, p).tables.rows, p)
  {
    hide OperationalRows, Live, Consistent;
    OperationalConserves(t, p);
    DeleteKeepsContent(t.rows, None, OperationalRows(t.rows, p), p);
    forall x | Live(t.rows, x, p) ensures x in OperationalEffect(t, p).tables.rows {
      LiveIsPresent(t.rows, x, p);
      if x in OperationalRows(t.rows, p) { OperationalGoneIsNotLive(t.rows, p, x); }
    }
    SurvivorsStayLive(t.rows, OperationalEffect(t, p).tables.rows, p);
  }

  lemma KeepsLiveThen(a: Rows, b: Rows, c: Rows, p: Policy)
    requires KeepsLive(a, b, p) && KeepsLive(b, c, p)
    ensures KeepsLive(a, c, p)
  {
    hide Live;
  }

  lemma KeepsContentThen(a: Rows, b: Rows, c: Rows, p: Policy)
    requires KeepsContent(a, b, p) && KeepsContent(b, c, p)
    ensures KeepsContent(a, c, p)
  {
    forall k | k in c ensures k in a && SameRow(a, c, k, p) {
      assert SameRow(b, c, k, p);
      assert SameRow(a, b, k, p);
      if a[k].SessionCredential? && a[k].replacedBy.Some? && a[k].replacedBy.value in c {
        assert a[k].replacedBy.value in b;
      }
    }
  }

  /**
   Live data is safe: whatever a call purges, every live row is still there with every column
   unchanged, and it is still live.
   */
  lemma RetentionKeepsLive(t: Tables, p: Policy)
    requires Consistent(t.rows)
    ensures KeepsLive(t.rows, RetentionEffect(t, p).tables.rows, p)
    ensures KeepsContent(t.rows, RetentionEffect(t, p).tables.rows, p)
  {
    hide KnowledgeEffect, DocumentEffect, OperationalEffect, QueueRoots, Consistent, KeepsLive, KeepsContent;
    var q := QueueRoots(t, p);
    QueueingKeepsRows(t, p);
    var k := KnowledgeEffect(q, p);
    KnowledgeConserves(q, p);
    KnowledgeKeepsLive(q, p);
    var d := DocumentEffect(k.tables, p);
    DocumentConserves(k.tables, p);
    DocumentKeepsLive(k.tables, p);
    var o := OperationalEffect(d.tables, p);
    OperationalKeepsLive(d.tables, p);
    KeepsLiveThen(q.rows, k.tables.rows, d.tables.rows, p);
    KeepsLiveThen(q.rows, d.tables.rows, o.tables.rows, p);
    KeepsContentThen(q.rows, k.tables.rows, d.tables.rows, p);
    KeepsContentThen(q.rows, d.tables.rows, o.tables.rows, p);
  }
}
