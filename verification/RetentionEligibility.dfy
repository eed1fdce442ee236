/** Why a row may go: the converse of draining.  Nothing is purged that was not eligible to begin with. */
module RetentionEligibility {
  import opened Wrappers
  import opened RetentionSchema
  import opened RetentionSelection
  import opened RetentionEffects
  import opened RetentionSafety
  import opened RetentionLive
  import opened RetentionEvidence

  /** The revision is superseded, or its item or document is archived past the cutoff. */
  predicate RevisionMayGo(t: Rows, r: RowKey, p: Policy) {
    r in t && (t[r].KnowledgeRevision? || t[r].DocumentRevision?) &&
    (Superseded(t, r, p) || ArchivedPastCutoff(t, t[r].parent, p))
  }

  /** A row may go on account of its own age or that of the row it hangs from. */
  predicate Eligible(t: Rows, g: RowKey, p: Policy) {
    g in t &&
    match t[g]
    case KnowledgeItem(_, _, _) => ArchivedPastCutoff(t, g, p)
    case Document(_, _, _) => ArchivedPastCutoff(t, g, p)
    case IdempotencyRecord(expiresAt) => Due(expiresAt, p.operationalBefore)
    case PendingAction(expiresAt) => Due(expiresAt, p.operationalBefore)
    case SessionFamily(_, _) => Due(FamilyEnd(t[g]), p.operationalBefore)
    case SessionCredential(family, _) =>
      family in t && t[family].SessionFamily? && Due(FamilyEnd(t[family]), p.operationalBefore)
    case ApiKey(_, _) => DueIfSet(KeyEnd(t[g]), p.operationalBefore)
    case ApiKeyScope(key, _) => key in t && t[key].ApiKey? && DueIfSet(KeyEnd(t[key]), p.operationalBefore)
    case ThrottleBucket(updatedAt, blockedUntil) =>
      Due(updatedAt, p.operationalBefore) && (blockedUntil.None? || Due(blockedUntil.value, p.operationalBefore))
    case _ => Holder(t, g).Some? && RevisionMayGo(t, Holder(t, g).value, p)
  }

  lemma VictimMayGo(t: Rows, root: Option<RowKey>, victim: RowKey, p: Policy)
    requires root.Some? ==> ArchivedPastCutoff(t, root.value, p)
    requires IsVictim(ClearCurrent(t, root), victim, root, p)
    ensures RevisionMayGo(t, victim, p)
  {
  }

  lemma KnowledgeGoneWasEligible(t: Rows, root: Option<RowKey>, p: Policy, g: RowKey)
    requires root.Some? ==> ArchivedPastCutoff(t, root.value, p)
    requires g in KnowledgeRows(ClearCurrent(t, root), root, p)
    ensures Eligible(t, g, p)
  {
    hide KnowledgeRevisionRows, KnowledgeVictim, RevisionsOf, IsVictim, RevisionMayGo, ArchivedPastCutoff;
    RootIsIn(t, root, p);
    var rows := ClearCurrent(t, root);
    var victim := KnowledgeVictim(rows, root, p);
    KnowledgeVictimIsVictim(rows, root, p);
    if Some(g) != root {
      assert victim.Some?;
      VictimFacts(rows, root, victim.value, p);
      KnowledgeBatchHolder(rows, victim.value, p.maxRows, g);
      HolderIgnoresCurrent(t, root, g);
      VictimMayGo(t, root, victim.value, p);
    }
  }

  lemma RootIsIn(t: Rows, root: Option<RowKey>, p: Policy)
    requires root.Some? ==> ArchivedPastCutoff(t, root.value, p)
    ensures root.Some? ==> root.value in t && IsRoot(t[root.value])
  {
  }

  lemma DocumentGoneWasEligible(t: Rows, root: Option<RowKey>, p: Policy, g: RowKey)
    requires root.Some? ==> ArchivedPastCutoff(t, root.value, p)
    requires g in DocumentRows(ClearCurrent(t, root), root, p)
    ensures Eligible(t, g, p)
  {
    hide DocumentRevisionRows, DocumentVictim, RevisionsOf, IsVictim, RevisionMayGo, ArchivedPastCutoff, RevisionCited;
    RootIsIn(t, root, p);
    var rows := ClearCurrent(t, root);
    var victim := DocumentVictim(rows, root, p);
    DocumentVictimIsVictim(rows, root, p);
    if Some(g) != root {
      assert victim.Some?;
      VictimFacts(rows, root, victim.value, p);
      DocumentBatchHolder(rows, victim.value, p.maxRows, g);
      HolderIgnoresCurrent(t, root, g);
      VictimMayGo(t, root, victim.value, p);
    }
  }

  lemma SessionGoneWasEligible(t: Rows, p: Policy, g: RowKey)
    requires g in SessionRows(t, p)
    ensures Eligible(t, g, p)
  {
    hide FamilyRows, Due, FamilyEnd, First, ExpiredFamilies, Holder, RevisionMayGo;
    FirstFamilyIsOver(t, p);
    InFamilyRows(t, First(ExpiredFamilies(t, p)), p.maxRows, g);
  }

  lemma ApiKeyGoneWasEligible(t: Rows, p: Policy, g: RowKey)
    requires g in ApiKeyRows(t, p)
    ensures Eligible(t, g, p)
  {
    hide KeyRows, Due, KeyEnd, First, ExpiredKeys, Holder, RevisionMayGo;
    FirstKeyIsOver(t, p);
    InKeyRows(t, First(ExpiredKeys(t, p)), p.maxRows, g);
  }

  lemma ExpiredIsEligible(t: Rows, p: Policy, g: RowKey)
    requires g in ExpiredIdempotency(t, p).Keys + ExpiredActions(t, p).Keys + StaleBuckets(t, p).Keys
    ensures Eligible(t, g, p)
  {
  }

  lemma OperationalGoneWasEligible(t: Rows, p: Policy, g: RowKey)
    requires g in OperationalRows(t, p)
    ensures Eligible(t, g, p)
  {
    hide FirstBatch, SessionRows, ApiKeyRows, Eligible, ExpiredIdempotency, ExpiredActions, StaleBuckets;
    if g in SessionRows(t, p) { SessionGoneWasEligible(t, p, g); }
    else if g in ApiKeyRows(t, p) { ApiKeyGoneWasEligible(t, p, g); }
    else { ExpiredIsEligible(t, p, g); }
  }

  /** A row eligible after part of a call was eligible before it. */
  lemma EligibleBefore(t: Rows, t': Rows, p: Policy, g: RowKey)
    requires Consistent(t) && Consistent(t') && KeepsContent(t, t', p) && Eligible(t', g, p)
    ensures Eligible(t, g, p)
  {
    assert SameRow(t, t', g, p) && KeysHold(t', g);
    if t'[g].SessionCredential? {
      assert SameRow(t, t', t'[g].family, p);
    } else if t'[g].ApiKeyScope? {
      assert SameRow(t, t', t'[g].key, p);
    } else if HasHolder(t'[g]) {
      HolderSurvives(t, t', p, g);
      RevisionMayGoBefore(t, t', p, Holder(t', g).value);
    }
  }

  predicate HasHolder(r: Row) {
    r.KnowledgeRevision? || r.DocumentRevision? || r.Chunk? || r.RetrievalUnit? || r.ProvenanceLink? ||
    r.IngestionJob? || r.OutboxEvent?
  }

  lemma RevisionMayGoBefore(t: Rows, t': Rows, p: Policy, r: RowKey)
    requires Consistent(t) && Consistent(t') && KeepsContent(t, t', p) && RevisionMayGo(t', r, p)
    ensures RevisionMayGo(t, r, p)
  {
    assert SameRow(t, t', r, p) && KeysHold(t', r);
    assert SameRow(t, t', t'[r].parent, p);
  }

  lemma KnowledgeEffectEligible(t: Tables, p: Policy, g: RowKey)
    requires g in KnowledgeEffect(t, p).gone
    ensures Eligible(t.rows, g, p)
  {
    hide KnowledgeRows, Eligible;
    KnowledgeGoneWasEligible(t.rows, First(QueuedItems(t, p)), p, g);
  }

  lemma DocumentEffectEligible(t: Tables, p: Policy, g: RowKey)
    requires g in DocumentEffect(t, p).gone
    ensures Eligible(t.rows, g, p)
  {
    hide DocumentRows, Eligible, StorageKeyOf, DocumentVictim;
    DocumentGoneWasEligible(t.rows, First(QueuedDocuments(t, p)), p, g);
  }

  lemma OperationalEffectEligible(t: Tables, p: Policy, g: RowKey)
    requires g in OperationalEffect(t, p).gone
    ensures Eligible(t.rows, g, p)
  {
    hide OperationalRows, Eligible;
    OperationalGoneWasEligible(t.rows, p, g);
  }

  /** The tables the document half of a call starts from. */
  function DocumentHalfStart(t: Tables, p: Policy): Rows {
    KnowledgeEffect(QueueRoots(t, p), p).tables.rows
  }

  /** Neither of the other parts of a call purges a row of a document revision. */
  lemma OtherPartsSpareDocuments(t: Tables, p: Policy, g: RowKey)
    requires g in KnowledgeEffect(t, p).gone || g in OperationalEffect(t, p).gone
    ensures g in t.rows
    ensures Holder(t.rows, g).Some? ==> Holder(t.rows, g).value.table == KnowledgeRevisions
  {
    hide KnowledgeRows, OperationalRows, Holder, ClearCurrent, Delete;
    if g in KnowledgeEffect(t, p).gone {
      var root := First(QueuedItems(t, p));
      KnowledgeGoneHolder(t.rows, root, p, g);
      if IsRoot(t.rows[g]) { RootHasNoHolder(t.rows, g); }
    } else {
      OperationalRowsAreOperational(t.rows, p, g);
      RootHasNoHolder(t.rows, g);
    }
  }

  lemma DocumentPartSparesCited(t: Tables, p: Policy, g: RowKey)
    requires g in DocumentEffect(t, p).gone
    ensures g in t.rows
    ensures Holder(t.rows, g).Some? ==> !RevisionCited(t.rows, Holder(t.rows, g).value)
  {
    hide DocumentRows, Holder, RevisionCited, ClearCurrent, Delete, StorageKeyOf, DocumentVictim;
    var root := First(QueuedDocuments(t, p));
    DocumentGoneHolder(t.rows, root, p, g);
    if IsRoot(t.rows[g]) { RootHasNoHolder(t.rows, g); }
  }

  /** What the document half purges was cited by nothing when it started. */
  lemma PurgedRevisionsWereUncited(t: Tables, p: Policy, g: RowKey)
    requires Consistent(t.rows) && g in RetentionEffect(t, p).gone
    ensures g in t.rows
    ensures Holder(t.rows, g).Some? && Holder(t.rows, g).value.table == DocumentRevisions ==>
              !RevisionCited(DocumentHalfStart(t, p), Holder(t.rows, g).value)
  {
    hide KnowledgeEffect, DocumentEffect, OperationalEffect, QueueRoots, Consistent, KeepsLive, KeepsContent, Holder,
      RevisionCited;
    var q := QueueRoots(t, p);
    QueueingKeepsRows(t, p);
    var k := KnowledgeEffect(q, p);
    KnowledgeConserves(q, p);
    KnowledgeKeepsLive(q, p);
    var d := DocumentEffect(k.tables, p);
    DocumentConserves(k.tables, p);
    DocumentKeepsLive(k.tables, p);
    if g in k.gone {
      OtherPartsSpareDocuments(q, p, g);
    } else if g in d.gone {
      DocumentPartSparesCited(k.tables, p, g);
      HolderBefore(q.rows, k.tables.rows, p, g);
    } else {
      OtherPartsSpareDocuments(d.tables, p, g);
      KeepsContentThen(q.rows, k.tables.rows, d.tables.rows, p);
      HolderBefore(q.rows, d.tables.rows, p, g);
    }
  }

  /** A row that is still there hangs from what it always hung from. */
  lemma HolderBefore(t: Rows, t': Rows, p: Policy, g: RowKey)
    requires Consistent(t) && Consistent(t') && KeepsContent(t, t', p) && g in t'
    ensures g in t && Holder(t', g) == Holder(t, g)
  {
    assert SameRow(t, t', g, p);
    hide Consistent, KeepsContent, Holder;
    if t'[g] == t[g] {
      HolderSurvives(t, t', p, g);
    } else {
      assert (IsRoot(t[g]) && IsRoot(t'[g])) || (t[g].SessionCredential? && t'[g].SessionCredential?);
      RootHasNoHolder(t, g);
      RootHasNoHolder(t', g);
    }
  }

  /**
   Every row a call purges was eligible when the call started; and if it belonged to a document revision,
   no link cited that revision when the document half began.
   */
  lemma GoneRowsWereEligible(t: Tables, p: Policy, g: RowKey)
    requires Consistent(t.rows) && g in RetentionEffect(t, p).gone
    ensures Eligible(t.rows, g, p)
    ensures Holder(t.rows, g).Some? && Holder(t.rows, g).value.table == DocumentRevisions ==>
              !RevisionCited(DocumentHalfStart(t, p), Holder(t.rows, g).value)
  {
    PurgedRevisionsWereUncited(t, p, g);
    hide KnowledgeEffect, DocumentEffect, OperationalEffect, QueueRoots, Consistent, KeepsLive, KeepsContent, Eligible,
      RevisionCited, Holder;
    var q := QueueRoots(t, p);
    QueueingKeepsRows(t, p);
    var k := KnowledgeEffect(q, p);
    KnowledgeConserves(q, p);
    KnowledgeKeepsLive(q, p);
    var d := DocumentEffect(k.tables, p);
    DocumentConserves(k.tables, p);
    DocumentKeepsLive(k.tables, p);
    if g in k.gone {
      KnowledgeEffectEligible(q, p, g);
    } else if g in d.gone {
      DocumentEffectEligible(k.tables, p, g);
      EligibleBefore(q.rows, k.tables.rows, p, g);
    } else {
      OperationalEffectEligible(d.tables, p, g);
      KeepsContentThen(q.rows, k.tables.rows, d.tables.rows, p);
      EligibleBefore(q.rows, d.tables.rows, p, g);
    }
  }
}
