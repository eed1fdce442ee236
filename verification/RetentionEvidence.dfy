/** Cited evidence: a document revision that a provenance link still reaches goes through a call whole. */
module RetentionEvidence {
  import opened Wrappers
  import opened RetentionSchema
  import opened RetentionSelection
  import opened RetentionEffects
  import opened RetentionSafety
  import opened RetentionLive
  import opened RetentionDraining

  /** Everything of a revision that is cited afterwards is still there, with the same columns. */
  ghost predicate KeepsCited(t: Rows, t': Rows) {
    forall r, x | RevisionCited(t', r) && x in t && Holder(t, x) == Some(r) :: x in t' && t'[x] == t[x]
  }

  /** Purging rows creates no citation of a revision either. */
  lemma RevisionCitationsShrink(t: Rows, t': Rows, p: Policy, r: RowKey)
    requires Consistent(t) && Consistent(t') && KeepsContent(t, t', p) && RevisionCited(t', r)
    ensures RevisionCited(t, r) && r in t && t[r].DocumentRevision?
  {
    hide Consistent, KeepsContent;
    var link :| link in t' && t'[link].ProvenanceLink? && CitedRevision(t', link) == Some(r);
    CitedRevisionKept(t, t', p, link);
    CitedIsDocumentRevision(t, link);
  }

  lemma CitedIsDocumentRevision(t: Rows, link: RowKey)
    requires Consistent(t) && link in t && t[link].ProvenanceLink? && CitedRevision(t, link).Some?
    ensures CitedRevision(t, link).value in t && t[CitedRevision(t, link).value].DocumentRevision?
  {
    var s := t[link].source.value;
    assert KeysHold(t, link) && KeysHold(t, s);
  }

  /** A surviving row that has a holder has all its columns. */
  lemma HeldRowKept(t: Rows, t': Rows, p: Policy, x: RowKey)
    requires KeepsContent(t, t', p) && x in t && x in t' && Holder(t, x).Some?
    ensures t'[x] == t[x]
  {
    assert SameRow(t, t', x, p);
  }

  /** Clearing a current pointer cites nothing and uncites nothing. */
  lemma CitedWhenCleared(t: Rows, root: Option<RowKey>, r: RowKey)
    requires root.Some? ==> root.value in t && IsRoot(t[root.value])
    ensures RevisionCited(ClearCurrent(t, root), r) <==> RevisionCited(t, r)
  {
    var rows := ClearCurrent(t, root);
    forall link | link in t && t[link].ProvenanceLink? ensures CitedRevision(rows, link) == CitedRevision(t, link) {}
  }

  // ---- whose rows each half purges ----

  lemma KnowledgeGoneHolder(t: Rows, root: Option<RowKey>, p: Policy, g: RowKey)
    requires root.Some? ==> root.value in t && IsRoot(t[root.value])
    requires g in KnowledgeRows(ClearCurrent(t, root), root, p)
    ensures g in t && (Some(g) == root || (Holder(t, g).Some? && Holder(t, g).value.table == KnowledgeRevisions))
  {
    hide KnowledgeRevisionRows, KnowledgeVictim, RevisionsOf, IsVictim;
    var rows := ClearCurrent(t, root);
    var victim := KnowledgeVictim(rows, root, p);
    KnowledgeVictimIsVictim(rows, root, p);
    if Some(g) != root {
      VictimFacts(rows, root, victim.value, p);
      KnowledgeBatchHolder(rows, victim.value, p.maxRows, g);
      HolderIgnoresCurrent(t, root, g);
    }
  }

  /** The guard on the victim: what the document half purges hangs from no cited revision. */
  lemma DocumentGoneHolder(t: Rows, root: Option<RowKey>, p: Policy, g: RowKey)
    requires root.Some? ==> root.value in t && IsRoot(t[root.value])
    requires g in DocumentRows(ClearCurrent(t, root), root, p)
    ensures g in t && (Some(g) == root || (Holder(t, g).Some? && !RevisionCited(t, Holder(t, g).value)))
  {
    hide DocumentRevisionRows, DocumentVictim, RevisionsOf, IsVictim, RevisionCited;
    var rows := ClearCurrent(t, root);
    var victim := DocumentVictim(rows, root, p);
    DocumentVictimIsVictim(rows, root, p);
    if Some(g) != root {
      VictimFacts(rows, root, victim.value, p);
      DocumentBatchHolder(rows, victim.value, p.maxRows, g);
      HolderIgnoresCurrent(t, root, g);
      CitedWhenCleared(t, root, victim.value);
    }
  }

  lemma RootHasNoHolder(t: Rows, x: RowKey)
    requires x in t && (IsRoot(t[x]) || IsOperational(t[x]))
    ensures Holder(t, x).None?
  {
  }

  // ---- the three parts of a call ----

  /** Deleting rows of which none hangs from a revision cited afterwards. */
  lemma DeleteKeepsCited(t: Rows, t': Rows, p: Policy, gone: set<RowKey>)
    requires KeepsContent(t, t', p) && t'.Keys == t.Keys - gone
    requires forall r, x | RevisionCited(t', r) && x in gone && x in t :: Holder(t, x) != Some(r)
    ensures KeepsCited(t, t')
  {
    hide KeepsContent, RevisionCited, Holder;
    forall r, x | RevisionCited(t', r) && x in t && Holder(t, x) == Some(r) ensures x in t' && t'[x] == t[x] {
      assert x in t';
      HeldRowKept(t, t', p, x);
    }
  }

  lemma KnowledgeKeepsCited(t: Tables, p: Policy)
    requires Consistent(t.rows)
    ensures KeepsCited(t.rows, KnowledgeEffect(t, p).tables.rows)
  {
    hide KnowledgeRows, Consistent, KeepsContent, KeepsLive, KeepsCited, RevisionCited, Holder, Delete;
    var e := KnowledgeEffect(t, p);
    var t' := e.tables.rows;
    KnowledgeConserves(t, p);
    KnowledgeKeepsLive(t, p);
    forall r, x | RevisionCited(t', r) && x in e.gone && x in t.rows ensures Holder(t.rows, x) != Some(r) {
      RevisionCitationsShrink(t.rows, t', p, r);
      KnowledgeGoneHolder(t.rows, First(QueuedItems(t, p)), p, x);
      if IsRoot(t.rows[x]) { RootHasNoHolder(t.rows, x); }
    }
    DeleteKeepsCited(t.rows, t', p, e.gone);
  }

  lemma DocumentKeepsCited(t: Tables, p: Policy)
    requires Consistent(t.rows)
    ensures KeepsCited(t.rows, DocumentEffect(t, p).tables.rows)
  {
    hide DocumentRows, Consistent, KeepsContent, KeepsLive, KeepsCited, RevisionCited, Holder, Delete, StorageKeyOf,
      DocumentVictim;
    var e := DocumentEffect(t, p);
    var t' := e.tables.rows;
    DocumentConserves(t, p);
    DocumentKeepsLive(t, p);
    forall r, x | RevisionCited(t', r) && x in e.gone && x in t.rows ensures Holder(t.rows, x) != Some(r) {
      RevisionCitationsShrink(t.rows, t', p, r);
      DocumentGoneHolder(t.rows, First(QueuedDocuments(t, p)), p, x);
      if IsRoot(t.rows[x]) { RootHasNoHolder(t.rows, x); }
    }
    DeleteKeepsCited(t.rows, t', p, e.gone);
  }

  lemma OperationalKeepsCited(t: Tables, p: Policy)
    requires Consistent(t.rows)
    ensures KeepsCited(t.rows, OperationalEffect(t, p).tables.rows)
  {
    hide OperationalRows, Consistent, KeepsContent, KeepsLive, KeepsCited, RevisionCited, Holder, Delete;
    var e := OperationalEffect(t, p);
    OperationalConserves(t, p);
    OperationalKeepsLive(t, p);
    forall r, x | RevisionCited(e.tables.rows, r) && x in e.gone && x in t.rows ensures Holder(t.rows, x) != Some(r) {
      OperationalRowsAreOperational(t.rows, p, x);
      RootHasNoHolder(t.rows, x);
    }
    DeleteKeepsCited(t.rows, e.tables.rows, p, e.gone);
  }

  lemma KeepsCitedThen(a: Rows, b: Rows, c: Rows, p: Policy)
    requires Consistent(a) && Consistent(b) && Consistent(c) && KeepsContent(a, b, p) && KeepsContent(b, c, p)
    requires KeepsCited(a, b) && KeepsCited(b, c)
    ensures KeepsCited(a, c)
  {
    hide Consistent, KeepsContent, RevisionCited, Holder;
    forall r, x | RevisionCited(c, r) && x in a && Holder(a, x) == Some(r) ensures x in c && c[x] == a[x] {
      RevisionCitationsShrink(b, c, p, r);
      assert x in b && b[x] == a[x];
      HolderSurvives(a, b, p, x);
    }
  }

  /**
   Cited evidence survives a call: whatever revision a link still reaches afterwards, directly or
   through a chunk, none of its rows (itself, its chunks, their units, its jobs and their events) is
   gone or changed.
   */
  lemma CitedEvidenceSurvives(t: Tables, p: Policy)
    requires Consistent(t.rows)
    ensures KeepsCited(t.rows, RetentionEffect(t, p).tables.rows)
  {
    hide KnowledgeEffect, DocumentEffect, OperationalEffect, QueueRoots, Consistent, KeepsLive, KeepsContent,
      KeepsCited;
    var q := QueueRoots(t, p);
    QueueingKeepsRows(t, p);
    var k := KnowledgeEffect(q, p);
    KnowledgeConserves(q, p);
    KnowledgeKeepsLive(q, p);
    KnowledgeKeepsCited(q, p);
    var d := DocumentEffect(k.tables, p);
    DocumentConserves(k.tables, p);
    DocumentKeepsLive(k.tables, p);
    DocumentKeepsCited(k.tables, p);
    var o := OperationalEffect(d.tables, p);
    OperationalConserves(d.tables, p);
    OperationalKeepsLive(d.tables, p);
    OperationalKeepsCited(d.tables, p);
    KeepsCitedThen(q.rows, k.tables.rows, d.tables.rows, p);
    KeepsContentThen(q.rows, k.tables.rows, d.tables.rows, p);
    KeepsCitedThen(q.rows, d.tables.rows, o.tables.rows, p);
  }

  /** In particular the row that a surviving link cites, and the revision it belongs to. */
  lemma CitedRowSurvives(t: Tables, p: Policy, link: RowKey)
    requires Consistent(t.rows)
    requires link in RetentionEffect(t, p).tables.rows && RetentionEffect(t, p).tables.rows[link].ProvenanceLink?
    requires RetentionEffect(t, p).tables.rows[link].source.Some?
    ensures var t' := RetentionEffect(t, p).tables.rows;
            var s, r := t'[link].source.value, CitedRevision(t', link);
            && s in t.rows && s in t' && t'[s] == t.rows[s]
            && r.Some? && r.value in t.rows && r.value in t' && t'[r.value] == t.rows[r.value]
  {
    hide RetentionEffect;
    RetentionConserves(t, p);
    RetentionKeepsLive(t, p);
    CitedEvidenceSurvives(t, p);
    var t' := RetentionEffect(t, p).tables.rows;
    CitedRevisionKept(t.rows, t', p, link);
    CitedIsDocumentRevision(t', link);
    CitedIsDocumentRevision(t.rows, link);
    SourceHangsFromCited(t.rows, link);
    assert SameRow(t.rows, t', link, p);
  }

  lemma SourceHangsFromCited(t: Rows, link: RowKey)
    requires Consistent(t) && link in t && t[link].ProvenanceLink? && t[link].source.Some?
    ensures var s := t[link].source.value; s in t && Holder(t, s) == CitedRevision(t, link)
  {
    var s := t[link].source.value;
    assert KeysHold(t, link) && KeysHold(t, s);
  }
}
