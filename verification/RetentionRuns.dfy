/** Retention calls interleaved with other writers, and any number of calls in a row. */
module RetentionRuns {
  import opened Wrappers
  import opened RetentionSchema
  import opened RetentionSelection
  import opened RetentionEffects
  import opened RetentionSafety
  import opened RetentionLive
  import opened RetentionDraining
  import opened RetentionEvidence

  // ---- the provenance trigger ----

  /** The document that the trigger finds behind a new link's source. */
  function SourceDocument(t: Rows, source: Option<RowKey>): Option<RowKey> {
    if source.None? || source.value !in t then None
    else match t[source.value]
      case DocumentRevision(parent, _, _, _) => Some(parent)
      case Chunk(_, document, _) => Some(document)
      case _ => None
  }

  /** gateway_reject_archived_document_provenance: no new link to an archived document. */
  predicate TriggerAdmits(t: Rows, source: Option<RowKey>) {
    var document := SourceDocument(t, source);
    document.Some? && document.value in t && t[document.value].Document? ==> t[document.value].archivedAt.None?
  }

  /** The trigger refuses exactly the links that would reach a revision of an archived document. */
  lemma RefusedExactlyWhenArchived(t: Rows, source: Option<RowKey>)
    requires Consistent(t)
    ensures TriggerAdmits(t, source) <==>
      forall r | r in t && t[r].DocumentRevision? && t[r].parent in t && t[t[r].parent].Document? &&
                 t[t[r].parent].archivedAt.Some? ::
        source != Some(r) &&
        !(source.Some? && source.value in t && t[source.value].Chunk? && t[source.value].revision == r)
  {
    if source.Some? && source.value in t {
      assert KeysHold(t, source.value);
      if t[source.value].Chunk? { assert KeysHold(t, t[source.value].revision); }
    }
  }

  /**
   What other writers may commit between two calls: any change that keeps the foreign keys, leaves the
   queue alone, never clears archived_at, never moves a revision or chunk to another parent, and
   creates or re-points a provenance link only past the trigger.
   */
  ghost predicate OutsideWrite(t: Tables, t': Tables) {
    && Consistent(t'.rows) && t'.queue == t.queue
    && (forall k | k in t'.rows && k in t.rows :: KeepsIdentity(t.rows[k], t'.rows[k]))
    && (forall k | k in t'.rows && k !in t.rows :: k !in t.queue)
    && (forall k | k in t'.rows && t'.rows[k].ProvenanceLink? :: LinkAdmitted(t.rows, t'.rows, k))
  }

  predicate KeepsIdentity(r: Row, r': Row) {
    match r
    case KnowledgeItem(_, _, archivedAt) => r'.KnowledgeItem? && (archivedAt.Some? ==> r'.archivedAt.Some?)
    case Document(_, _, archivedAt) => r'.Document? && (archivedAt.Some? ==> r'.archivedAt.Some?)
    case DocumentRevision(parent, _, _, _) => r'.DocumentRevision? && r'.parent == parent
    case Chunk(revision, document, _) => r'.Chunk? && r'.revision == revision && r'.document == document
    case _ => true
  }

  /** A link is an old one, or its document was not archived when the writer started. */
  predicate LinkAdmitted(t: Rows, t': Rows, k: RowKey)
    requires k in t' && t'[k].ProvenanceLink?
  {
    || (k in t && t[k].ProvenanceLink? && t[k].source == t'[k].source)
    || (var document := SourceDocument(t', t'[k].source);
        document.Some? && document.value in t && t[document.value].Document? ==> t[document.value].archivedAt.None?)
  }

  lemma WriteAddsNoCitation(t: Tables, t': Tables, document: RowKey, link: RowKey)
    requires Consistent(t.rows) && OutsideWrite(t, t')
    requires document in t.rows && t.rows[document].Document? && t.rows[document].archivedAt.Some?
    requires link in t'.rows && CitesDocument(t'.rows, link, document)
    ensures link in t.rows && CitesDocument(t.rows, link, document)
  {
    var a, b := t.rows, t'.rows;
    var s := b[link].source.value;
    var r := CitedRevision(b, link).value;
    assert KeysHold(b, link) && LinkAdmitted(a, b, link);
    assert KeysHold(b, s);
    assert SourceDocument(b, b[link].source) == Some(document);
    assert KeysHold(a, link);
    assert KeepsIdentity(a[s], b[s]);
    assert KeysHold(a, s);
    assert KeepsIdentity(a[r], b[r]);
  }

  /** No writer that respects the trigger can cite a queued document. */
  lemma WriteKeepsQueueSound(t: Tables, t': Tables)
    requires Consistent(t.rows) && QueueSound(t) && OutsideWrite(t, t')
    ensures QueueSound(t')
  {
    forall k | k in t'.queue && k in t'.rows && t'.rows[k].Document? ensures QueuedSoundly(t'.rows, k) {
      assert k in t.rows;
      assert KeepsIdentity(t.rows[k], t'.rows[k]);
      assert QueuedSoundly(t.rows, k);
      if DocumentCited(t'.rows, k) {
        var link :| link in t'.rows && CitesDocument(t'.rows, link, k);
        WriteAddsNoCitation(t, t', k, link);
      }
    }
  }

  // ---- runs ----

  datatype Step = Call(policy: Policy) | Write

  ghost predicate Follows(t: Tables, s: Step, t': Tables) {
    match s
    case Call(p) => t' == RetentionEffect(t, p).tables
    case Write => OutsideWrite(t, t')
  }

  ghost predicate IsRun(states: seq<Tables>, steps: seq<Step>) {
    |states| == |steps| + 1 && forall i | 0 <= i < |steps| :: Follows(states[i], steps[i], states[i + 1])
  }

  /**
   Over every interleaving of retention calls and other writers, the foreign keys hold and no queued
   document has a provenance link to any of its revisions or chunks.
   */
  lemma {:induction false} QueuedDocumentsStayUncited(states: seq<Tables>, steps: seq<Step>, i: nat)
    requires IsRun(states, steps) && i < |states|
    requires Consistent(states[0].rows) && QueueSound(states[0])
    ensures Consistent(states[i].rows) && QueueSound(states[i])
  {
    hide RetentionEffect, Consistent, QueueSound, OutsideWrite;
    if i > 0 {
      QueuedDocumentsStayUncited(states, steps, i - 1);
      var t := states[i - 1];
      assert Follows(t, steps[i - 1], states[i]);
      match steps[i - 1]
      case Call(p) =>
        RetentionConserves(t, p);
        Shrinks(t, RetentionEffect(t, p));
        RetentionQueueSound(t, p);
      case Write =>
        WriteKeepsQueueSound(t, states[i]);
        WriteIsConsistent(t, states[i]);
    }
  }

  lemma WriteIsConsistent(t: Tables, t': Tables)
    requires OutsideWrite(t, t')
    ensures Consistent(t'.rows)
  {
  }

  /**
   In every run, a call takes or changes no row of a document revision that a link reaches afterwards:
   evidence can only disappear at the hands of another writer, or after its last citation has.
   */
  lemma CitedEvidenceInRuns(states: seq<Tables>, steps: seq<Step>, i: nat)
    requires IsRun(states, steps) && i < |steps| && steps[i].Call?
    requires Consistent(states[0].rows) && QueueSound(states[0])
    ensures KeepsCited(states[i].rows, states[i + 1].rows)
  {
    hide RetentionEffect, Consistent, QueueSound, KeepsCited;
    QueuedDocumentsStayUncited(states, steps, i);
    assert Follows(states[i], steps[i], states[i + 1]);
    CitedEvidenceSurvives(states[i], steps[i].policy);
  }

  // ---- live data over any number of calls ----

  predicate CutoffAtMost(a: Option<Time>, b: Option<Time>) {
    a.Some? ==> b.Some? && a.value <= b.value
  }

  ghost function CallAll(t: Tables, ps: seq<Policy>): Tables
    decreases |ps|
  {
    if ps == [] then t else CallAll(RetentionEffect(t, ps[0]).tables, ps[1..])
  }

  lemma LiveUnderEarlierCutoff(t: Rows, x: RowKey, p: Policy, latest: Policy)
    requires CutoffAtMost(p.archivedBefore, latest.archivedBefore) && Live(t, x, latest)
    ensures Live(t, x, p)
  {
  }

  lemma ContentUnderLaterCutoff(t: Rows, t': Rows, p: Policy, latest: Policy)
    requires CutoffAtMost(p.archivedBefore, latest.archivedBefore) && KeepsContent(t, t', p)
    ensures KeepsContent(t, t', latest)
  {
    forall k | k in t' ensures k in t && SameRow(t, t', k, latest) { assert SameRow(t, t', k, p); }
  }

  lemma CallKeepsLiveUnder(t: Tables, p: Policy, latest: Policy)
    requires Consistent(t.rows) && CutoffAtMost(p.archivedBefore, latest.archivedBefore)
    ensures KeepsLive(t.rows, RetentionEffect(t, p).tables.rows, latest)
    ensures Consistent(RetentionEffect(t, p).tables.rows)
  {
    hide RetentionEffect, Live, Consistent, KeepsContent;
    var t' := RetentionEffect(t, p).tables.rows;
    RetentionConserves(t, p);
    RetentionKeepsLive(t, p);
    ContentUnderLaterCutoff(t.rows, t', p, latest);
    forall x | Live(t.rows, x, latest) ensures x in t' { LiveUnderEarlierCutoff(t.rows, x, p, latest); }
    SurvivorsStayLive(t.rows, t', latest);
  }

  /** Across any number of calls, rows that are live under the latest archive cutoff are never touched. */
  lemma {:induction false} LiveAcrossCalls(t: Tables, ps: seq<Policy>, latest: Policy)
    requires Consistent(t.rows)
    requires forall p | p in ps :: CutoffAtMost(p.archivedBefore, latest.archivedBefore)
    ensures KeepsLive(t.rows, CallAll(t, ps).rows, latest) && Consistent(CallAll(t, ps).rows)
    decreases |ps|
  {
    hide RetentionEffect, Live, Consistent, CutoffAtMost, KeepsLive;
    if ps == [] {
      KeepsLiveSelf(t.rows, latest);
    } else {
      var t1 := RetentionEffect(t, ps[0]).tables;
      CallKeepsLiveUnder(t, ps[0], latest);
      LiveAcrossCalls(t1, ps[1..], latest);
      KeepsLiveThen(t.rows, t1.rows, CallAll(t1, ps[1..]).rows, latest);
    }
  }

  /**
   In every run, a row that is live under an archive cutoff that no call goes past changes or disappears
   only when another writer changes or removes it.
   */
  lemma LiveRowsChangeOnlyAtWrites(states: seq<Tables>, steps: seq<Step>, i: nat, latest: Policy)
    requires IsRun(states, steps) && i < |steps| && steps[i].Call?
    requires CutoffAtMost(steps[i].policy.archivedBefore, latest.archivedBefore)
    requires Consistent(states[0].rows) && QueueSound(states[0])
    ensures KeepsLive(states[i].rows, states[i + 1].rows, latest)
  {
    hide RetentionEffect, Consistent, QueueSound, KeepsLive, CutoffAtMost;
    QueuedDocumentsStayUncited(states, steps, i);
    assert Follows(states[i], steps[i], states[i + 1]);
    CallKeepsLiveUnder(states[i], steps[i].policy, latest);
  }

  lemma KeepsLiveSelf(t: Rows, p: Policy)
    ensures KeepsLive(t, t, p)
  {
  }

  /** The recovery check: no dangling current pointer, and every retrieval unit has its source. */
  predicate RecoveryChecks(t: Rows) {
    && (forall k | k in t && IsRoot(t[k]) && t[k].current.Some? ::
          var r := t[k].current.value;
          r in t && (t[r].KnowledgeRevision? || t[r].DocumentRevision?) && t[r].parent == k && t[r].space == t[k].space)
    && (forall k | k in t && t[k].RetrievalUnit? ::
          var s := t[k].subject;
          s in t && (t[s].KnowledgeRevision? || t[s].Chunk?) && t[s].space == t[k].space)
  }

  /** The recovery checks pass at every point of every run. */
  lemma RecoveryChecksAlwaysPass(states: seq<Tables>, steps: seq<Step>, i: nat)
    requires IsRun(states, steps) && i < |states|
    requires Consistent(states[0].rows) && QueueSound(states[0])
    ensures RecoveryChecks(states[i].rows)
  {
    hide IsRun, QueueSound;
    QueuedDocumentsStayUncited(states, steps, i);
    var t := states[i].rows;
    forall k | k in t ensures KeysHold(t, k) {}
  }
}
