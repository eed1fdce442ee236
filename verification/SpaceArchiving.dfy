/**
 What archiving a space ends, and what outsiders can never do.  A statement that passed its policy and
 then waited for a row writes without being asked again, so both are about waiting statements too.
 */
module SpaceArchiving {
  import opened Wrappers
  import opened SpaceOwnership

  predicate Archived(db: Db, space: SpaceId) {
    space in db.spaces && db.spaces[space].archived
  }

  function SpaceOf(statement: Statement): SpaceId {
    match statement
    case InsertSpace(space, _) => space
    case UpdateSpace(space, _, _, _) => space
    case InsertMember(key, _) => key.space
    case UpdateRole(key, _) => key.space
    case DeleteMember(key) => key.space
  }

  // ---- an archived row that nobody is about to change ----

  /** A blocked transaction is not in an update of the space, or in one that sets what is there already. */
  predicate Harmless(tx: Tx, space: SpaceId, row: Space) {
    match tx.waiting
    case Some(UpdateSpace(s, name, revision, archived)) => s == space ==> Updated(row, name, revision, archived) == row
    case _ => true
  }

  ghost predicate Settled(db: Db, space: SpaceId, row: Space) {
    && row.archived && space in db.spaces && db.spaces[space] == row
    && forall t | t in db.txs ::
         (space in db.txs[t].spaces ==> db.txs[t].spaces[space] == row) && Harmless(db.txs[t], space, row)
  }

  lemma NoRoleInAnArchivedSpace(db: Db, t: TxId, actor: Actor, space: SpaceId, row: Space, accepted: set<Role>)
    requires Settled(db, space, row) && t in db.txs
    ensures SeenSpaces(db, t)[space] == row && !HasSpaceRole(db, t, actor, space, accepted)
  {
  }

  lemma NoStatementOnAnArchivedSpace(db: Db, t: TxId, actor: Actor, statement: Statement, row: Space)
    requires Settled(db, SpaceOf(statement), row) && t in db.txs
    ensures Run(db, t, actor, statement).outcome != Done
    ensures Run(db, t, actor, statement).tx.waiting in {None, db.txs[t].waiting}
  {
    hide Overlay;
    NoRoleInAnArchivedSpace(db, t, actor, SpaceOf(statement), row, {Owner});
  }

  /** A statement writes only its own space, and only if it is carried out; if it waits, that is all. */
  lemma ProceedWritesItsSpace(db: Db, t: TxId, statement: Statement)
    requires t in db.txs
    ensures var tx, reply := db.txs[t], Proceed(db, t, statement);
            && (forall k | k in reply.tx.memberships && !(reply.outcome == Done && k.space == SpaceOf(statement)) ::
                  k in tx.memberships && reply.tx.memberships[k] == tx.memberships[k])
            && (forall s | s in reply.tx.spaces && !(reply.outcome == Done && s == SpaceOf(statement)) ::
                  s in tx.spaces && reply.tx.spaces[s] == tx.spaces[s])
            && reply.tx.waiting in {None, tx.waiting, Some(statement)}
  {
    hide Overlay;
  }

  lemma ChangeWritesItsSpace(db: Db, t: TxId, actor: Actor, key: Key, write: Option<Role>)
    requires t in db.txs
    ensures var tx, reply := db.txs[t], ChangeMember(db, t, actor, key, write);
            && (forall k | k in reply.tx.memberships && !(reply.outcome == Done && k.space == key.space) ::
                  k in tx.memberships && reply.tx.memberships[k] == tx.memberships[k])
            && reply.tx.spaces == tx.spaces && reply.tx.waiting == tx.waiting
  {
    hide Overlay, MayChange;
  }

  lemma StatementWritesItsSpace(db: Db, t: TxId, actor: Actor, statement: Statement)
    requires t in db.txs
    ensures var tx, reply := db.txs[t], Run(db, t, actor, statement);
            && (forall k | k in reply.tx.memberships && !(reply.outcome == Done && k.space == SpaceOf(statement)) ::
                  k in tx.memberships && reply.tx.memberships[k] == tx.memberships[k])
            && (forall s | s in reply.tx.spaces && !(reply.outcome == Done && s == SpaceOf(statement)) ::
                  s in tx.spaces && reply.tx.spaces[s] == tx.spaces[s])
            && reply.tx.waiting in {None, tx.waiting, Some(statement)}
  {
    hide Permitted, Proceed, ChangeMember;
    ProceedWritesItsSpace(db, t, statement);
    if statement.UpdateRole? || statement.DeleteMember? {
      ChangeWritesItsSpace(db, t, actor, statement.key, if statement.UpdateRole? then Some(statement.role) else None);
    }
  }

  /** One transaction moves, without touching the row. */
  lemma TxKeepsSettled(db: Db, t: TxId, tx: Tx, space: SpaceId, row: Space)
    requires Settled(db, space, row)
    requires (space in tx.spaces ==> tx.spaces[space] == row) && Harmless(tx, space, row)
    ensures Settled(Put(db, t, tx), space, row)
  {
  }

  lemma StatementKeepsSettled(db: Db, t: TxId, actor: Actor, statement: Statement, space: SpaceId, row: Space)
    requires Settled(db, space, row) && t in db.txs
    ensures Settled(Put(db, t, Run(db, t, actor, statement).tx), space, row)
  {
    hide Run, Overlay;
    StatementWritesItsSpace(db, t, actor, statement);
    if SpaceOf(statement) == space { NoStatementOnAnArchivedSpace(db, t, actor, statement, row); }
    TxKeepsSettled(db, t, Run(db, t, actor, statement).tx, space, row);
  }

  lemma ResumeKeepsSettled(db: Db, t: TxId, space: SpaceId, row: Space)
    requires Settled(db, space, row) && Blocked(db, t)
    ensures Settled(Apply(db, Resume(t)), space, row)
  {
    hide Overlay;
    var statement := db.txs[t].waiting.value;
    ProceedWritesItsSpace(db, t, statement);
    TxKeepsSettled(db, t, Proceed(db, t, statement).tx, space, row);
  }

  lemma StepKeepsSettled(db: Db, e: Event, space: SpaceId, row: Space)
    requires Settled(db, space, row)
    ensures Settled(Apply(db, e), space, row)
  {
    hide Run, Proceed, Overlay;
    if e.Execute? && Idle(db, e.t) {
      StatementKeepsSettled(db, e.t, e.actor, e.statement, space, row);
    } else if e.Resume? && Blocked(db, e.t) {
      ResumeKeepsSettled(db, e.t, space, row);
    }
  }

  // ---- the memberships of an archived space ----

  /** A committed membership that nobody has an uncommitted version of. */
  ghost predicate Fixed(db: Db, key: Key, role: Role) {
    && key in db.memberships && db.memberships[key] == role
    && forall t | t in db.txs :: key !in db.txs[t].memberships
  }

  lemma StepKeepsFixed(db: Db, e: Event, key: Key, role: Role, row: Space)
    requires Settled(db, key.space, row) && Fixed(db, key, role)
    ensures Fixed(Apply(db, e), key, role)
  {
    hide Run, Proceed;
    if e.Execute? && Idle(db, e.t) {
      StatementWritesItsSpace(db, e.t, e.actor, e.statement);
      if SpaceOf(e.statement) == key.space { NoStatementOnAnArchivedSpace(db, e.t, e.actor, e.statement, row); }
    } else if e.Resume? && Blocked(db, e.t) {
      ResumeKeepsFixed(db, e.t, key, role);
    }
  }

  lemma ResumeKeepsFixed(db: Db, t: TxId, key: Key, role: Role)
    requires Fixed(db, key, role) && Blocked(db, t)
    ensures Fixed(Apply(db, Resume(t)), key, role)
  {
    assert key in Seen(db, t);
    hide Overlay;
  }

  lemma {:induction false} RunKeepsFixed(db: Db, run: seq<Event>, key: Key, role: Role, row: Space)
    requires Settled(db, key.space, row) && Fixed(db, key, role)
    ensures Fixed(After(db, run), key, role)
    decreases |run|
  {
    hide Settled, Fixed, Apply;
    if run != [] {
      StepKeepsSettled(db, run[0], key.space, row);
      StepKeepsFixed(db, run[0], key, role, row);
      RunKeepsFixed(Apply(db, run[0]), run[1..], key, role, row);
    }
  }

  function Version(rows: map<Key, Role>, key: Key): Option<Role> {
    if key in rows then Some(rows[key]) else None
  }

  /** The transaction has written this version of the membership, or waits to insert it. */
  predicate WouldWrite(tx: Tx, key: Key, version: Option<Role>) {
    || (key in tx.memberships && tx.memberships[key] == version)
    || (version.Some? && tx.waiting == Some(InsertMember(key, version.value)))
  }

  predicate WaitsToInsert(tx: Tx, space: SpaceId) {
    tx.waiting.Some? && tx.waiting.value.InsertMember? && tx.waiting.value.key.space == space
  }

  /** Nothing of the space has moved from `db` to `r` but by writes that were pending or waiting in `db`. */
  ghost predicate Frozen(db: Db, r: Db, space: SpaceId) {
    && space in db.spaces && space in r.spaces && r.spaces[space] == db.spaces[space]
    && (forall t, k | t in r.txs && k in r.txs[t].memberships && k.space == space ::
          t in db.txs && WouldWrite(db.txs[t], k, r.txs[t].memberships[k]))
    && (forall t | t in r.txs && WaitsToInsert(r.txs[t], space) :: t in db.txs && db.txs[t].waiting == r.txs[t].waiting)
    && (forall k: Key | k.space == space && Version(r.memberships, k) != Version(db.memberships, k) ::
          exists t :: t in db.txs && WouldWrite(db.txs[t], k, Version(r.memberships, k)))
  }

  lemma CommitFreezes(db: Db, t: TxId, space: SpaceId, row: Space)
    requires Settled(db, space, row) && Idle(db, t)
    ensures Frozen(db, Apply(db, Commit(t)), space)
  {
    var r := Apply(db, Commit(t));
    forall k: Key | k.space == space && Version(r.memberships, k) != Version(db.memberships, k)
      ensures exists u :: u in db.txs && WouldWrite(db.txs[u], k, Version(r.memberships, k))
    {
      assert WouldWrite(db.txs[t], k, Version(r.memberships, k));
    }
  }

  lemma StatementFreezes(db: Db, t: TxId, actor: Actor, statement: Statement, space: SpaceId, row: Space)
    requires Settled(db, space, row) && Idle(db, t)
    ensures Frozen(db, Put(db, t, Run(db, t, actor, statement).tx), space)
  {
    hide Run;
    StatementWritesItsSpace(db, t, actor, statement);
    if SpaceOf(statement) == space { NoStatementOnAnArchivedSpace(db, t, actor, statement, row); }
  }

  lemma ResumeFreezes(db: Db, t: TxId, space: SpaceId, row: Space)
    requires Settled(db, space, row) && Blocked(db, t)
    ensures Frozen(db, Apply(db, Resume(t)), space)
  {
    hide Overlay;
    var statement := db.txs[t].waiting.value;
    ProceedWritesItsSpace(db, t, statement);
  }

  lemma FrozenStep(db: Db, e: Event, space: SpaceId, row: Space)
    requires Settled(db, space, row)
    ensures Frozen(db, Apply(db, e), space)
  {
    hide Run, Proceed, Overlay;
    if e.Execute? && Idle(db, e.t) {
      StatementFreezes(db, e.t, e.actor, e.statement, space, row);
    } else if e.Commit? && Idle(db, e.t) {
      CommitFreezes(db, e.t, space, row);
    } else if e.Resume? && Blocked(db, e.t) {
      ResumeFreezes(db, e.t, space, row);
    }
  }

  lemma WouldWriteBefore(a: Db, b: Db, space: SpaceId, t: TxId, k: Key, version: Option<Role>)
    requires Frozen(a, b, space) && k.space == space && t in b.txs && WouldWrite(b.txs[t], k, version)
    ensures t in a.txs && WouldWrite(a.txs[t], k, version)
  {
    if !(k in b.txs[t].memberships && b.txs[t].memberships[k] == version) {
      assert WaitsToInsert(b.txs[t], space);
    }
  }

  lemma FrozenTwice(a: Db, b: Db, c: Db, space: SpaceId)
    requires Frozen(a, b, space) && Frozen(b, c, space)
    ensures Frozen(a, c, space)
  {
    hide WouldWrite;
    forall t, k | t in c.txs && k in c.txs[t].memberships && k.space == space
      ensures t in a.txs && WouldWrite(a.txs[t], k, c.txs[t].memberships[k])
    {
      WouldWriteBefore(a, b, space, t, k, c.txs[t].memberships[k]);
    }
    forall t | t in c.txs && WaitsToInsert(c.txs[t], space) ensures t in a.txs && a.txs[t].waiting == c.txs[t].waiting {
      assert WaitsToInsert(b.txs[t], space);
    }
    forall k: Key | k.space == space && Version(c.memberships, k) != Version(a.memberships, k)
      ensures exists t :: t in a.txs && WouldWrite(a.txs[t], k, Version(c.memberships, k))
    {
      if Version(c.memberships, k) != Version(b.memberships, k) {
        var t :| t in b.txs && WouldWrite(b.txs[t], k, Version(c.memberships, k));
        WouldWriteBefore(a, b, space, t, k, Version(c.memberships, k));
      }
    }
  }

  /**
   From any state where the space is archived and no update of it waits, no run changes its row, and its
   memberships only change by writes that were already pending or waiting.
   */
  lemma {:induction false} ArchivedStaysFrozen(db: Db, run: seq<Event>, space: SpaceId, row: Space)
    requires Settled(db, space, row)
    ensures Settled(After(db, run), space, row) && Frozen(db, After(db, run), space)
    decreases |run|
  {
    if run == [] {
      assert Frozen(db, db, space);
    } else {
      hide Settled, Apply, Frozen;
      var next := Apply(db, run[0]);
      StepKeepsSettled(db, run[0], space, row);
      FrozenStep(db, run[0], space, row);
      ArchivedStaysFrozen(next, run[1..], space, row);
      FrozenTwice(db, next, After(db, run), space);
    }
  }

  // ---- the commit that archives ----

  /** Only the committing transaction had written the space's row. */
  lemma CommitSettles(db: Db, t: TxId, space: SpaceId)
    requires LocksHold(db) && Idle(db, t) && !Archived(db, space) && Archived(Apply(db, Commit(t)), space)
    requires forall u | u in db.txs && u != t :: Harmless(db.txs[u], space, Apply(db, Commit(t)).spaces[space])
    ensures Settled(Apply(db, Commit(t)), space, Apply(db, Commit(t)).spaces[space])
  {
    var r := Apply(db, Commit(t));
    assert space in db.txs[t].spaces && space in db.txs[t].locks;
    forall u | u in r.txs ensures space !in r.txs[u].spaces {
      assert db.txs[u].locks !! db.txs[t].locks;
    }
  }

  /** Once the writer of a space commits, nobody has an uncommitted change to a membership the space has. */
  lemma CommitterHeldTheSpace(db: Db, t: TxId, key: Key)
    requires LocksHold(db) && Idle(db, t) && key.space in db.txs[t].spaces && key in Apply(db, Commit(t)).memberships
    ensures Fixed(Apply(db, Commit(t)), key, Apply(db, Commit(t)).memberships[key])
  {
    var r := Apply(db, Commit(t));
    forall u | u in r.txs ensures key !in r.txs[u].memberships {
      assert key.space in db.txs[t].locks && key.space !in db.txs[u].locks;
      assert db.txs[u].memberships.Keys !! db.txs[t].memberships.Keys;
    }
  }

  lemma ReachableLocks(start: Db, run: seq<Event>)
    requires start.txs == map[] && Owned(start.memberships)
    ensures LocksHold(After(start, run))
  {
    RunKeepsOwners(start, run);
  }

  /**
   In every interleaving: once a commit archives a space while no other update of its row is waiting, no
   later run changes its row, changes or removes a membership it had, passes a role check on it or
   carries out a statement on it.
   */
  lemma ArchivingIsFinal(start: Db, before: seq<Event>, t: TxId, run: seq<Event>, space: SpaceId)
    requires start.txs == map[] && Owned(start.memberships)
    requires Idle(After(start, before), t) && !Archived(After(start, before), space)
    requires Archived(Apply(After(start, before), Commit(t)), space)
    requires forall u | u in After(start, before).txs && u != t ::
               Harmless(After(start, before).txs[u], space, Apply(After(start, before), Commit(t)).spaces[space])
    ensures var archived := Apply(After(start, before), Commit(t)); var r := After(archived, run);
            && space in r.spaces && r.spaces[space] == archived.spaces[space]
            && (forall k | k in archived.memberships && k.space == space ::
                  k in r.memberships && r.memberships[k] == archived.memberships[k])
            && (forall u, actor, accepted | u in r.txs :: !HasSpaceRole(r, u, actor, space, accepted))
            && (forall u, actor, statement | u in r.txs && SpaceOf(statement) == space ::
                  Run(r, u, actor, statement).outcome != Done)
  {
    var db := After(start, before);
    ReachableLocks(start, before);
    hide Run, HasSpaceRole, Overlay, LocksHold, After;
    CommitSettles(db, t, space);
    WriterOfTheRow(db, t, space);
    var archived := Apply(db, Commit(t));
    var row := archived.spaces[space];
    ArchivedStaysFrozen(archived, run, space, row);
    var r := After(archived, run);
    assert Settled(r, space, row);
    hide Settled, Apply;
    forall k | k in archived.memberships && k.space == space
      ensures k in r.memberships && r.memberships[k] == archived.memberships[k]
    {
      CommitterHeldTheSpace(db, t, k);
      RunKeepsFixed(archived, run, k, archived.memberships[k], row);
    }
    forall u, actor, accepted | u in r.txs ensures !HasSpaceRole(r, u, actor, space, accepted) {
      NoRoleInAnArchivedSpace(r, u, actor, space, row, accepted);
    }
    forall u, actor, statement | u in r.txs && SpaceOf(statement) == space
      ensures Run(r, u, actor, statement).outcome != Done
    {
      NoStatementOnAnArchivedSpace(r, u, actor, statement, row);
    }
    SettledRow(r, space, row);
  }

  lemma SettledRow(db: Db, space: SpaceId, row: Space)
    requires Settled(db, space, row)
    ensures space in db.spaces && db.spaces[space] == row
  {
  }

  lemma WriterOfTheRow(db: Db, t: TxId, space: SpaceId)
    requires Idle(db, t) && !Archived(db, space) && Archived(Apply(db, Commit(t)), space)
    ensures space in db.txs[t].spaces
  {
  }

  /**
   The condition is exact: an update that waited when the commit archived the space, and sets anything
   else, can still resume and commit, and may even take the space out of the archive.
   */
  lemma AWaitingUpdateStillWrites(start: Db, before: seq<Event>, t: TxId, u: TxId, space: SpaceId)
    requires start.txs == map[] && Owned(start.memberships)
    requires Idle(After(start, before), t) && !Archived(After(start, before), space)
    requires Archived(Apply(After(start, before), Commit(t)), space)
    requires u in After(start, before).txs && u != t
    requires !Harmless(After(start, before).txs[u], space, Apply(After(start, before), Commit(t)).spaces[space])
    ensures var archived := Apply(After(start, before), Commit(t));
            var w, r := archived.txs[u].waiting.value, After(archived, [Resume(u), Commit(u)]);
            && space in r.spaces && r.spaces[space] != archived.spaces[space]
            && r.spaces[space] == Updated(archived.spaces[space], w.name, w.revision, w.archived)
  {
    var db := After(start, before);
    ReachableLocks(start, before);
    WriterOfTheRow(db, t, space);
    var archived := Apply(db, Commit(t));
    assert space in db.txs[t].locks && space !in archived.txs[u].spaces;
    assert Free(archived, u, space);
    hide LocksHold, Owned;
    FreedUpdateWrites(archived, u, space);
  }

  /** An update that waits for a row that is free now can resume and commit. */
  lemma FreedUpdateWrites(db: Db, u: TxId, space: SpaceId)
    requires Blocked(db, u) && db.txs[u].waiting.value.UpdateSpace? && db.txs[u].waiting.value.space == space
    requires space in db.spaces && space !in db.txs[u].spaces && Free(db, u, space)
    ensures var w, r := db.txs[u].waiting.value, After(db, [Resume(u), Commit(u)]);
            space in r.spaces && r.spaces[space] == Updated(db.spaces[space], w.name, w.revision, w.archived)
  {
    hide Overlay;
    var resumed := Apply(db, Resume(u));
    var r := Apply(resumed, Commit(u));
    var w := db.txs[u].waiting.value;
    assert space in r.spaces && r.spaces[space] == Updated(db.spaces[space], w.name, w.revision, w.archived);
    hide Apply;
    assert After(r, []) == r;
    assert After(resumed, [Commit(u)]) == r;
    assert After(db, [Resume(u), Commit(u)]) == r;
  }

  // ---- outsiders ----

  /** Neither an owner of the space nor its creator, or not acting with full rights at all. */
  predicate Outsider(db: Db, actor: Actor, space: SpaceId)
    requires space in db.spaces
  {
    || actor.restricted || actor.principal.None?
    || (db.spaces[space].createdBy != actor.principal &&
        Key(space, actor.principal.value) !in OwnersOf(db.memberships, space))
  }

  predicate AwayFrom(tx: Tx, space: SpaceId) {
    && space !in tx.spaces && (forall k | k in tx.memberships :: k.space != space)
    && (tx.waiting.Some? ==> SpaceOf(tx.waiting.value) != space)
  }

  /** Nothing of the space has changed since `start`, and nobody is about to change it. */
  ghost predicate AsBefore(start: Db, db: Db, space: SpaceId) {
    && space in start.spaces && space in db.spaces && db.spaces[space] == start.spaces[space]
    && (forall k: Key | k.space == space :: Version(db.memberships, k) == Version(start.memberships, k))
    && (forall t | t in db.txs :: AwayFrom(db.txs[t], space))
  }

  lemma OutsiderIsRefused(start: Db, db: Db, t: TxId, actor: Actor, statement: Statement)
    requires AsBefore(start, db, SpaceOf(statement)) && Outsider(start, actor, SpaceOf(statement)) && t in db.txs
    ensures Run(db, t, actor, statement).outcome != Done
    ensures Run(db, t, actor, statement).tx.waiting in {None, db.txs[t].waiting}
  {
    if actor.principal.Some? {
      var mine := Key(SpaceOf(statement), actor.principal.value);
      assert Version(Seen(db, t), mine) == Version(db.memberships, mine) == Version(start.memberships, mine);
      hide Overlay;
      assert !HasSpaceRole(db, t, actor, SpaceOf(statement), {Owner});
    }
  }

  lemma OutsiderStep(start: Db, db: Db, e: Event, space: SpaceId)
    requires AsBefore(start, db, space) && (e.Execute? ==> Outsider(start, e.actor, space))
    ensures AsBefore(start, Apply(db, e), space)
  {
    hide Run, Proceed;
    if e.Execute? && Idle(db, e.t) {
      StatementWritesItsSpace(db, e.t, e.actor, e.statement);
      if SpaceOf(e.statement) == space { OutsiderIsRefused(start, db, e.t, e.actor, e.statement); }
    } else if e.Resume? && Blocked(db, e.t) {
      ProceedWritesItsSpace(db, e.t, db.txs[e.t].waiting.value);
    }
  }

  /** In no run whose statements all come from outsiders does the space's row or any membership of it change. */
  lemma {:induction false} OutsidersChangeNothing(start: Db, db: Db, run: seq<Event>, space: SpaceId)
    requires AsBefore(start, db, space)
    requires forall e | e in run && e.Execute? :: Outsider(start, e.actor, space)
    ensures AsBefore(start, After(db, run), space)
    decreases |run|
  {
    hide AsBefore, Apply;
    if run != [] {
      assert run[0] in run;
      OutsiderStep(start, db, run[0], space);
      OutsidersChangeNothing(start, Apply(db, run[0]), run[1..], space);
    }
  }
}
