/**
 Spaces and their owners under the row-level policies: transactions that check and then write one
 row at a time, with the workspace row as the lock.
 */
module SpaceOwnership {
  import opened Wrappers

  type SpaceId = nat
  type MemberId = nat
  type TxId = nat

  datatype Role = Owner | Editor | Reader
  datatype Key = Key(space: SpaceId, member: MemberId)
  datatype Space = Space(createdBy: Option<MemberId>, name: string, revision: int, archived: bool)

  /** The app.principal_id and app.principal_restricted settings a statement runs under. */
  datatype Actor = Actor(principal: Option<MemberId>, restricted: bool)

  /**
   What a transaction has written and not yet committed (None is a deleted row), the rows it locked, and
   the statement it is blocked in, which passed its policy before it had to wait.
   */
  datatype Tx = Tx(memberships: map<Key, Option<Role>>, spaces: map<SpaceId, Space>, locks: set<SpaceId>,
                   waiting: Option<Statement>)

  datatype Db = Db(active: set<MemberId>, spaces: map<SpaceId, Space>, memberships: map<Key, Role>, txs: map<TxId, Tx>)

  datatype Statement =
    | InsertSpace(space: SpaceId, row: Space)
    | UpdateSpace(space: SpaceId, name: string, revision: int, archived: bool)
    | InsertMember(key: Key, role: Role)
    | UpdateRole(key: Key, role: Role)
    | DeleteMember(key: Key)

  datatype Outcome = Done | Refused | Waits
  datatype Reply = Reply(tx: Tx, outcome: Outcome)

  datatype Event =
    | Begin(t: TxId)
    | Execute(t: TxId, actor: Actor, statement: Statement)
    | Resume(t: TxId)
    | Commit(t: TxId)
    | Rollback(t: TxId)
    | SetActive(member: MemberId, active: bool)

  // ---- what a statement sees: committed rows and its own transaction's writes ----

  function Overlay(rows: map<Key, Role>, writes: map<Key, Option<Role>>): map<Key, Role> {
    map k | k in rows.Keys + writes.Keys && (k in writes ==> writes[k].Some?) ::
      if k in writes then writes[k].value else rows[k]
  }

  function Seen(db: Db, t: TxId): map<Key, Role>
    requires t in db.txs
  {
    Overlay(db.memberships, db.txs[t].memberships)
  }

  function SeenSpaces(db: Db, t: TxId): map<SpaceId, Space>
    requires t in db.txs
  {
    db.spaces + db.txs[t].spaces
  }

  // ---- the policy functions ----

  predicate ActorActive(db: Db, actor: Actor) {
    actor.principal.Some? && actor.principal.value in db.active && !actor.restricted
  }

  predicate HasSpaceRole(db: Db, t: TxId, actor: Actor, space: SpaceId, accepted: set<Role>)
    requires t in db.txs
  {
    && ActorActive(db, actor)
    && Key(space, actor.principal.value) in Seen(db, t)
    && Seen(db, t)[Key(space, actor.principal.value)] in accepted
    && space in SeenSpaces(db, t) && !SeenSpaces(db, t)[space].archived
  }

  predicate IsInitialOwner(db: Db, t: TxId, actor: Actor, space: SpaceId, member: MemberId)
    requires t in db.txs
  {
    && space in SeenSpaces(db, t) && !SeenSpaces(db, t)[space].archived
    && SeenSpaces(db, t)[space].createdBy == Some(member)
    && actor.principal == Some(member) && ActorActive(db, actor)
    && !Populated(Seen(db, t), space)
  }

  predicate Populated(rows: map<Key, Role>, space: SpaceId) {
    exists k :: k in rows && k.space == space
  }

  function OwnersOf(rows: map<Key, Role>, space: SpaceId): set<Key> {
    set k | k in rows && k.space == space && rows[k] == Owner
  }

  /** What gateway_can_change_membership returns once it holds the workspace row. */
  predicate MayChange(db: Db, t: TxId, actor: Actor, space: SpaceId, targetRole: Role)
    requires t in db.txs
  {
    HasSpaceRole(db, t, actor, space, {Owner}) && (targetRole != Owner || |OwnersOf(Seen(db, t), space)| > 1)
  }

  // ---- locks ----

  /** No other transaction holds the workspace row. */
  predicate Free(db: Db, t: TxId, space: SpaceId) {
    forall u | u in db.txs && u != t :: space !in db.txs[u].locks
  }

  /** No other transaction has an uncommitted version of the membership row. */
  predicate Untouched(db: Db, t: TxId, key: Key) {
    forall u | u in db.txs && u != t :: key !in db.txs[u].memberships
  }

  /** The transaction once it holds the workspace row, if there is one. */
  function Locked(db: Db, t: TxId, space: SpaceId): Tx
    requires t in db.txs
  {
    var tx := db.txs[t];
    if space in SeenSpaces(db, t) then tx.(locks := tx.locks + {space}) else tx
  }

  // ---- statements: what each leaves its own transaction with ----

  /** An update or delete of one membership row; `write` is its new version. */
  function ChangeMember(db: Db, t: TxId, actor: Actor, key: Key, write: Option<Role>): Reply
    requires t in db.txs
  {
    if key !in Seen(db, t) then Reply(db.txs[t], Refused)
    else if !Free(db, t, key.space) || !Untouched(db, t, key) then Reply(db.txs[t], Waits)
    else
      var held := Locked(db, t, key.space);
      if MayChange(db, t, actor, key.space, Seen(db, t)[key])
      then Reply(held.(memberships := held.memberships[key := write]), Done)
      else Reply(held, Refused)
  }

  function MemberInserted(tx: Tx, key: Key, role: Role): Tx {
    tx.(memberships := tx.memberships[key := Some(role)], waiting := None)
  }

  function SpaceWritten(tx: Tx, space: SpaceId, row: Space): Tx {
    tx.(spaces := tx.spaces[space := row], locks := tx.locks + {space}, waiting := None)
  }

  /** The columns that an update may set; the others stay those of the newest version. */
  function Updated(row: Space, name: string, revision: int, archived: bool): Space {
    row.(name := name, revision := revision, archived := archived)
  }

  /** The policy of a statement other than a change of a membership, under what it sees when it begins. */
  predicate Permitted(db: Db, t: TxId, actor: Actor, statement: Statement)
    requires t in db.txs
  {
    match statement
    case InsertSpace(space, row) => row.createdBy == actor.principal && ActorActive(db, actor)
    case UpdateSpace(space, _, _, _) => HasSpaceRole(db, t, actor, space, {Owner})
    case InsertMember(key, role) =>
      || HasSpaceRole(db, t, actor, key.space, {Owner})
      || (role == Owner && IsInitialOwner(db, t, actor, key.space, key.member))
    case _ => false
  }

  /** What such a statement does once its policy has passed: it may have to wait before it can write. */
  function Proceed(db: Db, t: TxId, statement: Statement): Reply
    requires t in db.txs
  {
    var tx := db.txs[t];
    match statement
    case InsertSpace(space, row) =>
      if space in SeenSpaces(db, t) then Reply(tx.(waiting := None), Refused)
      else if !Free(db, t, space) then Reply(tx.(waiting := Some(statement)), Waits)
      else Reply(SpaceWritten(tx, space, row), Done)
    case UpdateSpace(space, name, revision, archived) =>
      if !Free(db, t, space) then Reply(tx.(waiting := Some(statement)), Waits)
      else if space !in SeenSpaces(db, t) then Reply(tx.(waiting := None), Refused)
      else Reply(SpaceWritten(tx, space, Updated(SeenSpaces(db, t)[space], name, revision, archived)), Done)
    case InsertMember(key, role) =>
      if !Untouched(db, t, key) then Reply(tx.(waiting := Some(statement)), Waits)
      else if key in Seen(db, t) then Reply(tx.(waiting := None), Refused)
      else Reply(MemberInserted(tx, key, role), Done)
    case _ => Reply(tx, Refused)
  }

  function Run(db: Db, t: TxId, actor: Actor, statement: Statement): Reply
    requires t in db.txs
  {
    match statement
    case UpdateRole(key, role) => ChangeMember(db, t, actor, key, Some(role))
    case DeleteMember(key) => ChangeMember(db, t, actor, key, None)
    case _ => if Permitted(db, t, actor, statement) then Proceed(db, t, statement) else Reply(db.txs[t], Refused)
  }

  function Put(db: Db, t: TxId, tx: Tx): Db {
    db.(txs := db.txs[t := tx])
  }

  predicate Idle(db: Db, t: TxId) { t in db.txs && db.txs[t].waiting.None? }

  predicate Blocked(db: Db, t: TxId) { t in db.txs && db.txs[t].waiting.Some? }

  /** A blocked transaction issues nothing and cannot commit; when it resumes, its policy is not asked again. */
  function Apply(db: Db, e: Event): Db {
    match e
    case Begin(t) => if t in db.txs then db else Put(db, t, Tx(map[], map[], {}, None))
    case Execute(t, actor, statement) => if Idle(db, t) then Put(db, t, Run(db, t, actor, statement).tx) else db
    case Resume(t) => if Blocked(db, t) then Put(db, t, Proceed(db, t, db.txs[t].waiting.value).tx) else db
    case Commit(t) =>
      if !Idle(db, t) then db
      else Db(db.active, SeenSpaces(db, t), Seen(db, t), db.txs - {t})
    case Rollback(t) => db.(txs := db.txs - {t})
    case SetActive(member, active) =>
      db.(active := if active then db.active + {member} else db.active - {member})
  }

  /** A run: any events of any transactions, interleaved in any order. */
  function After(db: Db, run: seq<Event>): Db
    decreases |run|
  {
    if run == [] then db else After(Apply(db, run[0]), run[1..])
  }

  // ---- the last owner ----

  predicate HasOwner(rows: map<Key, Role>, space: SpaceId) {
    exists k :: k in rows && k.space == space && rows[k] == Owner
  }

  ghost predicate Owned(rows: map<Key, Role>) {
    forall s: SpaceId | Populated(rows, s) :: HasOwner(rows, s)
  }

  /** No two transactions hold one row, and an existing membership is only written under its workspace's lock. */
  ghost predicate LocksHold(db: Db) {
    && (forall t, u | t in db.txs && u in db.txs && t != u ::
          db.txs[t].locks !! db.txs[u].locks && db.txs[t].memberships.Keys !! db.txs[u].memberships.Keys)
    && (forall t, k | t in db.txs && k in db.txs[t].memberships && k in db.memberships :: k.space in db.txs[t].locks)
    && (forall t, s | t in db.txs && s in db.txs[t].spaces :: s in db.txs[t].locks)
  }

  ghost predicate ViewOwned(db: Db, t: TxId)
    requires t in db.txs
  {
    forall s: SpaceId | Populated(db.memberships, s) || Populated(Seen(db, t), s) :: HasOwner(Seen(db, t), s)
  }

  /** A membership insertion that waits will find its space populated, or brings an owner. */
  ghost predicate WaiterOk(db: Db, t: TxId)
    requires t in db.txs
  {
    match db.txs[t].waiting
    case Some(InsertMember(key, role)) => role == Owner || Populated(Seen(db, t), key.space)
    case _ => true
  }

  /** Committed rows are owned, and stay owned whichever open transaction commits next. */
  ghost predicate OwnersSafe(db: Db) {
    && LocksHold(db) && Owned(db.memberships)
    && forall t | t in db.txs :: ViewOwned(db, t) && WaiterOk(db, t)
  }

  /** Writing one row keeps every space owned, if the row's own space has an owner afterwards. */
  lemma OneRowKeepsOwners(rows: map<Key, Role>, writes: map<Key, Option<Role>>, key: Key, write: Option<Role>,
      other: Key)
    requires other in Overlay(rows, writes[key := write]) && Overlay(rows, writes[key := write])[other] == Owner
    requires other.space == key.space
    requires forall s: SpaceId | Populated(rows, s) || Populated(Overlay(rows, writes), s) ::
        HasOwner(Overlay(rows, writes), s)
    ensures forall s: SpaceId | Populated(rows, s) || Populated(Overlay(rows, writes[key := write]), s) ::
              HasOwner(Overlay(rows, writes[key := write]), s)
  {
    var before, after := Overlay(rows, writes), Overlay(rows, writes[key := write]);
    forall s: SpaceId | Populated(rows, s) || Populated(after, s) ensures HasOwner(after, s) {
      if s == key.space {
        assert other in after && after[other] == Owner;
      } else {
        if Populated(after, s) {
          var k :| k in after && k.space == s;
          assert k in before;
        }
        var o :| o in before && o.space == s && before[o] == Owner;
        assert o in after && after[o] == Owner;
      }
    }
  }

  lemma AtMostOne(owners: set<Key>, key: Key)
    requires owners <= {key}
    ensures |owners| <= 1
  {
    if owners != {} { assert owners == {key}; }
  }

  lemma TwoOwners(rows: map<Key, Role>, key: Key) returns (other: Key)
    requires |OwnersOf(rows, key.space)| > 1
    ensures other in rows && other.space == key.space && rows[other] == Owner && other != key
  {
    var owners := OwnersOf(rows, key.space);
    if owners <= {key} { AtMostOne(owners, key); }
    other :| other in owners && other != key;
  }

  lemma OverlayOne(rows: map<Key, Role>, writes: map<Key, Option<Role>>, key: Key, role: Role)
    ensures Overlay(rows, writes[key := Some(role)]) == Overlay(rows, writes)[key := role]
  {
  }

  /** What a transaction may add to its writes and locks. */
  ghost predicate Allowed(db: Db, t: TxId, tx: Tx)
    requires t in db.txs
  {
    && (forall s | s in tx.locks :: s in db.txs[t].locks || Free(db, t, s))
    && (forall k | k in tx.memberships :: k in db.txs[t].memberships || Untouched(db, t, k))
    && (forall k | k in tx.memberships && k in db.memberships :: k.space in tx.locks)
    && (forall s | s in tx.spaces :: s in tx.locks)
  }

  lemma AllowedKeepsLocks(db: Db, t: TxId, tx: Tx)
    requires LocksHold(db) && t in db.txs && Allowed(db, t, tx)
    ensures LocksHold(Put(db, t, tx))
  {
    hide Overlay;
  }

  /** Allowed writes that leave the writer's own view owned leave everything owned. */
  lemma AllowedKeepsOwners(db: Db, t: TxId, tx: Tx)
    requires OwnersSafe(db) && t in db.txs && Allowed(db, t, tx)
    requires tx.memberships == db.txs[t].memberships || ViewOwned(Put(db, t, tx), t)
    requires WaiterOk(Put(db, t, tx), t)
    ensures OwnersSafe(Put(db, t, tx))
  {
    hide Overlay, HasOwner, Populated;
    var r := Put(db, t, tx);
    AllowedKeepsLocks(db, t, tx);
    hide LocksHold, Allowed;
    forall u | u in r.txs && (u != t || tx.memberships == db.txs[t].memberships) ensures ViewOwned(r, u) {
      assert ViewOwned(db, u) && Seen(r, u) == Seen(db, u);
    }
    forall u | u in r.txs && u != t ensures WaiterOk(r, u) {
      assert WaiterOk(db, u) && Seen(r, u) == Seen(db, u);
    }
  }

  lemma WriteKeepsOwners(db: Db, t: TxId, tx: Tx, key: Key, write: Option<Role>, other: Key)
    requires OwnersSafe(db) && t in db.txs && Allowed(db, t, tx)
    requires tx.memberships == db.txs[t].memberships[key := write] && other.space == key.space && tx.waiting.None?
    requires other in Overlay(db.memberships, tx.memberships) && Overlay(db.memberships, tx.memberships)[other] == Owner
    ensures OwnersSafe(Put(db, t, tx))
  {
    hide Overlay, Allowed, LocksHold;
    assert ViewOwned(db, t);
    OneRowKeepsOwners(db.memberships, db.txs[t].memberships, key, write, other);
    var r := Put(db, t, tx);
    assert Seen(r, t) == Overlay(db.memberships, tx.memberships);
    AllowedKeepsOwners(db, t, tx);
  }

  /** An owner of the space that writing the row leaves in place. */
  lemma OtherOwner(db: Db, t: TxId, actor: Actor, key: Key, write: Option<Role>) returns (other: Key)
    requires t in db.txs && key in Seen(db, t) && MayChange(db, t, actor, key.space, Seen(db, t)[key])
    ensures var writes := db.txs[t].memberships[key := write];
            && other.space == key.space && other in Overlay(db.memberships, writes)
            && Overlay(db.memberships, writes)[other] == Owner
  {
    other := Key(key.space, actor.principal.value);
    if Seen(db, t)[key] == Owner { other := TwoOwners(Seen(db, t), key); }
  }

  lemma ChangeIsAllowed(db: Db, t: TxId, actor: Actor, key: Key, write: Option<Role>)
    requires LocksHold(db) && t in db.txs
    ensures Allowed(db, t, ChangeMember(db, t, actor, key, write).tx)
  {
    hide Overlay, OwnersOf;
  }

  lemma ChangeKeepsOwners(db: Db, t: TxId, actor: Actor, key: Key, write: Option<Role>)
    requires OwnersSafe(db) && Idle(db, t)
    ensures OwnersSafe(Put(db, t, ChangeMember(db, t, actor, key, write).tx))
  {
    hide HasOwner, Populated, Overlay, Allowed, LocksHold, MayChange;
    var reply := ChangeMember(db, t, actor, key, write);
    ChangeIsAllowed(db, t, actor, key, write);
    if reply.outcome == Done {
      var other := OtherOwner(db, t, actor, key, write);
      WriteKeepsOwners(db, t, reply.tx, key, write, other);
    } else {
      AllowedKeepsOwners(db, t, reply.tx);
    }
  }

  lemma InsertionIsAllowed(db: Db, t: TxId, key: Key, role: Role)
    requires LocksHold(db) && t in db.txs && Untouched(db, t, key) && key !in Seen(db, t)
    ensures Allowed(db, t, MemberInserted(db.txs[t], key, role))
  {
    UnseenIsWritten(db, t, key);
    hide Overlay;
  }

  lemma SpaceWriteIsAllowed(db: Db, t: TxId, space: SpaceId, row: Space)
    requires LocksHold(db) && t in db.txs && Free(db, t, space)
    ensures Allowed(db, t, SpaceWritten(db.txs[t], space, row))
  {
    hide Overlay;
  }

  lemma WaitingIsAllowed(db: Db, t: TxId, waiting: Option<Statement>)
    requires LocksHold(db) && t in db.txs
    ensures Allowed(db, t, db.txs[t]) && Allowed(db, t, db.txs[t].(waiting := waiting))
  {
    hide Overlay;
  }

  lemma ProceedIsAllowed(db: Db, t: TxId, statement: Statement)
    requires LocksHold(db) && t in db.txs
    ensures Allowed(db, t, Proceed(db, t, statement).tx)
  {
    hide Overlay, Allowed, LocksHold, Free, Untouched, Updated;
    var reply := Proceed(db, t, statement);
    WaitingIsAllowed(db, t, reply.tx.waiting);
    if reply.outcome == Done {
      if statement.InsertMember? {
        InsertionIsAllowed(db, t, statement.key, statement.role);
      } else {
        SpaceWriteIsAllowed(db, t, statement.space, reply.tx.spaces[statement.space]);
      }
    }
  }

  /** A committed row that a transaction does not see is one that it has deleted. */
  lemma UnseenIsWritten(db: Db, t: TxId, key: Key)
    requires t in db.txs
    ensures key in db.memberships && key !in Seen(db, t) ==> key in db.txs[t].memberships
  {
  }

  /** An insertion brings an owner, or finds one in place. */
  lemma InsertionKeepsOwners(db: Db, t: TxId, key: Key, role: Role)
    requires OwnersSafe(db) && t in db.txs && (role == Owner || Populated(Seen(db, t), key.space))
    ensures OwnersSafe(Put(db, t, Proceed(db, t, InsertMember(key, role)).tx))
  {
    hide Overlay, Allowed, LocksHold;
    var reply := Proceed(db, t, InsertMember(key, role));
    ProceedIsAllowed(db, t, InsertMember(key, role));
    if reply.outcome == Done {
      assert ViewOwned(db, t);
      var owner := key;
      if role != Owner { owner :| owner in Seen(db, t) && owner.space == key.space && Seen(db, t)[owner] == Owner; }
      OverlayOne(db.memberships, db.txs[t].memberships, key, role);
      WriteKeepsOwners(db, t, reply.tx, key, Some(role), owner);
    } else {
      assert Seen(Put(db, t, reply.tx), t) == Seen(db, t);
      AllowedKeepsOwners(db, t, reply.tx);
    }
  }

  lemma SpaceStatementKeepsOwners(db: Db, t: TxId, statement: Statement)
    requires OwnersSafe(db) && t in db.txs && (statement.InsertSpace? || statement.UpdateSpace?)
    ensures OwnersSafe(Put(db, t, Proceed(db, t, statement).tx))
  {
    hide Overlay, Allowed, LocksHold, ViewOwned, Owned;
    ProceedIsAllowed(db, t, statement);
    AllowedKeepsOwners(db, t, Proceed(db, t, statement).tx);
  }

  /** Whatever passed its policy: who may insert is an owner, or brings one. */
  lemma PermittedBringsAnOwner(db: Db, t: TxId, actor: Actor, key: Key, role: Role)
    requires t in db.txs && Permitted(db, t, actor, InsertMember(key, role))
    ensures role == Owner || Populated(Seen(db, t), key.space)
  {
    hide Overlay;
    if role != Owner { assert Key(key.space, actor.principal.value) in Seen(db, t); }
  }

  /**
   Another transaction's commit leaves this one's view owned: under the lock it changed rows this one
   cannot have written; without it, it only added rows.
   */
  lemma CommitKeepsView(db: Db, t: TxId, u: TxId)
    requires OwnersSafe(db) && Idle(db, t) && u in db.txs && t != u
    ensures ViewOwned(Apply(db, Commit(t)), u)
  {
    var r := Apply(db, Commit(t));
    var mine, before, after := Seen(db, t), Seen(db, u), Seen(r, u);
    assert ViewOwned(db, t) && ViewOwned(db, u) && r.memberships == mine;
    forall s: SpaceId | Populated(mine, s) || Populated(after, s) ensures HasOwner(after, s) {
      if s !in db.txs[t].locks && HasOwner(before, s) {
        var o :| o in before && o.space == s && before[o] == Owner;
        assert o in after && after[o] == Owner;
      } else if HasOwner(mine, s) {
        var o :| o in mine && o.space == s && mine[o] == Owner;
        assert o !in db.txs[u].memberships;
        assert o in after && after[o] == Owner;
      } else {
        var k :| k in after && k.space == s;
        assert k in before;
        var o :| o in before && o.space == s && before[o] == Owner;
        assert o in db.txs[u].memberships;
        assert o in after && after[o] == Owner;
      }
    }
  }

  /** A space that a transaction sees populated stays so for it, whoever commits. */
  lemma CommitKeepsPopulated(db: Db, t: TxId, u: TxId, space: SpaceId)
    requires OwnersSafe(db) && Idle(db, t) && u in db.txs && t != u && Populated(Seen(db, u), space)
    ensures Populated(Seen(Apply(db, Commit(t)), u), space)
  {
    var r := Apply(db, Commit(t));
    var k :| k in Seen(db, u) && k.space == space;
    if k in db.txs[u].memberships {
      assert k in Seen(r, u);
    } else {
      assert ViewOwned(db, t) && Populated(db.memberships, space);
      CommitKeepsView(db, t, u);
      assert HasOwner(Seen(r, u), space);
    }
  }

  lemma CommitKeepsWaiter(db: Db, t: TxId, u: TxId)
    requires OwnersSafe(db) && Idle(db, t) && u in db.txs && t != u
    ensures WaiterOk(Apply(db, Commit(t)), u)
  {
    hide Overlay, Populated, LocksHold, ViewOwned, Owned;
    assert WaiterOk(db, u);
    var w := db.txs[u].waiting;
    if w.Some? && w.value.InsertMember? && w.value.role != Owner {
      CommitKeepsPopulated(db, t, u, w.value.key.space);
    }
  }

  lemma CommitKeepsOwners(db: Db, t: TxId)
    requires OwnersSafe(db) && Idle(db, t)
    ensures OwnersSafe(Apply(db, Commit(t)))
  {
    hide WaiterOk;
    var r := Apply(db, Commit(t));
    forall u | u in r.txs ensures ViewOwned(r, u) && WaiterOk(r, u) {
      CommitKeepsView(db, t, u);
      CommitKeepsWaiter(db, t, u);
    }
    assert ViewOwned(db, t);
    forall s: SpaceId | Populated(r.memberships, s) ensures HasOwner(r.memberships, s) {
      assert HasOwner(Seen(db, t), s);
    }
  }

  lemma StatementKeepsOwners(db: Db, t: TxId, actor: Actor, statement: Statement)
    requires OwnersSafe(db) && Idle(db, t)
    ensures OwnersSafe(Put(db, t, Run(db, t, actor, statement).tx))
  {
    hide Overlay, ChangeMember, OwnersSafe, Permitted, Proceed;
    if statement.UpdateRole? || statement.DeleteMember? {
      ChangeKeepsOwners(db, t, actor, statement.key, if statement.UpdateRole? then Some(statement.role) else None);
    } else if !Permitted(db, t, actor, statement) {
      assert Put(db, t, db.txs[t]) == db;
    } else if statement.InsertMember? {
      PermittedBringsAnOwner(db, t, actor, statement.key, statement.role);
      InsertionKeepsOwners(db, t, statement.key, statement.role);
    } else {
      SpaceStatementKeepsOwners(db, t, statement);
    }
  }

  lemma ResumeKeepsOwners(db: Db, t: TxId)
    requires OwnersSafe(db) && Blocked(db, t)
    ensures OwnersSafe(Apply(db, Resume(t)))
  {
    var statement := db.txs[t].waiting.value;
    if statement.InsertMember? {
      assert WaiterOk(db, t);
      hide OwnersSafe, Proceed;
      InsertionKeepsOwners(db, t, statement.key, statement.role);
    } else if statement.InsertSpace? || statement.UpdateSpace? {
      hide OwnersSafe, Proceed;
      SpaceStatementKeepsOwners(db, t, statement);
    } else {
      assert Put(db, t, db.txs[t]) == db;
    }
  }

  lemma BeginKeepsOwners(db: Db, t: TxId)
    requires OwnersSafe(db) && t !in db.txs
    ensures OwnersSafe(Apply(db, Begin(t)))
  {
    var r := Apply(db, Begin(t));
    forall u | u in r.txs ensures ViewOwned(r, u) && WaiterOk(r, u) {
      if u != t {
        assert ViewOwned(db, u) && WaiterOk(db, u) && Seen(r, u) == Seen(db, u);
      } else {
        assert Seen(r, u) == r.memberships;
      }
    }
  }

  /** Ending a transaction without its writes, or changing who is active, moves nobody's view. */
  lemma SameViews(db: Db, r: Db)
    requires OwnersSafe(db) && r.memberships == db.memberships && r.txs.Keys <= db.txs.Keys
    requires forall u | u in r.txs :: r.txs[u] == db.txs[u]
    ensures OwnersSafe(r)
  {
    hide Overlay, HasOwner, Populated;
    forall u | u in r.txs ensures ViewOwned(r, u) && WaiterOk(r, u) {
      assert ViewOwned(db, u) && WaiterOk(db, u) && Seen(r, u) == Seen(db, u);
    }
  }

  lemma StepKeepsOwners(db: Db, e: Event)
    requires OwnersSafe(db)
    ensures OwnersSafe(Apply(db, e))
  {
    hide OwnersSafe, Run;
    match e
    case Begin(t) => if t !in db.txs { BeginKeepsOwners(db, t); }
    case Execute(t, actor, statement) => if Idle(db, t) { StatementKeepsOwners(db, t, actor, statement); }
    case Resume(t) => if Blocked(db, t) { ResumeKeepsOwners(db, t); }
    case Commit(t) => if Idle(db, t) { CommitKeepsOwners(db, t); }
    case Rollback(t) => SameViews(db, Apply(db, e));
    case SetActive(member, active) => SameViews(db, Apply(db, e));
  }

  lemma StepKeepsMembers(db: Db, e: Event, space: SpaceId)
    requires OwnersSafe(db) && Populated(db.memberships, space)
    ensures Populated(Apply(db, e).memberships, space)
  {
    hide Overlay, Run, Proceed;
    if e.Commit? && Idle(db, e.t) {
      assert ViewOwned(db, e.t);
      assert HasOwner(Seen(db, e.t), space);
    }
  }

  lemma {:induction false} RunKeepsOwners(db: Db, run: seq<Event>)
    requires OwnersSafe(db)
    ensures OwnersSafe(After(db, run))
    ensures forall s: SpaceId | Populated(db.memberships, s) :: Populated(After(db, run).memberships, s)
    decreases |run|
  {
    if run != [] {
      StepKeepsOwners(db, run[0]);
      RunKeepsOwners(Apply(db, run[0]), run[1..]);
      forall s: SpaceId | Populated(db.memberships, s) ensures Populated(After(db, run).memberships, s) {
        StepKeepsMembers(db, run[0], s);
      }
    }
  }

  /**
   In every interleaving of any transactions, a space with a committed membership has a committed
   owner, and so does one that ever had a committed membership.
   */
  lemma EverySpaceKeepsAnOwner(db: Db, before: seq<Event>, after: seq<Event>, space: SpaceId)
    requires db.txs == map[] && Owned(db.memberships)
    requires Populated(After(db, before).memberships, space)
    ensures HasOwner(After(After(db, before), after).memberships, space)
  {
    RunKeepsOwners(db, before);
    RunKeepsOwners(After(db, before), after);
  }

  // ---- handing over ----

  /** One transaction can hand a space over: insert the new owner, then give up one's own ownership. */
  lemma OwnershipCanBeHandedOver(db: Db, t: TxId, actor: Actor, space: SpaceId, heir: MemberId)
    requires LocksHold(db) && t in db.txs && HasSpaceRole(db, t, actor, space, {Owner})
    requires Key(space, heir) !in Seen(db, t) && Free(db, t, space)
    requires Untouched(db, t, Key(space, heir)) && Untouched(db, t, Key(space, actor.principal.value))
    ensures var mine := Key(space, actor.principal.value);
            var joined := Run(db, t, actor, InsertMember(Key(space, heir), Owner));
            var left := Run(Put(db, t, joined.tx), t, actor, UpdateRole(mine, Reader));
            var r := Apply(Put(db, t, left.tx), Commit(t)).memberships;
            && joined.outcome == Done && left.outcome == Done
            && mine in r && r[mine] == Reader && Key(space, heir) in r && r[Key(space, heir)] == Owner
  {
    hide Overlay;
    var mine, his := Key(space, actor.principal.value), Key(space, heir);
    OverlayOne(db.memberships, db.txs[t].memberships, his, Owner);
    var db1 := Put(db, t, Run(db, t, actor, InsertMember(his, Owner)).tx);
    assert mine in OwnersOf(Seen(db1, t), space) && his in OwnersOf(Seen(db1, t), space);
    assert {mine, his} <= OwnersOf(Seen(db1, t), space);
    MoreOwners({mine, his}, OwnersOf(Seen(db1, t), space));
    assert MayChange(db1, t, actor, space, Owner);
    OverlayOne(db.memberships, db1.txs[t].memberships, mine, Reader);
  }

  lemma MoreOwners(some: set<Key>, all: set<Key>)
    requires some <= all
    ensures |some| <= |all|
  {
    assert all == some + (all - some);
  }

  // ---- the database the statements run against ----

  class SpaceDatabase {
    var active: set<MemberId>
    var spaces: map<SpaceId, Space>
    var memberships: map<Key, Role>
    var txs: map<TxId, Tx>

    ghost function Snapshot(): Db
      reads this
    {
      Db(active, spaces, memberships, txs)
    }

    constructor (active: set<MemberId>, spaces: map<SpaceId, Space>, memberships: map<Key, Role>)
      ensures Snapshot() == Db(active, spaces, memberships, map[])
    {
      this.active, this.spaces, this.memberships, this.txs := active, spaces, memberships, map[];
    }

    /** gateway_can_change_membership: take the workspace row, then check. */
    method CanChangeMembership(t: TxId, actor: Actor, space: SpaceId, targetRole: Role) returns (allowed: bool)
      requires t in txs && Free(Snapshot(), t, space)
      modifies this`txs
      ensures txs == old(txs)[t := Locked(old(Snapshot()), t, space)]
      ensures allowed == MayChange(old(Snapshot()), t, actor, space, targetRole)
    {
      var db := Db(active, spaces, memberships, txs);
      if space in SeenSpaces(db, t) {
        txs := txs[t := txs[t].(locks := txs[t].locks + {space})];
      }
      var held := Db(active, spaces, memberships, txs);
      assert Seen(held, t) == Seen(db, t) && SeenSpaces(held, t) == SeenSpaces(db, t);
      if !HasSpaceRole(held, t, actor, space, {Owner}) { return false; }
      if targetRole != Owner { return true; }
      var owners := OwnersOf(Seen(held, t), space);
      return |owners| > 1;
    }

    /** An UPDATE of role, or a DELETE, of one row of space_memberships. */
    method ChangeMembership(t: TxId, actor: Actor, key: Key, write: Option<Role>) returns (outcome: Outcome)
      requires t in txs
      modifies this`txs
      ensures var reply := ChangeMember(old(Snapshot()), t, actor, key, write);
              outcome == reply.outcome && txs == old(txs)[t := reply.tx]
    {
      var db := Db(active, spaces, memberships, txs);
      var visible := Seen(db, t);
      if key !in visible { return Refused; }
      if !Free(db, t, key.space) || !Untouched(db, t, key) { return Waits; }
      var allowed := CanChangeMembership(t, actor, key.space, visible[key]);
      if !allowed { return Refused; }
      txs := txs[t := txs[t].(memberships := txs[t].memberships[key := write])];
      return Done;
    }

    /** A statement whose policy has passed, up to the end or to where it has to wait. */
    method Continue(t: TxId, statement: Statement) returns (outcome: Outcome)
      requires t in txs
      modifies this`txs
      ensures var reply := Proceed(old(Snapshot()), t, statement);
              outcome == reply.outcome && txs == old(txs)[t := reply.tx]
    {
      var db := Db(active, spaces, memberships, txs);
      var tx := txs[t];
      outcome := Refused;
      match statement {
      case InsertSpace(space, row) =>
        if space in SeenSpaces(db, t) {
          tx := tx.(waiting := None);
        } else if !Free(db, t, space) {
          outcome, tx := Waits, tx.(waiting := Some(statement));
        } else {
          outcome, tx := Done, SpaceWritten(tx, space, row);
        }
      case UpdateSpace(space, name, revision, archived) =>
        if !Free(db, t, space) {
          outcome, tx := Waits, tx.(waiting := Some(statement));
        } else if space !in SeenSpaces(db, t) {
          tx := tx.(waiting := None);
        } else {
          outcome, tx := Done, SpaceWritten(tx, space, Updated(SeenSpaces(db, t)[space], name, revision, archived));
        }
      case InsertMember(key, role) =>
        if !Untouched(db, t, key) {
          outcome, tx := Waits, tx.(waiting := Some(statement));
        } else if key in Seen(db, t) {
          tx := tx.(waiting := None);
        } else {
          outcome, tx := Done, MemberInserted(tx, key, role);
        }
      case _ =>
      }
      txs := txs[t := tx];
    }

    method InsertMembership(t: TxId, actor: Actor, key: Key, role: Role) returns (outcome: Outcome)
      requires t in txs
      modifies this`txs
      ensures var reply := Run(old(Snapshot()), t, actor, InsertMember(key, role));
              outcome == reply.outcome && txs == old(txs)[t := reply.tx]
    {
      var db := Db(active, spaces, memberships, txs);
      var checked := HasSpaceRole(db, t, actor, key.space, {Owner}) ||
                     (role == Owner && IsInitialOwner(db, t, actor, key.space, key.member));
      if !checked { return Refused; }
      outcome := Continue(t, InsertMember(key, role));
    }

    method InsertWorkspace(t: TxId, actor: Actor, space: SpaceId, row: Space) returns (outcome: Outcome)
      requires t in txs
      modifies this`txs
      ensures var reply := Run(old(Snapshot()), t, actor, InsertSpace(space, row));
              outcome == reply.outcome && txs == old(txs)[t := reply.tx]
    {
      var db := Db(active, spaces, memberships, txs);
      if row.createdBy != actor.principal || !ActorActive(db, actor) { return Refused; }
      outcome := Continue(t, InsertSpace(space, row));
    }

    method UpdateWorkspace(t: TxId, actor: Actor, space: SpaceId, name: string, revision: int, archived: bool)
      returns (outcome: Outcome)
      requires t in txs
      modifies this`txs
      ensures var reply := Run(old(Snapshot()), t, actor, UpdateSpace(space, name, revision, archived));
              outcome == reply.outcome && txs == old(txs)[t := reply.tx]
    {
      var db := Db(active, spaces, memberships, txs);
      if !HasSpaceRole(db, t, actor, space, {Owner}) { return Refused; }
      outcome := Continue(t, UpdateSpace(space, name, revision, archived));
    }

    /** A blocked statement goes on where it waited: its policy was asked before. */
    method ResumeStatement(t: TxId) returns (outcome: Outcome)
      requires t in txs && txs[t].waiting.Some?
      modifies this`txs
      ensures Snapshot() == Apply(old(Snapshot()), Resume(t))
    {
      outcome := Continue(t, txs[t].waiting.value);
    }

    method CommitTransaction(t: TxId)
      requires t in txs && txs[t].waiting.None?
      modifies this
      ensures Snapshot() == Apply(old(Snapshot()), Commit(t))
    {
      var tx := txs[t];
      spaces := spaces + tx.spaces;
      memberships := Overlay(memberships, tx.memberships);
      txs := txs - {t};
    }
  }
}
