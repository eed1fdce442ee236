/** What a statement on spaces or memberships writes, when it is carried out, and what a transaction commits. */
module SpaceStatements {
  import opened Wrappers
  import opened SpaceOwnership

  // ---- what each statement says ----

  function Written(rows: map<Key, Role>, statement: Statement): map<Key, Role> {
    match statement
    case UpdateRole(key, role) => rows[key := role]
    case InsertMember(key, role) => rows[key := role]
    case DeleteMember(key) => rows - {key}
    case _ => rows
  }

  function WrittenSpaces(spaces: map<SpaceId, Space>, statement: Statement): map<SpaceId, Space> {
    match statement
    case InsertSpace(space, row) => spaces[space := row]
    case UpdateSpace(space, name, revision, archived) =>
      if space in spaces then spaces[space := Space(spaces[space].createdBy, name, revision, archived)] else spaces
    case _ => spaces
  }

  /** `r` is `db` but for `t`, who now sees these rows. */
  ghost predicate SeesAfter(db: Db, t: TxId, r: Db, rows: map<Key, Role>, spaces: map<SpaceId, Space>)
    requires t in db.txs
  {
    && r.memberships == db.memberships && r.spaces == db.spaces && r.active == db.active
    && r.txs.Keys == db.txs.Keys && (forall u | u in db.txs && u != t :: r.txs[u] == db.txs[u])
    && Seen(r, t) == rows && SeenSpaces(r, t) == spaces
  }

  lemma OverlayDelete(rows: map<Key, Role>, writes: map<Key, Option<Role>>, key: Key)
    ensures Overlay(rows, writes[key := None]) == Overlay(rows, writes) - {key}
  {
  }

  lemma NothingWritten(db: Db, t: TxId, tx: Tx)
    requires t in db.txs && tx.memberships == db.txs[t].memberships && tx.spaces == db.txs[t].spaces
    ensures SeesAfter(db, t, Put(db, t, tx), Seen(db, t), SeenSpaces(db, t))
  {
    hide Overlay;
  }

  lemma RowWritten(db: Db, t: TxId, tx: Tx, key: Key, write: Option<Role>)
    requires t in db.txs && tx.memberships == db.txs[t].memberships[key := write] && tx.spaces == db.txs[t].spaces
    ensures SeesAfter(db, t, Put(db, t, tx),
                      if write.Some? then Seen(db, t)[key := write.value] else Seen(db, t) - {key}, SeenSpaces(db, t))
  {
    hide Overlay;
    if write.Some? {
      OverlayOne(db.memberships, db.txs[t].memberships, key, write.value);
    } else {
      OverlayDelete(db.memberships, db.txs[t].memberships, key);
    }
  }

  lemma SpaceRowWritten(db: Db, t: TxId, tx: Tx, space: SpaceId, row: Space)
    requires t in db.txs && tx.memberships == db.txs[t].memberships && tx.spaces == db.txs[t].spaces[space := row]
    ensures SeesAfter(db, t, Put(db, t, tx), Seen(db, t), SeenSpaces(db, t)[space := row])
  {
    hide Overlay;
  }

  lemma ChangeWrites(db: Db, t: TxId, actor: Actor, statement: Statement)
    requires t in db.txs && (statement.UpdateRole? || statement.DeleteMember?)
    ensures var reply := Run(db, t, actor, statement); var r := Put(db, t, reply.tx);
            if reply.outcome == Done
            then SeesAfter(db, t, r, Written(Seen(db, t), statement), WrittenSpaces(SeenSpaces(db, t), statement))
            else SeesAfter(db, t, r, Seen(db, t), SeenSpaces(db, t))
  {
    hide Seen, SeenSpaces, SeesAfter, MayChange, Free, Untouched;
    var reply := Run(db, t, actor, statement);
    if reply.outcome == Done {
      RowWritten(db, t, reply.tx, statement.key, if statement.UpdateRole? then Some(statement.role) else None);
    } else {
      NothingWritten(db, t, reply.tx);
    }
  }

  lemma ProceedWrites(db: Db, t: TxId, statement: Statement)
    requires t in db.txs
    ensures var reply := Proceed(db, t, statement); var r := Put(db, t, reply.tx);
            if reply.outcome == Done
            then SeesAfter(db, t, r, Written(Seen(db, t), statement), WrittenSpaces(SeenSpaces(db, t), statement))
            else SeesAfter(db, t, r, Seen(db, t), SeenSpaces(db, t))
  {
    hide Seen, SeenSpaces, SeesAfter, Free, Untouched;
    var reply := Proceed(db, t, statement);
    if reply.outcome == Done {
      match statement
      case InsertMember(key, role) => RowWritten(db, t, reply.tx, key, Some(role));
      case InsertSpace(space, row) => SpaceRowWritten(db, t, reply.tx, space, row);
      case UpdateSpace(space, name, revision, archived) =>
        SpaceRowWritten(db, t, reply.tx, space, Updated(SeenSpaces(db, t)[space], name, revision, archived));
      case _ =>
    } else {
      NothingWritten(db, t, reply.tx);
    }
  }

  /**
   A statement that is carried out writes what it says: the role asked for on exactly that key, no row
   where one is deleted, the given columns of exactly that space.  One that is refused or has to wait
   changes no row that its transaction sees, and none changes what is committed or what others see.
   */
  lemma StatementWritesWhatItSays(db: Db, t: TxId, actor: Actor, statement: Statement)
    requires Idle(db, t)
    ensures var r := Apply(db, Execute(t, actor, statement));
            if Run(db, t, actor, statement).outcome == Done
            then SeesAfter(db, t, r, Written(Seen(db, t), statement), WrittenSpaces(SeenSpaces(db, t), statement))
            else SeesAfter(db, t, r, Seen(db, t), SeenSpaces(db, t))
  {
    hide Seen, SeenSpaces, SeesAfter, ChangeMember, Proceed, Permitted;
    if statement.UpdateRole? || statement.DeleteMember? {
      ChangeWrites(db, t, actor, statement);
    } else if Permitted(db, t, actor, statement) {
      ProceedWrites(db, t, statement);
    } else {
      NothingWritten(db, t, db.txs[t]);
    }
  }

  // ---- when a statement is carried out ----

  /** An active member, not restricted, whom the transaction sees as an owner of a space that is not archived. */
  predicate OwnerActs(db: Db, t: TxId, actor: Actor, space: SpaceId)
    requires t in db.txs
  {
    match actor
    case Actor(Some(member), false) =>
      && member in db.active && Key(space, member) in Seen(db, t) && Seen(db, t)[Key(space, member)] == Owner
      && space in SeenSpaces(db, t) && !SeenSpaces(db, t)[space].archived
    case _ => false
  }

  /** The creator of a space nobody belongs to, acting on their own membership. */
  predicate FounderActs(db: Db, t: TxId, actor: Actor, key: Key)
    requires t in db.txs
  {
    && actor == Actor(Some(key.member), false) && key.member in db.active
    && key.space in SeenSpaces(db, t) && !SeenSpaces(db, t)[key.space].archived
    && SeenSpaces(db, t)[key.space].createdBy == Some(key.member)
    && forall k | k in Seen(db, t) :: k.space != key.space
  }

  /** Some other transaction holds the workspace row. */
  predicate SpaceTaken(db: Db, t: TxId, space: SpaceId) {
    exists u | u in db.txs :: u != t && space in db.txs[u].locks
  }

  /** Some other transaction has written the membership row and not ended yet. */
  predicate RowTaken(db: Db, t: TxId, key: Key) {
    exists u | u in db.txs :: u != t && key in db.txs[u].memberships
  }

  lemma SomeoneElse(rows: map<Key, Role>, key: Key)
    requires key in rows && rows[key] == Owner
    ensures |OwnersOf(rows, key.space)| > 1 <==>
            exists k | k in rows :: k != key && k.space == key.space && rows[k] == Owner
  {
    if |OwnersOf(rows, key.space)| > 1 {
      var other := TwoOwners(rows, key);
    }
    forall k | k in rows && k != key && k.space == key.space && rows[k] == Owner
      ensures |OwnersOf(rows, key.space)| > 1
    {
      assert {key, k} <= OwnersOf(rows, key.space);
      MoreOwners({key, k}, OwnersOf(rows, key.space));
    }
  }

  /**
   A role is changed, or a membership deleted, exactly when an owner acts on a row they see and nobody
   else holds, and it is not the last owner's; it waits exactly for a row they see and somebody holds.
   */
  lemma ChangedExactlyWhen(db: Db, t: TxId, actor: Actor, key: Key, role: Role)
    requires t in db.txs
    ensures var taken := SpaceTaken(db, t, key.space) || RowTaken(db, t, key);
            var rows := Seen(db, t);
            var allowed := key in rows && !taken && OwnerActs(db, t, actor, key.space) &&
              (rows[key] == Owner ==> exists k | k in rows :: k != key && k.space == key.space && rows[k] == Owner);
      && (Run(db, t, actor, UpdateRole(key, role)).outcome == Done <==> allowed)
      && (Run(db, t, actor, DeleteMember(key)).outcome == Done <==> allowed)
      && (Run(db, t, actor, UpdateRole(key, role)).outcome == Waits <==> key in rows && taken)
      && (Run(db, t, actor, DeleteMember(key)).outcome == Waits <==> key in rows && taken)
  {
    if key in Seen(db, t) && Seen(db, t)[key] == Owner { SomeoneElse(Seen(db, t), key); }
    hide Overlay, OwnersOf;
  }

  /**
   A membership is inserted exactly when an owner acts, or the founder makes themselves the first owner,
   and the row is new and nobody else is writing it.
   */
  lemma InsertedExactlyWhen(db: Db, t: TxId, actor: Actor, key: Key, role: Role)
    requires t in db.txs
    ensures Run(db, t, actor, InsertMember(key, role)).outcome == Done <==>
              (OwnerActs(db, t, actor, key.space) || (role == Owner && FounderActs(db, t, actor, key))) &&
              key !in Seen(db, t) && !RowTaken(db, t, key)
  {
    hide Overlay;
  }

  /** A space is created by an active member in their own name, and updated by an owner, unless its row is held. */
  lemma SpaceWrittenExactlyWhen(db: Db, t: TxId, actor: Actor, space: SpaceId, row: Space)
    requires t in db.txs
    ensures Run(db, t, actor, InsertSpace(space, row)).outcome == Done <==>
              actor.principal.Some? && actor.principal.value in db.active && !actor.restricted &&
              row.createdBy == actor.principal && space !in SeenSpaces(db, t) && !SpaceTaken(db, t, space)
    ensures Run(db, t, actor, UpdateSpace(space, row.name, row.revision, row.archived)).outcome == Done <==>
              OwnerActs(db, t, actor, space) && !SpaceTaken(db, t, space)
  {
    hide Overlay;
  }

  /**
   What a statement holds on to: a change of a membership that got as far as the policy holds the workspace
   row, refused or not, and so does a written space; a blocked statement remembers itself, unless it is a
   change, which is asked again; nothing is ever let go before the transaction ends.
   */
  lemma StatementHoldsOn(db: Db, t: TxId, actor: Actor, statement: Statement)
    requires Idle(db, t)
    ensures var reply := Run(db, t, actor, statement); var before := db.txs[t];
      match statement
      case UpdateRole(key, _) => Keeps(db, t, key, reply)
      case DeleteMember(key) => Keeps(db, t, key, reply)
      case InsertMember(_, _) =>
        reply.tx.locks == before.locks && reply.tx.waiting == if reply.outcome == Waits then Some(statement) else None
      case _ =>
        && reply.tx.locks == before.locks + (if reply.outcome == Done then {statement.space} else {})
        && reply.tx.waiting == if reply.outcome == Waits then Some(statement) else None
  {
    hide Overlay;
  }

  /** The workspace row of a seen membership that nobody else holds is taken before the policy is asked. */
  ghost predicate Keeps(db: Db, t: TxId, key: Key, reply: Reply)
    requires t in db.txs
  {
    var reached := key in Seen(db, t) && key.space in SeenSpaces(db, t) && reply.outcome != Waits;
    reply.tx.waiting.None? && reply.tx.locks == db.txs[t].locks + if reached then {key.space} else {}
  }

  // ---- whole transactions ----

  function All(rows: map<Key, Role>, statements: seq<Statement>): map<Key, Role>
    decreases |statements|
  {
    if statements == [] then rows else All(Written(rows, statements[0]), statements[1..])
  }

  function AllSpaces(spaces: map<SpaceId, Space>, statements: seq<Statement>): map<SpaceId, Space>
    decreases |statements|
  {
    if statements == [] then spaces else AllSpaces(WrittenSpaces(spaces, statements[0]), statements[1..])
  }

  /** The statement of `t` that an event carries out, if it does. */
  function CarriedOut(db: Db, t: TxId, e: Event): seq<Statement> {
    match e
    case Execute(u, actor, statement) =>
      if u == t && Idle(db, t) && Run(db, t, actor, statement).outcome == Done then [statement] else []
    case Resume(u) =>
      if u == t && Blocked(db, t) && Proceed(db, t, db.txs[t].waiting.value).outcome == Done
      then [db.txs[t].waiting.value] else []
    case _ => []
  }

  /** The statements of `t` carried out in a run, in order. */
  function Carried(db: Db, t: TxId, run: seq<Event>): seq<Statement>
    decreases |run|
  {
    if run == [] then [] else CarriedOut(db, t, run[0]) + Carried(Apply(db, run[0]), t, run[1..])
  }

  lemma OneStep(db: Db, t: TxId, e: Event)
    requires t in db.txs && !e.Commit? && e != Rollback(t)
    ensures var r := Apply(db, e); t in r.txs && r.memberships == db.memberships && r.spaces == db.spaces
    ensures Seen(Apply(db, e), t) == All(Seen(db, t), CarriedOut(db, t, e))
    ensures SeenSpaces(Apply(db, e), t) == AllSpaces(SeenSpaces(db, t), CarriedOut(db, t, e))
  {
    hide Run, Proceed, Overlay;
    match e
    case Execute(u, actor, statement) =>
      if Idle(db, u) { StatementWritesWhatItSays(db, u, actor, statement); }
    case Resume(u) =>
      if Blocked(db, u) { ProceedWrites(db, u, db.txs[u].waiting.value); }
    case _ =>
  }

  lemma AllInTwo(rows: map<Key, Role>, spaces: map<SpaceId, Space>, first: seq<Statement>, rest: seq<Statement>)
    requires |first| <= 1
    ensures All(rows, first + rest) == All(All(rows, first), rest)
    ensures AllSpaces(spaces, first + rest) == AllSpaces(AllSpaces(spaces, first), rest)
  {
    if first == [] {
      assert first + rest == rest;
    } else {
      assert (first + rest)[1..] == rest && first[1..] == [];
    }
  }

  /** What a transaction sees is what it has done so far, as long as nobody commits. */
  lemma {:induction false} SeesWhatItDid(db: Db, t: TxId, run: seq<Event>)
    requires t in db.txs && forall e | e in run :: !e.Commit? && e != Rollback(t)
    ensures var r := After(db, run); t in r.txs && r.memberships == db.memberships && r.spaces == db.spaces
    ensures Seen(After(db, run), t) == All(Seen(db, t), Carried(db, t, run))
    ensures SeenSpaces(After(db, run), t) == AllSpaces(SeenSpaces(db, t), Carried(db, t, run))
    decreases |run|
  {
    hide Apply, Seen, SeenSpaces, CarriedOut, All, AllSpaces;
    if run == [] {
      assert All(Seen(db, t), []) == Seen(db, t) && AllSpaces(SeenSpaces(db, t), []) == SeenSpaces(db, t) by {
        NothingDone(Seen(db, t), SeenSpaces(db, t));
      }
    } else {
      OneStep(db, t, run[0]);
      SeesWhatItDid(Apply(db, run[0]), t, run[1..]);
      AtMostOneCarried(db, t, run[0]);
      AllInTwo(Seen(db, t), SeenSpaces(db, t), CarriedOut(db, t, run[0]), Carried(Apply(db, run[0]), t, run[1..]));
    }
  }

  lemma NothingDone(rows: map<Key, Role>, spaces: map<SpaceId, Space>)
    ensures All(rows, []) == rows && AllSpaces(spaces, []) == spaces
  {
  }

  lemma AtMostOneCarried(db: Db, t: TxId, e: Event)
    ensures |CarriedOut(db, t, e)| <= 1
  {
  }

  /**
   A transaction commits exactly what it did: from its beginning, through any interleaving with others that
   have not committed yet, its commit leaves the committed rows with its carried-out statements applied in
   order, and its rollback leaves them as they were.
   */
  lemma TransactionCommitsWhatItDid(db: Db, t: TxId, run: seq<Event>)
    requires t !in db.txs && forall e | e in run :: !e.Commit? && e != Rollback(t)
    ensures var begun := Apply(db, Begin(t)); var open := After(begun, run); var done := Carried(begun, t, run);
      && (Idle(open, t) ==>
            Apply(open, Commit(t)).memberships == All(db.memberships, done) &&
            Apply(open, Commit(t)).spaces == AllSpaces(db.spaces, done))
      && Apply(open, Rollback(t)).memberships == db.memberships && Apply(open, Rollback(t)).spaces == db.spaces
      && t !in Apply(open, Rollback(t)).txs && (Idle(open, t) ==> t !in Apply(open, Commit(t)).txs)
  {
    var begun := Apply(db, Begin(t));
    assert Seen(begun, t) == db.memberships && SeenSpaces(begun, t) == db.spaces;
    SeesWhatItDid(begun, t, run);
    hide Run, Proceed, Overlay, Carried, All, AllSpaces;
  }
}
