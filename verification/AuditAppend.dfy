/** Any number of audit appends in flight at once. Each runs as separate steps (take the advisory
    lock, read the tip, insert, commit or abort) and the steps interleave freely. The lock is keyed by
    a hash of the organisation id that may collide; an uncommitted insert is visible only to its own
    transaction, and the lock is held until the transaction ends. */
module AuditAppend {
  import opened Prelude
  import opened AuditChain

  type LockKey = string -> int

  datatype Phase =
    | Idle
    | Locked(q: Request)
    | HasTip(q: Request, prev: string, next: int)
    | Inserted(q: Request, row: Row)

  /** The committed table, in commit order, and what each appender is doing. */
  datatype Db = Db(rows: seq<Row>, procs: map<nat, Phase>)

  datatype Event =
    | Begin(p: nat, q: Request)
    | ReadTip(p: nat)
    | Insert(p: nat)
    | Commit(p: nat)
    | Abort(p: nat)

  function PhaseOf(db: Db, p: nat): Phase
  {
    if p in db.procs then db.procs[p] else Idle
  }

  function Enter(db: Db, p: nat, phase: Phase): Db { db.(procs := db.procs[p := phase]) }

  ghost predicate LockFree(lock: LockKey, db: Db, org: string)
  {
    forall p :: PhaseOf(db, p) != Idle ==> lock(PhaseOf(db, p).q.org) != lock(org)
  }

  /** The unique (org_id, sequence_number) index would reject `row`. */
  ghost predicate IndexRejects(db: Db, row: Row)
  {
    || (exists r :: r in db.rows && r.org == row.org && r.seqNo == row.seqNo)
    || (exists p :: PhaseOf(db, p).Inserted? && PhaseOf(db, p).row.org == row.org && PhaseOf(db, p).row.seqNo == row.seqNo)
  }

  /** The unique index on entry_hash, which spans organisations, would reject `row`. */
  ghost predicate HashRejects(db: Db, row: Row)
  {
    || (exists r :: r in db.rows && r.entryHash == row.entryHash)
    || (exists p :: PhaseOf(db, p).Inserted? && PhaseOf(db, p).row.entryHash == row.entryHash)
  }

  /** One step. A step that is not enabled waits, that is, changes nothing; a rejected insert aborts. */
  ghost function Apply(H: HashFn, lock: LockKey, db: Db, e: Event): Db
  {
    match e
    case Begin(p, q) =>
      if PhaseOf(db, p).Idle? && LockFree(lock, db, q.org) then Enter(db, p, Locked(q)) else db
    case ReadTip(p) =>
      var phase := PhaseOf(db, p);
      if phase.Locked? then Enter(db, p, HasTip(phase.q, Tip(db.rows, phase.q.org).0, Tip(db.rows, phase.q.org).1)) else db
    case Insert(p) =>
      var phase := PhaseOf(db, p);
      if !phase.HasTip? then db
      else
        var row := Seal(H, phase.q, phase.prev, phase.next);
        Enter(db, p, if IndexRejects(db, row) || HashRejects(db, row) then Idle else Inserted(phase.q, row))
    case Commit(p) =>
      var phase := PhaseOf(db, p);
      if phase.Inserted? then Db(db.rows + [phase.row], db.procs[p := Idle]) else db
    case Abort(p) => Enter(db, p, Idle)
  }

  ghost function Run(H: HashFn, lock: LockKey, db: Db, events: seq<Event>): Db
  {
    if events == [] then db
    else Apply(H, lock, Run(H, lock, db, events[..|events| - 1]), events[|events| - 1])
  }

  // ---------- The invariant ----------

  ghost predicate Exclusive(lock: LockKey, db: Db)
  {
    forall p, q :: p != q && PhaseOf(db, p) != Idle && PhaseOf(db, q) != Idle ==>
      lock(PhaseOf(db, p).q.org) != lock(PhaseOf(db, q).q.org)
  }

  /** What an appender carries still describes the committed table. */
  ghost predicate Current(H: HashFn, rows: seq<Row>, phase: Phase)
  {
    match phase
    case HasTip(q, prev, next) => (prev, next) == Tip(rows, q.org)
    case Inserted(q, row) => row == Seal(H, q, Tip(rows, q.org).0, Tip(rows, q.org).1)
    case _ => true
  }

  ghost predicate AllSealed(H: HashFn, rows: seq<Row>) { forall org :: Sealed(H, rows, org) }

  ghost predicate Inv(H: HashFn, lock: LockKey, db: Db)
  {
    && Exclusive(lock, db)
    && AllSealed(H, db.rows)
    && forall p :: Current(H, db.rows, PhaseOf(db, p))
  }

  lemma {:induction false} OrgRowsAre(rows: seq<Row>, org: string)
    ensures forall r :: r in OrgRows(rows, org) <==> r in rows && r.org == org
  {
    if rows != [] {
      OrgRowsAre(rows[..|rows| - 1], org);
      assert rows == rows[..|rows| - 1] + [rows[|rows| - 1]];
    }
  }

  /** The index never fires: the tip's next number is free in the table, and nobody else holds an
      uncommitted row of the same organisation, because equal ids have equal lock keys. */
  lemma IndexNeverFires(H: HashFn, lock: LockKey, db: Db, p: nat)
    requires Inv(H, lock, db) && PhaseOf(db, p).HasTip?
    ensures !IndexRejects(db, Seal(H, PhaseOf(db, p).q, PhaseOf(db, p).prev, PhaseOf(db, p).next))
  {
    var phase := PhaseOf(db, p);
    assert Current(H, db.rows, phase) && Sealed(H, db.rows, phase.q.org);
    SealedTip(H, db.rows, phase.q.org);
    OrgRowsAre(db.rows, phase.q.org);
    forall r | r in db.rows && r.org == phase.q.org ensures r.seqNo != phase.next {
      assert r in OrgRows(db.rows, phase.q.org);
    }
    forall s | PhaseOf(db, s).Inserted? ensures PhaseOf(db, s).row.org != phase.q.org {
      assert Current(H, db.rows, PhaseOf(db, s)) && s != p;
      assert lock(PhaseOf(db, s).q.org) != lock(phase.q.org);
    }
  }

  ghost predicate Collides(H: HashFn, x: string, y: string) { x != y && H(x) == H(y) }

  lemma DifferentRowsCollide(H: HashFn, a: Columns, p: string, b: Columns, q: string)
    requires |p| == |q| && (a.org != b.org || a.seqNo != b.seqNo) && H(Preimage(a, p)) == H(Preimage(b, q))
    ensures Collides(H, Preimage(a, p), Preimage(b, q))
  {
    if Preimage(a, p) == Preimage(b, q) { PreimageInjective(a, p, b, q); }
  }

  lemma TipLength(H: HashFn, rows: seq<Row>, org: string)
    requires IsDigestFn(H) && Sealed(H, rows, org)
    ensures |Tip(rows, org).0| == 64
  {
    SealedTip(H, rows, org);
    PrevHashLength(H, OrgRows(rows, org), |OrgRows(rows, org)|);
  }

  /** The row is committed, or inserted by an appender that has not committed yet. */
  ghost predicate Stored(db: Db, r: Row)
  {
    r in db.rows || exists s :: PhaseOf(db, s).Inserted? && PhaseOf(db, s).row == r
  }

  /** The text a row's hash was computed over. */
  function RowText(r: Row): string { Preimage(r.Covered(), r.previousHash) }

  lemma CommittedRow(H: HashFn, rows: seq<Row>, r: Row)
    requires IsDigestFn(H) && AllSealed(H, rows) && r in rows
    ensures |r.previousHash| == 64 && r.entryHash == H(RowText(r))
  {
    var o := OrgRows(rows, r.org);
    OrgRowsAre(rows, r.org);
    var i :| 0 <= i < |o| && o[i] == r;
    assert Sealed(H, rows, r.org) && RowOk(H, o, i);
    assert r.previousHash == PrevHash(o, i);
    PrevHashLength(H, o, i);
  }

  lemma SealedRow(H: HashFn, rows: seq<Row>, phase: Phase)
    requires IsDigestFn(H) && AllSealed(H, rows) && Current(H, rows, phase)
    ensures phase.Inserted? ==> |phase.row.previousHash| == 64 && phase.row.entryHash == H(RowText(phase.row))
    ensures phase.HasTip? ==> |phase.prev| == 64
  {
    if phase.Inserted? || phase.HasTip? {
      assert Sealed(H, rows, phase.q.org);
      TipLength(H, rows, phase.q.org);
    }
  }

  /** The index on entry_hash fires only on a collision, and the collision is there to be read: a stored row
      whose hashed text differs from the rejected row's and has the same hash. */
  lemma HashIndexFiresOnCollision(H: HashFn, lock: LockKey, db: Db, p: nat) returns (r: Row)
    requires IsDigestFn(H) && Inv(H, lock, db) && PhaseOf(db, p).HasTip?
    requires HashRejects(db, Seal(H, PhaseOf(db, p).q, PhaseOf(db, p).prev, PhaseOf(db, p).next))
    ensures var row := Seal(H, PhaseOf(db, p).q, PhaseOf(db, p).prev, PhaseOf(db, p).next);
      Stored(db, r) && Collides(H, RowText(r), RowText(row))
  {
    var phase := PhaseOf(db, p);
    var row := Seal(H, phase.q, phase.prev, phase.next);
    IndexNeverFires(H, lock, db, p);
    SealedRow(H, db.rows, phase);
    if exists r :: r in db.rows && r.entryHash == row.entryHash {
      r :| r in db.rows && r.entryHash == row.entryHash;
      CommittedRow(H, db.rows, r);
    } else {
      var s :| PhaseOf(db, s).Inserted? && PhaseOf(db, s).row.entryHash == row.entryHash;
      r := PhaseOf(db, s).row;
      assert Current(H, db.rows, PhaseOf(db, s));
      SealedRow(H, db.rows, PhaseOf(db, s));
    }
    DifferentRowsCollide(H, r.Covered(), r.previousHash, row.Covered(), row.previousHash);
  }

  lemma TipElsewhere(rows: seq<Row>, row: Row, org: string)
    requires row.org != org
    ensures Tip(rows + [row], org) == Tip(rows, org)
  {
    OrgRowsAppend(rows, row, org);
    assert OrgRows(rows + [row], org) == OrgRows(rows, org);
  }

  lemma CommitKeepsInv(H: HashFn, lock: LockKey, db: Db, p: nat)
    requires Inv(H, lock, db) && PhaseOf(db, p).Inserted?
    ensures Inv(H, lock, Apply(H, lock, db, Commit(p)))
  {
    var phase := PhaseOf(db, p);
    var db' := Apply(H, lock, db, Commit(p));
    assert Current(H, db.rows, phase);
    forall org ensures Sealed(H, db'.rows, org) {
      assert Sealed(H, db.rows, org) && Sealed(H, db.rows, phase.q.org);
      AppendKeepsSealed(H, db.rows, phase.q, org);
    }
    forall s ensures Current(H, db'.rows, PhaseOf(db', s)) {
      assert Current(H, db.rows, PhaseOf(db, s));
      if s != p && PhaseOf(db, s) != Idle {
        assert lock(PhaseOf(db, s).q.org) != lock(phase.q.org);
        TipElsewhere(db.rows, phase.row, PhaseOf(db, s).q.org);
      }
    }
    assert forall s :: PhaseOf(db', s) != Idle ==> s != p && PhaseOf(db', s) == PhaseOf(db, s);
  }

  lemma StepKeepsInv(H: HashFn, lock: LockKey, db: Db, e: Event)
    requires Inv(H, lock, db)
    ensures Inv(H, lock, Apply(H, lock, db, e))
  {
    var db' := Apply(H, lock, db, e);
    if e.Commit? {
      if PhaseOf(db, e.p).Inserted? { CommitKeepsInv(H, lock, db, e.p); }
    } else {
      assert forall s :: s != e.p ==> PhaseOf(db', s) == PhaseOf(db, s);
      assert Current(H, db.rows, PhaseOf(db, e.p));
      forall s ensures Current(H, db'.rows, PhaseOf(db', s)) {
        assert Current(H, db.rows, PhaseOf(db, s));
      }
    }
  }

  /** Every interleaving of any number of appenders, from the empty table, keeps the invariant. */
  lemma {:induction false} RunKeepsInv(H: HashFn, lock: LockKey, events: seq<Event>)
    ensures Inv(H, lock, Run(H, lock, Db([], map[]), events))
  {
    if events != [] {
      RunKeepsInv(H, lock, events[..|events| - 1]);
      StepKeepsInv(H, lock, Run(H, lock, Db([], map[]), events[..|events| - 1]), events[|events| - 1]);
    }
  }

  /** After any interleaving, each organisation's committed rows carry exactly 1..n, each row's hash is
      computed over its predecessor's, a replay answers (True, None, n), and no pending insert can
      violate the unique index, whatever the lock keys of other organisations are. */
  lemma InterleavedChain(H: HashFn, lock: LockKey, events: seq<Event>, org: string)
    ensures var db := Run(H, lock, Db([], map[]), events);
      var o := OrgRows(db.rows, org);
      && Chain(db.rows, org) == o
      && (forall i :: 0 <= i < |o| ==> o[i].seqNo == i + 1 && o[i].previousHash == PrevHash(o, i) && RowOk(H, o, i))
      && IsVerdict(H, Chain(db.rows, org), true, None, |o|)
      && forall p :: PhaseOf(db, p).HasTip? ==>
           !IndexRejects(db, Seal(H, PhaseOf(db, p).q, PhaseOf(db, p).prev, PhaseOf(db, p).next))
  {
    RunKeepsInv(H, lock, events);
    var db := Run(H, lock, Db([], map[]), events);
    assert Sealed(H, db.rows, org);
    SealedTip(H, db.rows, org);
    forall p | PhaseOf(db, p).HasTip?
      ensures !IndexRejects(db, Seal(H, PhaseOf(db, p).q, PhaseOf(db, p).prev, PhaseOf(db, p).next))
    {
      IndexNeverFires(H, lock, db, p);
    }
  }

  // ---------- What is recorded is what was asked ----------

  ghost predicate Began(events: seq<Event>, q: Request) { exists i :: 0 <= i < |events| && events[i].Begin? && events[i].q == q }

  ghost predicate Asked(events: seq<Event>, r: Row) { exists q :: Began(events, q) && Carries(r, q) }

  /** Appenders carry requests they began with, and rows that record them. */
  ghost predicate Honest(events: seq<Event>, db: Db)
  {
    && (forall p :: PhaseOf(db, p) != Idle ==> Began(events, PhaseOf(db, p).q))
    && (forall p :: PhaseOf(db, p).Inserted? ==> Carries(PhaseOf(db, p).row, PhaseOf(db, p).q))
    && (forall r :: r in db.rows ==> Asked(events, r))
  }

  lemma BeganStays(events: seq<Event>, e: Event, q: Request)
    requires Began(events, q)
    ensures Began(events + [e], q)
  {
    var i :| 0 <= i < |events| && events[i].Begin? && events[i].q == q;
    assert (events + [e])[i] == events[i];
  }

  lemma HonestStays(events: seq<Event>, e: Event, db: Db)
    requires Honest(events, db)
    ensures Honest(events + [e], db)
  {
    forall p | PhaseOf(db, p) != Idle ensures Began(events + [e], PhaseOf(db, p).q) { BeganStays(events, e, PhaseOf(db, p).q); }
    forall r | r in db.rows ensures Asked(events + [e], r) {
      var q :| Began(events, q) && Carries(r, q);
      BeganStays(events, e, q);
    }
  }

  lemma EnterIs(db: Db, p: nat, phase: Phase)
    ensures forall s :: PhaseOf(Enter(db, p, phase), s) == if s == p then phase else PhaseOf(db, s)
  {
  }

  lemma HonestEnter(events: seq<Event>, db: Db, p: nat, phase: Phase)
    requires Honest(events, db)
    requires phase != Idle ==> Began(events, phase.q)
    requires phase.Inserted? ==> Carries(phase.row, phase.q)
    ensures Honest(events, Enter(db, p, phase))
  {
    EnterIs(db, p, phase);
  }

  lemma HonestCommit(events: seq<Event>, db: Db, p: nat)
    requires Honest(events, db) && PhaseOf(db, p).Inserted?
    ensures Honest(events, Db(db.rows + [PhaseOf(db, p).row], db.procs[p := Idle]))
  {
    var row, db' := PhaseOf(db, p).row, Db(db.rows + [PhaseOf(db, p).row], db.procs[p := Idle]);
    assert Asked(events, row) by { assert Began(events, PhaseOf(db, p).q); }
    forall s ensures PhaseOf(db', s) == if s == p then Idle else PhaseOf(db, s) {
    }
  }

  lemma StepKeepsHonest(H: HashFn, lock: LockKey, events: seq<Event>, db: Db, e: Event)
    requires Honest(events, db) && (e.Begin? ==> Began(events, e.q))
    ensures Honest(events, Apply(H, lock, db, e))
  {
    var phase := PhaseOf(db, e.p);
    match e
    case Begin(p, q) => HonestEnter(events, db, p, Locked(q));
    case ReadTip(p) =>
      if phase.Locked? { HonestEnter(events, db, p, HasTip(phase.q, Tip(db.rows, phase.q.org).0, Tip(db.rows, phase.q.org).1)); }
    case Insert(p) =>
      if phase.HasTip? {
        SealCarries(H, phase.q, phase.prev, phase.next);
        HonestEnter(events, db, p, Idle);
        HonestEnter(events, db, p, Inserted(phase.q, Seal(H, phase.q, phase.prev, phase.next)));
      }
    case Commit(p) => if phase.Inserted? { HonestCommit(events, db, p); }
    case Abort(p) => HonestEnter(events, db, p, Idle);
  }

  lemma {:induction false} RunIsHonest(H: HashFn, lock: LockKey, events: seq<Event>)
    ensures Honest(events, Run(H, lock, Db([], map[]), events))
  {
    if events != [] {
      var n := |events| - 1;
      var init, e := events[..n], events[n];
      RunIsHonest(H, lock, init);
      assert init + [e] == events;
      HonestStays(init, e, Run(H, lock, Db([], map[]), init));
      assert e.Begin? ==> Began(events, e.q);
      StepKeepsHonest(H, lock, events, Run(H, lock, Db([], map[]), init), e);
    }
  }

  /** After any interleaving every committed row carries, column by column, a request some appender began with. */
  lemma RowsWereAsked(H: HashFn, lock: LockKey, events: seq<Event>, r: Row)
    requires r in Run(H, lock, Db([], map[]), events).rows
    ensures exists i ::
      && 0 <= i < |events| && events[i].Begin?
      && var q := events[i].q;
         && r.org == q.org && r.action == q.action && r.actor == q.actor && r.trace == q.trace
         && r.outcome == q.outcome && r.details == q.details && r.unhashed == q.unhashed
  {
    RunIsHonest(H, lock, events);
    assert Asked(events, r);
    var q :| Began(events, q) && Carries(r, q);
    var i :| 0 <= i < |events| && events[i].Begin? && events[i].q == q;
  }
}
