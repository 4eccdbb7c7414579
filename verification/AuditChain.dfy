/** One organisation's hash-chained audit entries: how an entry is sealed, what the streaming
    verifier accepts, and what two accepted histories with the same tip have in common.
    SHA-256 is a parameter: any function into 64-character texts. */
module AuditChain {
  import opened Prelude
  import J = Json

  type HashFn = string -> string

  ghost predicate IsDigestFn(H: HashFn) { forall s :: |H(s)| == 64 }

  /** Sixty-four zeros: the hash before the first entry. */
  const GENESIS: string := "0000000000000000000000000000000000000000000000000000000000000000"

  /** The columns an entry's hash covers. */
  datatype Columns = Columns(
    org: string, action: string, actor: string, trace: string, outcome: string, seqNo: int,
    details: map<string, J.Value>)

  /** The columns it does not cover. */
  datatype Unhashed = Unhashed(
    actorType: string, agentId: Option<string>, resourceType: Option<string>, resourceId: Option<string>,
    parentEvent: Option<string>, sourceIp: Option<string>, userAgent: Option<string>)

  datatype Row = Row(
    org: string, action: string, actor: string, trace: string, outcome: string, seqNo: int,
    details: Option<map<string, J.Value>>, unhashed: Unhashed, previousHash: string, entryHash: string)
  {
    /** A missing details column and an empty one hash alike. */
    function Covered(): Columns
    {
      Columns(org, action, actor, trace, outcome, seqNo, if details.Some? then details.value else map[])
    }
  }

  /** A dictionary display: the keys with their values, position by position. */
  function Dict(keys: seq<string>, values: seq<J.Value>): map<string, J.Value>
    requires |keys| == |values|
  {
    if keys == [] then map[] else Dict(keys[1..], values[1..])[keys[0] := values[0]]
  }

  ghost predicate Distinct(keys: seq<string>) { forall i, j :: 0 <= i < j < |keys| ==> keys[i] != keys[j] }

  lemma {:induction false} DictInjective(keys: seq<string>, v: seq<J.Value>, w: seq<J.Value>)
    requires |keys| == |v| == |w| && Distinct(keys) && Dict(keys, v) == Dict(keys, w)
    ensures v == w
  {
    if keys != [] {
      var k, d, e := keys[0], Dict(keys[1..], v[1..]), Dict(keys[1..], w[1..]);
      DictKeys(keys[1..], v[1..]);
      DictKeys(keys[1..], w[1..]);
      assert k !in d && k !in e;
      assert d == Dict(keys, v) - {k} && e == Dict(keys, w) - {k};
      DictInjective(keys[1..], v[1..], w[1..]);
      assert Dict(keys, v)[k] == Dict(keys, w)[k];
      assert v == [v[0]] + v[1..] && w == [w[0]] + w[1..];
    }
  }

  lemma {:induction false} DictKeys(keys: seq<string>, v: seq<J.Value>)
    requires |keys| == |v|
    ensures forall k :: k in Dict(keys, v) <==> k in keys
  {
    if keys != [] { DictKeys(keys[1..], v[1..]); }
  }

  function ContentKeys(): (keys: seq<string>)
    ensures |keys| == 7 && Distinct(keys)
  {
    var keys := ["org_id", "action", "actor_id", "causal_trace_id", "outcome", "sequence_number", "details"];
    assert |keys[0]| == 6 && |keys[1]| == 6 && keys[0][0] == 'o' && keys[1][0] == 'a' && |keys[2]| == 8;
    assert |keys[3]| == 15 && |keys[5]| == 15 && keys[3][0] == 'c' && keys[5][0] == 's';
    assert |keys[4]| == 7 && |keys[6]| == 7 && keys[4][0] == 'o' && keys[6][0] == 'd';
    keys
  }

  function ContentValues(h: Columns): seq<J.Value>
  {
    [J.Str(h.org), J.Str(h.action), J.Str(h.actor), J.Str(h.trace), J.Str(h.outcome), J.Int(h.seqNo), J.Obj(h.details)]
  }

  /** The canonical content, member by member. */
  ghost predicate Members(m: map<string, J.Value>, h: Columns)
  {
    && m.Keys == {"org_id", "action", "actor_id", "causal_trace_id", "outcome", "sequence_number", "details"}
    && m["org_id"] == J.Str(h.org) && m["action"] == J.Str(h.action) && m["actor_id"] == J.Str(h.actor)
    && m["causal_trace_id"] == J.Str(h.trace) && m["outcome"] == J.Str(h.outcome)
    && m["sequence_number"] == J.Int(h.seqNo) && m["details"] == J.Obj(h.details)
  }

  function ContentValue(h: Columns): J.Value { J.Obj(Dict(ContentKeys(), ContentValues(h))) }

  /** The text an entry's hash is computed over. */
  function Preimage(h: Columns, prev: string): string
  {
    prev + ([':'] + J.Dump(ContentValue(h)))
  }

  lemma {:induction false} DictAt(keys: seq<string>, values: seq<J.Value>, i: nat)
    requires |keys| == |values| && Distinct(keys) && i < |keys|
    ensures keys[i] in Dict(keys, values) && Dict(keys, values)[keys[i]] == values[i]
    decreases |keys|
  {
    if i > 0 { DictAt(keys[1..], values[1..], i - 1); }
  }

  lemma SevenKeys(m: map<string, J.Value>, keys: seq<string>)
    requires |keys| == 7 && forall k :: k in m <==> k in keys
    ensures m.Keys == {keys[0], keys[1], keys[2], keys[3], keys[4], keys[5], keys[6]}
  {
  }

  lemma ContentMembers(h: Columns)
    ensures Members(Dict(ContentKeys(), ContentValues(h)), h)
  {
    var keys, values := ContentKeys(), ContentValues(h);
    var m := Dict(keys, values);
    DictKeys(keys, values);
    SevenKeys(m, keys);
    forall i: nat | i < 7 ensures keys[i] in m && m[keys[i]] == values[i] { DictAt(keys, values, i); }
  }

  /** The hashed text is the previous hash, a colon and the JSON text of an object with these seven members. */
  lemma PreimageText(h: Columns, prev: string)
    ensures exists m :: Members(m, h) && Preimage(h, prev) == prev + (":" + J.Text(J.Obj(m)))
  {
    ContentMembers(h);
    J.DumpIsText(ContentValue(h));
  }

  /** The 64-character prefix splits the text, and the canonical JSON after it determines every hashed column. */
  lemma PreimageInjective(h: Columns, p: string, g: Columns, q: string)
    requires |p| == |q| && Preimage(h, p) == Preimage(g, q)
    ensures h == g && p == q
  {
    assert p == Preimage(h, p)[..|p|] && q == Preimage(g, q)[..|q|];
    J.Cancel(p, [':'] + J.Dump(ContentValue(h)), [':'] + J.Dump(ContentValue(g)));
    J.Cancel([':'], J.Dump(ContentValue(h)), J.Dump(ContentValue(g)));
    J.DumpInjective(ContentValue(h), ContentValue(g));
    DictInjective(ContentKeys(), ContentValues(h), ContentValues(g));
    var v, w := ContentValues(h), ContentValues(g);
    assert v[0] == w[0] && v[1] == w[1] && v[2] == w[2] && v[3] == w[3] && v[4] == w[4] && v[5] == w[5] && v[6] == w[6];
  }

  // ---------- Chains ----------

  /** The stored hash before row `i`, which is what the verifier chains on. */
  function PrevHash(rows: seq<Row>, i: nat): string
    requires i <= |rows|
  {
    if i == 0 then GENESIS else rows[i - 1].entryHash
  }

  function TipHash(rows: seq<Row>): string { PrevHash(rows, |rows|) }

  predicate RowOk(H: HashFn, rows: seq<Row>, i: nat)
    requires i < |rows|
  {
    rows[i].entryHash == H(Preimage(rows[i].Covered(), PrevHash(rows, i)))
  }

  ghost predicate ChainOk(H: HashFn, rows: seq<Row>)
  {
    forall i :: 0 <= i < |rows| ==> RowOk(H, rows, i)
  }

  /** What a replay may answer: (True, None, count), or the sequence number and 1-based position
      of the first row whose recomputed hash differs. */
  ghost predicate IsVerdict(H: HashFn, rows: seq<Row>, valid: bool, brokenAt: Option<int>, checked: nat)
  {
    if valid then ChainOk(H, rows) && brokenAt == None && checked == |rows|
    else
      && 1 <= checked <= |rows|
      && brokenAt == Some(rows[checked - 1].seqNo)
      && !RowOk(H, rows, checked - 1)
      && forall i :: 0 <= i < checked - 1 ==> RowOk(H, rows, i)
  }

  /** The rows alone fix the verdict, so two replays with different batch sizes cannot disagree. */
  lemma VerdictUnique(H: HashFn, rows: seq<Row>, v: bool, b: Option<int>, c: nat, v': bool, b': Option<int>, c': nat)
    requires IsVerdict(H, rows, v, b, c) && IsVerdict(H, rows, v', b', c')
    ensures v == v' && b == b' && c == c'
  {
    var atC := 1 <= c <= |rows| && RowOk(H, rows, c - 1);
    var atC' := 1 <= c' <= |rows| && RowOk(H, rows, c' - 1);
  }

  // ---------- Tamper evidence ----------

  datatype Evidence =
    | SameHistory
    | Collision(x: string, y: string)
    | GenesisPreimage(x: string)

  ghost predicate IsEvidence(H: HashFn, a: seq<Row>, b: seq<Row>, e: Evidence)
  {
    match e
    case SameHistory => |a| == |b| && forall i :: 0 <= i < |a| ==> a[i].Covered() == b[i].Covered()
    case Collision(x, y) => x != y && H(x) == H(y)
    case GenesisPreimage(x) => H(x) == GENESIS
  }

  function LastPreimage(rows: seq<Row>): string
    requires rows != []
  {
    Preimage(rows[|rows| - 1].Covered(), PrevHash(rows, |rows| - 1))
  }

  /** Walks two accepted histories back from a shared tip until they differ. */
  function Compare(a: seq<Row>, b: seq<Row>): Evidence
  {
    if a == [] && b == [] then SameHistory
    else if a == [] then GenesisPreimage(LastPreimage(b))
    else if b == [] then GenesisPreimage(LastPreimage(a))
    else if LastPreimage(a) != LastPreimage(b) then Collision(LastPreimage(a), LastPreimage(b))
    else Compare(a[..|a| - 1], b[..|b| - 1])
  }

  lemma ChainPrefix(H: HashFn, rows: seq<Row>, k: nat)
    requires ChainOk(H, rows) && k <= |rows|
    ensures ChainOk(H, rows[..k]) && TipHash(rows[..k]) == PrevHash(rows, k)
  {
    forall i | 0 <= i < k ensures RowOk(H, rows[..k], i) { assert RowOk(H, rows, i); }
  }

  lemma PrevHashLength(H: HashFn, rows: seq<Row>, i: nat)
    requires IsDigestFn(H) && ChainOk(H, rows) && i <= |rows|
    ensures |PrevHash(rows, i)| == 64
  {
    if i > 0 { assert RowOk(H, rows, i - 1); }
  }

  lemma LastHash(H: HashFn, rows: seq<Row>)
    requires ChainOk(H, rows) && rows != []
    ensures H(LastPreimage(rows)) == TipHash(rows)
  {
    assert RowOk(H, rows, |rows| - 1);
  }

  lemma SameLast(H: HashFn, a: seq<Row>, b: seq<Row>)
    requires IsDigestFn(H) && ChainOk(H, a) && ChainOk(H, b) && a != [] && b != []
    requires LastPreimage(a) == LastPreimage(b)
    ensures a[|a| - 1].Covered() == b[|b| - 1].Covered() && PrevHash(a, |a| - 1) == PrevHash(b, |b| - 1)
  {
    var m, n := |a| - 1, |b| - 1;
    PrevHashLength(H, a, m);
    PrevHashLength(H, b, n);
    var p, q := PrevHash(a, m), PrevHash(b, n);
    PreimageInjective(a[m].Covered(), p, b[n].Covered(), q);
  }

  /** Equal last texts: the last rows agree, and the histories before them share a tip again. */
  lemma StepBack(H: HashFn, a: seq<Row>, b: seq<Row>)
    requires IsDigestFn(H) && ChainOk(H, a) && ChainOk(H, b) && a != [] && b != []
    requires LastPreimage(a) == LastPreimage(b)
    ensures a[|a| - 1].Covered() == b[|b| - 1].Covered()
    ensures ChainOk(H, a[..|a| - 1]) && ChainOk(H, b[..|b| - 1]) && TipHash(a[..|a| - 1]) == TipHash(b[..|b| - 1])
  {
    SameLast(H, a, b);
    ChainPrefix(H, a, |a| - 1);
    ChainPrefix(H, b, |b| - 1);
  }

  lemma EvidenceExtends(H: HashFn, a: seq<Row>, b: seq<Row>, e: Evidence)
    requires a != [] && b != [] && a[|a| - 1].Covered() == b[|b| - 1].Covered()
    requires IsEvidence(H, a[..|a| - 1], b[..|b| - 1], e)
    ensures IsEvidence(H, a, b, e)
  {
    if e.SameHistory? {
      forall i | 0 <= i < |a| ensures a[i].Covered() == b[i].Covered() {
        if i < |a| - 1 { assert a[..|a| - 1][i].Covered() == b[..|b| - 1][i].Covered(); }
      }
    }
  }

  /** Two row lists that both pass and end in the same hash agree on every hashed column, or
      `Compare` has found two texts with one hash, or a text hashing to the genesis constant. */
  lemma {:induction false} TamperEvidence(H: HashFn, a: seq<Row>, b: seq<Row>)
    requires IsDigestFn(H) && ChainOk(H, a) && ChainOk(H, b)
    requires TipHash(a) == TipHash(b)
    ensures IsEvidence(H, a, b, Compare(a, b))
    decreases |a|
  {
    if a != [] { LastHash(H, a); }
    if b != [] { LastHash(H, b); }
    if a != [] && b != [] && LastPreimage(a) == LastPreimage(b) {
      StepBack(H, a, b);
      TamperEvidence(H, a[..|a| - 1], b[..|b| - 1]);
      EvidenceExtends(H, a, b, Compare(a[..|a| - 1], b[..|b| - 1]));
    }
  }

  // ---------- The table ----------

  function OrgRows(rows: seq<Row>, org: string): seq<Row>
  {
    if rows == [] then []
    else OrgRows(rows[..|rows| - 1], org) + if rows[|rows| - 1].org == org then [rows[|rows| - 1]] else []
  }

  function InsertBySeq(row: Row, rows: seq<Row>): seq<Row>
  {
    if rows == [] || rows[|rows| - 1].seqNo <= row.seqNo then rows + [row]
    else InsertBySeq(row, rows[..|rows| - 1]) + [rows[|rows| - 1]]
  }

  /** ORDER BY sequence_number. */
  function OrderBySeq(rows: seq<Row>): seq<Row>
  {
    if rows == [] then [] else InsertBySeq(rows[|rows| - 1], OrderBySeq(rows[..|rows| - 1]))
  }

  ghost predicate Ordered(rows: seq<Row>)
  {
    forall i, j :: 0 <= i < j < |rows| ==> rows[i].seqNo <= rows[j].seqNo
  }

  lemma {:induction false} InsertKeepsOrder(row: Row, rows: seq<Row>, bound: int)
    requires Ordered(rows) && row.seqNo <= bound && forall i :: 0 <= i < |rows| ==> rows[i].seqNo <= bound
    ensures Ordered(InsertBySeq(row, rows))
    ensures forall i :: 0 <= i < |InsertBySeq(row, rows)| ==> InsertBySeq(row, rows)[i].seqNo <= bound
  {
    if rows != [] && rows[|rows| - 1].seqNo > row.seqNo {
      InsertKeepsOrder(row, rows[..|rows| - 1], rows[|rows| - 1].seqNo);
    }
  }

  lemma {:induction false} InsertKeepsRows(row: Row, rows: seq<Row>)
    ensures multiset(InsertBySeq(row, rows)) == multiset(rows) + multiset{row}
  {
    if rows != [] && rows[|rows| - 1].seqNo > row.seqNo {
      InsertKeepsRows(row, rows[..|rows| - 1]);
      assert rows == rows[..|rows| - 1] + [rows[|rows| - 1]];
    }
  }

  lemma {:induction false} SeqBound(rows: seq<Row>) returns (bound: int)
    ensures forall i :: 0 <= i < |rows| ==> rows[i].seqNo <= bound
  {
    bound := 0;
    for k := 0 to |rows|
      invariant forall i :: 0 <= i < k ==> rows[i].seqNo <= bound
    {
      if rows[k].seqNo > bound { bound := rows[k].seqNo; }
    }
  }

  lemma InsertSorts(row: Row, rows: seq<Row>)
    requires Ordered(rows)
    ensures Ordered(InsertBySeq(row, rows))
  {
    var bound := SeqBound(rows);
    InsertKeepsOrder(row, rows, if row.seqNo > bound then row.seqNo else bound);
  }

  /** The ordered selection is a sorted rearrangement of the stored rows. */
  lemma {:induction false} OrderBySeqSorts(rows: seq<Row>)
    ensures Ordered(OrderBySeq(rows)) && multiset(OrderBySeq(rows)) == multiset(rows)
  {
    if rows != [] {
      var init, last := rows[..|rows| - 1], rows[|rows| - 1];
      OrderBySeqSorts(init);
      InsertSorts(last, OrderBySeq(init));
      InsertKeepsRows(last, OrderBySeq(init));
      assert rows == init + [last];
    }
  }

  lemma InsertLast(row: Row, rows: seq<Row>)
    requires rows == [] || rows[|rows| - 1].seqNo <= row.seqNo
    ensures InsertBySeq(row, rows) == rows + [row]
  {
  }

  lemma {:induction false} OrderedStays(rows: seq<Row>)
    requires Ordered(rows)
    ensures OrderBySeq(rows) == rows
  {
    if rows != [] {
      var init, last := rows[..|rows| - 1], rows[|rows| - 1];
      OrderedStays(init);
      InsertLast(last, init);
    }
  }

  /** The rows of one organisation in chain order. */
  function Chain(rows: seq<Row>, org: string): seq<Row> { OrderBySeq(OrgRows(rows, org)) }

  /** What an append reads before it writes: the last entry's hash and the next sequence number. */
  function Tip(rows: seq<Row>, org: string): (string, int)
  {
    var c := Chain(rows, org);
    if c == [] then (GENESIS, 1) else (c[|c| - 1].entryHash, c[|c| - 1].seqNo + 1)
  }

  datatype Request = Request(
    org: string, action: string, actor: string, trace: string, outcome: string,
    details: Option<map<string, J.Value>>, unhashed: Unhashed)

  /** The row an append builds from what it read. */
  function Seal(H: HashFn, q: Request, prev: string, next: int): Row
  {
    var content := Columns(q.org, q.action, q.actor, q.trace, q.outcome, next,
                           if q.details.Some? then q.details.value else map[]);
    Row(q.org, q.action, q.actor, q.trace, q.outcome, next, q.details, q.unhashed, prev, H(Preimage(content, prev)))
  }

  /** The row carries what was asked to be recorded, column by column. */
  ghost predicate Carries(row: Row, q: Request)
  {
    && row.org == q.org && row.action == q.action && row.actor == q.actor && row.trace == q.trace
    && row.outcome == q.outcome && row.details == q.details && row.unhashed == q.unhashed
  }

  /** The row an append builds records the request as it was made, links to what was read, and its hash covers just
      the recorded columns. */
  lemma SealCarries(H: HashFn, q: Request, prev: string, next: int)
    ensures var row := Seal(H, q, prev, next);
      && Carries(row, q) && row.seqNo == next && row.previousHash == prev
      && row.entryHash == H(Preimage(Columns(q.org, q.action, q.actor, q.trace, q.outcome, next,
                                             if q.details.Some? then q.details.value else map[]), prev))
  {
  }

  ghost predicate Numbered(o: seq<Row>)
  {
    forall i :: 0 <= i < |o| ==> o[i].seqNo == i + 1 && o[i].previousHash == PrevHash(o, i)
  }

  /** The invariant of every table that appends alone have built. */
  ghost predicate Sealed(H: HashFn, rows: seq<Row>, org: string)
  {
    ChainOk(H, OrgRows(rows, org)) && Numbered(OrgRows(rows, org))
  }

  lemma SealedTip(H: HashFn, rows: seq<Row>, org: string)
    requires Sealed(H, rows, org)
    ensures Chain(rows, org) == OrgRows(rows, org)
    ensures Tip(rows, org) == (TipHash(OrgRows(rows, org)), |OrgRows(rows, org)| + 1)
  {
    OrderedStays(OrgRows(rows, org));
  }

  lemma OrgRowsAppend(rows: seq<Row>, row: Row, org: string)
    ensures OrgRows(rows + [row], org) == OrgRows(rows, org) + if org == row.org then [row] else []
  {
    assert (rows + [row])[..|rows|] == rows;
  }

  lemma ExtendChain(H: HashFn, o: seq<Row>, row: Row)
    requires ChainOk(H, o) && Numbered(o)
    requires row.entryHash == H(Preimage(row.Covered(), TipHash(o))) && row.seqNo == |o| + 1 && row.previousHash == TipHash(o)
    ensures ChainOk(H, o + [row]) && Numbered(o + [row])
  {
    var o' := o + [row];
    forall i | 0 <= i < |o'| ensures RowOk(H, o', i) && o'[i].seqNo == i + 1 && o'[i].previousHash == PrevHash(o', i) {
      assert PrevHash(o', i) == PrevHash(o, i);
      if i < |o| { assert RowOk(H, o, i); }
    }
  }

  /** Appending the row sealed over the tip keeps every organisation's chain sealed. */
  lemma AppendKeepsSealed(H: HashFn, rows: seq<Row>, q: Request, org: string)
    requires Sealed(H, rows, q.org) && Sealed(H, rows, org)
    ensures Sealed(H, rows + [Seal(H, q, Tip(rows, q.org).0, Tip(rows, q.org).1)], org)
  {
    SealedTip(H, rows, q.org);
    var row := Seal(H, q, Tip(rows, q.org).0, Tip(rows, q.org).1);
    OrgRowsAppend(rows, row, org);
    if org == q.org { ExtendChain(H, OrgRows(rows, org), row); }
    else { assert OrgRows(rows + [row], org) == OrgRows(rows, org); }
  }

  /** Replaying a table that appends alone have built answers (True, None, its true length). */
  lemma SealedVerdict(H: HashFn, rows: seq<Row>, org: string, valid: bool, brokenAt: Option<int>, checked: nat)
    requires Sealed(H, rows, org) && IsVerdict(H, Chain(rows, org), valid, brokenAt, checked)
    ensures valid && brokenAt == None && checked == |OrgRows(rows, org)|
  {
    SealedTip(H, rows, org);
    VerdictUnique(H, Chain(rows, org), valid, brokenAt, checked, true, None, |Chain(rows, org)|);
  }

  ghost predicate Passed(H: HashFn, rows: seq<Row>, n: nat)
    requires n <= |rows|
  {
    forall i :: 0 <= i < n ==> RowOk(H, rows, i)
  }

  /** Recomputes one streamed entry's hash over the stored hash before it. */
  method Recompute(H: HashFn, entry: Row, prev: string, ghost chain: seq<Row>, ghost i: nat) returns (same: bool)
    requires i < |chain| && entry == chain[i] && prev == PrevHash(chain, i) && Passed(H, chain, i)
    ensures if same then Passed(H, chain, i + 1) else IsVerdict(H, chain, false, Some(entry.seqNo), i + 1)
  {
    same := H(Preimage(entry.Covered(), prev)) == entry.entryHash;
    assert same <==> RowOk(H, chain, i);
  }

  /** Replays the rows of one fetch, stopping at the first whose hash differs. */
  method ReplayBatch(H: HashFn, batch: seq<Row>, prev: string, start: nat, ghost chain: seq<Row>)
      returns (same: bool, brokenAt: Option<int>, checked: nat, tip: string)
    requires start + |batch| <= |chain| && batch == chain[start..start + |batch|]
    requires prev == PrevHash(chain, start) && Passed(H, chain, start)
    ensures if same then checked == start + |batch| && Passed(H, chain, checked) && tip == PrevHash(chain, checked)
            else IsVerdict(H, chain, false, brokenAt, checked)
  {
    tip, checked := prev, start;
    for k := 0 to |batch|
      invariant checked == start + k && tip == PrevHash(chain, checked) && Passed(H, chain, checked)
    {
      var entry := batch[k];
      same := Recompute(H, entry, tip, chain, checked);
      checked := checked + 1;
      if !same { return false, Some(entry.seqNo), checked, tip; }
      tip := entry.entryHash;
    }
    return true, None, checked, tip;
  }

  /** The replay loop over a streamed result, fetching `size` rows at a time. */
  method Replay(H: HashFn, chain: seq<Row>, size: nat) returns (valid: bool, brokenAt: Option<int>, checked: nat)
    requires size > 0
    ensures IsVerdict(H, chain, valid, brokenAt, checked)
  {
    var prev := GENESIS;
    checked := 0;
    while checked < |chain|
      invariant checked <= |chain| && prev == PrevHash(chain, checked) && Passed(H, chain, checked)
      decreases |chain| - checked
    {
      var end := if checked + size <= |chain| then checked + size else |chain|;
      valid, brokenAt, checked, prev := ReplayBatch(H, chain[checked..end], prev, checked, chain);
      if !valid { return; }
    }
    return true, None, checked;
  }

  /** The audit_logs table and the two operations of its repository. */
  class AuditLog {
    const H: HashFn
    var rows: seq<Row>

    constructor (H: HashFn)
      ensures this.H == H && rows == []
    {
      this.H := H;
      rows := [];
    }

    /** One append with no other in flight: read the tip, seal, insert, commit. */
    method Append(q: Request) returns (row: Row)
      modifies this`rows
      ensures row == Seal(H, q, Tip(old(rows), q.org).0, Tip(old(rows), q.org).1)
      ensures row.org == q.org && row.action == q.action && row.actor == q.actor && row.trace == q.trace
      ensures row.outcome == q.outcome && row.details == q.details && row.unhashed == q.unhashed
      ensures row.previousHash == Tip(old(rows), q.org).0 && row.seqNo == Tip(old(rows), q.org).1
      ensures rows == old(rows) + [row]
      ensures forall org :: old(Sealed(H, rows, q.org) && Sealed(H, rows, org)) ==> Sealed(H, rows, org)
    {
      var tip := Tip(rows, q.org);
      row := Seal(H, q, tip.0, tip.1);
      forall org | Sealed(H, rows, q.org) && Sealed(H, rows, org) ensures Sealed(H, rows + [row], org) {
        AppendKeepsSealed(H, rows, q, org);
      }
      rows := rows + [row];
    }

    /** Replays one organisation's chain in batches (of 1000 when no size is given). */
    method VerifyChain(org: string, batchSize: nat) returns (valid: bool, brokenAt: Option<int>, checked: nat)
      ensures IsVerdict(H, Chain(rows, org), valid, brokenAt, checked)
    {
      valid, brokenAt, checked := Replay(H, Chain(rows, org), if batchSize == 0 then 1000 else batchSize);
    }
  }
}
