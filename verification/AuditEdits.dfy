/** What a replay says of a chain someone has edited: rows removed, replaced, inserted or moved. */
module AuditEdits {
  import opened Prelude
  import opened AuditChain

  /** Whether a row fits the stored hash before it. */
  type Check = (Row, string) -> bool

  /** The verifier's own check. */
  function Recomputed(H: HashFn): Check { (row: Row, prev: string) => row.entryHash == H(Preimage(row.Covered(), prev)) }

  predicate Fits(ok: Check, rows: seq<Row>, i: nat)
    requires i < |rows|
  {
    ok(rows[i], PrevHash(rows, i))
  }

  ghost predicate AllFit(ok: Check, rows: seq<Row>) { forall i :: 0 <= i < |rows| ==> Fits(ok, rows, i) }

  /** What a replay with this check answers. */
  ghost predicate VerdictBy(ok: Check, rows: seq<Row>, valid: bool, brokenAt: Option<int>, checked: nat)
  {
    if valid then AllFit(ok, rows) && brokenAt == None && checked == |rows|
    else
      && 1 <= checked <= |rows|
      && brokenAt == Some(rows[checked - 1].seqNo)
      && !Fits(ok, rows, checked - 1)
      && forall i :: 0 <= i < checked - 1 ==> Fits(ok, rows, i)
  }

  lemma FitsIs(H: HashFn, rows: seq<Row>, i: nat)
    requires i < |rows|
    ensures Fits(Recomputed(H), rows, i) <==> RowOk(H, rows, i)
  {
  }

  lemma AllFitIs(H: HashFn, rows: seq<Row>)
    ensures AllFit(Recomputed(H), rows) <==> ChainOk(H, rows)
  {
    forall i | 0 <= i < |rows| ensures Fits(Recomputed(H), rows, i) <==> RowOk(H, rows, i) { FitsIs(H, rows, i); }
  }

  /** The verdicts of the verifier. */
  lemma VerdictIs(H: HashFn, rows: seq<Row>, valid: bool, brokenAt: Option<int>, checked: nat)
    requires VerdictBy(Recomputed(H), rows, valid, brokenAt, checked)
    ensures IsVerdict(H, rows, valid, brokenAt, checked)
  {
    forall i | 0 <= i < |rows| ensures Fits(Recomputed(H), rows, i) <==> RowOk(H, rows, i) { FitsIs(H, rows, i); }
  }

  /** The stored hash left behind after `rows`, starting from `prev`. */
  function TipAfter(prev: string, rows: seq<Row>): string { if rows == [] then prev else rows[|rows| - 1].entryHash }

  /** How many rows pass, replayed from `prev`, before the first that does not. */
  function FirstBroken(ok: Check, rows: seq<Row>, prev: string): (n: nat)
    ensures n <= |rows|
  {
    if rows == [] || !ok(rows[0], prev) then 0 else 1 + FirstBroken(ok, rows[1..], rows[0].entryHash)
  }

  lemma {:induction false} FirstBrokenIs(ok: Check, rows: seq<Row>, prev: string)
    ensures var n := FirstBroken(ok, rows, prev);
      && (forall k :: 0 <= k < n ==> ok(rows[k], TipAfter(prev, rows[..k])))
      && (n < |rows| ==> !ok(rows[n], TipAfter(prev, rows[..n])))
  {
    if rows != [] && ok(rows[0], prev) {
      var n := FirstBroken(ok, rows, prev);
      FirstBrokenIs(ok, rows[1..], rows[0].entryHash);
      forall k | 0 < k <= n ensures TipAfter(prev, rows[..k]) == TipAfter(rows[0].entryHash, rows[1..][..k - 1]) {
        assert rows[1..][..k - 1] == rows[1..k];
        if k > 1 { assert rows[1..k][k - 2] == rows[k - 1]; }
      }
    }
  }

  /** The replay's answer after `rows[i..j]` have been replaced by `mid`: the first row of `mid` that fails, or
      else the row after it if it does not hash over what `mid` left behind, or else success. */
  function Answer(ok: Check, rows: seq<Row>, i: nat, mid: seq<Row>, j: nat): (bool, Option<int>, nat)
    requires i <= j <= |rows|
  {
    var n := FirstBroken(ok, mid, PrevHash(rows, i));
    if n < |mid| then (false, Some(mid[n].seqNo), i + n + 1)
    else if j < |rows| && !ok(rows[j], TipAfter(PrevHash(rows, i), mid)) then (false, Some(rows[j].seqNo), i + |mid| + 1)
    else (true, None, i + |mid| + (|rows| - j))
  }

  function Splice(rows: seq<Row>, i: nat, mid: seq<Row>, j: nat): seq<Row>
    requires i <= j <= |rows|
  {
    rows[..i] + mid + rows[j..]
  }

  lemma {:induction false} BrokenAppend(ok: Check, a: seq<Row>, b: seq<Row>, prev: string)
    ensures FirstBroken(ok, a + b, prev) ==
      var n := FirstBroken(ok, a, prev); if n < |a| then n else |a| + FirstBroken(ok, b, TipAfter(prev, a))
  {
    if a == [] {
      assert a + b == b;
    } else {
      assert (a + b)[1..] == a[1..] + b;
      BrokenAppend(ok, a[1..], b, a[0].entryHash);
    }
  }

  /** What a replay answers whose first broken row is number `n`. */
  function AnswerAt(rows: seq<Row>, n: nat): (bool, Option<int>, nat)
  {
    if n < |rows| then (false, Some(rows[n].seqNo), n + 1) else (true, None, |rows|)
  }

  lemma TipIsPrev(rows: seq<Row>, k: nat)
    requires k <= |rows|
    ensures TipAfter(GENESIS, rows[..k]) == PrevHash(rows, k)
  {
  }

  lemma BrokenVerdict(ok: Check, rows: seq<Row>)
    ensures var (valid, brokenAt, checked) := AnswerAt(rows, FirstBroken(ok, rows, GENESIS));
      VerdictBy(ok, rows, valid, brokenAt, checked)
  {
    FirstBrokenIs(ok, rows, GENESIS);
    forall k | 0 <= k < |rows| ensures TipAfter(GENESIS, rows[..k]) == PrevHash(rows, k) { TipIsPrev(rows, k); }
  }

  lemma FittingChain(ok: Check, rows: seq<Row>)
    requires AllFit(ok, rows)
    ensures FirstBroken(ok, rows, GENESIS) == |rows|
  {
    var n := FirstBroken(ok, rows, GENESIS);
    FirstBrokenIs(ok, rows, GENESIS);
    if n < |rows| {
      TipIsPrev(rows, n);
      assert Fits(ok, rows, n);
    }
  }

  /** A chain that passes, cut at `k`. */
  lemma FittingParts(ok: Check, rows: seq<Row>, k: nat)
    requires AllFit(ok, rows) && k <= |rows|
    ensures FirstBroken(ok, rows[..k], GENESIS) == k && FirstBroken(ok, rows[k..], PrevHash(rows, k)) == |rows| - k
  {
    FittingChain(ok, rows);
    assert rows == rows[..k] + rows[k..];
    BrokenAppend(ok, rows[..k], rows[k..], GENESIS);
    TipIsPrev(rows, k);
  }

  /** After another row, only the first row of a fitting piece can fail. */
  lemma OnlyFirstCanFail(ok: Check, rows: seq<Row>, prev: string, other: string)
    requires FirstBroken(ok, rows, prev) == |rows|
    ensures FirstBroken(ok, rows, other) == if rows == [] || ok(rows[0], other) then |rows| else 0
  {
  }

  /** Anything at all, and then a fitting piece. */
  lemma ThenFitting(ok: Check, mid: seq<Row>, b: seq<Row>, prev: string, tip: string)
    requires FirstBroken(ok, b, prev) == |b|
    ensures FirstBroken(ok, mid + b, tip) ==
      var n := FirstBroken(ok, mid, tip);
      if n < |mid| then n else |mid| + if b == [] || ok(b[0], TipAfter(tip, mid)) then |b| else 0
  {
    OnlyFirstCanFail(ok, b, prev, TipAfter(tip, mid));
    BrokenAppend(ok, mid, b, tip);
  }

  lemma FittingThen(ok: Check, a: seq<Row>, rest: seq<Row>, n: nat)
    requires FirstBroken(ok, a, GENESIS) == |a| && n == FirstBroken(ok, rest, TipAfter(GENESIS, a))
    ensures FirstBroken(ok, a + rest, GENESIS) == |a| + n
  {
    BrokenAppend(ok, a, rest, GENESIS);
  }

  lemma SpliceBroken(ok: Check, rows: seq<Row>, i: nat, mid: seq<Row>, j: nat)
    requires AllFit(ok, rows) && i <= j <= |rows|
    ensures FirstBroken(ok, rows[..i] + (mid + rows[j..]), GENESIS) ==
      var n := FirstBroken(ok, mid, PrevHash(rows, i));
      i + if n < |mid| then n
          else |mid| + if j == |rows| || ok(rows[j], TipAfter(PrevHash(rows, i), mid)) then |rows| - j else 0
  {
    FittingParts(ok, rows, i);
    FittingParts(ok, rows, j);
    TipIsPrev(rows, i);
    ThenFitting(ok, mid, rows[j..], PrevHash(rows, j), PrevHash(rows, i));
    FittingThen(ok, rows[..i], mid + rows[j..], FirstBroken(ok, mid + rows[j..], PrevHash(rows, i)));
  }

  lemma SpliceAt(rows: seq<Row>, i: nat, mid: seq<Row>, j: nat)
    requires i <= j <= |rows|
    ensures Splice(rows, i, mid, j) == rows[..i] + (mid + rows[j..])
    ensures |Splice(rows, i, mid, j)| == i + |mid| + (|rows| - j)
    ensures forall n :: 0 <= n < |mid| ==> Splice(rows, i, mid, j)[i + n] == mid[n]
    ensures j < |rows| ==> Splice(rows, i, mid, j)[i + |mid|] == rows[j]
  {
  }

  lemma AnswerIsAt(ok: Check, rows: seq<Row>, i: nat, mid: seq<Row>, j: nat)
    requires AllFit(ok, rows) && i <= j <= |rows|
    ensures var s := Splice(rows, i, mid, j); Answer(ok, rows, i, mid, j) == AnswerAt(s, FirstBroken(ok, s, GENESIS))
  {
    SpliceBroken(ok, rows, i, mid, j);
    SpliceAt(rows, i, mid, j);
  }

  /** Whatever is cut out of a chain that passes, and whatever is put in its place, this is what the replay says. */
  lemma SpliceVerdict(ok: Check, rows: seq<Row>, i: nat, mid: seq<Row>, j: nat)
    requires AllFit(ok, rows) && i <= j <= |rows|
    ensures var (valid, brokenAt, checked) := Answer(ok, rows, i, mid, j);
      VerdictBy(ok, Splice(rows, i, mid, j), valid, brokenAt, checked)
  {
    AnswerIsAt(ok, rows, i, mid, j);
    BrokenVerdict(ok, Splice(rows, i, mid, j));
  }

  // ---------- Removing rows ----------

  /** Removing rows `i` to `j - 1` goes unnoticed if and only if nothing follows them or the next row's stored hash
      happens to fit the row before the gap; otherwise that next row is reported, at its new position. */
  lemma RemovalVerdict(H: HashFn, rows: seq<Row>, i: nat, j: nat)
    requires ChainOk(H, rows) && i < j <= |rows|
    ensures var rest := rows[..i] + rows[j..];
      if j == |rows| || H(Preimage(rows[j].Covered(), PrevHash(rows, i))) == rows[j].entryHash
      then IsVerdict(H, rest, true, None, |rest|)
      else IsVerdict(H, rest, false, Some(rows[j].seqNo), i + 1)
  {
    var rest, ok := rows[..i] + rows[j..], Recomputed(H);
    AllFitIs(H, rows);
    SpliceVerdict(ok, rows, i, [], j);
    assert Splice(rows, i, [], j) == rest;
    var (valid, brokenAt, checked) := Answer(ok, rows, i, [], j);
    VerdictIs(H, rest, valid, brokenAt, checked);
  }

  lemma ShorterIsNotSame(H: HashFn, a: seq<Row>, b: seq<Row>)
    requires IsDigestFn(H) && ChainOk(H, a) && ChainOk(H, b) && TipHash(a) == TipHash(b) && |a| != |b|
    ensures IsEvidence(H, a, b, Compare(a, b)) && !Compare(a, b).SameHistory?
  {
    TamperEvidence(H, a, b);
  }

  lemma RestTip(rows: seq<Row>, i: nat, j: nat)
    requires i < j < |rows|
    ensures |rows[..i] + rows[j..]| < |rows| && TipHash(rows[..i] + rows[j..]) == TipHash(rows)
  {
  }

  /** Only the newest rows can be removed unnoticed for free: any other removal that passes hands over a collision
      or a text hashing to the genesis constant. */
  lemma UnnoticedRemoval(H: HashFn, rows: seq<Row>, i: nat, j: nat)
    requires IsDigestFn(H) && ChainOk(H, rows) && i < j < |rows| && ChainOk(H, rows[..i] + rows[j..])
    ensures var rest := rows[..i] + rows[j..];
      IsEvidence(H, rows, rest, Compare(rows, rest)) && !Compare(rows, rest).SameHistory?
  {
    RestTip(rows, i, j);
    ShorterIsNotSame(H, rows, rows[..i] + rows[j..]);
  }

  // ---------- Replacing a row ----------

  /** Row `i` replaced in place by any row at all. It is reported unless its own stored hash fits it; then the next
      row is reported unless its stored hash fits too. So rewriting the stored hash along with the row moves the
      report one row on, and hides the edit of the newest row altogether. */
  lemma EditVerdict(H: HashFn, rows: seq<Row>, i: nat, edited: Row)
    requires ChainOk(H, rows) && i < |rows|
    ensures
      if H(Preimage(edited.Covered(), PrevHash(rows, i))) != edited.entryHash
      then IsVerdict(H, rows[i := edited], false, Some(edited.seqNo), i + 1)
      else if i + 1 < |rows| && H(Preimage(rows[i + 1].Covered(), edited.entryHash)) != rows[i + 1].entryHash
      then IsVerdict(H, rows[i := edited], false, Some(rows[i + 1].seqNo), i + 2)
      else IsVerdict(H, rows[i := edited], true, None, |rows|)
  {
    var ok := Recomputed(H);
    AllFitIs(H, rows);
    OneRow(ok, edited, PrevHash(rows, i));
    SpliceVerdict(ok, rows, i, [edited], i + 1);
    assert Splice(rows, i, [edited], i + 1) == rows[i := edited];
    var (valid, brokenAt, checked) := Answer(ok, rows, i, [edited], i + 1);
    VerdictIs(H, rows[i := edited], valid, brokenAt, checked);
  }

  lemma OneRow(ok: Check, row: Row, prev: string)
    ensures FirstBroken(ok, [row], prev) == (if ok(row, prev) then 1 else 0) && TipAfter(prev, [row]) == row.entryHash
  {
    assert [row][1..] == [];
  }

  lemma DifferentRowIsNotSame(H: HashFn, a: seq<Row>, b: seq<Row>, i: nat)
    requires IsDigestFn(H) && ChainOk(H, a) && ChainOk(H, b) && TipHash(a) == TipHash(b)
    requires i < |a| == |b| && a[i].Covered() != b[i].Covered()
    ensures IsEvidence(H, a, b, Compare(a, b)) && !Compare(a, b).SameHistory?
  {
    TamperEvidence(H, a, b);
  }

  /** An edit of a hashed column that passes, of any row but the newest or with the stored hash kept, hands over a
      collision or a text hashing to the genesis constant. */
  lemma UnnoticedEdit(H: HashFn, rows: seq<Row>, i: nat, edited: Row)
    requires IsDigestFn(H) && ChainOk(H, rows) && i < |rows| && ChainOk(H, rows[i := edited])
    requires edited.Covered() != rows[i].Covered() && (i + 1 < |rows| || edited.entryHash == rows[i].entryHash)
    ensures var after := rows[i := edited];
      IsEvidence(H, rows, after, Compare(rows, after)) && !Compare(rows, after).SameHistory?
  {
    DifferentRowIsNotSame(H, rows, rows[i := edited], i);
  }

  // ---------- Editing the sequence number ----------

  /** Where a row lands after an edit: in place, or first, or last. The unique index leaves no other numbers. */
  function Landed(o: seq<Row>, i: nat, edited: Row, n: nat): seq<Row>
    requires i < n <= |o|
  {
    if edited.seqNo == i + 1 then o[..i] + [edited] + o[i + 1..n]
    else if edited.seqNo <= 0 then [edited] + (o[..i] + o[i + 1..n])
    else o[..i] + o[i + 1..n] + [edited]
  }

  lemma InsertBeforeLast(row: Row, rows: seq<Row>, last: Row)
    requires last.seqNo > row.seqNo && (rows == [] || rows[|rows| - 1].seqNo <= row.seqNo)
    ensures InsertBySeq(row, rows + [last]) == rows + [row] + [last]
  {
    assert (rows + [last])[..|rows|] == rows;
    InsertLast(row, rows);
  }

  lemma {:induction false} InsertFirst(row: Row, rows: seq<Row>)
    requires forall k :: 0 <= k < |rows| ==> rows[k].seqNo > row.seqNo
    ensures InsertBySeq(row, rows) == [row] + rows
  {
    if rows != [] {
      var init, last := rows[..|rows| - 1], rows[|rows| - 1];
      InsertFirst(row, init);
      assert rows == init + [last];
    }
  }

  lemma OrderSnoc(rows: seq<Row>, row: Row)
    ensures OrderBySeq(rows + [row]) == InsertBySeq(row, OrderBySeq(rows))
  {
    assert (rows + [row])[..|rows|] == rows;
  }

  /** The rows carry 1 to n, and the edited one none of the others' numbers. */
  ghost predicate Admitted(o: seq<Row>, i: nat, edited: Row)
  {
    && i < |o| && (forall k :: 0 <= k < |o| ==> o[k].seqNo == k + 1)
    && (edited.seqNo <= 0 || edited.seqNo == i + 1 || edited.seqNo > |o|)
  }

  lemma LandedAlone(o: seq<Row>, i: nat, edited: Row)
    requires i < |o|
    ensures Landed(o, i, edited, i + 1) == if edited.seqNo <= 0 then [edited] + o[..i] else o[..i] + [edited]
  {
    assert o[i + 1..i + 1] == [] && o[..i] + [] == o[..i];
  }

  lemma EditedLands(o: seq<Row>, i: nat, edited: Row)
    requires Admitted(o, i, edited)
    ensures OrderBySeq(o[..i] + [edited]) == Landed(o, i, edited, i + 1)
  {
    var before := o[..i];
    OrderedStays(before);
    OrderSnoc(before, edited);
    LandedAlone(o, i, edited);
    if edited.seqNo <= 0 { InsertFirst(edited, before); } else { InsertLast(edited, before); }
  }

  lemma LandedNext(o: seq<Row>, i: nat, edited: Row, n: nat)
    requires i + 1 < n <= |o|
    ensures o[i + 1..n] == o[i + 1..n - 1] + [o[n - 1]]
    ensures o[..i] + o[i + 1..n] == o[..i] + o[i + 1..n - 1] + [o[n - 1]]
    ensures edited.seqNo <= 0 || edited.seqNo == i + 1 ==> Landed(o, i, edited, n) == Landed(o, i, edited, n - 1) + [o[n - 1]]
  {
    var x, y := o[i + 1..n - 1], [o[n - 1]];
    assert o[i + 1..n] == x + y;
    assert o[..i] + (x + y) == o[..i] + x + y;
    assert [edited] + (o[..i] + x + y) == [edited] + (o[..i] + x) + y;
    assert o[..i] + [edited] + (x + y) == o[..i] + [edited] + x + y;
  }

  lemma NextLandsLast(o: seq<Row>, i: nat, edited: Row, n: nat)
    requires Admitted(o, i, edited) && i + 1 < n <= |o| && edited.seqNo <= i + 1
    ensures InsertBySeq(o[n - 1], Landed(o, i, edited, n - 1)) == Landed(o, i, edited, n)
  {
    LandedNext(o, i, edited, n);
    InsertLast(o[n - 1], Landed(o, i, edited, n - 1));
  }

  lemma NextLandsBefore(o: seq<Row>, i: nat, edited: Row, n: nat)
    requires Admitted(o, i, edited) && i + 1 < n <= |o| && edited.seqNo > |o|
    ensures InsertBySeq(o[n - 1], Landed(o, i, edited, n - 1)) == Landed(o, i, edited, n)
  {
    LandedNext(o, i, edited, n);
    InsertBeforeLast(o[n - 1], o[..i] + o[i + 1..n - 1], edited);
  }

  lemma NextLands(o: seq<Row>, i: nat, edited: Row, n: nat)
    requires Admitted(o, i, edited) && i + 1 < n <= |o|
    ensures InsertBySeq(o[n - 1], Landed(o, i, edited, n - 1)) == Landed(o, i, edited, n)
  {
    if edited.seqNo <= i + 1 { NextLandsLast(o, i, edited, n); } else { NextLandsBefore(o, i, edited, n); }
  }

  /** The first `n` rows, the edited one among them. */
  function EditedUpTo(o: seq<Row>, i: nat, edited: Row, n: nat): seq<Row>
    requires i < n <= |o|
  {
    o[..i] + [edited] + o[i + 1..n]
  }

  lemma EditedNext(o: seq<Row>, i: nat, edited: Row, n: nat)
    requires i + 1 < n <= |o|
    ensures EditedUpTo(o, i, edited, n) == EditedUpTo(o, i, edited, n - 1) + [o[n - 1]]
  {
    assert o[i + 1..n] == o[i + 1..n - 1] + [o[n - 1]];
  }

  lemma {:induction false} AllLand(o: seq<Row>, i: nat, edited: Row, n: nat)
    requires Admitted(o, i, edited) && i < n <= |o|
    ensures OrderBySeq(EditedUpTo(o, i, edited, n)) == Landed(o, i, edited, n)
    decreases n
  {
    if n == i + 1 {
      EditedLands(o, i, edited);
      assert EditedUpTo(o, i, edited, n) == o[..i] + [edited];
    } else {
      AllLand(o, i, edited, n - 1);
      NextLands(o, i, edited, n);
      OrderSnoc(EditedUpTo(o, i, edited, n - 1), o[n - 1]);
      EditedNext(o, i, edited, n);
    }
  }

  /** The answer for a row replaced by any row of the organisation, sequence number included. */
  function EditAnswer(ok: Check, o: seq<Row>, i: nat, edited: Row): (bool, Option<int>, nat)
    requires i < |o|
  {
    if edited.seqNo == i + 1 then Answer(ok, o, i, [edited], i + 1)
    else if edited.seqNo <= 0 then Answer(ok, o, 0, [edited] + o[..i], i + 1)
    else Answer(ok, o, i, o[i + 1..] + [edited], |o|)
  }

  lemma LandsAsSplice(o: seq<Row>, i: nat, edited: Row)
    requires i < |o|
    ensures Landed(o, i, edited, |o|) ==
      if edited.seqNo == i + 1 then Splice(o, i, [edited], i + 1)
      else if edited.seqNo <= 0 then Splice(o, 0, [edited] + o[..i], i + 1)
      else Splice(o, i, o[i + 1..] + [edited], |o|)
  {
    assert o[i + 1..|o|] == o[i + 1..] && o[..0] == [] && o[|o|..] == [];
  }

  lemma LandedVerdict(ok: Check, o: seq<Row>, i: nat, edited: Row)
    requires AllFit(ok, o) && i < |o|
    ensures var (valid, brokenAt, checked) := EditAnswer(ok, o, i, edited);
      VerdictBy(ok, Landed(o, i, edited, |o|), valid, brokenAt, checked)
  {
    LandsAsSplice(o, i, edited);
    if edited.seqNo == i + 1 { SpliceVerdict(ok, o, i, [edited], i + 1); }
    else if edited.seqNo <= 0 { SpliceVerdict(ok, o, 0, [edited] + o[..i], i + 1); }
    else { SpliceVerdict(ok, o, i, o[i + 1..] + [edited], |o|); }
  }

  lemma EditedOrder(o: seq<Row>, i: nat, edited: Row)
    requires Admitted(o, i, edited)
    ensures OrderBySeq(o[i := edited]) == Landed(o, i, edited, |o|)
  {
    AllLand(o, i, edited, |o|);
    EditedAll(o, i, edited);
  }

  lemma EditedAll(o: seq<Row>, i: nat, edited: Row)
    requires i < |o|
    ensures EditedUpTo(o, i, edited, |o|) == o[i := edited]
  {
  }

  /** The replay of a table that appends alone have built, after one row of an organisation has been replaced by
      any row of that organisation the unique index admits: the row stays in place, or comes first if its number is
      now zero or less, or last if it is past the end, and the replay answers accordingly. */
  lemma AnyEditVerdict(H: HashFn, rows: seq<Row>, org: string, i: nat, edited: Row)
    requires Sealed(H, rows, org) && i < |OrgRows(rows, org)|
    requires forall k :: 0 <= k < |OrgRows(rows, org)| && k != i ==> OrgRows(rows, org)[k].seqNo != edited.seqNo
    ensures var o := OrgRows(rows, org);
      var (valid, brokenAt, checked) := EditAnswer(Recomputed(H), o, i, edited);
      OrderBySeq(o[i := edited]) == Landed(o, i, edited, |o|) && IsVerdict(H, OrderBySeq(o[i := edited]), valid, brokenAt, checked)
  {
    var o := OrgRows(rows, org);
    NumberIsFree(o, i, edited);
    EditedOrder(o, i, edited);
    AllFitIs(H, o);
    LandedVerdict(Recomputed(H), o, i, edited);
    var (valid, brokenAt, checked) := EditAnswer(Recomputed(H), o, i, edited);
    VerdictIs(H, Landed(o, i, edited, |o|), valid, brokenAt, checked);
  }

  lemma NumberIsFree(o: seq<Row>, i: nat, edited: Row)
    requires Numbered(o) && i < |o| && forall k :: 0 <= k < |o| && k != i ==> o[k].seqNo != edited.seqNo
    ensures Admitted(o, i, edited)
  {
    var k := edited.seqNo - 1;
    if 0 <= k < |o| { assert o[k].seqNo == edited.seqNo; }
  }
}
