/**
 * The OUTBOX_EVENT table and the four statements of src/services/outboxService.js.
 * A table is the sequence of its rows in the order in which their transactions
 * committed. An id is drawn before the commit, so ids need not rise along it.
 */
module Outbox {
  import opened Wrappers
  import opened Sequences
  import opened Events

  const CLAIM_TIMEOUT_MS := 5 * 60 * 1000

  /** `bytes` is the length of the serialised message, fixed once the row exists. */
  datatype Row = Row(
    id: nat,
    aggregateId: nat,
    payload: Event,
    bytes: nat,
    publishedAt: Option<nat>,
    claimedAt: Option<nat>,
    attempts: nat)

  predicate Live(row: Row, maxAttempts: nat) {
    row.publishedAt.None? && row.attempts < maxAttempts
  }

  /** A claim that a relay must still respect at time `now`. */
  predicate FreshClaim(row: Row, now: nat) {
    row.claimedAt.Some? && row.claimedAt.value >= now - CLAIM_TIMEOUT_MS
  }

  predicate Claimable(row: Row, now: nat, maxAttempts: nat) {
    Live(row, maxAttempts) && !FreshClaim(row, now)
  }

  predicate Increasing(rows: seq<Row>) {
    forall i, j :: 0 <= i < j < |rows| ==> rows[i].id < rows[j].id
  }

  predicate DistinctIds(rows: seq<Row>) {
    forall i, j :: 0 <= i < j < |rows| ==> rows[i].id != rows[j].id
  }

  /** Same rows up to the three delivery columns. */
  predicate SameEntries(a: seq<Row>, b: seq<Row>) {
    && |a| == |b|
    && forall i :: 0 <= i < |a| ==>
         && a[i].id == b[i].id
         && a[i].aggregateId == b[i].aggregateId
         && a[i].payload == b[i].payload
         && a[i].bytes == b[i].bytes
  }

  predicate IdBefore(a: Row, b: Row) {
    a.id < b.id
  }

  /** `ORDER BY id`. */
  function ById(rows: seq<Row>): seq<Row> {
    Sort(rows, IdBefore)
  }

  function FirstClaimable(rows: seq<Row>, now: nat, maxAttempts: nat, limit: nat): seq<Row> {
    if rows == [] || limit == 0 then []
    else if Claimable(rows[0], now, maxAttempts) then [rows[0]] + FirstClaimable(rows[1..], now, maxAttempts, limit - 1)
    else FirstClaimable(rows[1..], now, maxAttempts, limit)
  }

  /** `id IN (SELECT ... ORDER BY id LIMIT limit)`: the rows a claim takes, in id order. */
  function Batch(rows: seq<Row>, now: nat, maxAttempts: nat, limit: nat): seq<Row> {
    FirstClaimable(ById(rows), now, maxAttempts, limit)
  }

  function Ids(rows: seq<Row>): set<nat> {
    set i | 0 <= i < |rows| :: rows[i].id
  }

  /** `UPDATE ... SET claimed_at = NOW() WHERE id IN ids`. */
  function StampClaims(rows: seq<Row>, ids: set<nat>, now: nat): (r: seq<Row>)
    ensures SameEntries(rows, r)
  {
    seq(|rows|, i requires 0 <= i < |rows| =>
      if rows[i].id in ids then rows[i].(claimedAt := Some(now)) else rows[i])
  }

  function MarkPublished(rows: seq<Row>, id: nat, now: nat): (r: seq<Row>)
    ensures SameEntries(rows, r)
  {
    seq(|rows|, i requires 0 <= i < |rows| =>
      if rows[i].id == id then rows[i].(publishedAt := Some(now), claimedAt := None) else rows[i])
  }

  function MarkFailed(rows: seq<Row>, id: nat): (r: seq<Row>)
    ensures SameEntries(rows, r)
  {
    seq(|rows|, i requires 0 <= i < |rows| =>
      if rows[i].id == id then rows[i].(attempts := rows[i].attempts + 1, claimedAt := None) else rows[i])
  }

  /** A claim holds for five minutes, to the millisecond. */
  lemma ClaimHoldsFiveMinutes(row: Row, now: nat, maxAttempts: nat)
    requires Live(row, maxAttempts) && row.claimedAt.Some?
    ensures Claimable(row, now, maxAttempts) <==> now > row.claimedAt.value + 300_000
  {
  }

  // ---------------------------------------------------------------- what a claim takes

  lemma SortedIncreasing(rows: seq<Row>)
    requires DistinctIds(rows)
    ensures Increasing(ById(rows))
  {
    SortSorts(rows, IdBefore);
  }

  lemma {:induction false} FirstMembers(rows: seq<Row>, now: nat, maxAttempts: nat, limit: nat)
    ensures |FirstClaimable(rows, now, maxAttempts, limit)| <= limit
    ensures forall b :: b in FirstClaimable(rows, now, maxAttempts, limit) ==> b in rows && Claimable(b, now, maxAttempts)
  {
    if rows != [] && limit != 0 {
      FirstMembers(rows[1..], now, maxAttempts, if Claimable(rows[0], now, maxAttempts) then limit - 1 else limit);
    }
  }

  lemma {:induction false} FirstIncreasing(rows: seq<Row>, now: nat, maxAttempts: nat, limit: nat)
    requires Increasing(rows)
    ensures Increasing(FirstClaimable(rows, now, maxAttempts, limit))
  {
    if rows != [] && limit != 0 {
      var rest := if Claimable(rows[0], now, maxAttempts) then limit - 1 else limit;
      var later := FirstClaimable(rows[1..], now, maxAttempts, rest);
      FirstIncreasing(rows[1..], now, maxAttempts, rest);
      FirstMembers(rows[1..], now, maxAttempts, rest);
      assert forall k :: 0 <= k < |later| ==> later[k] in rows[1..];
    }
  }

  lemma {:induction false} FirstTaken(rows: seq<Row>, now: nat, maxAttempts: nat, limit: nat)
    requires Increasing(rows)
    ensures var b := FirstClaimable(rows, now, maxAttempts, limit);
            forall x :: x in rows && Claimable(x, now, maxAttempts) ==>
              x in b || (|b| == limit && forall y :: y in b ==> y.id < x.id)
  {
    if rows != [] && limit != 0 {
      if Claimable(rows[0], now, maxAttempts) {
        FirstTaken(rows[1..], now, maxAttempts, limit - 1);
        FirstMembers(rows[1..], now, maxAttempts, limit - 1);
      } else {
        FirstTaken(rows[1..], now, maxAttempts, limit);
      }
    }
  }

  lemma BatchMembers(rows: seq<Row>, now: nat, maxAttempts: nat, limit: nat)
    ensures |Batch(rows, now, maxAttempts, limit)| <= limit
    ensures forall b :: b in Batch(rows, now, maxAttempts, limit) ==> b in rows && Claimable(b, now, maxAttempts)
  {
    SortMembers(rows, IdBefore);
    FirstMembers(ById(rows), now, maxAttempts, limit);
  }

  /** Every claimable row is taken, or the batch is full and the row comes after all of it. */
  lemma BatchTakesFirst(rows: seq<Row>, now: nat, maxAttempts: nat, limit: nat)
    requires DistinctIds(rows)
    ensures var b := Batch(rows, now, maxAttempts, limit);
            forall x :: x in rows && Claimable(x, now, maxAttempts) ==>
              x in b || (|b| == limit && forall y :: y in b ==> y.id < x.id)
  {
    SortMembers(rows, IdBefore);
    SortedIncreasing(rows);
    FirstTaken(ById(rows), now, maxAttempts, limit);
  }

  lemma BatchIncreasing(rows: seq<Row>, now: nat, maxAttempts: nat, limit: nat)
    requires DistinctIds(rows)
    ensures Increasing(Batch(rows, now, maxAttempts, limit))
  {
    SortedIncreasing(rows);
    FirstIncreasing(ById(rows), now, maxAttempts, limit);
  }

  /** Ids identify rows, so a row whose id is in the batch is the row in the batch. */
  lemma BatchedById(rows: seq<Row>, now: nat, maxAttempts: nat, limit: nat, x: Row)
    requires DistinctIds(rows) && x in rows
    requires x.id in Ids(Batch(rows, now, maxAttempts, limit))
    ensures x in Batch(rows, now, maxAttempts, limit)
  {
    var b := Batch(rows, now, maxAttempts, limit);
    BatchMembers(rows, now, maxAttempts, limit);
    var k :| 0 <= k < |b| && b[k].id == x.id;
    assert b[k] in rows;
  }
}
