/**
 * The credits ledger: an append-only table of signed credit deltas per email.
 * A balance is the sum of the deltas recorded for one email.  The table may be
 * missing (plugin not activated); every reader then sees no rows.
 */
module Ledger {
  import opened Options

  const STRIPE := "stripe"
  const MANUAL := "manual"

  /** One row of the `bt_credits_ledger` table. */
  datatype Entry = Entry(
    id: nat,                     // AUTO_INCREMENT primary key
    email: string,
    delta: int,
    source: string,
    externalId: Option<string>,  // nullable
    createdAt: int)              // DEFAULT CURRENT_TIMESTAMP, as Unix seconds

  /** The table as a value: whether it exists, its rows in insertion order, the next id. */
  datatype Table = Table(present: bool, rows: seq<Entry>, nextId: nat)

  /** `SUM(delta) ... WHERE email = x`, 0 for no rows (`COALESCE(SUM(delta), 0)`). */
  function SumDeltas(rows: seq<Entry>, email: string): int {
    if rows == [] then 0
    else (if rows[0].email == email then rows[0].delta else 0) + SumDeltas(rows[1..], email)
  }

  /** The rows recorded for one email, in order. */
  function RowsOf(rows: seq<Entry>, email: string): (r: seq<Entry>)
    ensures |r| <= |rows|
    ensures forall k :: 0 <= k < |r| ==> r[k].email == email
    ensures forall e :: multiset(r)[e] == if e.email == email then multiset(rows)[e] else 0
  {
    if rows == [] then []
    else
      assert rows == [rows[0]] + rows[1..];
      (if rows[0].email == email then [rows[0]] else []) + RowsOf(rows[1..], email)
  }

  /** The plain sum of the deltas of some rows. */
  function Total(rows: seq<Entry>): int {
    if rows == [] then 0 else rows[0].delta + Total(rows[1..])
  }

  /** The row a successful insert adds: next id, the given columns, the current time. */
  function NewRow(t: Table, email: string, delta: int, source: string, externalId: Option<string>, now: int): Entry {
    Entry(t.nextId, email, delta, source, externalId, now)
  }

  /** `$wpdb->insert`: appends one row when the table exists, and fails otherwise. */
  function AppendRow(t: Table, email: string, delta: int, source: string, externalId: Option<string>, now: int): (r: Table)
    ensures r.present == t.present
    ensures t.present ==> r.rows == t.rows + [NewRow(t, email, delta, source, externalId, now)] && r.nextId == t.nextId + 1
    ensures !t.present ==> r == t
  {
    if t.present then Table(true, t.rows + [NewRow(t, email, delta, source, externalId, now)], t.nextId + 1)
    else t
  }

  // ---------------------------------------------------------------------------
  // Balance laws

  /** Appending a row changes only the balance of that row's email, by its delta. */
  lemma {:induction false} SumDeltasAppend(rows: seq<Entry>, e: Entry, email: string)
    ensures SumDeltas(rows + [e], email) == SumDeltas(rows, email) + (if e.email == email then e.delta else 0)
  {
    if rows != [] {
      assert (rows + [e])[1..] == rows[1..] + [e];
      SumDeltasAppend(rows[1..], e, email);
    } else {
      assert [e][1..] == [];
    }
  }

  lemma {:induction false} SumDeltasConcat(a: seq<Entry>, b: seq<Entry>, email: string)
    ensures SumDeltas(a + b, email) == SumDeltas(a, email) + SumDeltas(b, email)
  {
    if a == [] {
      assert a + b == b;
    } else {
      assert (a + b)[1..] == a[1..] + b;
      SumDeltasConcat(a[1..], b, email);
    }
  }

  /**
   * A balance is the sum of the deltas of that email's own rows: rows of other
   * emails, wherever they are interleaved, do not contribute.
   */
  lemma {:induction false} SumDeltasIsTotalOfOwnRows(rows: seq<Entry>, email: string)
    ensures SumDeltas(rows, email) == Total(RowsOf(rows, email))
  {
    if rows != [] {
      SumDeltasIsTotalOfOwnRows(rows[1..], email);
      var head := if rows[0].email == email then [rows[0]] else [];
      TotalConcat(head, RowsOf(rows[1..], email));
    }
  }

  lemma {:induction false} TotalConcat(a: seq<Entry>, b: seq<Entry>)
    ensures Total(a + b) == Total(a) + Total(b)
  {
    if a == [] {
      assert a + b == b;
    } else {
      assert (a + b)[1..] == a[1..] + b;
      TotalConcat(a[1..], b);
    }
  }

  /** Two ledgers that hold the same rows for an email give it the same balance. */
  lemma SameOwnRowsSameBalance(rows1: seq<Entry>, rows2: seq<Entry>, email: string)
    requires RowsOf(rows1, email) == RowsOf(rows2, email)
    ensures SumDeltas(rows1, email) == SumDeltas(rows2, email)
  {
    SumDeltasIsTotalOfOwnRows(rows1, email);
    SumDeltasIsTotalOfOwnRows(rows2, email);
  }

  /** The balance does not depend on the order in which the rows were inserted. */
  lemma {:induction false} SumDeltasPermutation(a: seq<Entry>, b: seq<Entry>, email: string)
    requires multiset(a) == multiset(b)
    ensures SumDeltas(a, email) == SumDeltas(b, email)
    decreases |a|
  {
    if a == [] {
      assert |b| == |multiset(b)| == 0;
    } else {
      assert a[0] in multiset(b);
      var j :| 0 <= j < |b| && b[j] == a[0];
      var b' := b[..j] + b[j + 1..];
      RemoveAtMultiset(b, j);
      assert a == [a[0]] + a[1..];
      assert multiset(a[1..]) == multiset(b');
      SumDeltasPermutation(a[1..], b', email);
      SumDeltasRemoveAt(b, j, email);
    }
  }

  lemma RemoveAtMultiset(b: seq<Entry>, j: nat)
    requires j < |b|
    ensures multiset(b[..j] + b[j + 1..]) == multiset(b) - multiset{b[j]}
  {
    assert b == b[..j] + [b[j]] + b[j + 1..];
  }

  lemma SumDeltasRemoveAt(b: seq<Entry>, j: nat, email: string)
    requires j < |b|
    ensures SumDeltas(b, email) == SumDeltas(b[..j] + b[j + 1..], email) + SumDeltas([b[j]], email)
  {
    assert b == (b[..j] + [b[j]]) + b[j + 1..];
    SumDeltasConcat(b[..j] + [b[j]], b[j + 1..], email);
    SumDeltasConcat(b[..j], [b[j]], email);
    SumDeltasConcat(b[..j], b[j + 1..], email);
  }

  // ---------------------------------------------------------------------------
  // Ledger invariants

  /** Ids are positive, below the next id, and strictly increase in insertion order. */
  ghost predicate IdsOrdered(rows: seq<Entry>, nextId: nat) {
    && (forall k :: 0 <= k < |rows| ==> 1 <= rows[k].id < nextId)
    && (forall i, j :: 0 <= i < j < |rows| ==> rows[i].id < rows[j].id)
  }

  /** Every recorded delta is non-zero. */
  ghost predicate NonZeroDeltas(rows: seq<Entry>) {
    forall k :: 0 <= k < |rows| ==> rows[k].delta != 0
  }

  /** A `stripe` row with this external id. */
  ghost predicate IsStripeRowFor(e: Entry, externalId: string) {
    e.source == STRIPE && e.externalId == Some(externalId)
  }

  /** At most one `stripe` row per external id: no session was credited twice. */
  ghost predicate StripeUnique(rows: seq<Entry>) {
    forall i, j :: 0 <= i < j < |rows| && rows[i].source == STRIPE && rows[j].source == STRIPE
      ==> rows[i].externalId != rows[j].externalId
  }

  /** `SELECT id ... WHERE source='stripe' AND external_id=%s` finds a row. */
  predicate StripeRowExists(t: Table, externalId: string) {
    t.present && exists k | 0 <= k < |t.rows| :: t.rows[k].source == STRIPE && t.rows[k].externalId == Some(externalId)
  }

  /** The ledger table, updated in place by the webhook and the credit manager. */
  class Ledger {
    var present: bool
    var entries: seq<Entry>
    var nextId: nat

    ghost predicate Valid()
      reads this
    {
      nextId >= 1 && IdsOrdered(entries, nextId)
    }

    function Snapshot(): Table
      reads this
    {
      Table(present, entries, nextId)
    }

    /** A freshly installed (or, with `present == false`, never installed) table. */
    constructor (present: bool)
      ensures Valid()
      ensures Snapshot() == Table(present, [], 1)
    {
      this.present := present;
      entries := [];
      nextId := 1;
    }

    /** `$wpdb->insert`: true iff a row was appended; the id and timestamp are assigned here. */
    method Insert(email: string, delta: int, source: string, externalId: Option<string>, now: int) returns (ok: bool)
      requires Valid()
      modifies this
      ensures Valid()
      ensures ok == old(present)
      ensures Snapshot() == AppendRow(old(Snapshot()), email, delta, source, externalId, now)
    {
      ok := present;
      if ok {
        entries := entries + [Entry(nextId, email, delta, source, externalId, now)];
        nextId := nextId + 1;
      }
    }

    /** `SELECT COALESCE(SUM(delta), 0) ... WHERE email = %s`; a missing table reads as 0. */
    method SumFor(email: string) returns (total: int)
      ensures total == if present then SumDeltas(entries, email) else 0
    {
      total := 0;
      if !present {
        return;
      }
      var i := 0;
      while i < |entries|
        invariant 0 <= i <= |entries|
        invariant total == SumDeltas(entries[..i], email)
      {
        assert entries[..i + 1] == entries[..i] + [entries[i]];
        SumDeltasAppend(entries[..i], entries[i], email);
        total := total + if entries[i].email == email then entries[i].delta else 0;
        i := i + 1;
      }
      assert entries[..i] == entries;
    }

    /**
     * `SELECT id ... WHERE source='stripe' AND external_id=%s LIMIT 1`: the id of
     * a matching row, or none (also when the table is missing).
     */
    method FindStripeRow(externalId: string) returns (found: Option<nat>)
      ensures found.Some? <==> StripeRowExists(Snapshot(), externalId)
      ensures found.Some? ==> exists k | 0 <= k < |entries| :: IsStripeRowFor(entries[k], externalId) && entries[k].id == found.value
    {
      if !present {
        return None;
      }
      var i := 0;
      while i < |entries|
        invariant 0 <= i <= |entries|
        invariant forall k :: 0 <= k < i ==> !IsStripeRowFor(entries[k], externalId)
      {
        if entries[i].source == STRIPE && entries[i].externalId == Some(externalId) {
          assert IsStripeRowFor(entries[i], externalId);
          return Some(entries[i].id);
        }
        i := i + 1;
      }
      return None;
    }
  }
}
