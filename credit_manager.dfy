/**
 * The admin credit manager: a manual adjustment form that appends one signed
 * `manual` row to the ledger, and two read-only views, the 50 most recent rows
 * and the 100 highest balances.
 *
 * The WordPress context (capability, nonce, `sanitize_email`, `is_email`,
 * `current_time('timestamp')`, the user id and the database clock) is an input.
 */
module CreditManager {
  import opened Options
  import opened Php
  import opened Packages
  import opened Ledger
  import opened Sorting

  // ---------------------------------------------------------------------------
  // The adjustment form

  /** A request to the admin page; `email` and `delta` are the raw POST fields, `None` when absent. */
  datatype AdjustmentForm = AdjustmentForm(
    canManage: bool,   // current_user_can('manage_options')
    submitted: bool,   // isset($_POST['bt_adjust_credits'])
    nonceValid: bool,  // wp_verify_nonce(...)
    email: Option<string>,
    delta: Option<string>)

  datatype AdminContext = AdminContext(
    sanitizeEmail: string -> string,
    isEmail: string -> bool,
    wpTime: int,       // current_time('timestamp')
    userId: nat,       // get_current_user_id()
    now: int)          // the database's CURRENT_TIMESTAMP

  /**
   * `Unauthorized` ends the request (`wp_die`); `NotSubmitted` returns silently;
   * the others are the admin notices shown.
   */
  datatype AdjustOutcome =
    | Unauthorized
    | NotSubmitted
    | InvalidEmail
    | ZeroDelta
    | TableMissing
    | Adjusted(added: bool, amount: nat, newBalance: int)

  /** The email the form's field is normalised to. */
  function FormEmail(f: AdjustmentForm, ctx: AdminContext): string {
    ctx.sanitizeEmail(GetOr(f.email, ""))
  }

  /** `intval($_POST['delta'] ?? 0)`. */
  function FormDelta(f: AdjustmentForm): int {
    IntCast(GetOr(f.delta, "0"))
  }

  /** `'admin_' . current_time('timestamp') . '_' . get_current_user_id()`. */
  function AdminExternalId(wpTime: int, userId: nat): string {
    "admin_" + IntToString(wpTime) + "_" + IntToString(userId)
  }

  /** `bt_handle_credit_adjustment`: the new table and the outcome. */
  function Adjust(t: Table, f: AdjustmentForm, ctx: AdminContext): (r: (Table, AdjustOutcome))
    ensures !r.1.Adjusted? ==> r.0 == t
    // each failed guard, in the order the handler checks them, gives its own outcome
    ensures !f.canManage ==> r.1 == Unauthorized
    ensures f.canManage && !(f.submitted && f.nonceValid) ==> r.1 == NotSubmitted
    ensures (f.canManage && f.submitted && f.nonceValid
             && (IsEmpty(FormEmail(f, ctx)) || !ctx.isEmail(FormEmail(f, ctx)))) ==> r.1 == InvalidEmail
    ensures (f.canManage && f.submitted && f.nonceValid
             && !IsEmpty(FormEmail(f, ctx)) && ctx.isEmail(FormEmail(f, ctx))
             && FormDelta(f) == 0) ==> r.1 == ZeroDelta
    ensures (f.canManage && f.submitted && f.nonceValid
             && !IsEmpty(FormEmail(f, ctx)) && ctx.isEmail(FormEmail(f, ctx))
             && FormDelta(f) != 0 && !t.present) ==> r.1 == TableMissing
    ensures r.1.Adjusted? <==>
      && f.canManage && f.submitted && f.nonceValid
      && !IsEmpty(FormEmail(f, ctx)) && ctx.isEmail(FormEmail(f, ctx))
      && FormDelta(f) != 0 && t.present
    ensures r.1.Adjusted? ==>
      && r.0.present && r.0.nextId == t.nextId + 1
      && r.0.rows == t.rows + [Entry(t.nextId, FormEmail(f, ctx), FormDelta(f), MANUAL,
                                     Some(AdminExternalId(ctx.wpTime, ctx.userId)), ctx.now)]
    ensures r.1.Adjusted? ==>
      && (r.1.added <==> FormDelta(f) > 0)
      && r.1.amount > 0
      && (r.1.amount == FormDelta(f) || r.1.amount == -FormDelta(f))
      && r.1.newBalance == SumDeltas(t.rows, FormEmail(f, ctx)) + FormDelta(f)
  {
    if !f.canManage then (t, Unauthorized)
    else if !f.submitted || !f.nonceValid then (t, NotSubmitted)
    else
      var email := FormEmail(f, ctx);
      var delta := FormDelta(f);
      if IsEmpty(email) || !ctx.isEmail(email) then (t, InvalidEmail)
      else if delta == 0 then (t, ZeroDelta)
      else if !t.present then (t, TableMissing)
      else
        var t' := AppendRow(t, email, delta, MANUAL, Some(AdminExternalId(ctx.wpTime, ctx.userId)), ctx.now);
        SumDeltasAppend(t.rows, NewRow(t, email, delta, MANUAL, Some(AdminExternalId(ctx.wpTime, ctx.userId)), ctx.now), email);
        (t', Adjusted(delta > 0, Abs(delta), SumDeltas(t'.rows, email)))
  }

  /** The form handler against the shared ledger: checks, insert, then the balance query. */
  method AdjustCredits(ledger: Ledger, f: AdjustmentForm, ctx: AdminContext) returns (outcome: AdjustOutcome)
    requires ledger.Valid()
    modifies ledger
    ensures ledger.Valid()
    ensures (ledger.Snapshot(), outcome) == Adjust(old(ledger.Snapshot()), f, ctx)
  {
    if !f.canManage {
      return Unauthorized;
    }
    if !f.submitted || !f.nonceValid {
      return NotSubmitted;
    }
    var email := ctx.sanitizeEmail(GetOr(f.email, ""));
    var delta := IntCast(GetOr(f.delta, "0"));
    if IsEmpty(email) || !ctx.isEmail(email) {
      return InvalidEmail;
    }
    if delta == 0 {
      return ZeroDelta;
    }
    if !ledger.present {
      return TableMissing;
    }
    var _ := ledger.Insert(email, delta, MANUAL, Some(AdminExternalId(ctx.wpTime, ctx.userId)), ctx.now);
    var balance := ledger.SumFor(email);
    outcome := Adjusted(delta > 0, Abs(delta), balance);
  }

  // ---------------------------------------------------------------------------
  // Properties of the adjustment

  /** An adjustment changes only the adjusted email's balance, and by exactly the delta. */
  lemma AdjustBalance(t: Table, f: AdjustmentForm, ctx: AdminContext, other: string)
    ensures var r := Adjust(t, f, ctx);
      r.1.Adjusted? ==>
        && SumDeltas(r.0.rows, FormEmail(f, ctx)) == SumDeltas(t.rows, FormEmail(f, ctx)) + FormDelta(f)
        && r.1.newBalance == SumDeltas(r.0.rows, FormEmail(f, ctx))
        && (other != FormEmail(f, ctx) ==> SumDeltas(r.0.rows, other) == SumDeltas(t.rows, other))
  {
    var r := Adjust(t, f, ctx);
    if r.1.Adjusted? {
      var e := r.0.rows[|t.rows|];
      assert r.0.rows == t.rows + [e];
      SumDeltasAppend(t.rows, e, FormEmail(f, ctx));
      SumDeltasAppend(t.rows, e, other);
    }
  }

  /**
   * Manual adjustments are not deduplicated: submitting the same form twice
   * appends two rows and moves the balance by twice the delta.
   */
  lemma AdjustTwice(t: Table, f: AdjustmentForm, ctx1: AdminContext, ctx2: AdminContext)
    requires ctx1.sanitizeEmail == ctx2.sanitizeEmail && ctx1.isEmail == ctx2.isEmail
    ensures var r1 := Adjust(t, f, ctx1);
      var r2 := Adjust(r1.0, f, ctx2);
      r1.1.Adjusted? ==>
        && r2.1.Adjusted?
        && |r2.0.rows| == |t.rows| + 2
        && r2.1.newBalance == SumDeltas(t.rows, FormEmail(f, ctx1)) + 2 * FormDelta(f)
  {
  }

  /** A manual row never breaks the one-credit-per-session invariant of `stripe` rows. */
  lemma AdjustPreservesStripeUnique(t: Table, f: AdjustmentForm, ctx: AdminContext)
    requires StripeUnique(t.rows)
    ensures StripeUnique(Adjust(t, f, ctx).0.rows)
  {
    var r := Adjust(t, f, ctx);
    if r.1.Adjusted? {
      assert r.0.rows[|t.rows|].source == MANUAL;
    }
  }

  /** Every manual row carries a non-zero delta. */
  lemma AdjustPreservesNonZero(t: Table, f: AdjustmentForm, ctx: AdminContext)
    requires NonZeroDeltas(t.rows)
    ensures NonZeroDeltas(Adjust(t, f, ctx).0.rows)
  {
    var r := Adjust(t, f, ctx);
    if r.1.Adjusted? {
      assert r.0.rows[|t.rows|].delta == FormDelta(f);
    }
  }

  /** Removing credits is an ordinary negative row: the balance may go below zero. */
  lemma RemovalMayOverdraw()
    ensures var ctx := AdminContext(s => s, s => true, 100, 1, 100);
      var f := AdjustmentForm(true, true, true, Some("a@b.com"), Some("-3"));
      Adjust(Table(true, [], 1), f, ctx).1 == Adjusted(false, 3, -3)
  {
    var ctx := AdminContext(s => s, s => true, 100, 1, 100);
    var f := AdjustmentForm(true, true, true, Some("a@b.com"), Some("-3"));
    IntCastOfIntToString(-3);
    assert IntToString(-3) == "-3" by {
      assert NatToString(3) == "3";
    }
  }

  // ---------------------------------------------------------------------------
  // The views

  function CreatedAtKey(e: Entry): int {
    e.createdAt
  }

  /** `SELECT ... ORDER BY created_at DESC LIMIT 50`; nothing when the table is missing. */
  function RecentTransactions(t: Table): seq<Entry> {
    if t.present then TopDesc(t.rows, CreatedAtKey, 50) else []
  }

  /** The recent-transactions view: the 50 newest rows, newest first, none older than one left out. */
  lemma RecentTransactionsSpec(t: Table)
    ensures var r := RecentTransactions(t);
      && (!t.present ==> r == [])
      && (t.present ==>
        && |r| == (if |t.rows| <= 50 then |t.rows| else 50)
        && SortedDesc(r, CreatedAtKey)
        && multiset(r) <= multiset(t.rows)
        && forall y, z :: y in multiset(t.rows) - multiset(r) && z in r ==> y.createdAt <= z.createdAt)
  {
    if t.present {
      TopDescSpec(t.rows, CreatedAtKey, 50);
    }
  }

  /** One row of the balances view. */
  datatype UserBalance = UserBalance(email: string, balance: int)

  function BalanceKey(b: UserBalance): int {
    b.balance
  }

  /** The distinct emails of the rows (`GROUP BY email`). */
  function DistinctEmails(rows: seq<Entry>): (r: seq<string>)
    ensures forall e :: e in r <==> exists k | 0 <= k < |rows| :: rows[k].email == e
    ensures forall i, j :: 0 <= i < j < |r| ==> r[i] != r[j]
  {
    if rows == [] then []
    else
      var rest := DistinctEmails(rows[1..]);
      assert forall k :: 1 <= k < |rows| ==> rows[k] == rows[1..][k - 1];
      if rows[0].email in rest then rest else [rows[0].email] + rest
  }

  /** `SELECT email, SUM(delta) as balance ... GROUP BY email`. */
  function GroupBalances(rows: seq<Entry>): (r: seq<UserBalance>)
    ensures |r| == |DistinctEmails(rows)|
    ensures forall k :: 0 <= k < |r| ==> r[k] == UserBalance(DistinctEmails(rows)[k], SumDeltas(rows, DistinctEmails(rows)[k]))
  {
    var emails := DistinctEmails(rows);
    seq(|emails|, k requires 0 <= k < |emails| => UserBalance(emails[k], SumDeltas(rows, emails[k])))
  }

  /** `... ORDER BY balance DESC LIMIT 100`; nothing when the table is missing. */
  function UserBalances(t: Table): seq<UserBalance> {
    if t.present then TopDesc(GroupBalances(t.rows), BalanceKey, 100) else []
  }

  /** In a sequence without repeats every element occurs once. */
  lemma {:induction false} DistinctOccursOnce<T>(s: seq<T>, x: T)
    requires forall i, j :: 0 <= i < j < |s| ==> s[i] != s[j]
    ensures multiset(s)[x] <= 1
  {
    if s != [] {
      DistinctOccursOnce(s[1..], x);
      assert s == [s[0]] + s[1..];
      if s[0] == x {
        assert x !in s[1..];
      }
    }
  }

  /** An element at two positions occurs at least twice. */
  lemma OccursTwice<T>(s: seq<T>, i: nat, j: nat)
    requires i < j < |s| && s[i] == s[j]
    ensures multiset(s)[s[i]] >= 2
  {
    assert s == s[..i] + [s[i]] + s[i + 1..j] + [s[j]] + s[j + 1..];
  }

  /** `GROUP BY email` yields one row per email. */
  lemma GroupBalancesDistinct(rows: seq<Entry>)
    ensures var all := GroupBalances(rows);
      forall a, b :: 0 <= a < b < |all| ==> all[a].email != all[b].email && all[a] != all[b]
  {
    var all := GroupBalances(rows);
    var emails := DistinctEmails(rows);
    forall a, b | 0 <= a < b < |all|
      ensures all[a].email != all[b].email && all[a] != all[b]
    {
      assert emails[a] != emails[b];
    }
  }

  /** Each shown row is some email's group with its ledger balance. */
  lemma UserBalancesRows(t: Table)
    requires t.present
    ensures var r := UserBalances(t);
      forall k :: 0 <= k < |r| ==> r[k].balance == SumDeltas(t.rows, r[k].email) && r[k].email in DistinctEmails(t.rows)
  {
    var all := GroupBalances(t.rows);
    var r := UserBalances(t);
    TopDescDrawn(all, BalanceKey, 100);
    forall k | 0 <= k < |r|
      ensures r[k].balance == SumDeltas(t.rows, r[k].email) && r[k].email in DistinctEmails(t.rows)
    {
      assert r[k] in multiset(all);
      var m :| 0 <= m < |all| && all[m] == r[k];
    }
  }

  /** A sub-multiset of a list without repeats has no repeats either. */
  lemma SubMultisetDistinct<T>(all: seq<T>, r: seq<T>)
    requires forall a, b :: 0 <= a < b < |all| ==> all[a] != all[b]
    requires multiset(r) <= multiset(all)
    ensures forall i, j :: 0 <= i < j < |r| ==> r[i] != r[j]
  {
    forall i, j | 0 <= i < j < |r|
      ensures r[i] != r[j]
    {
      if r[i] == r[j] {
        OccursTwice(r, i, j);
        DistinctOccursOnce(all, r[i]);
        assert false;
      }
    }
  }

  /** No email is shown twice. */
  lemma UserBalancesDistinct(t: Table)
    requires t.present
    ensures var r := UserBalances(t);
      forall i, j :: 0 <= i < j < |r| ==> r[i].email != r[j].email
  {
    var all := GroupBalances(t.rows);
    var r := UserBalances(t);
    TopDescDrawn(all, BalanceKey, 100);
    GroupBalancesDistinct(t.rows);
    SubMultisetDistinct(all, r);
    UserBalancesRows(t);
  }

  /** No email left out has a higher balance than one shown. */
  lemma UserBalancesTop(t: Table)
    requires t.present
    ensures var r := UserBalances(t);
      forall e, z :: e in DistinctEmails(t.rows) && z in r && (forall k :: 0 <= k < |r| ==> r[k].email != e) ==>
        SumDeltas(t.rows, e) <= z.balance
  {
    var all := GroupBalances(t.rows);
    var emails := DistinctEmails(t.rows);
    var r := UserBalances(t);
    TopDescSpec(all, BalanceKey, 100);
    forall e, z | e in emails && z in r && (forall k :: 0 <= k < |r| ==> r[k].email != e)
      ensures SumDeltas(t.rows, e) <= z.balance
    {
      var m :| 0 <= m < |emails| && emails[m] == e;
      var y := all[m];
      assert y !in r;
      assert y in multiset(all) - multiset(r);
    }
  }

  /**
   * The balances view: one row per email, each with that email's ledger
   * balance, the highest first, at most 100, and no email left out has a
   * higher balance than one shown.
   */
  lemma UserBalancesSpec(t: Table)
    requires t.present
    ensures var r := UserBalances(t);
      && |r| == (if |DistinctEmails(t.rows)| <= 100 then |DistinctEmails(t.rows)| else 100)
      && SortedDesc(r, BalanceKey)
      && (forall k :: 0 <= k < |r| ==> r[k].balance == SumDeltas(t.rows, r[k].email) && r[k].email in DistinctEmails(t.rows))
      && (forall i, j :: 0 <= i < j < |r| ==> r[i].email != r[j].email)
      && forall e, z :: e in DistinctEmails(t.rows) && z in r && (forall k :: 0 <= k < |r| ==> r[k].email != e) ==>
           SumDeltas(t.rows, e) <= z.balance
  {
    TopDescSpec(GroupBalances(t.rows), BalanceKey, 100);
    UserBalancesRows(t);
    UserBalancesDistinct(t);
    UserBalancesTop(t);
  }
}
