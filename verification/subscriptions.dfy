/** The subscriptions page: the statistics cards computed from the fetched
    list, and the payment-method and status cells. */
module Subscriptions {
  import opened Wrappers
  import opened Http
  import opened Text
  import opened Lists

  const LoadFailed := "Failed to load subscriptions. Please try again."

  /** A subscription as the API sends it (user, plan and dates left out).
      `amount` is a whole number of currency units. */
  datatype SubscriptionRow = SubscriptionRow(
    id: string,
    amount: int,
    status: string,
    cardholder: Option<string>,
    expiryMonth: Option<string>,
    expiryYear: Option<string>)

  /** The four cards. */
  datatype Stats = Stats(totalRevenue: int, activeSubscriptions: nat, pendingPayments: nat, failedPayments: nat)

  function SubscriptionId(s: SubscriptionRow): string {
    s.id
  }

  function Amount(s: SubscriptionRow): int {
    s.amount
  }

  predicate IsCompleted(s: SubscriptionRow) {
    s.status == "completed"
  }

  predicate IsPending(s: SubscriptionRow) {
    s.status == "pending"
  }

  predicate IsFailed(s: SubscriptionRow) {
    s.status == "failed"
  }

  /** A status none of the cards counts, such as "refunded". */
  predicate IsUncounted(s: SubscriptionRow) {
    !IsCompleted(s) && !IsPending(s) && !IsFailed(s)
  }

  /** The statistics the fetch computes: revenue is the sum of the completed
      subscriptions' amounts, and each count is the number with that status. */
  function ComputeStats(rows: seq<SubscriptionRow>): Stats {
    Stats(Sum(Filter(rows, IsCompleted), Amount),
          Count(rows, IsCompleted), Count(rows, IsPending), Count(rows, IsFailed))
  }

  /** What the fetch leaves: the list and its cards when the body says
      `success`, otherwise only the error text. */
  datatype Loaded = Loaded(rows: seq<SubscriptionRow>, stats: Stats, error: Option<string>)

  function Load(before: Loaded, reply: Reply<(bool, seq<SubscriptionRow>)>): (r: Loaded)
    ensures r.error.None? ==> r.stats == ComputeStats(r.rows)
    ensures r.error.Some? ==> r.rows == before.rows && r.stats == before.stats && r.error == Some(LoadFailed)
    ensures r.error.None? <==> reply.Response? && reply.body.Json? && reply.body.payload.0
  {
    match TransportError(reply)
    case Some(_) => before.(error := Some(LoadFailed))
    case None =>
      var (success, data) := reply.body.payload;
      if !success then before.(error := Some(LoadFailed))
      else Loaded(data, ComputeStats(data), None)
  }

  /** The revenue, as an independent definition: every subscription adds its
      amount when completed and nothing otherwise. */
  function MaskedRevenue(rows: seq<SubscriptionRow>): int {
    if rows == [] then 0
    else (if IsCompleted(rows[0]) then rows[0].amount else 0) + MaskedRevenue(rows[1..])
  }

  /** Filtering then summing agrees with the masked sum. */
  lemma {:induction false} RevenueIsMaskedSum(rows: seq<SubscriptionRow>)
    ensures ComputeStats(rows).totalRevenue == MaskedRevenue(rows)
  {
    if rows != [] {
      RevenueIsMaskedSum(rows[1..]);
      if IsCompleted(rows[0]) {
        assert Filter(rows, IsCompleted) == [rows[0]] + Filter(rows[1..], IsCompleted);
      }
    }
  }

  /** The three counts and the uncounted statuses partition the list, so the
      cards count at most every subscription, and exactly all of them only
      when none has another status (such as "refunded"). */
  lemma {:induction false} CountsPartition(rows: seq<SubscriptionRow>)
    ensures var s := ComputeStats(rows);
      && s.activeSubscriptions + s.pendingPayments + s.failedPayments + Count(rows, IsUncounted) == |rows|
      && s.activeSubscriptions + s.pendingPayments + s.failedPayments <= |rows|
      && (s.activeSubscriptions + s.pendingPayments + s.failedPayments == |rows| <==>
            forall i :: 0 <= i < |rows| ==> !IsUncounted(rows[i]))
  {
    if rows != [] {
      CountsPartition(rows[1..]);
      assert Count(rows, IsUncounted) == 0 ==> forall i :: 0 <= i < |rows| ==> !IsUncounted(rows[i]);
      assert (forall i :: 0 <= i < |rows| ==> !IsUncounted(rows[i])) ==> Count(rows, IsUncounted) == 0 by {
        if Count(rows, IsUncounted) > 0 {
          var f := Filter(rows, IsUncounted);
          assert IsUncounted(f[0]) && f[0] in rows;
        }
      }
    }
  }

  /** Reordering the list, as sorting the table would, changes no card. */
  lemma StatsIgnoreOrder(xs: seq<SubscriptionRow>, ys: seq<SubscriptionRow>)
    requires multiset(xs) == multiset(ys)
    ensures ComputeStats(xs) == ComputeStats(ys)
  {
    FilterPermutation(xs, ys, IsCompleted);
    SumPermutation(Filter(xs, IsCompleted), Filter(ys, IsCompleted), Amount);
    CountPermutation(xs, ys, IsCompleted);
    CountPermutation(xs, ys, IsPending);
    CountPermutation(xs, ys, IsFailed);
  }

  /** With no negative amounts the revenue is not negative. */
  lemma RevenueNonNegative(rows: seq<SubscriptionRow>)
    requires forall i :: 0 <= i < |rows| ==> rows[i].amount >= 0
    ensures ComputeStats(rows).totalRevenue >= 0
  {
    MaskedNonNegative(rows);
    RevenueIsMaskedSum(rows);
  }

  /** The masked sum of amounts that are not negative is not negative. */
  lemma {:induction false} MaskedNonNegative(rows: seq<SubscriptionRow>)
    requires forall i :: 0 <= i < |rows| ==> rows[i].amount >= 0
    ensures MaskedRevenue(rows) >= 0
  {
    if rows != [] {
      MaskedNonNegative(rows[1..]);
    }
  }

  /** A JavaScript string is truthy when present and non-empty. */
  predicate Truthy(s: Option<string>) {
    s.Some? && s.value != ""
  }

  /** The "Payment Method" cell. */
  function PaymentLabel(s: SubscriptionRow): string {
    if Truthy(s.cardholder) && Truthy(s.expiryMonth) && Truthy(s.expiryYear) then
      "Card (" + s.cardholder.value + ", Exp: " + s.expiryMonth.value + "/" + s.expiryYear.value + ")"
    else "Card"
  }

  /** The cell is plain "Card" exactly when a card detail is missing or
      empty; otherwise it names the cardholder and the expiry. */
  lemma PaymentLabelSpec(s: SubscriptionRow)
    ensures PaymentLabel(s) == "Card" <==>
              !(Truthy(s.cardholder) && Truthy(s.expiryMonth) && Truthy(s.expiryYear))
    ensures PaymentLabel(s) != "Card" ==>
              var prefix := "Card (" + s.cardholder.value + ", Exp: ";
              |prefix| <= |PaymentLabel(s)| && PaymentLabel(s)[..|prefix|] == prefix
  {
    if Truthy(s.cardholder) && Truthy(s.expiryMonth) && Truthy(s.expiryYear) {
      assert |PaymentLabel(s)| > 4;
    }
  }

  /** The "Status" badge. */
  function StatusLabel(s: SubscriptionRow): (r: string)
    ensures |r| == |s.status|
    ensures s.status != "" ==> r[0] == UpperAscii(s.status[0]) && r[1..] == s.status[1..]
  {
    Capitalize(s.status)
  }

  /** Each of the four statuses the API declares reads with a capital first
      letter and the rest unchanged. */
  lemma StatusLabels(s: SubscriptionRow)
    ensures s.status == "completed" ==> StatusLabel(s) == "Completed"
    ensures s.status == "pending" ==> StatusLabel(s) == "Pending"
    ensures s.status == "failed" ==> StatusLabel(s) == "Failed"
    ensures s.status == "refunded" ==> StatusLabel(s) == "Refunded"
  {
  }
}
