/** The user record the store-owner and reseller tables show, and the cells
    both tables render from it the same way: the subscription status badge
    and the "used/total" usage counter. */
module Accounts {
  import opened Wrappers
  import opened Text

  /** The part of an account's `subscription` object the tables read. */
  datatype Subscription = Subscription(status: string)

  /** An account as the admin API returns it; every numeric field is
      required. `scansUsed` is the length of the `scans_used` list. */
  datatype Account = Account(
    id: string,
    fullName: string,
    verified: bool,
    subscription: Option<Subscription>,
    totalScans: int,
    scansUsed: nat,
    totalPromotions: int,
    usedPromotions: nat)

  /** The row key both tables number and patch by: `user._id`. */
  function AccountId(a: Account): string {
    a.id
  }

  /** The "Status" badge: `subscription?.status === "completed"`. */
  function ActivityLabel(subscription: Option<Subscription>): (r: string)
    ensures r == "Active" || r == "Inactive"
    ensures r == "Active" <==> subscription.Some? && subscription.value.status == "completed"
  {
    if subscription.Some? && subscription.value.status == "completed" then "Active" else "Inactive"
  }

  /** A usage cell, `subscription && total ? `${used}/${total}` : "N/A"`. */
  function UsageCell(subscribed: bool, used: int, total: int): string {
    if subscribed && total != 0 then IntToString(used) + "/" + IntToString(total) else "N/A"
  }

  /** The cell says "N/A" exactly when there is no subscription or the total
      is 0 (falsy); otherwise it shows both numbers around a slash, and the
      numbers read back from it are the ones the account holds. */
  lemma UsageCellContent(subscribed: bool, used: nat, total: int)
    ensures UsageCell(subscribed, used, total) == "N/A" <==> !subscribed || total == 0
    ensures subscribed && total > 0 ==>
              Split(UsageCell(subscribed, used, total), '/') == [NatToString(used), NatToString(total)]
    ensures subscribed && total > 0 ==>
              var parts := Split(UsageCell(subscribed, used, total), '/');
              ParseDigits(parts[0]) == used && ParseDigits(parts[1]) == total
  {
    var u := NatToString(used);
    if subscribed && total != 0 {
      var cell := UsageCell(subscribed, used, total);
      assert cell[0] == u[0];
      assert IsDigit(u[0]);
    }
    if subscribed && total > 0 {
      var t := NatToString(total);
      assert '/' !in u by {
        assert forall i :: 0 <= i < |u| ==> IsDigit(u[i]);
      }
      assert '/' !in t by {
        assert forall i :: 0 <= i < |t| ==> IsDigit(t[i]);
      }
      SplitAround(u, t, '/');
      SplitWithoutSeparator(u, '/');
      SplitWithoutSeparator(t, '/');
      NatToStringRoundTrip(used);
      NatToStringRoundTrip(total);
    }
  }
}
