/** The settings page's API-key table: the per-key visibility toggle and the
    status cards counted over the key list. */
module Settings {
  import opened Lists

  /** The status union an API key's record allows. */
  datatype KeyStatus = Active | Inactive | Expired

  /** An API key row (descriptive fields left out). */
  datatype ApiKey = ApiKey(srNo: int, name: string, status: KeyStatus)

  /** `showApiKey`: visibility by key number; a missing entry reads as
      hidden, as `undefined` is falsy. */
  type Visibility = map<int, bool>

  predicate IsVisible(vis: Visibility, srNo: int) {
    srNo in vis && vis[srNo]
  }

  /** `toggleApiKeyVisibility(srNo)`: `{...prev, [srNo]: !prev[srNo]}`. */
  function Toggle(vis: Visibility, srNo: int): (r: Visibility)
    ensures srNo in r
    ensures IsVisible(r, srNo) <==> !IsVisible(vis, srNo)
    ensures forall k :: k != srNo ==> (k in r <==> k in vis)
    ensures forall k :: k in vis && k != srNo ==> r[k] == vis[k]
  {
    vis[srNo := !IsVisible(vis, srNo)]
  }

  /** The toggle button's icon. */
  datatype Icon = Eye | EyeOff

  /** EyeOff (hide) while the key is shown, Eye (show) otherwise. */
  function ToggleIcon(vis: Visibility, srNo: int): (i: Icon)
    ensures i == EyeOff <==> IsVisible(vis, srNo)
  {
    if IsVisible(vis, srNo) then EyeOff else Eye
  }

  /** A first toggle shows a key, and toggling twice restores its visibility
      and the icon, while no other key's entry ever changes. */
  lemma ToggleTwice(vis: Visibility, srNo: int)
    ensures srNo !in vis ==> IsVisible(Toggle(vis, srNo), srNo)
    ensures IsVisible(Toggle(Toggle(vis, srNo), srNo), srNo) == IsVisible(vis, srNo)
    ensures ToggleIcon(Toggle(Toggle(vis, srNo), srNo), srNo) == ToggleIcon(vis, srNo)
    ensures forall k :: k != srNo ==>
              (k in Toggle(Toggle(vis, srNo), srNo) <==> k in vis)
              && (k in vis ==> Toggle(Toggle(vis, srNo), srNo)[k] == vis[k])
  {
  }

  /** The visibility after a sequence of clicks. */
  function ToggleAll(vis: Visibility, clicks: seq<int>): Visibility
    decreases |clicks|
  {
    if clicks == [] then vis else ToggleAll(Toggle(vis, clicks[0]), clicks[1..])
  }

  /** After any sequence of clicks a key is shown exactly when it started
      shown and was clicked an even number of times, or started hidden and
      was clicked an odd number of times. */
  lemma {:induction false} ToggleParity(vis: Visibility, clicks: seq<int>, srNo: int)
    ensures IsVisible(ToggleAll(vis, clicks), srNo) ==
            (IsVisible(vis, srNo) != (multiset(clicks)[srNo] % 2 == 1))
    decreases |clicks|
  {
    if clicks != [] {
      ToggleParity(Toggle(vis, clicks[0]), clicks[1..], srNo);
      assert clicks == [clicks[0]] + clicks[1..];
      assert multiset(clicks)[srNo] ==
             multiset([clicks[0]])[srNo] + multiset(clicks[1..])[srNo];
    }
  }

  function IsActive(k: ApiKey): bool {
    k.status == Active
  }

  function IsInactive(k: ApiKey): bool {
    k.status == Inactive
  }

  function IsExpired(k: ApiKey): bool {
    k.status == Expired
  }

  /** The status cards: total, active, inactive and expired. */
  datatype KeyCards = KeyCards(total: nat, active: nat, inactive: nat, expired: nat)

  function Cards(keys: seq<ApiKey>): KeyCards {
    KeyCards(|keys|, Count(keys, IsActive), Count(keys, IsInactive), Count(keys, IsExpired))
  }

  /** Every key has one of the three statuses, so the three status cards add
      up to the total. */
  lemma {:induction false} CardsAddUp(keys: seq<ApiKey>)
    ensures Cards(keys).active + Cards(keys).inactive + Cards(keys).expired == Cards(keys).total
  {
    if keys != [] {
      CardsAddUp(keys[1..]);
    }
  }
}
