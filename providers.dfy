/** `useIsAdmin`: whether the connected address is on the admin allow-list. */
module Providers {
  import opened Wrappers
  import opened Text
  import opened Env

  /** No address (or an empty one) is never an admin; otherwise the lower-cased address must be
      on the list. */
  function IsAdmin(address: Option<string>, admins: seq<string>): (b: bool)
    ensures address.None? || address.value == "" ==> !b
    ensures b ==> ToLower(address.value) in admins
  {
    if address.None? || address.value == "" then false
    else ToLower(address.value) in admins
  }

  /** Addresses that differ only in letter case are both admins or both not. */
  lemma AdminCaseInsensitive(x: string, y: string, admins: seq<string>)
    requires ToLower(x) == ToLower(y)
    ensures IsAdmin(Some(x), admins) == IsAdmin(Some(y), admins)
  {
    assert |x| == |ToLower(x)| == |y|;
  }

  /** An empty allow-list, such as the one an unset variable gives, admits nobody. */
  lemma NoAdminsWithoutList(address: Option<string>)
    ensures !IsAdmin(address, AdminAddresses(None))
  {
  }

  /** A connected address is an admin exactly when some piece of the configured variable,
      trimmed and lower-cased, equals the lower-cased address; so an entry typed in mixed case
      with surrounding spaces admits the address in any case. */
  lemma AdminIffConfigured(raw: string, address: string)
    requires address != ""
    ensures IsAdmin(Some(address), AdminAddresses(Some(raw))) <==>
      exists i :: 0 <= i < |Split(raw, ',')| && Normalize(Split(raw, ',')[i]) == ToLower(address)
  {
    var key := ToLower(address);
    assert |key| == |address|;
    if key in AdminAddresses(Some(raw)) {
      AdminAddressesSound(raw, key);
    }
    if exists i :: 0 <= i < |Split(raw, ',')| && Normalize(Split(raw, ',')[i]) == key {
      var i :| 0 <= i < |Split(raw, ',')| && Normalize(Split(raw, ',')[i]) == key;
      AdminAddressesComplete(raw, i);
    }
  }
}
