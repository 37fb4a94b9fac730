/** The browser's key/value store and the shop-open settings kept in it. */
module Storage {
  import opened Wrappers

  const ShopOpenKey: string := "myfooddesk_shop_open"
  const CloseMsgKey: string := "myfooddesk_shop_close_msg"
  const DefaultCloseMsg: string := "Sorry, the shop is closed today. Please come back tomorrow."

  /** The key recording that today's closed-shop popup was shown. */
  function PopupShownKey(today: string): (k: string)
    ensures k != ShopOpenKey && k != CloseMsgKey
  {
    var k := "myfooddesk_closed_popup_shown_" + today;
    assert k[11] == 'c' && ShopOpenKey[11] == 's' && CloseMsgKey[11] == 's';
    k
  }

  /** `localStorage.getItem(k)`, with `None` for `null`. */
  function GetItem(m: map<string, string>, k: string): Option<string> {
    if k in m then Some(m[k]) else None
  }

  /** A missing flag means the shop is open; otherwise only "true" means open. */
  predicate ShopOpen(m: map<string, string>) {
    match GetItem(m, ShopOpenKey)
    case None => true
    case Some(v) => v == "true"
  }

  /** The stored message, unless it is missing or empty. */
  function CloseMessage(m: map<string, string>): (r: string)
    ensures r != ""
    ensures CloseMsgKey in m && m[CloseMsgKey] != "" ==> r == m[CloseMsgKey]
    ensures !(CloseMsgKey in m && m[CloseMsgKey] != "") ==> r == DefaultCloseMsg
  {
    match GetItem(m, CloseMsgKey)
    case Some(v) => if v != "" then v else DefaultCloseMsg
    case None => DefaultCloseMsg
  }

  /** The store itself, shared by every page of the application. */
  class KeyValueStore {
    var entries: map<string, string>

    constructor()
      ensures entries == map[]
    {
      entries := map[];
    }

    method Get(k: string) returns (r: Option<string>)
      ensures r == GetItem(entries, k)
      ensures r.Some? <==> k in entries
    {
      r := GetItem(entries, k);
    }

    method Set(k: string, v: string)
      modifies this
      ensures entries == old(entries)[k := v]
    {
      entries := entries[k := v];
    }

    method Remove(k: string)
      modifies this
      ensures entries == old(entries) - {k}
    {
      entries := entries - {k};
    }
  }
}
