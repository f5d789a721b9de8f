/**
 * `useDrawer`: which side drawer is open, kept in the `drawer` query
 * parameter, and the navigations that open, close and toggle it. The hook may
 * track one specific drawer id; `None` stands for calling it without one, and
 * an empty id counts as no id, as a falsy string does.
 */
module Drawer {
  import opened Wrappers
  import opened UrlSearchParams
  import AuditLogs

  const DrawerKey := "drawer"

  /** `isOpen`. */
  predicate IsOpen(query: Entries, specificDrawerId: Option<string>)
  {
    var current := Get(query, DrawerKey);
    if !AuditLogs.Truthy(current) then false
    else if AuditLogs.Truthy(specificDrawerId) then current == specificDrawerId
    else true
  }

  /** `drawerId`. */
  function DrawerId(query: Entries, specificDrawerId: Option<string>): Option<string>
  {
    var current := Get(query, DrawerKey);
    if !AuditLogs.Truthy(current) then None
    else if AuditLogs.Truthy(specificDrawerId) && current != specificDrawerId then None
    else current
  }

  /** `open(id)`: `drawer=id` in a copy of the query. */
  method Open(query: Entries, id: string, replace: bool) returns (nav: Navigation)
    ensures nav == Navigate(Set(query, DrawerKey, id), replace)
  {
    var params := new SearchParams(query);
    params.SetParam(DrawerKey, id);
    nav := Navigate(params.entries, replace);
  }

  /** `close()`: no navigation without a drawer; otherwise the query without `drawer`. */
  method Close(query: Entries, replace: bool) returns (nav: Option<Navigation>)
    ensures !AuditLogs.Truthy(Get(query, DrawerKey)) ==> nav.None?
    ensures AuditLogs.Truthy(Get(query, DrawerKey)) ==> nav == Some(Navigate(Delete(query, DrawerKey), replace))
  {
    if !AuditLogs.Truthy(Get(query, DrawerKey)) {
      return None;
    }
    var params := new SearchParams(query);
    params.DeleteParam(DrawerKey);
    nav := Some(Navigate(params.entries, replace));
  }

  /** `toggle(id)`: close when that drawer is the current one, open it otherwise. */
  method Toggle(query: Entries, id: string, replace: bool) returns (nav: Option<Navigation>)
    ensures Get(query, DrawerKey) == Some(id) && id != "" ==> nav == Some(Navigate(Delete(query, DrawerKey), replace))
    ensures Get(query, DrawerKey) == Some(id) && id == "" ==> nav.None?
    ensures Get(query, DrawerKey) != Some(id) ==> nav == Some(Navigate(Set(query, DrawerKey, id), replace))
  {
    if Get(query, DrawerKey) == Some(id) {
      nav := Close(query, replace);
    } else {
      var shown := Open(query, id, replace);
      nav := Some(shown);
    }
  }

  /**
   * The drawer is open exactly when the parameter is a non-empty string and
   * no specific id was given or the parameter equals it.
   */
  lemma IsOpenIff(query: Entries, specificDrawerId: Option<string>)
    ensures IsOpen(query, specificDrawerId)
            <==> AuditLogs.Truthy(Get(query, DrawerKey)) && (!AuditLogs.Truthy(specificDrawerId) || Get(query, DrawerKey) == specificDrawerId)
  {
  }

  /** `drawerId` is absent exactly when the drawer is closed, and is the parameter otherwise. */
  lemma DrawerIdWhenOpen(query: Entries, specificDrawerId: Option<string>)
    ensures DrawerId(query, specificDrawerId).None? <==> !IsOpen(query, specificDrawerId)
    ensures IsOpen(query, specificDrawerId) ==> DrawerId(query, specificDrawerId) == Get(query, DrawerKey)
  {
  }

  /**
   * After `open(id)` with a non-empty id the drawer parameter is `id`, that
   * drawer shows as open, and every other parameter reads as before.
   */
  lemma OpenShowsDrawer(query: Entries, id: string, replace: bool, other: string)
    requires id != ""
    ensures var q := Navigate(Set(query, DrawerKey, id), replace).Query();
            && Get(q, DrawerKey) == Some(id)
            && IsOpen(q, Some(id)) && IsOpen(q, None)
            && DrawerId(q, None) == Some(id)
            && (other != DrawerKey ==> Get(q, other) == Get(query, other))
  {
    GetSet(query, DrawerKey, id, other);
  }

  /** After `close()` no drawer is open and every other parameter reads as before. */
  lemma CloseHidesDrawer(query: Entries, replace: bool, specificDrawerId: Option<string>, other: string)
    ensures var q := Navigate(Delete(query, DrawerKey), replace).Query();
            && !IsOpen(q, specificDrawerId)
            && DrawerId(q, specificDrawerId).None?
            && (other != DrawerKey ==> Get(q, other) == Get(query, other))
  {
    GetDelete(query, DrawerKey, other);
  }
}
