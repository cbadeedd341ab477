/**
 * The plugin activation handler (plugin-handler.php).  The active-plugin
 * list is a JSON list of slugs in PLUGIN_CONFIG; here it is the `active`
 * field of an `ActivePlugins` (the empty list when the file does not
 * exist).  The session check, the `manage_plugins` permission answer and
 * whether writing the file succeeds are parameters.
 */
module PluginHandler {
  import opened Php

  /** The JSON answer, with its HTTP status (200, 400 or 403). */
  datatype Reply = Success(message: string) | Failure(status: int, error: string)

  /** `array_search($slug, $list)`: the index of the first equal entry. */
  function Search(list: seq<string>, slug: string): (r: Option<nat>)
    ensures r.Some? ==> r.value < |list| && list[r.value] == slug
    ensures r.Some? ==> forall j :: 0 <= j < r.value ==> list[j] != slug
    ensures r.None? <==> slug !in list
    decreases |list|
  {
    if list == [] then None
    else if list[0] == slug then Some(0)
    else
      assert forall j :: 1 <= j < |list| ==> list[j] == list[1..][j - 1];
      assert list == [list[0]] + list[1..];
      match Search(list[1..], slug)
      case None => None
      case Some(i) => Some(i + 1)
  }

  /** The list after activation: the slug appended unless it is already there. */
  function Activated(list: seq<string>, slug: string): (r: seq<string>)
    ensures slug in r
    ensures slug in list ==> r == list
    ensures slug !in list ==> r == list + [slug]
  {
    if slug in list then list else list + [slug]
  }

  /** The list after deactivation: the first entry equal to the slug spliced out. */
  function Deactivated(list: seq<string>, slug: string): (r: seq<string>)
    ensures slug !in list ==> r == list
    ensures Search(list, slug).Some? ==>
      var i := Search(list, slug).value; r == list[..i] + list[i + 1..]
  {
    match Search(list, slug)
    case None => list
    case Some(i) => list[..i] + list[i + 1..]
  }

  /** No slug occurs twice. */
  predicate Distinct(list: seq<string>) {
    forall i, j :: 0 <= i < j < |list| ==> list[i] != list[j]
  }

  /** Activating twice is activating once, and activation keeps the list free of duplicates. */
  lemma ActivateIdempotent(list: seq<string>, slug: string)
    ensures Activated(Activated(list, slug), slug) == Activated(list, slug)
    ensures Distinct(list) ==> Distinct(Activated(list, slug))
  {
  }

  /** Deactivation removes exactly one occurrence of the slug and nothing else. */
  lemma DeactivateRemovesOne(list: seq<string>, slug: string)
    ensures slug in list ==> multiset(Deactivated(list, slug)) == multiset(list) - multiset{slug}
    ensures slug in list ==> |Deactivated(list, slug)| == |list| - 1
  {
    if slug in list {
      var i := Search(list, slug).value;
      assert list == list[..i] + [list[i]] + list[i + 1..];
    }
  }

  /** In a list without duplicates the deactivated slug is gone afterwards. */
  lemma DeactivateDistinct(list: seq<string>, slug: string)
    requires Distinct(list)
    ensures slug !in Deactivated(list, slug)
    ensures Distinct(Deactivated(list, slug))
  {
    if slug in list {
      var i := Search(list, slug).value;
      var r := Deactivated(list, slug);
      forall k | 0 <= k < |r| ensures r[k] != slug && r[k] == list[if k < i then k else k + 1] {
      }
    }
  }

  /** Deactivating a slug that was just activated on a list without it restores the list. */
  lemma ActivateThenDeactivate(list: seq<string>, slug: string)
    requires slug !in list
    ensures Deactivated(Activated(list, slug), slug) == list
  {
    var a := list + [slug];
    assert Search(a, slug) == Some(|list|) by {
      assert a[|list|] == slug;
      assert forall j :: 0 <= j < |list| ==> a[j] == list[j];
    }
    assert a[..|list|] == list;
  }

  /** The decoded PLUGIN_CONFIG list, changed by the two actions. */
  class ActivePlugins {
    var active: seq<string>

    constructor (stored: Option<seq<string>>)
      ensures active == if stored.Some? then stored.value else []
    {
      active := if stored.Some? then stored.value else [];
    }

    /** `in_array($slug, $activePlugins)`: the scan over the list. */
    method IsActive(slug: string) returns (found: bool)
      ensures found <==> slug in active
    {
      var k := 0;
      while k < |active|
        invariant 0 <= k <= |active|
        invariant forall j :: 0 <= j < k ==> active[j] != slug
      {
        if active[k] == slug {
          return true;
        }
        k := k + 1;
      }
      return false;
    }

    /** `array_search`: the first index of the slug. */
    method SearchActive(slug: string) returns (index: Option<nat>)
      ensures index == Search(active, slug)
    {
      var k := 0;
      while k < |active|
        invariant 0 <= k <= |active|
        invariant forall j :: 0 <= j < k ==> active[j] != slug
      {
        if active[k] == slug {
          return Some(k);
        }
        k := k + 1;
      }
      return None;
    }

    /**
     * activate_plugin after the checks: append when absent.  Writing only
     * happens for a change; a failed write leaves the file as it was.
     */
    method Activate(slug: string, writeOk: bool) returns (reply: Reply)
      modifies this
      ensures slug in old(active) ==> active == old(active) && reply == Success("Plugin activated successfully")
      ensures slug !in old(active) && writeOk ==>
        active == Activated(old(active), slug) && reply == Success("Plugin activated successfully")
      ensures slug !in old(active) && !writeOk ==>
        active == old(active) && reply == Failure(400, "Failed to save plugin configuration")
    {
      var present := IsActive(slug);
      if !present {
        if !writeOk {
          return Failure(400, "Failed to save plugin configuration");
        }
        active := active + [slug];
      }
      reply := Success("Plugin activated successfully");
    }

    /** deactivate_plugin after the checks: splice out the first occurrence; an absent slug succeeds unchanged. */
    method Deactivate(slug: string, writeOk: bool) returns (reply: Reply)
      modifies this
      ensures slug !in old(active) ==> active == old(active) && reply == Success("Plugin deactivated successfully")
      ensures slug in old(active) && writeOk ==>
        active == Deactivated(old(active), slug) && reply == Success("Plugin deactivated successfully")
      ensures slug in old(active) && !writeOk ==>
        active == old(active) && reply == Failure(400, "Failed to save plugin configuration")
    {
      var index := SearchActive(slug);
      if index.Some? {
        if !writeOk {
          return Failure(400, "Failed to save plugin configuration");
        }
        active := active[..index.value] + active[index.value + 1..];
      }
      reply := Success("Plugin deactivated successfully");
    }

    /**
     * One POST request with an action.  Not logged in: 403 before any
     * change; then the action, the permission and the slug are checked in
     * that order, each failure a 400 with no change.
     */
    method Handle(action: string, slug: Option<string>, loggedIn: bool, mayManage: bool, writeOk: bool)
      returns (reply: Reply)
      modifies this
      ensures !loggedIn ==> reply == Failure(403, "You must be logged in to perform this action")
      ensures loggedIn && action != "activate_plugin" && action != "deactivate_plugin" ==>
        reply == Failure(400, "Invalid action specified")
      ensures loggedIn && (action == "activate_plugin" || action == "deactivate_plugin") && !mayManage ==>
        reply == Failure(400, "You do not have permission to manage plugins")
      ensures (loggedIn && (action == "activate_plugin" || action == "deactivate_plugin") && mayManage &&
               (slug.None? || Empty(slug.value))) ==> reply == Failure(400, "Plugin slug is required")
      ensures reply.Failure? ==> active == old(active)
      ensures reply.Success? ==> (loggedIn && mayManage && slug.Some? && !Empty(slug.value) &&
        (action == "activate_plugin" ==> active == Activated(old(active), slug.value)) &&
        (action == "deactivate_plugin" ==> active == Deactivated(old(active), slug.value)))
      ensures (loggedIn && mayManage && slug.Some? && !Empty(slug.value)) ==>
        (action == "activate_plugin" ==>
          reply == if slug.value in old(active) || writeOk then Success("Plugin activated successfully")
                   else Failure(400, "Failed to save plugin configuration")) &&
        (action == "deactivate_plugin" ==>
          reply == if slug.value !in old(active) || writeOk then Success("Plugin deactivated successfully")
                   else Failure(400, "Failed to save plugin configuration"))
    {
      if !loggedIn {
        return Failure(403, "You must be logged in to perform this action");
      }
      if action != "activate_plugin" && action != "deactivate_plugin" {
        return Failure(400, "Invalid action specified");
      }
      if !mayManage {
        return Failure(400, "You do not have permission to manage plugins");
      }
      if slug.None? || Empty(slug.value) {
        return Failure(400, "Plugin slug is required");
      }
      if action == "activate_plugin" {
        reply := Activate(slug.value, writeOk);
      } else {
        reply := Deactivate(slug.value, writeOk);
      }
    }
  }
}
