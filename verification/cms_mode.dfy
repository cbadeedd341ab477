/**
 * The CMS mode manager (includes/CMSModeManager.php): a fixed table of
 * three modes, each with a display name, a description and six `can_*`
 * flags, and the current mode, kept in the manager and written to
 * config/cms_mode.json.
 */
module CmsMode {
  import opened Php

  /** The six `can_*` keys of a mode entry. */
  datatype Capability =
    ManagePlugins | AccessStore | InstallPlugins | ActivatePlugins | DeactivatePlugins | DeletePlugins

  /** The capabilities in the order the table lists them. */
  function AllCapabilities(): (cs: seq<Capability>)
    ensures |cs| == 6
  {
    [ManagePlugins, AccessStore, InstallPlugins, ActivatePlugins, DeactivatePlugins, DeletePlugins]
  }

  function CapKey(c: Capability): (key: string)
    ensures StartsWith(key, "can_")
  {
    match c
    case ManagePlugins => "can_manage_plugins"
    case AccessStore => "can_access_store"
    case InstallPlugins => "can_install_plugins"
    case ActivatePlugins => "can_activate_plugins"
    case DeactivatePlugins => "can_deactivate_plugins"
    case DeletePlugins => "can_delete_plugins"
  }

  /** The capability a table key names, if any. */
  function ParseCap(key: string): (r: Option<Capability>)
    ensures r.Some? ==> CapKey(r.value) == key
    ensures r.None? ==> forall c :: CapKey(c) != key
    ensures r.Some? ==> |key| > 11
  {
    if key == "can_manage_plugins" then Some(ManagePlugins)
    else if key == "can_access_store" then Some(AccessStore)
    else if key == "can_install_plugins" then Some(InstallPlugins)
    else if key == "can_activate_plugins" then Some(ActivatePlugins)
    else if key == "can_deactivate_plugins" then Some(DeactivatePlugins)
    else if key == "can_delete_plugins" then Some(DeletePlugins)
    else None
  }

  /** A value of an entry: a display string or a capability flag. */
  datatype Field = Text(text: string) | Flag(flag: bool)

  const FullFeatured := "full-featured"
  const HostingPlugin := "hosting-service-plugin"
  const HostingNoPlugins := "hosting-service-no-plugins"

  /** The capabilities of each mode of `$modes`; None for a name outside the table. */
  function ModeTable(mode: string): Option<set<Capability>> {
    if mode == FullFeatured then
      Some({ManagePlugins, AccessStore, InstallPlugins, ActivatePlugins, DeactivatePlugins, DeletePlugins})
    else if mode == HostingPlugin then Some({ManagePlugins, ActivatePlugins, DeactivatePlugins})
    else if mode == HostingNoPlugins then Some({})
    else None
  }

  /** The 'name' and 'description' entries of the table's modes. */
  function ModeTexts(mode: string): (string, string)
    requires ModeTable(mode).Some?
  {
    if mode == FullFeatured then
      ("Full Featured", "Complete access to all features including plugin store and management")
    else if mode == HostingPlugin then
      ("Hosting Service (Plugin Mode)",
       "Plugins available but no access to the store. Users can activate/deactivate installed plugins.")
    else
      ("Hosting Service (No Plugin Management)",
       "No plugin management. Only pre-installed and activated plugins are available.")
  }

  predicate IsMode(mode: string) { ModeTable(mode).Some? }

  /** `$modes[$mode][$key] ?? false`, and false for an unknown mode. */
  function ModeCan(mode: string, key: string): (r: Field)
    ensures !IsMode(mode) ==> r == Flag(false)
    ensures IsMode(mode) && ParseCap(key).Some? ==> r == Flag(ParseCap(key).value in ModeTable(mode).value)
    ensures key != "name" && key != "description" && ParseCap(key).None? ==> r == Flag(false)
  {
    match ModeTable(mode)
    case None => Flag(false)
    case Some(grants) =>
      if key == "name" then Text(ModeTexts(mode).0)
      else if key == "description" then Text(ModeTexts(mode).1)
      else match ParseCap(key)
        case Some(c) => Flag(c in grants)
        case None => Flag(false)
  }

  /** Every capability's key reads back as that capability, and is neither "name" nor "description". */
  lemma ParseCapKey(c: Capability)
    ensures ParseCap(CapKey(c)) == Some(c)
    ensures CapKey(c) != "name" && CapKey(c) != "description"
  {
    var k := CapKey(c);
    assert k[..4] == "can_";
    assert |k| > |"description"|;
  }

  /** For a capability key, `can` answers whether the mode grants it. */
  lemma ModeCanCap(mode: string, c: Capability)
    requires IsMode(mode)
    ensures ModeCan(mode, CapKey(c)) == Flag(c in ModeTable(mode).value)
  {
    ParseCapKey(c);
  }

  /** Store access, installation and deletion are granted only in full-featured mode. */
  lemma OnlyFullFeaturedInstalls(mode: string, c: Capability)
    requires c == AccessStore || c == InstallPlugins || c == DeletePlugins
    ensures ModeCan(mode, CapKey(c)) == Flag(true) <==> mode == FullFeatured
  {
    if IsMode(mode) {
      ModeCanCap(mode, c);
    }
  }

  /** The no-plugins mode grants no capability at all; full-featured grants every one. */
  lemma NoPluginsDeniesAll(key: string)
    ensures ModeCan(HostingNoPlugins, key) != Flag(true)
    ensures ParseCap(key).Some? ==> ModeCan(FullFeatured, key) == Flag(true)
  {
  }

  /** getPermissionsSummary for an entry: its `can_*` keys and flags, in table order. */
  function Summary(grants: set<Capability>): (r: seq<(string, bool)>)
    ensures |r| == 6
    ensures forall k :: 0 <= k < 6 ==> r[k] == (CapKey(AllCapabilities()[k]), AllCapabilities()[k] in grants)
  {
    seq(6, k requires 0 <= k < 6 => (CapKey(AllCapabilities()[k]), AllCapabilities()[k] in grants))
  }

  class ModeManager {
    /** The current mode; it may be a name outside the table when the config says so. */
    var mode: string
    /** The mode in config/cms_mode.json (None: no file, or no 'mode' entry). */
    var saved: Option<string>

    /**
     * loadMode: `config` is None when the file does not exist (then
     * full-featured is chosen and saved), else the file's 'mode' entry
     * (None when absent: full-featured, nothing saved).
     */
    constructor (config: Option<Option<string>>)
      ensures config.None? ==> mode == FullFeatured && saved == Some(FullFeatured)
      ensures config.Some? ==>
        (saved == config.value && mode == if config.value.Some? then config.value.value else FullFeatured)
    {
      if config.None? {
        mode := FullFeatured;
        saved := Some(FullFeatured);
      } else {
        saved := config.value;
        mode := if config.value.Some? then config.value.value else FullFeatured;
      }
    }

    /** setMode: an unknown name throws (false here) and changes nothing; a known one is set and saved. */
    method SetMode(m: string) returns (ok: bool)
      modifies this
      ensures ok <==> IsMode(m)
      ensures ok ==> mode == m && saved == Some(m)
      ensures !ok ==> mode == old(mode) && saved == old(saved)
    {
      if !IsMode(m) {
        return false;
      }
      mode := m;
      saved := Some(m);
      ok := true;
    }

    /** can($key) for the current mode. */
    function Can(key: string): (r: Field)
      reads this
      ensures !IsMode(mode) ==> r == Flag(false)
      ensures IsMode(mode) && ParseCap(key).Some? ==> r == Flag(ParseCap(key).value in ModeTable(mode).value)
    {
      ModeCan(mode, key)
    }

    /** isRestricted */
    function IsRestricted(): (r: bool)
      reads this
      ensures r <==> mode != FullFeatured
      ensures !r ==> forall c :: Can(CapKey(c)) == Flag(true)
    {
      mode != FullFeatured
    }

    /** getModeName: 'Unknown Mode' outside the table. */
    function ModeName(): (r: string)
      reads this
      ensures !IsMode(mode) ==> r == "Unknown Mode"
      ensures IsMode(mode) ==> Can("name") == Text(r)
    {
      if !IsMode(mode) then "Unknown Mode" else ModeTexts(mode).0
    }

    /**
     * getPermissionsSummary: the current mode's `can_*` fields.  (For an
     * unknown mode PHP iterates over null, which warns and gives [].)
     */
    function PermissionsSummary(): (r: seq<(string, bool)>)
      reads this
      ensures !IsMode(mode) ==> r == []
      ensures IsMode(mode) ==> |r| == 6
      ensures IsMode(mode) ==> forall k :: 0 <= k < |r| ==> StartsWith(r[k].0, "can_") && Can(r[k].0) == Flag(r[k].1)
    {
      match ModeTable(mode)
      case None => []
      case Some(grants) =>
        var r := Summary(grants);
        SummaryAgrees(mode, grants);
        r
    }
  }

  /** Each summary pair is what `can` answers for its key. */
  lemma SummaryAgrees(mode: string, grants: set<Capability>)
    requires ModeTable(mode) == Some(grants)
    ensures forall k :: 0 <= k < 6 ==> ModeCan(mode, Summary(grants)[k].0) == Flag(Summary(grants)[k].1)
  {
    forall k | 0 <= k < 6 ensures ModeCan(mode, Summary(grants)[k].0) == Flag(Summary(grants)[k].1) {
      ParseCapKey(AllCapabilities()[k]);
    }
  }
}
