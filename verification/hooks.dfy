/**
 * The hook and filter registry and the admin-section registry of
 * includes/plugins.php.  Both live in PHP globals, which here are the two
 * fields of a `PluginRegistry`.  A callback is an opaque value of type `C`;
 * what calling it returns is a function passed to the operation that calls
 * it.
 */
module Hooks {
  import opened Php
  import opened PhpArray

  // ---------------------------------------------------------------------
  // Filters and permission callbacks
  // ---------------------------------------------------------------------

  /** The hooks `$GLOBALS['fcms_hooks']` starts with, each with no callback. */
  function InitialHooks<C>(): (hooks: map<string, seq<C>>)
    ensures forall h :: h in hooks ==> hooks[h] == []
    ensures "check_permission" in hooks && "filter_admin_sections" in hooks && "content" in hooks
  {
    var names := {"init", "before_content", "after_content", "before_render", "after_render",
                  "route", "check_permission", "filter_admin_sections", "content"};
    map h | h in names :: []
  }

  /** The callbacks of a hook, in registration order ([] for a hook never registered). */
  function Callbacks<C>(hooks: map<string, seq<C>>, hook: string): seq<C> {
    if hook in hooks then hooks[hook] else []
  }

  /** A value threaded through the callbacks in order, each receiving what the previous returned. */
  function Fold<C, V>(cbs: seq<C>, v: V, call: (C, V) -> V): V
    decreases |cbs|
  {
    if cbs == [] then v else Fold(cbs[1..], call(cbs[0], v), call)
  }

  /** A callback added last runs last: it receives what the earlier callbacks produced. */
  lemma {:induction false} FoldSnoc<C, V>(cbs: seq<C>, cb: C, v: V, call: (C, V) -> V)
    ensures Fold(cbs + [cb], v, call) == call(cb, Fold(cbs, v, call))
    decreases |cbs|
  {
    if cbs != [] {
      assert (cbs + [cb])[1..] == cbs[1..] + [cb];
      FoldSnoc(cbs[1..], cb, call(cbs[0], v), call);
    }
  }

  /** Adding a callback to a hook makes the filter apply it after the ones already there, and leaves other hooks alone. */
  lemma FilterAfterAdd<C, V>(hooks: map<string, seq<C>>, hook: string, cb: C, v: V, call: (C, V) -> V)
    ensures var added := hooks[hook := Callbacks(hooks, hook) + [cb]];
      Fold(Callbacks(added, hook), v, call) == call(cb, Fold(Callbacks(hooks, hook), v, call)) &&
      forall other :: other != hook ==> Callbacks(added, other) == Callbacks(hooks, other)
  {
    FoldSnoc(Callbacks(hooks, hook), cb, v, call);
  }

  // ---------------------------------------------------------------------
  // Admin sections
  // ---------------------------------------------------------------------

  /** The options of a section that the registry looks at: its label, menu_order and parent (render_callback is left out). */
  datatype Section = Section(caption: string, menuOrder: Option<int>, parent: Option<string>)

  /** `menu_order ?? 100`. */
  function OrderOf(s: Section): int {
    if s.menuOrder.Some? then s.menuOrder.value else 100
  }

  predicate SortedByOrder(a: Arr<Section>) {
    forall i, j :: 0 <= i < j < |a| ==> OrderOf(a[i].1) <= OrderOf(a[j].1)
  }

  /** A pair whose order is not above any in a sorted list may go in front of it. */
  lemma SortedCons(x: (string, Section), t: Arr<Section>)
    requires SortedByOrder(t)
    requires forall i :: 0 <= i < |t| ==> OrderOf(x.1) <= OrderOf(t[i].1)
    ensures SortedByOrder([x] + t)
  {
    forall i, j | 0 <= i < j < |[x] + t| ensures OrderOf(([x] + t)[i].1) <= OrderOf(([x] + t)[j].1) {
      if i > 0 {
        assert ([x] + t)[i] == t[i - 1];
      }
      assert ([x] + t)[j] == t[j - 1];
    }
  }

  /** The order of anything in a list is at least that of a lower bound of its elements' orders. */
  lemma InsertedBound(e: (string, Section), a: Arr<Section>, t: Arr<Section>)
    requires a != [] && SortedByOrder(a) && OrderOf(a[0].1) < OrderOf(e.1)
    requires multiset(t) == multiset(a[1..]) + multiset{e}
    ensures forall i :: 0 <= i < |t| ==> OrderOf(a[0].1) <= OrderOf(t[i].1)
  {
    forall i | 0 <= i < |t| ensures OrderOf(a[0].1) <= OrderOf(t[i].1) {
      assert t[i] in multiset(t);
      if t[i] != e {
        assert t[i] in multiset(a[1..]);
        var j :| 0 <= j < |a[1..]| && a[1..][j] == t[i];
        assert a[j + 1] == t[i];
      }
    }
  }

  /** Puts `e` before the first pair whose order is not below its own. */
  function InsertByOrder(e: (string, Section), a: Arr<Section>): (r: Arr<Section>)
    requires SortedByOrder(a)
    ensures SortedByOrder(r)
    ensures multiset(r) == multiset(a) + multiset{e}
    ensures |r| == |a| + 1
    decreases |a|
  {
    if a == [] || OrderOf(e.1) <= OrderOf(a[0].1) then
      SortedCons(e, a);
      [e] + a
    else
      assert SortedByOrder(a[1..]);
      var t := InsertByOrder(e, a[1..]);
      InsertedBound(e, a, t);
      SortedCons(a[0], t);
      assert a == [a[0]] + a[1..];
      [a[0]] + t
  }

  /** uasort by `menu_order ?? 100`: sorted, and the same pairs. */
  function SortSections(a: Arr<Section>): (r: Arr<Section>)
    ensures SortedByOrder(r)
    ensures multiset(r) == multiset(a)
    ensures |r| == |a|
    decreases |a|
  {
    if a == [] then []
    else
      assert a == [a[0]] + a[1..];
      InsertByOrder(a[0], SortSections(a[1..]))
  }

  /** An organised top-level entry: the section and the children filed under it, by id. */
  datatype Entry = Entry(section: Section, children: Arr<Section>)

  /** A child's parent is brought in from `all` when it is not organised yet. */
  function Adopt(org: Arr<Entry>, all: Arr<Section>, p: string): Arr<Entry> {
    if HasKey(org, p) then org
    else match Get(all, p)
      case None => org
      case Some(ps) => Put(org, p, Entry(ps, []))
  }

  /** The child `(id, s)` is filed under `p` when `p` is organised. */
  function FileUnder(org: Arr<Entry>, p: string, id: string, s: Section): Arr<Entry> {
    match Get(org, p)
    case None => org
    case Some(e) => Put(org, p, e.(children := Put(e.children, id, s)))
  }

  /** A section without a parent becomes top-level unless it is already there as a parent. */
  function AddTop(org: Arr<Entry>, id: string, s: Section): Arr<Entry> {
    if HasKey(org, id) then org else Put(org, id, Entry(s, []))
  }

  /** One turn of the organising loop for the section `(id, s)`; `all` is the sorted list the parent is searched in. */
  function OrganizeStep(org: Arr<Entry>, all: Arr<Section>, id: string, s: Section): Arr<Entry> {
    if s.parent.Some? then FileUnder(Adopt(org, all, s.parent.value), s.parent.value, id, s)
    else AddTop(org, id, s)
  }

  /** The organising loop run from `org` over the sections `rest`, in order. */
  function OrganizeFrom(org: Arr<Entry>, all: Arr<Section>, rest: Arr<Section>): Arr<Entry>
    decreases |rest|
  {
    if rest == [] then org else OrganizeFrom(OrganizeStep(org, all, rest[0].0, rest[0].1), all, rest[1..])
  }

  /** Every top-level entry is a registered section under its own id, and every child one whose parent is that entry. */
  predicate Sound(org: Arr<Entry>, all: Arr<Section>) {
    TopSound(org, all) && ChildrenSound(org, all)
  }

  predicate TopSound(org: Arr<Entry>, all: Arr<Section>) {
    forall e :: e in org ==> (e.0, e.1.section) in all
  }

  predicate ChildrenSound(org: Arr<Entry>, all: Arr<Section>) {
    forall e, c :: e in org && c in e.1.children ==> c in all && c.1.parent == Some(e.0)
  }

  /** Entries present stay present, and keep their children. */
  ghost predicate Grows(org: Arr<Entry>, org': Arr<Entry>) {
    forall q :: HasKey(org, q) ==>
      Get(org', q).Some? &&
      forall c :: HasKey(Get(org, q).value.children, c) ==> HasKey(Get(org', q).value.children, c)
  }

  /** Where the organised array files the section `(id, s)`. */
  predicate Filed(org: Arr<Entry>, all: Arr<Section>, id: string, s: Section) {
    if s.parent.None? then HasKey(org, id)
    else HasKey(all, s.parent.value) ==>
      Get(org, s.parent.value).Some? && HasKey(Get(org, s.parent.value).value.children, id)
  }

  /** Writing a sound entry keeps the organised array sound. */
  lemma PutSound(org: Arr<Entry>, all: Arr<Section>, k: string, e: Entry)
    requires Sound(org, all) && (k, e.section) in all
    requires forall c :: c in e.children ==> c in all && c.1.parent == Some(k)
    ensures Sound(Put(org, k, e), all)
  {
    PutUnique(org, k, e);
    PutTopSound(org, all, k, e);
    PutChildrenSound(org, all, k, e, Put(org, k, e));
  }

  lemma PutTopSound(org: Arr<Entry>, all: Arr<Section>, k: string, e: Entry)
    requires TopSound(org, all) && (k, e.section) in all
    requires forall x :: x in Put(org, k, e) ==> x in org || x == (k, e)
    ensures TopSound(Put(org, k, e), all)
  {
  }

  lemma PutChildrenSound(org: Arr<Entry>, all: Arr<Section>, k: string, e: Entry, org': Arr<Entry>)
    requires ChildrenSound(org, all)
    requires forall c :: c in e.children ==> c in all && c.1.parent == Some(k)
    requires forall x :: x in org' ==> x in org || x == (k, e)
    ensures ChildrenSound(org', all)
  {
    forall x, c | x in org' && c in x.1.children ensures c in all && c.1.parent == Some(x.0) {
      if x == (k, e) {
        assert c in e.children;
      } else {
        assert x in org;
      }
    }
  }

  /** Writing an entry whose children include the old ones keeps everything organised. */
  lemma PutGrows(org: Arr<Entry>, k: string, e: Entry)
    requires Get(org, k).Some? ==> forall c :: HasKey(Get(org, k).value.children, c) ==> HasKey(e.children, c)
    ensures Grows(org, Put(org, k, e))
  {
  }

  lemma AdoptFacts(org: Arr<Entry>, all: Arr<Section>, p: string)
    requires Sound(org, all)
    ensures Sound(Adopt(org, all, p), all)
    ensures Grows(org, Adopt(org, all, p))
    ensures HasKey(all, p) ==> HasKey(Adopt(org, all, p), p)
  {
    if !HasKey(org, p) && Get(all, p).Some? {
      PutSound(org, all, p, Entry(Get(all, p).value, []));
      PutGrows(org, p, Entry(Get(all, p).value, []));
    }
  }

  lemma FileUnderFacts(org: Arr<Entry>, all: Arr<Section>, p: string, id: string, s: Section)
    requires Sound(org, all) && (id, s) in all && s.parent == Some(p)
    ensures Sound(FileUnder(org, p, id, s), all)
    ensures Grows(org, FileUnder(org, p, id, s))
    ensures HasKey(org, p) ==>
      Get(FileUnder(org, p, id, s), p).Some? && HasKey(Get(FileUnder(org, p, id, s), p).value.children, id)
  {
    match Get(org, p)
    case None =>
    case Some(e) =>
      FiledEntrySound(org, all, p, e, id, s);
      var e' := e.(children := Put(e.children, id, s));
      PutSound(org, all, p, e');
      PutKeys(e.children, id, s);
      PutGrows(org, p, e');
  }

  /** The entry of `p` with one more child of `p` is sound. */
  lemma FiledEntrySound(org: Arr<Entry>, all: Arr<Section>, p: string, e: Entry, id: string, s: Section)
    requires Sound(org, all) && (id, s) in all && s.parent == Some(p) && Get(org, p) == Some(e)
    ensures (p, e.section) in all
    ensures forall c :: c in Put(e.children, id, s) ==> c in all && c.1.parent == Some(p)
  {
    assert (p, e) in org;
    PutUnique(e.children, id, s);
  }

  lemma AddTopFacts(org: Arr<Entry>, all: Arr<Section>, id: string, s: Section)
    requires Sound(org, all) && (id, s) in all
    ensures Sound(AddTop(org, id, s), all)
    ensures Grows(org, AddTop(org, id, s))
    ensures HasKey(AddTop(org, id, s), id)
  {
    if !HasKey(org, id) {
      PutSound(org, all, id, Entry(s, []));
      PutGrows(org, id, Entry(s, []));
    }
  }

  /** One turn keeps the array sound, loses nothing, and files the section it handles. */
  lemma StepFacts(org: Arr<Entry>, all: Arr<Section>, id: string, s: Section)
    requires Sound(org, all) && (id, s) in all
    ensures Sound(OrganizeStep(org, all, id, s), all)
    ensures Grows(org, OrganizeStep(org, all, id, s))
    ensures Filed(OrganizeStep(org, all, id, s), all, id, s)
  {
    if s.parent.Some? {
      var p := s.parent.value;
      AdoptFacts(org, all, p);
      FileUnderFacts(Adopt(org, all, p), all, p, id, s);
      GrowsTrans(org, Adopt(org, all, p), OrganizeStep(org, all, id, s));
    } else {
      AddTopFacts(org, all, id, s);
    }
  }

  lemma GrowsTrans(a: Arr<Entry>, b: Arr<Entry>, c: Arr<Entry>)
    requires Grows(a, b) && Grows(b, c)
    ensures Grows(a, c)
  {
  }

  /** The turn for the `n`-th section keeps what the earlier turns established and files that section. */
  lemma TurnFacts(prev: Arr<Entry>, next: Arr<Entry>, all: Arr<Section>, n: nat)
    requires 0 < n <= |all| && next == OrganizeStep(prev, all, all[n - 1].0, all[n - 1].1)
    requires Sound(prev, all)
    requires forall i :: 0 <= i < n - 1 ==> Filed(prev, all, all[i].0, all[i].1)
    ensures Sound(next, all)
    ensures forall i :: 0 <= i < n ==> Filed(next, all, all[i].0, all[i].1)
  {
    var id, s := all[n - 1].0, all[n - 1].1;
    assert (id, s) in all;
    StepFacts(prev, all, id, s);
    forall i | 0 <= i < n ensures Filed(next, all, all[i].0, all[i].1) {
      if i < n - 1 {
        FiledGrows(prev, next, all, all[i].0, all[i].1);
      }
    }
  }

  lemma FiledGrows(org: Arr<Entry>, org': Arr<Entry>, all: Arr<Section>, id: string, s: Section)
    requires Filed(org, all, id, s) && Grows(org, org')
    ensures Filed(org', all, id, s)
  {
  }

  /** A sorted copy has the same pairs and the same keys. */
  lemma SameMembers(a: Arr<Section>, b: Arr<Section>)
    requires multiset(a) == multiset(b)
    ensures forall x :: x in a <==> x in b
    ensures forall k :: HasKey(a, k) ==> HasKey(b, k)
  {
    forall x ensures x in a <==> x in b {
      assert x in a <==> x in multiset(a);
      assert x in b <==> x in multiset(b);
    }
    forall k | HasKey(a, k) ensures HasKey(b, k) {
      var i :| 0 <= i < |a| && a[i].0 == k;
      assert a[i] in b;
      var j :| 0 <= j < |b| && b[j] == a[i];
    }
  }

  /**
   * The organised sections: each top-level entry is a registered section
   * under its own id, each child a registered section whose parent is that
   * entry; every section without a parent is top-level, and every section
   * whose parent is registered is a child of it.
   */
  predicate OrganizedFrom(org: Arr<Entry>, sections: Arr<Section>) {
    Sound(org, sections) && forall x :: x in sections ==> Filed(org, sections, x.0, x.1)
  }

  /** What the loop establishes over the sorted copy, restated over the registered sections. */
  lemma Transfer(org: Arr<Entry>, sorted: Arr<Section>, sections: Arr<Section>)
    requires multiset(sorted) == multiset(sections)
    requires Sound(org, sorted)
    requires forall i :: 0 <= i < |sorted| ==> Filed(org, sorted, sorted[i].0, sorted[i].1)
    ensures OrganizedFrom(org, sections)
  {
    SameMembers(sorted, sections);
    SameMembers(sections, sorted);
    forall x | x in sections ensures Filed(org, sections, x.0, x.1) {
      var i :| 0 <= i < |sorted| && sorted[i] == x;
      assert Filed(org, sorted, x.0, x.1);
    }
  }

  // ---------------------------------------------------------------------
  // The registry
  // ---------------------------------------------------------------------

  class PluginRegistry<C> {
    /** `$GLOBALS['fcms_hooks']`: callbacks by hook name. */
    var hooks: map<string, seq<C>>
    /** `$GLOBALS['fcms_admin_sections']`: section options by id, in registration order. */
    var sections: Arr<Section>

    /** The state after plugins.php is loaded: the initial hooks and the 'plugins' section at order 45. */
    constructor ()
      ensures hooks == InitialHooks()
      ensures sections == [("plugins", Section("Plugins", Some(45), None))]
    {
      hooks := InitialHooks();
      sections := [("plugins", Section("Plugins", Some(45), None))];
    }

    /** fcms_add_hook: the callback goes to the end of the hook's list, which is created when absent. */
    method AddHook(hook: string, cb: C)
      modifies this
      ensures hooks == old(hooks)[hook := Callbacks(old(hooks), hook) + [cb]]
      ensures sections == old(sections)
    {
      var cbs := if hook in hooks then hooks[hook] else [];
      hooks := hooks[hook := cbs + [cb]];
    }

    /** add_filter registers like fcms_add_hook. */
    method AddFilter(hook: string, cb: C)
      modifies this
      ensures hooks == old(hooks)[hook := Callbacks(old(hooks), hook) + [cb]]
      ensures sections == old(sections)
    {
      AddHook(hook, cb);
    }

    /** fcms_register_permission_hook registers like fcms_add_hook. */
    method RegisterPermissionHook(hook: string, cb: C)
      modifies this
      ensures hooks == old(hooks)[hook := Callbacks(old(hooks), hook) + [cb]]
      ensures sections == old(sections)
    {
      AddHook(hook, cb);
    }

    /**
     * fcms_apply_filter: each callback of the hook, in order, receives the
     * current value (and the extra arguments, which `call` closes over) and
     * returns the next one.
     */
    method ApplyFilter<V>(hook: string, value: V, call: (C, V) -> V) returns (r: V)
      ensures r == Fold(Callbacks(hooks, hook), value, call)
      ensures Callbacks(hooks, hook) == [] ==> r == value
    {
      var cbs := if hook in hooks then hooks[hook] else [];
      r := value;
      var k := 0;
      while k < |cbs|
        invariant 0 <= k <= |cbs|
        invariant Fold(cbs[k..], r, call) == Fold(cbs, value, call)
      {
        assert cbs[k..][1..] == cbs[k + 1..];
        r := call(cbs[k], r);
        k := k + 1;
      }
    }

    /**
     * fcms_check_plugin_permission: the 'check_permission' callbacks are
     * asked in order until one answers exactly `true`.  The result is that
     * `true`, else the last answer (false when there is no callback).
     * `invoked` is how many callbacks were asked.
     */
    method CheckPluginPermission(username: string, capability: string, answer: (C, string, string) -> Scalar)
      returns (result: Scalar, invoked: nat)
      ensures var cbs := Callbacks(hooks, "check_permission");
        invoked <= |cbs| &&
        (result == Bool(true) <==> exists i :: 0 <= i < |cbs| && answer(cbs[i], username, capability) == Bool(true)) &&
        (forall i :: 0 <= i < invoked - 1 ==> answer(cbs[i], username, capability) != Bool(true)) &&
        (result == Bool(true) ==> invoked > 0 && answer(cbs[invoked - 1], username, capability) == Bool(true)) &&
        (result != Bool(true) ==>
          (invoked == |cbs| &&
           result == if cbs == [] then Bool(false) else answer(cbs[|cbs| - 1], username, capability)))
    {
      var cbs := if "check_permission" in hooks then hooks["check_permission"] else [];
      result := Bool(false);
      invoked := 0;
      while invoked < |cbs|
        invariant 0 <= invoked <= |cbs|
        invariant forall i :: 0 <= i < invoked ==> answer(cbs[i], username, capability) != Bool(true)
        invariant result == if invoked == 0 then Bool(false) else answer(cbs[invoked - 1], username, capability)
      {
        result := answer(cbs[invoked], username, capability);
        invoked := invoked + 1;
        if result == Bool(true) {
          return;
        }
      }
    }

    /** fcms_register_admin_section: the id's options are replaced in place, or appended for a new id. */
    method RegisterAdminSection(id: string, opts: Section)
      modifies this
      ensures sections == Put(old(sections), id, opts)
      ensures hooks == old(hooks)
    {
      sections := Put(sections, id, opts);
    }

    /**
     * fcms_get_admin_sections: the sections sorted by `menu_order ?? 100`,
     * then organised into top-level entries with their children.
     */
    method GetAdminSections() returns (organized: Arr<Entry>)
      ensures organized == OrganizeFrom([], SortSections(sections), SortSections(sections))
      ensures OrganizedFrom(organized, sections)
    {
      var sorted := SortSections(sections);
      organized := [];
      var k := 0;
      while k < |sorted|
        invariant 0 <= k <= |sorted|
        invariant OrganizeFrom(organized, sorted, sorted[k..]) == OrganizeFrom([], sorted, sorted)
        invariant Sound(organized, sorted)
        invariant forall i :: 0 <= i < k ==> Filed(organized, sorted, sorted[i].0, sorted[i].1)
      {
        var next := OrganizeStep(organized, sorted, sorted[k].0, sorted[k].1);
        TurnFacts(organized, next, sorted, k + 1);
        assert sorted[k..][1..] == sorted[k + 1..];
        organized := next;
        k := k + 1;
      }
      Transfer(organized, sorted, sections);
    }
  }

  /** Re-registering an id overwrites its options and keeps its place in the menu order of registration. */
  lemma RegisterOverwrites(sections: Arr<Section>, id: string, opts: Section)
    requires HasKey(sections, id)
    ensures Get(Put(sections, id, opts), id) == Some(opts)
    ensures |Put(sections, id, opts)| == |sections|
    ensures forall i :: 0 <= i < |sections| ==> Put(sections, id, opts)[i].0 == sections[i].0
  {
    PutInPlace(sections, id, opts);
  }
}
