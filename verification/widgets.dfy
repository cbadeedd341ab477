/**
 * The sidebar and widget handler (admin/widgets-handler.php).  widgets.json
 * holds a map from sidebar id to a sidebar (name, description, list of
 * widgets); each request decodes it into `$widgets`, changes it and writes
 * it back.  Here the decoded map is the `sidebars` field of a
 * `WidgetStore`, the POST fields are parameters, and `uniqid()` is the
 * parameter `newId`.
 */
module Widgets {
  import opened Php
  import opened PhpArray

  /**
   * One widget entry.  `id` is None for an entry without an 'id' (the
   * handler's filters drop those).  `settings` is the decoded
   * 'settings' array.
   */
  datatype Widget = Widget(id: Option<string>, kind: string, title: string, content: string,
                           classes: string, settings: Arr<string>)

  datatype Sidebar = Sidebar(name: string, description: string, widgets: seq<Widget>)

  /** The JSON answer: `success` with a message, or not with an error. */
  datatype Reply = Success(message: string) | Failure(error: string)

  /** The widget_type, widget_title, widget_content and widget_classes fields of a save or add. */
  datatype Fields = Fields(kind: string, title: string, content: string, classes: Option<string>)

  /** `is_array($widget) && isset($widget['id'])` */
  predicate HasId(w: Widget) { w.id.Some? }

  /** The widget that add_widget and save_widget create. */
  function NewWidget(newId: string, f: Fields): (w: Widget)
    ensures w.id == Some(newId) && w.settings == []
    ensures f.classes.None? ==> w.classes == ""
  {
    Widget(Some(newId), f.kind, f.title, f.content, if f.classes.Some? then f.classes.value else "", [])
  }

  /** save_widget's update of one entry: title, content, type and classes; id and settings stay. */
  function Saved(w: Widget, f: Fields): (r: Widget)
    ensures r.id == w.id && r.settings == w.settings
    ensures r.title == f.title && r.content == f.content && r.kind == f.kind
  {
    w.(title := f.title, content := f.content, kind := f.kind,
       classes := if f.classes.Some? then f.classes.value else "")
  }

  // ---------------------------------------------------------------------
  // The loops over one widget list
  // ---------------------------------------------------------------------

  /** The index of the first widget with the id (`===`: an entry without an id never matches). */
  function FirstIndex(ws: seq<Widget>, id: string): (r: Option<nat>)
    ensures r.Some? ==> r.value < |ws| && ws[r.value].id == Some(id)
    ensures r.Some? ==> forall j :: 0 <= j < r.value ==> ws[j].id != Some(id)
    ensures r.None? <==> forall j :: 0 <= j < |ws| ==> ws[j].id != Some(id)
    decreases |ws|
  {
    if ws == [] then None
    else if ws[0].id == Some(id) then Some(0)
    else
      assert forall j :: 1 <= j < |ws| ==> ws[j] == ws[1..][j - 1];
      match FirstIndex(ws[1..], id)
      case None => None
      case Some(i) => Some(i + 1)
  }

  /** The scan that stops at the first widget with the id. */
  method FindFirst(ws: seq<Widget>, id: string) returns (found: Option<nat>)
    ensures found == FirstIndex(ws, id)
  {
    var q := 0;
    while q < |ws|
      invariant 0 <= q <= |ws|
      invariant forall j :: 0 <= j < q ==> ws[j].id != Some(id)
    {
      if ws[q].id == Some(id) {
        return Some(q);
      }
      q := q + 1;
    }
    return None;
  }

  /** The list after save_widget's update loop: the first widget with the id updated. */
  function SaveFirst(ws: seq<Widget>, id: string, f: Fields): (r: seq<Widget>)
    ensures |r| == |ws|
  {
    match FirstIndex(ws, id)
    case None => ws
    case Some(m) => ws[m := Saved(ws[m], f)]
  }

  /**
   * save_widget's update loop (`foreach ... as &$widget`, `break` at the
   * first match).  `bound` is the element `$widget` is still a reference to
   * when the loop ends: the match, or the last element when none matched.
   */
  method UpdateFirst(ws: seq<Widget>, id: string, f: Fields) returns (r: seq<Widget>, bound: nat)
    ensures r == SaveFirst(ws, id, f)
    ensures ws != [] ==> bound < |ws|
    ensures FirstIndex(ws, id).Some? ==> r[bound] == Saved(ws[bound], f) && bound == FirstIndex(ws, id).value
    ensures FirstIndex(ws, id).None? ==> r == ws && (ws != [] ==> bound == |ws| - 1)
    ensures forall j :: 0 <= j < |ws| && j != bound ==> r[j] == ws[j]
  {
    var found := FindFirst(ws, id);
    if found.Some? {
      bound := found.value;
      r := ws[bound := Saved(ws[bound], f)];
    } else {
      r := ws;
      bound := if ws == [] then 0 else |ws| - 1;
    }
  }

  /** update_widget's loop: every widget with the id gets the new title, content and settings. */
  method UpdateAll(ws: seq<Widget>, id: string, title: string, content: string, settings: Arr<string>)
    returns (r: seq<Widget>)
    ensures |r| == |ws|
    ensures forall j :: 0 <= j < |ws| ==>
      r[j] == if ws[j].id == Some(id) then ws[j].(title := title, content := content, settings := settings) else ws[j]
  {
    r := ws;
    for i := 0 to |ws|
      invariant |r| == |ws|
      invariant forall j :: 0 <= j < i ==>
        r[j] == if ws[j].id == Some(id) then ws[j].(title := title, content := content, settings := settings) else ws[j]
      invariant forall j :: i <= j < |ws| ==> r[j] == ws[j]
    {
      if r[i].id == Some(id) {
        r := r[i := r[i].(title := title, content := content, settings := settings)];
      }
    }
  }

  /** save_widget's normalising loop: the widgets with an id, in order. */
  method Normalize(ws: seq<Widget>) returns (r: seq<Widget>)
    ensures r == FilterSeq(ws, HasId)
  {
    r := [];
    for j := 0 to |ws|
      invariant r == FilterSeq(ws[..j], HasId)
    {
      FilterSeqSnoc(ws, j, HasId);
      if HasId(ws[j]) {
        r := r + [ws[j]];
      }
    }
    assert ws[..|ws|] == ws;
  }

  /**
   * What the normalising `foreach ($list as $widget)` reads when `$widget`
   * is still a reference to element `bound` of the list: each iteration
   * first stores the element it reads into that slot, so at the slot itself
   * it reads back the element before it.
   */
  function ReadThroughReference(ws: seq<Widget>, bound: nat): (r: seq<Widget>)
    requires bound < |ws|
    ensures |r| == |ws|
    ensures forall j :: 0 <= j < |ws| && j != bound ==> r[j] == ws[j]
    ensures bound > 0 ==> r[bound] == ws[bound - 1]
    ensures bound == 0 ==> r == ws
  {
    if bound == 0 then ws else ws[bound := ws[bound - 1]]
  }

  /**
   * The normalising loop as PHP runs it right after the update loop: the
   * list's element `bound` is the slot `$widget` refers to, and every
   * assignment to `$widget` overwrites it.
   */
  method NormalizeThroughReference(ws: seq<Widget>, bound: nat) returns (r: seq<Widget>)
    requires bound < |ws|
    ensures r == FilterSeq(ReadThroughReference(ws, bound), HasId)
  {
    var slots := ws;
    ghost var read := ReadThroughReference(ws, bound);
    r := [];
    for j := 0 to |ws|
      invariant |slots| == |ws|
      invariant forall i :: 0 <= i < |ws| && i != bound ==> slots[i] == ws[i]
      invariant j <= bound ==> slots[bound] == if j == 0 then ws[bound] else ws[j - 1]
      invariant r == FilterSeq(read[..j], HasId)
    {
      var w := slots[j];
      assert w == read[j];
      slots := slots[bound := w];
      FilterSeqSnoc(read, j, HasId);
      if HasId(w) {
        r := r + [w];
      }
    }
    assert read[..|ws|] == read;
  }

  /** reorder_widgets's inner loop: the first widget with the id, if any. */
  function Pick(ws: seq<Widget>, id: string): (r: seq<Widget>)
    ensures |r| <= 1
    ensures r == [] <==> FirstIndex(ws, id).None?
  {
    match FirstIndex(ws, id)
    case None => []
    case Some(i) => [ws[i]]
  }

  /** The reordered list: for each requested id in turn, its first widget. */
  function Reordered(ws: seq<Widget>, order: seq<string>): (r: seq<Widget>)
    ensures |r| <= |order|
    decreases |order|
  {
    if order == [] then []
    else Reordered(ws, order[..|order| - 1]) + Pick(ws, order[|order| - 1])
  }

  /** Every widget of the result is a widget of the list whose id was requested. */
  lemma {:induction false} ReorderedMembers(ws: seq<Widget>, order: seq<string>)
    ensures forall w :: w in Reordered(ws, order) ==> w in ws && w.id.Some? && w.id.value in order
    decreases |order|
  {
    if order != [] {
      var front := order[..|order| - 1];
      ReorderedMembers(ws, front);
      assert forall x :: x in front ==> x in order;
    }
  }

  /** reorder_widgets's two loops. */
  method Reorder(ws: seq<Widget>, order: seq<string>) returns (r: seq<Widget>)
    ensures r == Reordered(ws, order)
  {
    r := [];
    var k := 0;
    while k < |order|
      invariant 0 <= k <= |order|
      invariant r == Reordered(ws, order[..k])
    {
      var found := FindFirst(ws, order[k]);
      assert order[..k + 1][..k] == order[..k];
      if found.Some? {
        r := r + [ws[found.value]];
      }
      k := k + 1;
    }
    assert order[..|order|] == order;
  }

  /** When every requested id is present, there is one widget per requested id. */
  lemma {:induction false} ReorderedLength(ws: seq<Widget>, order: seq<string>)
    requires forall i :: 0 <= i < |order| ==> FirstIndex(ws, order[i]).Some?
    ensures |Reordered(ws, order)| == |order|
    decreases |order|
  {
    if order != [] {
      var front := order[..|order| - 1];
      assert forall i :: 0 <= i < |front| ==> front[i] == order[i];
      ReorderedLength(ws, front);
    }
  }

  /** When every requested id is present, the i-th widget of the result is the first one with the i-th id. */
  lemma {:induction false} ReorderedAt(ws: seq<Widget>, order: seq<string>, i: nat)
    requires forall i :: 0 <= i < |order| ==> FirstIndex(ws, order[i]).Some?
    requires i < |order|
    ensures i < |Reordered(ws, order)|
    ensures Reordered(ws, order)[i] == ws[FirstIndex(ws, order[i]).value]
    decreases |order|
  {
    ReorderedLength(ws, order);
    var front := order[..|order| - 1];
    assert forall j :: 0 <= j < |front| ==> front[j] == order[j];
    ReorderedLength(ws, front);
    var last := order[|order| - 1];
    var head := Reordered(ws, front);
    var r := Reordered(ws, order);
    assert r == head + [ws[FirstIndex(ws, last).value]];
    if i < |front| {
      ReorderedAt(ws, front, i);
      assert front[i] == order[i];
      assert r[i] == head[i];
    } else {
      assert i == |order| - 1 && order[i] == last;
      assert r[i] == ws[FirstIndex(ws, last).value];
    }
  }

  /** A widget whose id is not requested is dropped. */
  lemma UnrequestedDropped(ws: seq<Widget>, order: seq<string>, w: Widget)
    requires w.id.None? || w.id.value !in order
    ensures w !in Reordered(ws, order)
  {
    ReorderedMembers(ws, order);
  }

  // ---------------------------------------------------------------------
  // The list operations and what they promise
  // ---------------------------------------------------------------------

  /** delete_widget's filter: entries with an id other than the deleted one. */
  predicate KeptOnDelete(id: string, w: Widget) { w.id.Some? && w.id.value != id }

  function KeepOnDelete(id: string): Widget -> bool {
    w => KeptOnDelete(id, w)
  }

  function DeleteFrom(ws: seq<Widget>, id: string): (r: seq<Widget>)
    ensures forall w :: w in r <==> w in ws && w.id.Some? && w.id.value != id
  {
    FilterSeqMembers(ws, KeepOnDelete(id));
    FilterSeq(ws, KeepOnDelete(id))
  }

  /** Deleting the one widget with the id from a normalised list drops exactly it and keeps the others' order. */
  lemma DeleteDropsOne(ws: seq<Widget>, id: string, i: nat)
    requires i < |ws| && ws[i].id == Some(id)
    requires forall j :: 0 <= j < |ws| ==> HasId(ws[j])
    requires forall j :: 0 <= j < |ws| && j != i ==> ws[j].id != Some(id)
    ensures DeleteFrom(ws, id) == ws[..i] + ws[i + 1..]
  {
    FilterSeqDropsOne(ws, KeepOnDelete(id), i);
  }

  /** Deleting an id no widget has, from a normalised list, changes nothing; deleting twice is deleting once. */
  lemma DeleteAbsentNoChange(ws: seq<Widget>, id: string)
    requires forall j :: 0 <= j < |ws| ==> HasId(ws[j]) && ws[j].id != Some(id)
    ensures DeleteFrom(ws, id) == ws
  {
    FilterSeqKeepsAll(ws, KeepOnDelete(id));
  }

  lemma DeleteIdempotent(ws: seq<Widget>, id: string)
    ensures DeleteFrom(DeleteFrom(ws, id), id) == DeleteFrom(ws, id)
  {
    FilterSeqIdempotent(ws, KeepOnDelete(id));
  }

  /**
   * save_widget's new list: with a truthy id the first widget with it is
   * updated in place, otherwise one new widget is appended; then the
   * entries without an id are dropped.
   */
  function SavedList(ws: seq<Widget>, id: string, f: Fields, newId: string): (r: seq<Widget>)
    ensures forall w :: w in r ==> HasId(w)
  {
    var list := if !Empty(id) then SaveFirst(ws, id, f) else ws + [NewWidget(newId, f)];
    FilterSeqMembers(list, HasId);
    FilterSeq(list, HasId)
  }

  /** The same list as save_widget computes it: the normalising loop reads through the stale reference. */
  function SavedListAsWritten(ws: seq<Widget>, id: string, f: Fields, newId: string): seq<Widget> {
    if Empty(id) || ws == [] then SavedList(ws, id, f, newId)
    else
      var bound := match FirstIndex(ws, id) case Some(m) => m case None => |ws| - 1;
      FilterSeq(ReadThroughReference(SaveFirst(ws, id, f), bound), HasId)
  }

  /** save_widget's list computation, both loops, as the handler runs them. */
  method SaveListAsWritten(ws: seq<Widget>, id: string, f: Fields, newId: string) returns (r: seq<Widget>)
    ensures r == SavedListAsWritten(ws, id, f, newId)
  {
    if !Empty(id) && ws != [] {
      var updated, bound := UpdateFirst(ws, id, f);
      r := NormalizeThroughReference(updated, bound);
    } else if !Empty(id) {
      r := Normalize(ws);
    } else {
      r := Normalize(ws + [NewWidget(newId, f)]);
    }
  }

  /** The intended list computation: update or append, then normalise. */
  method SaveList(ws: seq<Widget>, id: string, f: Fields, newId: string) returns (r: seq<Widget>)
    ensures r == SavedList(ws, id, f, newId)
  {
    var list := ws;
    if !Empty(id) {
      var bound;
      list, bound := UpdateFirst(ws, id, f);
    } else {
      list := ws + [NewWidget(newId, f)];
    }
    r := Normalize(list);
  }

  /** In a normalised list, saving with an id updates the first widget with it in place and nothing else. */
  lemma SaveUpdatesInPlace(ws: seq<Widget>, id: string, f: Fields, newId: string)
    requires !Empty(id)
    requires forall j :: 0 <= j < |ws| ==> HasId(ws[j])
    ensures FirstIndex(ws, id).Some? ==>
      SavedList(ws, id, f, newId) == ws[FirstIndex(ws, id).value := Saved(ws[FirstIndex(ws, id).value], f)]
    ensures FirstIndex(ws, id).None? ==> SavedList(ws, id, f, newId) == ws
  {
    var u := SaveFirst(ws, id, f);
    forall x | x in u ensures HasId(x) {
      var j :| 0 <= j < |u| && u[j] == x;
    }
    FilterSeqKeepsAll(u, HasId);
  }

  /** In a normalised list, saving without an id appends exactly one new widget. */
  lemma SaveAppendsOne(ws: seq<Widget>, id: string, f: Fields, newId: string)
    requires Empty(id)
    requires forall j :: 0 <= j < |ws| ==> HasId(ws[j])
    ensures SavedList(ws, id, f, newId) == ws + [NewWidget(newId, f)]
  {
    var u := ws + [NewWidget(newId, f)];
    forall x | x in u ensures HasId(x) {
      var j :| 0 <= j < |u| && u[j] == x;
    }
    FilterSeqKeepsAll(u, HasId);
  }

  /**
   * As written, saving the second of two widgets loses the update and
   * stores the first widget twice.
   */
  lemma SaveAsWrittenLosesUpdate(a: Widget, b: Widget, f: Fields, newId: string)
    requires a.id.Some? && b.id.Some? && a.id != b.id && !Empty(b.id.value)
    ensures SavedListAsWritten([a, b], b.id.value, f, newId) == [a, a]
    ensures SavedList([a, b], b.id.value, f, newId) == [a, Saved(b, f)]
  {
    var id := b.id.value;
    assert FirstIndex([a, b], id) == Some(1);
    var u := SaveFirst([a, b], id, f);
    assert u == [a, Saved(b, f)];
    assert ReadThroughReference(u, 1) == [a, a];
    FilterSeqKeepsAll([a, a], HasId);
    FilterSeqKeepsAll(u, HasId);
  }

  // ---------------------------------------------------------------------
  // The handler's operations on the decoded widgets.json
  // ---------------------------------------------------------------------

  /** The actions the main block handles; anything else is left to other handlers. */
  predicate IsWidgetAction(action: string) {
    action in {"add_sidebar", "add_widget", "save_widget", "update_widget", "delete_widget",
               "reorder_widgets", "delete_sidebar"}
  }

  /** delete_sidebar: the key is removed if present; otherwise an error. */
  function DeleteSidebarOp(sbs: Arr<Sidebar>, id: string): (r: (Arr<Sidebar>, Reply))
    ensures r.1.Success? <==> HasKey(sbs, id)
    ensures !HasKey(r.0, id)
    ensures forall k :: k != id ==> Get(r.0, k) == Get(sbs, k)
    ensures r.1.Failure? ==> r == (sbs, Failure("Sidebar not found"))
  {
    if HasKey(sbs, id) then (Remove(sbs, id), Success("Sidebar '" + id + "' deleted successfully"))
    else (sbs, Failure("Sidebar not found"))
  }

  /** delete_widget: the sidebar's list filtered; an unknown sidebar is an error. */
  function DeleteWidgetOp(sbs: Arr<Sidebar>, sid: string, wid: string): (r: (Arr<Sidebar>, Reply))
    ensures r.1.Success? <==> HasKey(sbs, sid)
    ensures r.1.Failure? ==> r == (sbs, Failure("Sidebar not found"))
    ensures r.1.Success? ==> (Get(r.0, sid).Some? &&
      Get(r.0, sid).value.widgets == DeleteFrom(Get(sbs, sid).value.widgets, wid))
    ensures forall k :: k != sid ==> Get(r.0, k) == Get(sbs, k)
  {
    match Get(sbs, sid)
    case None => (sbs, Failure("Sidebar not found"))
    case Some(s) =>
      (Put(sbs, sid, s.(widgets := DeleteFrom(s.widgets, wid))), Success("Widget deleted successfully"))
  }

  /** add_sidebar: the trimmed id must be truthy and new; the name is the id as posted. */
  function AddSidebarOp(sbs: Arr<Sidebar>, rawId: Option<string>): (r: (Arr<Sidebar>, Reply))
    ensures r.1.Success? <==> rawId.Some? && !Empty(Trim(rawId.value)) && !HasKey(sbs, Trim(rawId.value))
    ensures r.1.Failure? ==> r == (sbs, Failure("Invalid sidebar ID or sidebar already exists"))
  {
    var id := Trim(if rawId.Some? then rawId.value else "");
    if !Empty(id) && !HasKey(sbs, id) then
      (Put(sbs, id, Sidebar(rawId.value, "", [])), Success("Sidebar created successfully"))
    else (sbs, Failure("Invalid sidebar ID or sidebar already exists"))
  }

  /** A new sidebar is appended with the posted name, an empty description and no widgets. */
  lemma AddSidebarAppends(sbs: Arr<Sidebar>, raw: string)
    requires !Empty(Trim(raw)) && !HasKey(sbs, Trim(raw))
    ensures AddSidebarOp(sbs, Some(raw)).0 == sbs + [(Trim(raw), Sidebar(raw, "", []))]
  {
    PutAppends(sbs, Trim(raw), Sidebar(raw, "", []));
  }

  /** add_widget: one new widget at the end of the sidebar's list. */
  function AddWidgetOp(sbs: Arr<Sidebar>, sid: string, f: Fields, newId: string): (r: (Arr<Sidebar>, Reply))
    ensures r.1.Success? <==> HasKey(sbs, sid)
    ensures r.1.Failure? ==> r == (sbs, Failure("Sidebar not found"))
    ensures r.1.Success? ==> (Get(r.0, sid).Some? &&
      Get(r.0, sid).value.widgets == Get(sbs, sid).value.widgets + [NewWidget(newId, f)])
    ensures forall k :: k != sid ==> Get(r.0, k) == Get(sbs, k)
  {
    match Get(sbs, sid)
    case None => (sbs, Failure("Sidebar not found"))
    case Some(s) =>
      (Put(sbs, sid, s.(widgets := s.widgets + [NewWidget(newId, f)])), Success("Widget added successfully"))
  }

  /** save_widget (as intended): the sidebar's list becomes SavedList of it. */
  function SaveWidgetOp(sbs: Arr<Sidebar>, sid: string, wid: string, f: Fields, newId: string)
    : (r: (Arr<Sidebar>, Reply))
    ensures r.1.Success? <==> HasKey(sbs, sid)
    ensures r.1.Failure? ==> r == (sbs, Failure("Sidebar not found"))
    ensures r.1.Success? ==> (Get(r.0, sid).Some? &&
      Get(r.0, sid).value.widgets == SavedList(Get(sbs, sid).value.widgets, wid, f, newId))
    ensures forall k :: k != sid ==> Get(r.0, k) == Get(sbs, k)
  {
    match Get(sbs, sid)
    case None => (sbs, Failure("Sidebar not found"))
    case Some(s) =>
      (Put(sbs, sid, s.(widgets := SavedList(s.widgets, wid, f, newId))), Success("Widget saved successfully"))
  }

  /** update_widget's new list: every widget with the id updated. */
  function UpdatedAll(ws: seq<Widget>, id: string, title: string, content: string, settings: Arr<string>)
    : (r: seq<Widget>)
    ensures |r| == |ws|
    ensures forall j :: 0 <= j < |ws| ==> r[j].id == ws[j].id
    decreases |ws|
  {
    if ws == [] then []
    else
      [if ws[0].id == Some(id) then ws[0].(title := title, content := content, settings := settings) else ws[0]]
      + UpdatedAll(ws[1..], id, title, content, settings)
  }

  /** The loop computes UpdatedAll. */
  lemma {:induction false} UpdatedAllAt(ws: seq<Widget>, id: string, title: string, content: string,
                                        settings: Arr<string>, j: nat)
    requires j < |ws|
    ensures UpdatedAll(ws, id, title, content, settings)[j] ==
      if ws[j].id == Some(id) then ws[j].(title := title, content := content, settings := settings) else ws[j]
    decreases |ws|
  {
    if j > 0 {
      UpdatedAllAt(ws[1..], id, title, content, settings, j - 1);
    }
  }

  /** update_widget: every widget with the id updated; an unknown sidebar is an error. */
  function UpdateWidgetOp(sbs: Arr<Sidebar>, sid: string, wid: string, title: string, content: string,
                          settings: Option<Arr<string>>): (r: (Arr<Sidebar>, Reply))
    ensures r.1.Success? <==> HasKey(sbs, sid)
    ensures r.1.Failure? ==> r == (sbs, Failure("Sidebar not found"))
    ensures r.1.Success? ==> (r.1 == Success("Widget updated successfully") &&
      Get(r.0, sid) == Some(Get(sbs, sid).value.(widgets := UpdatedAll(Get(sbs, sid).value.widgets, wid, title, content,
                                                                      if settings.Some? then settings.value else []))))
    ensures forall k :: k != sid ==> Get(r.0, k) == Get(sbs, k)
  {
    match Get(sbs, sid)
    case None => (sbs, Failure("Sidebar not found"))
    case Some(s) =>
      var st := if settings.Some? then settings.value else [];
      (Put(sbs, sid, s.(widgets := UpdatedAll(s.widgets, wid, title, content, st))),
       Success("Widget updated successfully"))
  }

  /** Updating an id no widget has still succeeds and leaves the list as it was. */
  lemma {:induction false} UpdateAbsentNoChange(ws: seq<Widget>, id: string, title: string, content: string,
                                                settings: Arr<string>)
    requires FirstIndex(ws, id).None?
    ensures UpdatedAll(ws, id, title, content, settings) == ws
    decreases |ws|
  {
    if ws != [] {
      assert forall j :: 0 <= j < |ws[1..]| ==> ws[1..][j] == ws[j + 1];
      UpdateAbsentNoChange(ws[1..], id, title, content, settings);
      assert ws == [ws[0]] + ws[1..];
    }
  }

  /** reorder_widgets: the order must decode to an array and the sidebar must exist. */
  function ReorderOp(sbs: Arr<Sidebar>, sid: string, order: Option<seq<string>>): (r: (Arr<Sidebar>, Reply))
    ensures r.1.Success? <==> HasKey(sbs, sid) && order.Some?
    ensures r.1.Failure? ==> r == (sbs, Failure("Invalid data"))
    ensures r.1.Success? ==> (Get(r.0, sid).Some? &&
      Get(r.0, sid).value.widgets == Reordered(Get(sbs, sid).value.widgets, order.value))
    ensures forall k :: k != sid ==> Get(r.0, k) == Get(sbs, k)
  {
    match Get(sbs, sid)
    case None => (sbs, Failure("Invalid data"))
    case Some(s) =>
      if order.None? then (sbs, Failure("Invalid data"))
      else (Put(sbs, sid, s.(widgets := Reordered(s.widgets, order.value))),
            Success("Widget order updated successfully"))
  }

  /** Each operation that succeeds on an existing sidebar keeps every sidebar in its place. */
  lemma ChangedSidebarKeepsPlace(sbs: Arr<Sidebar>, sid: string, s: Sidebar)
    requires HasKey(sbs, sid)
    ensures Keys(Put(sbs, sid, s)) == Keys(sbs)
  {
    PutInPlace(sbs, sid, s);
  }

  /** The POST fields the handler reads ($_POST[...] ?? default is left to the operations). */
  datatype Post = Post(
    id: Option<string>, sidebar: Option<string>, sidebarId: Option<string>, widgetId: Option<string>,
    widgetType: string, widgetTitle: string, widgetContent: string, widgetClasses: Option<string>,
    widgetSettings: Option<Arr<string>>,
    /** `json_decode($_POST['widgets'] ?? '[]', true)`: None when it is not an array. */
    order: Option<seq<string>>)

  function FieldsOf(post: Post): Fields {
    Fields(post.widgetType, post.widgetTitle, post.widgetContent, post.widgetClasses)
  }

  /**
   * One POST request.  delete_sidebar and delete_widget are answered by
   * the two blocks before the main one (which exit), so the main switch's
   * delete_widget case is never reached.  None: not a widget action.
   */
  function HandleOp(sbs: Arr<Sidebar>, action: string, post: Post, loggedIn: bool, newId: string)
    : (r: (Arr<Sidebar>, Option<Reply>))
    ensures !IsWidgetAction(action) ==> r == (sbs, None)
    ensures IsWidgetAction(action) ==> r.1.Some?
    ensures !loggedIn ==> r.0 == sbs && (r.1.Some? ==> r.1.value.Failure?)
  {
    if action == "delete_sidebar" then
      if !loggedIn then (sbs, Some(Failure("You must be logged in to manage sidebars")))
      else var (s, reply) := DeleteSidebarOp(sbs, OrEmpty(post.id)); (s, Some(reply))
    else if action == "delete_widget" then
      if !loggedIn then (sbs, Some(Failure("You must be logged in to manage widgets")))
      else var (s, reply) := DeleteWidgetOp(sbs, OrEmpty(post.sidebar), OrEmpty(post.id)); (s, Some(reply))
    else if !IsWidgetAction(action) then (sbs, None)
    else if !loggedIn then (sbs, Some(Failure("You must be logged in to manage widgets")))
    else
      var (s, reply) :=
        if action == "add_sidebar" then AddSidebarOp(sbs, post.id)
        else if action == "add_widget" then AddWidgetOp(sbs, OrEmpty(post.sidebarId), FieldsOf(post), newId)
        else if action == "save_widget" then
          SaveWidgetOp(sbs, OrEmpty(post.sidebar), OrEmpty(post.id), FieldsOf(post), newId)
        else if action == "update_widget" then
          UpdateWidgetOp(sbs, OrEmpty(post.sidebarId), OrEmpty(post.widgetId), post.widgetTitle,
                         post.widgetContent, post.widgetSettings)
        else ReorderOp(sbs, OrEmpty(post.sidebar), post.order);
      (s, Some(reply))
  }

  /** The decoded widgets.json of one request, changed in place by the handler. */
  class WidgetStore {
    var sidebars: Arr<Sidebar>

    /** `file_exists($widgetsFile) ? json_decode(...) : []` */
    constructor (stored: Option<Arr<Sidebar>>)
      ensures sidebars == if stored.Some? then stored.value else []
    {
      sidebars := if stored.Some? then stored.value else [];
    }

    method DeleteSidebar(id: string) returns (reply: Reply)
      modifies this
      ensures (sidebars, reply) == DeleteSidebarOp(old(sidebars), id)
    {
      if HasKey(sidebars, id) {
        sidebars := Remove(sidebars, id);
        reply := Success("Sidebar '" + id + "' deleted successfully");
      } else {
        reply := Failure("Sidebar not found");
      }
    }

    method DeleteWidget(sid: string, wid: string) returns (reply: Reply)
      modifies this
      ensures (sidebars, reply) == DeleteWidgetOp(old(sidebars), sid, wid)
    {
      var s := Get(sidebars, sid);
      if s.None? {
        return Failure("Sidebar not found");
      }
      sidebars := Put(sidebars, sid, s.value.(widgets := DeleteFrom(s.value.widgets, wid)));
      reply := Success("Widget deleted successfully");
    }

    method AddSidebar(rawId: Option<string>) returns (reply: Reply)
      modifies this
      ensures (sidebars, reply) == AddSidebarOp(old(sidebars), rawId)
    {
      var id := Trim(if rawId.Some? then rawId.value else "");
      if !Empty(id) && !HasKey(sidebars, id) {
        sidebars := Put(sidebars, id, Sidebar(rawId.value, "", []));
        reply := Success("Sidebar created successfully");
      } else {
        reply := Failure("Invalid sidebar ID or sidebar already exists");
      }
    }

    method AddWidget(sid: string, f: Fields, newId: string) returns (reply: Reply)
      modifies this
      ensures (sidebars, reply) == AddWidgetOp(old(sidebars), sid, f, newId)
    {
      var s := Get(sidebars, sid);
      if s.None? {
        return Failure("Sidebar not found");
      }
      sidebars := Put(sidebars, sid, s.value.(widgets := s.value.widgets + [NewWidget(newId, f)]));
      reply := Success("Widget added successfully");
    }

    method SaveWidget(sid: string, wid: string, f: Fields, newId: string) returns (reply: Reply)
      modifies this
      ensures (sidebars, reply) == SaveWidgetOp(old(sidebars), sid, wid, f, newId)
    {
      var s := Get(sidebars, sid);
      if s.None? {
        return Failure("Sidebar not found");
      }
      var list := SaveList(s.value.widgets, wid, f, newId);
      sidebars := Put(sidebars, sid, s.value.(widgets := list));
      reply := Success("Widget saved successfully");
    }

    method UpdateWidget(sid: string, wid: string, title: string, content: string, settings: Option<Arr<string>>)
      returns (reply: Reply)
      modifies this
      ensures (sidebars, reply) == UpdateWidgetOp(old(sidebars), sid, wid, title, content, settings)
    {
      var s := Get(sidebars, sid);
      if s.None? {
        return Failure("Sidebar not found");
      }
      var st := if settings.Some? then settings.value else [];
      var list := UpdateAll(s.value.widgets, wid, title, content, st);
      forall j | 0 <= j < |list| ensures list[j] == UpdatedAll(s.value.widgets, wid, title, content, st)[j] {
        UpdatedAllAt(s.value.widgets, wid, title, content, st, j);
      }
      assert list == UpdatedAll(s.value.widgets, wid, title, content, st);
      sidebars := Put(sidebars, sid, s.value.(widgets := list));
      reply := Success("Widget updated successfully");
    }

    method ReorderWidgets(sid: string, order: Option<seq<string>>) returns (reply: Reply)
      modifies this
      ensures (sidebars, reply) == ReorderOp(old(sidebars), sid, order)
    {
      var s := Get(sidebars, sid);
      if s.None? || order.None? {
        return Failure("Invalid data");
      }
      var list := Reorder(s.value.widgets, order.value);
      sidebars := Put(sidebars, sid, s.value.(widgets := list));
      reply := Success("Widget order updated successfully");
    }

    /** One POST request to the handler. */
    method Handle(action: string, post: Post, loggedIn: bool, newId: string) returns (reply: Option<Reply>)
      modifies this
      ensures (sidebars, reply) == HandleOp(old(sidebars), action, post, loggedIn, newId)
    {
      if action == "delete_sidebar" || action == "delete_widget" {
        if !loggedIn {
          reply := Some(Failure(if action == "delete_sidebar" then "You must be logged in to manage sidebars"
                                else "You must be logged in to manage widgets"));
        } else if action == "delete_sidebar" {
          var r := DeleteSidebar(OrEmpty(post.id));
          reply := Some(r);
        } else {
          var r := DeleteWidget(OrEmpty(post.sidebar), OrEmpty(post.id));
          reply := Some(r);
        }
        return;
      }
      if !IsWidgetAction(action) {
        return None;
      }
      if !loggedIn {
        return Some(Failure("You must be logged in to manage widgets"));
      }
      var r;
      if action == "add_sidebar" {
        r := AddSidebar(post.id);
      } else if action == "add_widget" {
        r := AddWidget(OrEmpty(post.sidebarId), FieldsOf(post), newId);
      } else if action == "save_widget" {
        r := SaveWidget(OrEmpty(post.sidebar), OrEmpty(post.id), FieldsOf(post), newId);
      } else if action == "update_widget" {
        r := UpdateWidget(OrEmpty(post.sidebarId), OrEmpty(post.widgetId), post.widgetTitle,
                          post.widgetContent, post.widgetSettings);
      } else {
        r := ReorderWidgets(OrEmpty(post.sidebar), post.order);
      }
      reply := Some(r);
    }
  }
}
