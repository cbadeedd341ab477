/**
 * The menu handler (menu-ajax-handler.php).  config/menus.json maps a menu
 * id to a menu (label, CSS class, items).  Here the file is the `file`
 * field of a `MenuStore` (None when it does not exist); the items of a
 * menu are opaque values of type `I`; the session check, the decoded
 * request and whether writing the file succeeds are parameters.
 */
module Menus {
  import opened Php
  import opened PhpArray

  datatype Menu<I> = Menu(caption: string, menuClass: string, items: seq<I>)

  /** What the handler answers: `{"success": true}`, a menu, or an error with its HTTP status. */
  datatype Reply<I> = Saved | Loaded(menu: Menu<I>) | Failure(status: int, error: string)

  // ---------------------------------------------------------------------
  // Menu ids and default labels
  // ---------------------------------------------------------------------

  /** `n` underscores. */
  function Underscores(n: nat): (r: string)
    ensures |r| == n
    ensures forall i :: 0 <= i < n ==> r[i] == '_'
  {
    seq(n, i => '_')
  }

  /**
   * `preg_replace('/[^a-zA-Z0-9]/', '_', $name)`.  Without the `u` flag the
   * pattern sees bytes, so a character outside ASCII becomes one
   * underscore per byte of its UTF-8 encoding.
   */
  function Slug(name: string): (r: string)
    ensures |r| == ByteLength(name)
    decreases |name|
  {
    if name == [] then []
    else (if IsAlnum(name[0]) then [name[0]] else Underscores(Utf8Width(name[0]))) + Slug(name[1..])
  }

  /** The id create_menu gives a menu name. */
  function MenuId(name: string): string {
    Lower(Slug(name))
  }

  /** A character that can occur in a menu id. */
  predicate IsIdChar(c: char) { IsLowerAscii(c) || IsDigit(c) || c == '_' }

  /** The slug keeps ASCII letters and digits and writes '_' for everything else. */
  lemma {:induction false} SlugChars(name: string)
    ensures forall i :: 0 <= i < |Slug(name)| ==> IsAlnum(Slug(name)[i]) || Slug(name)[i] == '_'
    decreases |name|
  {
    if name != [] {
      SlugChars(name[1..]);
      var h := if IsAlnum(name[0]) then [name[0]] else Underscores(Utf8Width(name[0]));
      var t := Slug(name[1..]);
      assert Slug(name) == h + t;
      forall i | 0 <= i < |Slug(name)| ensures IsAlnum(Slug(name)[i]) || Slug(name)[i] == '_' {
        if i >= |h| {
          assert Slug(name)[i] == t[i - |h|];
        }
      }
    }
  }

  /** A menu id is made of lower-case ASCII letters, digits and '_', one per byte of the name. */
  lemma MenuIdShape(name: string)
    ensures |MenuId(name)| == ByteLength(name)
    ensures forall i :: 0 <= i < |MenuId(name)| ==> IsIdChar(MenuId(name)[i])
  {
    SlugChars(name);
  }

  /** For an ASCII name, the id has the name's length: letters lower-cased, digits kept, the rest '_'. */
  lemma {:induction false} MenuIdOfAscii(name: string)
    requires forall i :: 0 <= i < |name| ==> name[i] as int < 0x80
    ensures |MenuId(name)| == |name|
    ensures forall i :: 0 <= i < |name| ==>
      MenuId(name)[i] == if IsAlnum(name[i]) then LowerChar(name[i]) else '_'
  {
    SlugOfAscii(name);
  }

  lemma {:induction false} SlugOfAscii(name: string)
    requires forall i :: 0 <= i < |name| ==> name[i] as int < 0x80
    ensures |Slug(name)| == |name|
    ensures forall i :: 0 <= i < |name| ==> Slug(name)[i] == if IsAlnum(name[i]) then name[i] else '_'
    decreases |name|
  {
    if name != [] {
      var t := name[1..];
      assert forall i :: 0 <= i < |t| ==> t[i] == name[i + 1];
      SlugOfAscii(t);
      var h := if IsAlnum(name[0]) then [name[0]] else Underscores(1);
      assert Slug(name) == h + Slug(t);
    }
  }

  /** Making an id of an id changes nothing. */
  lemma {:induction false} MenuIdIdempotent(name: string)
    ensures MenuId(MenuId(name)) == MenuId(name)
  {
    var id := MenuId(name);
    MenuIdShape(name);
    MenuIdOfAscii(id);
    var again := MenuId(id);
    assert |again| == |id|;
    forall i | 0 <= i < |id| ensures again[i] == id[i] {
      if IsAlnum(id[i]) {
        assert !IsUpperAscii(id[i]);
      }
    }
  }

  /** `str_replace('_', ' ', $c)` on one character. */
  function Unscore(c: char): char {
    if c == '_' then ' ' else c
  }

  /** save_menu's default label: `ucwords(str_replace('_', ' ', $menuId))`. */
  function DefaultLabel(id: string): (r: string)
    ensures |r| == |id|
    ensures forall i :: 0 <= i < |id| ==> (r[i] == ' ' <==> id[i] == '_' || id[i] == ' ')
    ensures forall i :: 0 <= i < |id| ==> r[i] != '_'
  {
    Ucwords(MapChars(id, Unscore))
  }

  /** Lower-casing the default label of an id without capitals gives back the id with spaces for '_'. */
  lemma DefaultLabelWords(id: string)
    requires forall i :: 0 <= i < |id| ==> !IsUpperAscii(id[i])
    ensures Lower(DefaultLabel(id)) == MapChars(id, Unscore)
  {
    var spaced := MapChars(id, Unscore);
    var title := DefaultLabel(id);
    forall i | 0 <= i < |id| ensures Lower(title)[i] == spaced[i] {
      assert title[i] == WordCased(spaced, i);
    }
  }

  // ---------------------------------------------------------------------
  // The requests
  // ---------------------------------------------------------------------

  /** The decoded JSON body of a POST; each field None when absent. */
  datatype Data<I> = Data(action: Option<string>, menuId: Option<string>, items: Option<seq<I>>,
                          caption: Option<string>, cssClass: Option<string>, name: Option<string>)

  datatype Request<I> =
    | HttpGet(action: Option<string>, menuId: Option<string>)
    | HttpPost(data: Data<I>)
    | OtherMethod

  function Menus<I>(file: Option<Arr<Menu<I>>>): Arr<Menu<I>> {
    if file.Some? then file.value else []
  }

  /** load_menu: the menu under the id; a missing id, file or menu is an error. */
  function LoadOp<I>(file: Option<Arr<Menu<I>>>, menuId: Option<string>): (r: Reply<I>)
    ensures r.Loaded? <==> menuId.Some? && file.Some? && HasKey(file.value, menuId.value)
    ensures r.Loaded? ==> Get(file.value, menuId.value) == Some(r.menu)
    ensures menuId.None? ==> r == Failure(200, "Menu ID is required")
    ensures menuId.Some? && file.None? ==> r == Failure(200, "Menu file not found")
  {
    if menuId.None? then Failure(200, "Menu ID is required")
    else if file.None? then Failure(200, "Menu file not found")
    else match Get(file.value, menuId.value)
      case None => Failure(200, "Menu not found")
      case Some(m) => Loaded(m)
  }

  /**
   * save_menu: the entry under menu_id is overwritten (or added); the label
   * defaults to the id made readable, the class to "".  The file changes
   * only when it is written.
   */
  function SaveOp<I>(file: Option<Arr<Menu<I>>>, data: Data<I>, writeOk: bool): (r: (Option<Arr<Menu<I>>>, Reply<I>))
    ensures r.1 == Saved <==> !Empty(OrEmpty(data.menuId)) && data.items.Some? && writeOk
    ensures r.1 != Saved ==> r.0 == file
    ensures r.1 == Saved ==> (r.0.Some? &&
      Get(r.0.value, data.menuId.value) == Some(Menu(
        if data.caption.Some? then data.caption.value else DefaultLabel(data.menuId.value),
        OrEmpty(data.cssClass), data.items.value)))
    ensures r.1 == Saved ==> forall k :: k != data.menuId.value ==> Get(r.0.value, k) == Get(Menus(file), k)
  {
    if Empty(OrEmpty(data.menuId)) || data.items.None? then (file, Failure(200, "Menu ID and items are required"))
    else
      var id := data.menuId.value;
      var menu := Menu(if data.caption.Some? then data.caption.value else DefaultLabel(id), OrEmpty(data.cssClass),
                       data.items.value);
      if writeOk then (Some(Put(Menus(file), id, menu)), Saved)
      else (file, Failure(200, "Failed to save menu"))
  }

  /** create_menu: a new menu under the name's id, with no items; an existing id is an error. */
  function CreateOp<I>(file: Option<Arr<Menu<I>>>, data: Data<I>, writeOk: bool): (r: (Option<Arr<Menu<I>>>, Reply<I>))
    ensures r.1 == Saved <==>
      !Empty(OrEmpty(data.name)) && !HasKey(Menus(file), MenuId(data.name.value)) && writeOk
    ensures r.1 != Saved ==> r.0 == file
    ensures r.1 == Saved ==> r.0 == Some(Menus(file) + [(MenuId(data.name.value), Menu(data.name.value, OrEmpty(data.cssClass), []))])
    ensures !Empty(OrEmpty(data.name)) && HasKey(Menus(file), MenuId(data.name.value)) ==>
      r.1 == Failure(200, "Menu with this name already exists")
  {
    if Empty(OrEmpty(data.name)) then (file, Failure(200, "Menu name is required"))
    else
      var id := MenuId(data.name.value);
      if HasKey(Menus(file), id) then (file, Failure(200, "Menu with this name already exists"))
      else if !writeOk then (file, Failure(200, "Failed to create menu"))
      else
        PutAppends(Menus(file), id, Menu(data.name.value, OrEmpty(data.cssClass), []));
        (Some(Put(Menus(file), id, Menu(data.name.value, OrEmpty(data.cssClass), []))), Saved)
  }

  /** delete_menu: the key is removed if present; otherwise "Menu not found" and no change. */
  function DeleteOp<I>(file: Option<Arr<Menu<I>>>, data: Data<I>, writeOk: bool): (r: (Option<Arr<Menu<I>>>, Reply<I>))
    ensures r.1 == Saved <==> !Empty(OrEmpty(data.menuId)) && HasKey(Menus(file), data.menuId.value) && writeOk
    ensures r.1 != Saved ==> r.0 == file
    ensures r.1 == Saved ==> r.0 == Some(Remove(Menus(file), data.menuId.value))
    ensures !Empty(OrEmpty(data.menuId)) && !HasKey(Menus(file), data.menuId.value) ==>
      r.1 == Failure(200, "Menu not found")
  {
    if Empty(OrEmpty(data.menuId)) then (file, Failure(200, "Menu ID is required"))
    else
      var id := data.menuId.value;
      if !HasKey(Menus(file), id) then (file, Failure(200, "Menu not found"))
      else if writeOk then (Some(Remove(Menus(file), id)), Saved)
      else (file, Failure(200, "Failed to delete menu"))
  }

  /** A deleted menu is gone and every other menu reads as before. */
  lemma DeleteOnlyThatMenu<I>(file: Option<Arr<Menu<I>>>, data: Data<I>, writeOk: bool)
    requires DeleteOp(file, data, writeOk).1 == Saved
    ensures var menus := DeleteOp(file, data, writeOk).0.value;
      !HasKey(menus, data.menuId.value) &&
      forall k :: k != data.menuId.value ==> Get(menus, k) == Get(Menus(file), k)
  {
  }

  /** Creating a menu from a name whose id exists never changes the file, whatever the write would do. */
  lemma CreateExistingNoChange<I>(file: Option<Arr<Menu<I>>>, data: Data<I>, writeOk: bool)
    requires data.name.Some? && !Empty(data.name.value) && HasKey(Menus(file), MenuId(data.name.value))
    ensures CreateOp(file, data, writeOk) == (file, Failure(200, "Menu with this name already exists"))
  {
  }

  /** One request; `loggedIn` is `!empty($_SESSION['username'])`. */
  function HandleOp<I>(file: Option<Arr<Menu<I>>>, req: Request<I>, loggedIn: bool, writeOk: bool)
    : (r: (Option<Arr<Menu<I>>>, Reply<I>))
    ensures !loggedIn ==> r == (file, Failure(401, "You must be logged in to perform this action"))
    ensures !req.HttpPost? ==> r.0 == file
  {
    if !loggedIn then (file, Failure(401, "You must be logged in to perform this action"))
    else match req
      case HttpGet(action, menuId) =>
        if action == Some("load_menu") then (file, LoadOp(file, menuId))
        else (file, Failure(400, "Invalid request method"))
      case OtherMethod => (file, Failure(400, "Invalid request method"))
      case HttpPost(data) =>
        if data.action.None? then (file, Failure(200, "No action specified"))
        else if data.action.value == "save_menu" then SaveOp(file, data, writeOk)
        else if data.action.value == "create_menu" then CreateOp(file, data, writeOk)
        else if data.action.value == "delete_menu" then DeleteOp(file, data, writeOk)
        else (file, Failure(200, "Invalid action"))
  }

  /** config/menus.json, changed in place by the POST actions. */
  class MenuStore<I> {
    var file: Option<Arr<Menu<I>>>

    constructor (stored: Option<Arr<Menu<I>>>)
      ensures file == stored
    {
      file := stored;
    }

    method SaveMenu(data: Data<I>, writeOk: bool) returns (reply: Reply<I>)
      modifies this
      ensures (file, reply) == SaveOp(old(file), data, writeOk)
    {
      if Empty(OrEmpty(data.menuId)) || data.items.None? {
        return Failure(200, "Menu ID and items are required");
      }
      var id := data.menuId.value;
      var title := if data.caption.Some? then data.caption.value else DefaultLabel(id);
      var menus := Put(Menus(file), id, Menu(title, OrEmpty(data.cssClass), data.items.value));
      if writeOk {
        file := Some(menus);
        reply := Saved;
      } else {
        reply := Failure(200, "Failed to save menu");
      }
    }

    method CreateMenu(data: Data<I>, writeOk: bool) returns (reply: Reply<I>)
      modifies this
      ensures (file, reply) == CreateOp(old(file), data, writeOk)
    {
      if Empty(OrEmpty(data.name)) {
        return Failure(200, "Menu name is required");
      }
      var id := MenuId(data.name.value);
      if HasKey(Menus(file), id) {
        return Failure(200, "Menu with this name already exists");
      }
      var menus := Put(Menus(file), id, Menu(data.name.value, OrEmpty(data.cssClass), []));
      if writeOk {
        file := Some(menus);
        reply := Saved;
      } else {
        reply := Failure(200, "Failed to create menu");
      }
    }

    method DeleteMenu(data: Data<I>, writeOk: bool) returns (reply: Reply<I>)
      modifies this
      ensures (file, reply) == DeleteOp(old(file), data, writeOk)
    {
      if Empty(OrEmpty(data.menuId)) {
        return Failure(200, "Menu ID is required");
      }
      var id := data.menuId.value;
      if !HasKey(Menus(file), id) {
        return Failure(200, "Menu not found");
      }
      var menus := Remove(Menus(file), id);
      if writeOk {
        file := Some(menus);
        reply := Saved;
      } else {
        reply := Failure(200, "Failed to delete menu");
      }
    }

    method Handle(req: Request<I>, loggedIn: bool, writeOk: bool) returns (reply: Reply<I>)
      modifies this
      ensures (file, reply) == HandleOp(old(file), req, loggedIn, writeOk)
    {
      if !loggedIn {
        return Failure(401, "You must be logged in to perform this action");
      }
      match req
      case HttpGet(action, menuId) =>
        reply := if action == Some("load_menu") then LoadOp(file, menuId) else Failure(400, "Invalid request method");
      case OtherMethod =>
        reply := Failure(400, "Invalid request method");
      case HttpPost(data) =>
        if data.action.None? {
          reply := Failure(200, "No action specified");
        } else if data.action.value == "save_menu" {
          reply := SaveMenu(data, writeOk);
        } else if data.action.value == "create_menu" {
          reply := CreateMenu(data, writeOk);
        } else if data.action.value == "delete_menu" {
          reply := DeleteMenu(data, writeOk);
        } else {
          reply := Failure(200, "Invalid action");
        }
    }
  }
}
