/**
 * The navigation sidebar (`src/shared/components/Sidebar/Sidebar.tsx`): which
 * item is highlighted for the current location, and the collapse toggle with
 * the classes and texts it switches.
 */
module Sidebar {
  import opened Wrappers
  import opened ClassNames

  datatype SidebarItem = SidebarItem(caption: string, path: string)

  /** `sidebarItems`, in menu order. */
  const SidebarItems: seq<SidebarItem> := [
    SidebarItem("Home", "/"),
    SidebarItem("Analytics", "/analytics"),
    SidebarItem("Configuración", "/configuracion")]

  /**
   * `isActive(path)`: the root item only on the root itself, every other item
   * on any location whose text starts with its path.
   */
  function IsActive(path: string, pathname: string): (active: bool)
    ensures path == "/" ==> (active <==> pathname == "/")
    ensures path != "/" ==> (active <==> |path| <= |pathname| && pathname[..|path|] == path)
  {
    if path == "/" then pathname == "/" else path <= pathname
  }

  /** The root item is active exactly on "/", never on a sub-page. */
  lemma RootActiveOnlyAtRoot(pathname: string)
    ensures IsActive("/", pathname) <==> pathname == "/"
    ensures IsActive("/", "/analytics") == false
  {
  }

  /**
   * Any other item matches by plain text prefix, so a location that merely
   * begins with the same letters also counts: "/analyticsX" activates Analytics.
   */
  lemma PrefixMatchIsTextual(path: string, pathname: string)
    requires path != "/"
    ensures IsActive(path, pathname) <==> |path| <= |pathname| && pathname[..|path|] == path
    ensures IsActive("/analytics", "/analyticsX")
    ensures IsActive("/analytics", "/analytics/detail")
    ensures !IsActive("/analytics", "/configuracion")
  {
    assert "/analyticsX"[..10] == "/analytics";
    assert "/analytics/detail"[..10] == "/analytics";
    assert "/configuracion"[1] != "/analytics"[1];
  }

  /** The item a location can activate: the root, or the one its second character selects. */
  function ItemIndexFor(pathname: string): nat {
    if pathname == "/" then 0 else if |pathname| > 1 && pathname[1] == 'a' then 1 else 2
  }

  /** An active item is always the one the location selects. */
  lemma ActiveItemIsDetermined(pathname: string, i: nat)
    requires i < |SidebarItems|
    requires IsActive(SidebarItems[i].path, pathname)
    ensures i == ItemIndexFor(pathname)
  {
    if i == 1 {
      assert pathname[1] == "/analytics"[1];
    } else if i == 2 {
      assert pathname[1] == "/configuracion"[1];
    }
  }

  /** Whatever the location, at most one of the three menu items is highlighted. */
  lemma AtMostOneActive(pathname: string, i: nat, j: nat)
    requires i < |SidebarItems| && j < |SidebarItems|
    requires IsActive(SidebarItems[i].path, pathname) && IsActive(SidebarItems[j].path, pathname)
    ensures i == j
  {
    ActiveItemIsDetermined(pathname, i);
    ActiveItemIsDetermined(pathname, j);
  }

  /** `toggleSidebar`: flips the collapsed flag. */
  function Toggle(collapsed: bool): (next: bool)
    ensures next != collapsed
  {
    !collapsed
  }

  /** Toggling twice restores the original state. */
  lemma ToggleTwice(collapsed: bool)
    ensures Toggle(Toggle(collapsed)) == collapsed
  {
  }

  const AsideBase: string :=
    "relative h-screen bg-white border-r border-stone-200 transition-all duration-300 ease-in-out flex flex-col"
  const ToggleBase: string := "p-2 rounded-lg hover:bg-stone-100 transition-colors"

  /** The `<aside>` classes: the base classes and a width that depends on the state. */
  function AsideClass(collapsed: bool): (c: string)
    ensures c == AsideBase + " " + (if collapsed then "w-20" else "w-64")
  {
    var args := [Str(AsideBase), Str(if collapsed then "w-20" else "w-64")];
    assert Kept(args[1..]) == [args[1].text];
    Cn(args)
  }

  /** The toggle button's classes: `isCollapsed && "mx-auto"` adds a class only when collapsed. */
  function ToggleButtonClass(collapsed: bool): (c: string)
    ensures collapsed ==> c == ToggleBase + " mx-auto"
    ensures !collapsed ==> c == ToggleBase
  {
    var args := [Str(ToggleBase), if collapsed then Str("mx-auto") else False];
    assert Kept(args[1..]) == if collapsed then ["mx-auto"] else [];
    Cn(args)
  }

  /** What the sidebar shows for one menu item. */
  datatype ItemView = ItemView(path: string, active: bool, showLabel: bool, title: Option<string>)

  /** What the sidebar shows as a whole. */
  datatype SidebarView = SidebarView(
    asideClass: string,
    showTitle: bool,           // "Fleet Monitor"
    toggleClass: string,
    toggleLabel: string,       // the button's aria-label
    items: seq<ItemView>,
    showFooter: bool)

  function RenderSidebar(collapsed: bool, pathname: string): (v: SidebarView)
    ensures |v.items| == |SidebarItems|
    ensures forall i :: 0 <= i < |SidebarItems| ==>
      v.items[i].path == SidebarItems[i].path
      && (v.items[i].active <==> IsActive(SidebarItems[i].path, pathname))
      && (v.items[i].showLabel <==> !collapsed)
      && (v.items[i].title.Some? <==> collapsed)
    ensures v.showTitle == !collapsed && v.showFooter == !collapsed
    ensures v.toggleLabel == if collapsed then "Expandir menú" else "Colapsar menú"
    ensures v.asideClass == AsideClass(collapsed) && v.toggleClass == ToggleButtonClass(collapsed)
  {
    SidebarView(
      AsideClass(collapsed),
      !collapsed,
      ToggleButtonClass(collapsed),
      if collapsed then "Expandir menú" else "Colapsar menú",
      seq(|SidebarItems|, i requires 0 <= i < |SidebarItems| =>
        ItemView(SidebarItems[i].path, IsActive(SidebarItems[i].path, pathname), !collapsed,
          if collapsed then Some(SidebarItems[i].caption) else None)),
      !collapsed)
  }

  /** In any state, at most one item of the rendered menu is highlighted. */
  lemma RenderedMenuHighlightsAtMostOne(collapsed: bool, pathname: string, i: nat, j: nat)
    requires i < |SidebarItems| && j < |SidebarItems|
    requires RenderSidebar(collapsed, pathname).items[i].active
    requires RenderSidebar(collapsed, pathname).items[j].active
    ensures i == j
  {
    AtMostOneActive(pathname, i, j);
  }
}
