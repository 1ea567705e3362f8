/** Navigation and cursor logic of the pages in main/Source/App/Pages.swift.

    The router, the page base class, TileMenu and ListMenu come from the
    MonoUI package, which is not part of this repository. The router is an
    abstract recipient that records the commands it is given; ListMenu keeps
    only what the pages read and write (its items, its cursor, and the
    activations handed to its own selection handler). Slide animations are
    not modelled. */
module Pages {

  // ---------------------------------------------------------------------
  // Entities

  /** A menu item of a ListMenu, by kind; the labels tell the items apart. */
  datatype MenuItem =
    | Header(title: string)
    | Separator
    | Toggle(name: string)
    | Radio(name: string)
    | Checkbox(name: string)
    | Value(name: string)
    | Text(name: string)

  /** Headers and separators cannot hold the cursor. */
  predicate Selectable(item: MenuItem)
  {
    !item.Header? && !item.Separator?
  }

  datatype PageKind = HomePage | DetailPage(title: string) | TextIconTestPage | ScrollViewTestPage

  datatype ModalKind = AlertView(title: string, message: string) | ProgressView(title: string, value: int)

  datatype RouterCommand = Push(page: PageKind) | Pop | Present(modal: ModalKind) | DismissModal

  /** The router as the pages see it: whether a modal is shown, and the
      commands it has been given. What the commands then do (animations,
      stack and modal slot updates) happens inside MonoUI. */
  class Router {
    var modalPresent: bool
    var log: seq<RouterCommand>

    constructor (modalPresent: bool)
      ensures this.modalPresent == modalPresent && log == []
    {
      this.modalPresent := modalPresent;
      log := [];
    }

    method Push(page: PageKind)
      modifies this
      ensures log == old(log) + [RouterCommand.Push(page)] && modalPresent == old(modalPresent)
    {
      log := log + [RouterCommand.Push(page)];
    }

    method Pop()
      modifies this
      ensures log == old(log) + [RouterCommand.Pop] && modalPresent == old(modalPresent)
    {
      log := log + [RouterCommand.Pop];
    }

    method Present(modal: ModalKind)
      modifies this
      ensures log == old(log) + [RouterCommand.Present(modal)] && modalPresent == old(modalPresent)
    {
      log := log + [RouterCommand.Present(modal)];
    }

    method DismissModal()
      modifies this
      ensures log == old(log) + [RouterCommand.DismissModal] && modalPresent == old(modalPresent)
    {
      log := log + [RouterCommand.DismissModal];
    }
  }

  // ---------------------------------------------------------------------
  // Keys

  const KeyA: int := 97
  const KeyD: int := 100
  const KeyE: int := 101
  const KeyP: int := 112
  const KeyQ: int := 113
  const KeyS: int := 115
  const KeyW: int := 119

  /** The back rule of every pushed page: leave the modal if there is one,
      otherwise leave the page. */
  function BackCommand(modalPresent: bool): (cmd: RouterCommand)
    ensures cmd == DismissModal <==> modalPresent
    ensures cmd == Pop <==> !modalPresent
  {
    if modalPresent then DismissModal else Pop
  }

  /** DetailPage.handleInput: 'q' goes back, 'e' shows an alert. */
  function DetailPageInput(key: int, modalPresent: bool): (cmds: seq<RouterCommand>)
    ensures |cmds| <= 1
    ensures key == KeyQ ==> cmds == [BackCommand(modalPresent)]
    ensures key == KeyE ==> cmds == [Present(AlertView("Info", "Hello World"))]
    ensures key != KeyQ && key != KeyE ==> cmds == []
  {
    (if key == KeyQ then [BackCommand(modalPresent)] else [])
    + (if key == KeyE then [Present(AlertView("Info", "Hello World"))] else [])
  }

  /** TextIconTestPage.handleInput: only 'q', which goes back. */
  function TextIconPageInput(key: int, modalPresent: bool): (cmds: seq<RouterCommand>)
    ensures key == KeyQ ==> cmds == [BackCommand(modalPresent)]
    ensures key != KeyQ ==> cmds == []
  {
    if key == KeyQ then [BackCommand(modalPresent)] else []
  }

  /** HomePage.handleSelection: tiles 1, 2 and 3 push their page; tile 0
      (Sleep) and any other index do nothing. */
  function HomeSelection(index: int): (cmds: seq<RouterCommand>)
    ensures cmds != [] <==> 1 <= index <= 3
    ensures cmds != [] ==> |cmds| == 1 && cmds[0].Push? && cmds[0].page != HomePage
    ensures index == 1 ==> cmds == [Push(TextIconTestPage)]
    ensures index == 2 ==> cmds == [Push(DetailPage("Volt"))]
    ensures index == 3 ==> cmds == [Push(ScrollViewTestPage)]
  {
    match index
    case 1 => [Push(TextIconTestPage)]
    case 2 => [Push(DetailPage("Volt"))]
    case 3 => [Push(ScrollViewTestPage)]
    case _ => []
  }

  /** What a HomePage key does: move the tile cursor (TileMenu, in MonoUI)
      or give the router a command. */
  datatype HomeAction = TileMoveNext | TileMovePrevious | Route(cmd: RouterCommand)

  /** HomePage.handleInput, with the tile menu's cursor `tileIndex`:
      'd'/'a' move the tiles, 'e' selects the current tile, 'p' shows a
      progress view. There is no back key on the root page. */
  function HomePageInput(key: int, tileIndex: int): (acts: seq<HomeAction>)
    ensures key == KeyD ==> acts == [TileMoveNext]
    ensures key == KeyA ==> acts == [TileMovePrevious]
    ensures key == KeyE ==> (|acts| == |HomeSelection(tileIndex)|
                             && forall i :: 0 <= i < |acts| ==> acts[i] == Route(HomeSelection(tileIndex)[i]))
    ensures key == KeyP ==> acts == [Route(Present(ProgressView("Progress", 50)))]
    ensures key !in {KeyD, KeyA, KeyE, KeyP} ==> acts == []
  {
    if key == KeyD then [TileMoveNext]
    else if key == KeyA then [TileMovePrevious]
    else if key == KeyE then (if HomeSelection(tileIndex) == [] then [] else [Route(HomeSelection(tileIndex)[0])])
    else if key == KeyP then [Route(Present(ProgressView("Progress", 50)))]
    else []
  }

  // ---------------------------------------------------------------------
  // The cursor of ScrollViewTestPage

  /** The index `k` steps from `start` in `direction` around a cyclic list of
      `n` items, for 0 <= k <= n: the reference for "cyclic order". */
  function Probe(n: nat, start: int, direction: int, k: nat): (i: int)
    requires 0 <= start < n && (direction == -1 || direction == 1) && k <= n
    ensures 0 <= i < n
    ensures i == start <==> k == 0 || k == n
  {
    if direction == 1 then (if start + k < n then start + k else start + k - n)
    else (if start - k >= 0 then start - k else start - k + n)
  }

  /** The first probe from the k-th on that lands on a selectable item; the
      start index when there is none. */
  function SearchFrom(items: seq<MenuItem>, start: int, direction: int, k: nat): int
    requires 0 <= start < |items| && (direction == -1 || direction == 1) && 1 <= k <= |items| + 1
    decreases |items| + 1 - k
  {
    if k > |items| then start
    else if Selectable(items[Probe(|items|, start, direction, k)]) then Probe(|items|, start, direction, k)
    else SearchFrom(items, start, direction, k + 1)
  }

  /** Where moveToNextSelectableItem leaves the cursor. */
  function NextSelectable(items: seq<MenuItem>, start: int, direction: int): int
    requires |items| > 0 ==> 0 <= start < |items|
    requires direction == -1 || direction == 1
  {
    if |items| == 0 then start else SearchFrom(items, start, direction, 1)
  }

  lemma {:induction false} SearchFromFacts(items: seq<MenuItem>, start: int, direction: int, k: nat)
    requires 0 <= start < |items| && (direction == -1 || direction == 1) && 1 <= k <= |items| + 1
    ensures 0 <= SearchFrom(items, start, direction, k) < |items|
    ensures SearchFrom(items, start, direction, k) != start ==> Selectable(items[SearchFrom(items, start, direction, k)])
    decreases |items| + 1 - k
  {
    if k <= |items| && !Selectable(items[Probe(|items|, start, direction, k)]) {
      SearchFromFacts(items, start, direction, k + 1);
    }
  }

  lemma {:induction false} SearchFromFirst(items: seq<MenuItem>, start: int, direction: int, k: nat, j: nat)
    requires 0 <= start < |items| && (direction == -1 || direction == 1) && 1 <= k <= j <= |items|
    requires forall i :: k <= i < j ==> !Selectable(items[Probe(|items|, start, direction, i)])
    requires Selectable(items[Probe(|items|, start, direction, j)])
    ensures SearchFrom(items, start, direction, k) == Probe(|items|, start, direction, j)
    decreases j - k
  {
    if k < j {
      SearchFromFirst(items, start, direction, k + 1, j);
    }
  }

  lemma {:induction false} SearchFromNone(items: seq<MenuItem>, start: int, direction: int, k: nat)
    requires 0 <= start < |items| && (direction == -1 || direction == 1) && 1 <= k <= |items| + 1
    requires forall i :: k <= i <= |items| ==> !Selectable(items[Probe(|items|, start, direction, i)])
    ensures SearchFrom(items, start, direction, k) == start
    decreases |items| + 1 - k
  {
    if k <= |items| {
      SearchFromNone(items, start, direction, k + 1);
    }
  }

  /** The cursor stays in the list, and it moves only onto an item that is
      neither a header nor a separator. */
  lemma NextSelectableIsSelectable(items: seq<MenuItem>, start: int, direction: int)
    requires 0 <= start < |items| && (direction == -1 || direction == 1)
    ensures 0 <= NextSelectable(items, start, direction) < |items|
    ensures NextSelectable(items, start, direction) != start ==> Selectable(items[NextSelectable(items, start, direction)])
  {
    SearchFromFacts(items, start, direction, 1);
  }

  /** The cursor lands on the first selectable item in cyclic order after the
      start (the start itself comes last, after a full turn). */
  lemma NextSelectableIsFirst(items: seq<MenuItem>, start: int, direction: int, j: nat)
    requires 0 <= start < |items| && (direction == -1 || direction == 1) && 1 <= j <= |items|
    requires forall i :: 1 <= i < j ==> !Selectable(items[Probe(|items|, start, direction, i)])
    requires Selectable(items[Probe(|items|, start, direction, j)])
    ensures NextSelectable(items, start, direction) == Probe(|items|, start, direction, j)
  {
    SearchFromFirst(items, start, direction, 1, j);
  }

  /** With no selectable item anywhere on the way round, the cursor stays. */
  lemma NextSelectableNoneFound(items: seq<MenuItem>, start: int, direction: int)
    requires 0 <= start < |items| && (direction == -1 || direction == 1)
    requires forall i :: 1 <= i <= |items| ==> !Selectable(items[Probe(|items|, start, direction, i)])
    ensures NextSelectable(items, start, direction) == start
  {
    SearchFromNone(items, start, direction, 1);
  }

  /** If no item other than the start is selectable (in particular if none
      is), the cursor does not move. */
  lemma NextSelectableOnlyStart(items: seq<MenuItem>, start: int, direction: int)
    requires 0 <= start < |items| && (direction == -1 || direction == 1)
    requires forall i :: 0 <= i < |items| && i != start ==> !Selectable(items[i])
    ensures NextSelectable(items, start, direction) == start
  {
    NextSelectableIsSelectable(items, start, direction);
  }

  /** MonoUI's ListMenu, reduced to what the pages use. */
  class ListMenu {
    var menuItems: seq<MenuItem>
    var selectedIndex: int
    /** indices passed to ListMenu.handleSelection, which acts inside MonoUI */
    var activations: seq<int>

    ghost predicate Valid()
      reads this
    {
      |menuItems| > 0 ==> 0 <= selectedIndex < |menuItems|
    }

    constructor (items: seq<MenuItem>)
      ensures Valid() && menuItems == items && selectedIndex == 0 && activations == []
    {
      menuItems := items;
      selectedIndex := 0;
      activations := [];
    }

    method HandleSelection()
      modifies this
      ensures activations == old(activations) + [selectedIndex]
      ensures menuItems == old(menuItems) && selectedIndex == old(selectedIndex)
    {
      activations := activations + [selectedIndex];
    }
  }

  /** The items ScrollViewTestPage puts in its list, in order. */
  const ScrollMenuItems: seq<MenuItem> := [
    Header("[ Menu Test ]"), Separator,
    Toggle("Enable Feature"), Toggle("Dark Mode"), Separator,
    Radio("Option 1"), Radio("Option 2"), Radio("Option 3"), Separator,
    Checkbox("Check 1"), Checkbox("Check 2"), Checkbox("Check 3"), Separator,
    Value("Brightness"), Value("Volume"), Separator,
    Text("Plain Text Item 1"), Text("Plain Text Item 2"), Text("Plain Text Item 3")
  ]

  const BrightnessItem: MenuItem := Value("Brightness")
  const VolumeItem: MenuItem := Value("Volume")

  /** The cursor ScrollViewTestPage starts with: the first item that is
      neither header nor separator. */
  function InitialSelection(): (i: nat)
    ensures i < |ScrollMenuItems| && Selectable(ScrollMenuItems[i])
    ensures forall j :: 0 <= j < i ==> !Selectable(ScrollMenuItems[j])
  {
    2
  }

  /** The router commands of ScrollViewTestPage.handleInput: 'e' on the
      brightness or volume item opens a progress view on its value, 'q'
      goes back; every other key gives none. */
  function ScrollViewCommands(key: int, modalPresent: bool, selected: MenuItem, brightness: int, volume: int): (cmds: seq<RouterCommand>)
    ensures |cmds| <= 1
    ensures key == KeyQ ==> cmds == [BackCommand(modalPresent)]
    ensures key == KeyE ==> (cmds != [] <==> selected in {BrightnessItem, VolumeItem})
    ensures key == KeyE && selected == BrightnessItem ==> cmds == [Present(ProgressView("Brightness", brightness))]
    ensures key == KeyE && selected == VolumeItem ==> cmds == [Present(ProgressView("Volume", volume))]
    ensures key != KeyQ && key != KeyE ==> cmds == []
  {
    if key == KeyE then
      if selected == BrightnessItem then [Present(ProgressView("Brightness", brightness))]
      else if selected == VolumeItem then [Present(ProgressView("Volume", volume))]
      else []
    else if key == KeyQ then [BackCommand(modalPresent)]
    else []
  }

  class ScrollViewTestPage {
    const listMenu: ListMenu
    var brightnessValue: int
    var volumeValue: int

    /** The cursor is always on an item that is neither header nor separator. */
    ghost predicate Valid()
      reads this, listMenu
    {
      && listMenu.menuItems == ScrollMenuItems
      && 0 <= listMenu.selectedIndex < |ScrollMenuItems|
      && Selectable(ScrollMenuItems[listMenu.selectedIndex])
    }

    constructor ()
      ensures Valid() && fresh(listMenu)
      ensures listMenu.selectedIndex == InitialSelection() && listMenu.activations == []
      ensures brightnessValue == 50 && volumeValue == 75
    {
      brightnessValue := 50;
      volumeValue := 75;
      listMenu := new ListMenu(ScrollMenuItems);
      new;
      listMenu.selectedIndex := 2;
    }

    /** Moves the cursor to the next item that is neither header nor
        separator, wrapping at both ends. */
    method MoveToNextSelectableItem(direction: int)
      requires direction == -1 || direction == 1
      requires listMenu.Valid()
      modifies listMenu
      ensures listMenu.selectedIndex == NextSelectable(old(listMenu.menuItems), old(listMenu.selectedIndex), direction)
      ensures listMenu.menuItems == old(listMenu.menuItems) && listMenu.activations == old(listMenu.activations)
    {
      if |listMenu.menuItems| <= 0 {
        return;
      }
      ghost var items := listMenu.menuItems;
      var currentIndex := listMenu.selectedIndex;
      var maxIndex := |listMenu.menuItems| - 1;
      var startIndex := currentIndex;
      ghost var steps: nat := 0;

      // repeat { ... } while currentIndex != startIndex; that condition is
      // the same test as the break at the end of the body
      while true
        invariant listMenu.menuItems == items && listMenu.activations == old(listMenu.activations)
        invariant listMenu.selectedIndex == startIndex == old(listMenu.selectedIndex)
        invariant 0 <= startIndex <= maxIndex == |items| - 1
        invariant steps < |items| && currentIndex == Probe(|items|, startIndex, direction, steps)
        invariant NextSelectable(items, startIndex, direction) == SearchFrom(items, startIndex, direction, steps + 1)
        decreases |items| - steps
      {
        currentIndex := currentIndex + direction;
        if currentIndex < 0 {
          currentIndex := maxIndex;
        } else if currentIndex > maxIndex {
          currentIndex := 0;
        }
        steps := steps + 1;

        if currentIndex >= 0 && currentIndex <= maxIndex {
          var item := listMenu.menuItems[currentIndex];
          if !item.Header? && !item.Separator? {
            listMenu.selectedIndex := currentIndex;
            return;
          }
        }

        if currentIndex == startIndex {
          break;
        }
      }
    }

    method HandleInput(key: int, router: Router)
      requires Valid()
      modifies listMenu, router
      ensures Valid() && listMenu.menuItems == old(listMenu.menuItems)
      ensures listMenu.selectedIndex ==
                if key == KeyW then NextSelectable(ScrollMenuItems, old(listMenu.selectedIndex), -1)
                else if key == KeyS then NextSelectable(ScrollMenuItems, old(listMenu.selectedIndex), 1)
                else old(listMenu.selectedIndex)
      ensures router.log == old(router.log) + ScrollViewCommands(key, old(router.modalPresent),
                ScrollMenuItems[old(listMenu.selectedIndex)], brightnessValue, volumeValue)
      ensures router.modalPresent == old(router.modalPresent)
      ensures listMenu.activations == old(listMenu.activations) +
                if key == KeyE && ScrollMenuItems[old(listMenu.selectedIndex)] !in {BrightnessItem, VolumeItem}
                then [old(listMenu.selectedIndex)] else []
    {
      if key == KeyW {
        MoveToNextSelectableItem(-1);
        NextSelectableIsSelectable(ScrollMenuItems, old(listMenu.selectedIndex), -1);
      }
      if key == KeyS {
        MoveToNextSelectableItem(1);
        NextSelectableIsSelectable(ScrollMenuItems, old(listMenu.selectedIndex), 1);
      }
      if key == KeyE {
        var selectedItem := listMenu.menuItems[listMenu.selectedIndex];
        if selectedItem == BrightnessItem {
          router.Present(ProgressView("Brightness", brightnessValue));
        } else if selectedItem == VolumeItem {
          router.Present(ProgressView("Volume", volumeValue));
        } else {
          listMenu.HandleSelection();
        }
      }
      if key == KeyQ {
        if router.modalPresent {
          router.DismissModal();
        } else {
          router.Pop();
        }
      }
    }
  }
}
