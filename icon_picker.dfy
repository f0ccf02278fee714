/**
 * The icon library's paging and search logic: the current page of the filtered icons, the
 * rows of ten it is laid out in, the search filter, the previous/next page buttons, and the
 * pulse that ripples out from a clicked icon.
 */
module IconPicker {
  import opened Wrappers
  import Text

  datatype Icon = Icon(name: string)

  /** The picker's state record. */
  datatype Options = Options(search: string, filteredIcons: seq<Icon>, page: int, pageSize: int)

  const DefaultPageSize: int := 50
  const RowLength: int := 10
  const StepDelayMs: int := 60
  const PulseDurationMs: int := 400

  /** An index of `Array.prototype.slice`: negative values count from the end, and the result is clipped to [0, n]. */
  function SliceIndex(i: int, n: nat): (r: nat)
    ensures r <= n
    ensures 0 <= i <= n ==> r == i
    ensures i > n ==> r == n
  {
    if i < 0 then (if n + i < 0 then 0 else n + i) else if i > n then n else i
  }

  /** `s.slice(start, end)`. */
  function Slice<T>(s: seq<T>, start: int, end: int): seq<T> {
    var lo, hi := SliceIndex(start, |s|), SliceIndex(end, |s|);
    if lo < hi then s[lo..hi] else []
  }

  /** `Math.ceil(n / d)` for a positive divisor. */
  function CeilDiv(n: nat, d: int): (r: nat)
    requires d > 0
    ensures (r - 1) * d < n <= r * d
  {
    (n + d - 1) / d
  }

  /** `filteredIconsPage`: the icons of the current page. */
  function FilteredIconsPage(o: Options): seq<Icon> {
    var start := (o.page - 1) * o.pageSize;
    Slice(o.filteredIcons, start, start + o.pageSize)
  }

  /** On a page from 1 up and a non-negative page size, the page is the window of that page clipped to the list. */
  lemma PageIsWindow(o: Options)
    requires o.page >= 1 && o.pageSize >= 0
    ensures var start := (o.page - 1) * o.pageSize;
      && |FilteredIconsPage(o)| <= o.pageSize
      && (start < |o.filteredIcons| ==>
            FilteredIconsPage(o) == o.filteredIcons[start..if start + o.pageSize < |o.filteredIcons| then start + o.pageSize else |o.filteredIcons|])
      && (start >= |o.filteredIcons| ==> FilteredIconsPage(o) == [])
  {
    var start := (o.page - 1) * o.pageSize;
    assert start >= 0 by { MulNonNeg(o.page - 1, o.pageSize); }
  }

  lemma MulNonNeg(a: int, b: int)
    requires a >= 0 && b >= 0
    ensures a * b >= 0
  {
  }

  /** `buttonGrid`: `ceil(n / 10)` rows, row k holding the items from 10k to 10k + 10. */
  function ButtonGrid(items: seq<Icon>): seq<seq<Icon>> {
    var rows := CeilDiv(|items|, RowLength);
    seq(rows, k requires 0 <= k < rows => Slice(items, k * RowLength, (k + 1) * RowLength))
  }

  function Flatten<T>(rows: seq<seq<T>>): seq<T> {
    if rows == [] then [] else rows[0] + Flatten(rows[1..])
  }

  /** Row k of the grid is the k-th run of ten, the last one possibly shorter but never empty. */
  lemma GridRow(items: seq<Icon>, k: int)
    requires 0 <= k < CeilDiv(|items|, RowLength)
    ensures var hi := if (k + 1) * RowLength < |items| then (k + 1) * RowLength else |items|;
      k * RowLength < hi && ButtonGrid(items)[k] == items[k * RowLength..hi]
  {
  }

  /** A page of more than ten icons is laid out as its first ten and then the grid of the rest. */
  lemma GridStep(items: seq<Icon>)
    requires |items| > RowLength
    ensures ButtonGrid(items) == [items[..RowLength]] + ButtonGrid(items[RowLength..])
  {
    var g, rest := ButtonGrid(items), items[RowLength..];
    var h := ButtonGrid(rest);
    assert |g| == |h| + 1;
    GridRow(items, 0);
    forall k | 0 <= k < |h| ensures g[k + 1] == h[k] {
      GridRow(items, k + 1);
      GridRow(rest, k);
    }
  }

  /** Every row holds one to ten icons, and the rows read in order give the page back. */
  lemma {:induction false} ButtonGridRows(items: seq<Icon>)
    ensures |ButtonGrid(items)| == CeilDiv(|items|, RowLength)
    ensures forall k :: 0 <= k < |ButtonGrid(items)| ==> 1 <= |ButtonGrid(items)[k]| <= RowLength
    ensures Flatten(ButtonGrid(items)) == items
    decreases |items|
  {
    var g := ButtonGrid(items);
    forall k | 0 <= k < |g| ensures 1 <= |g[k]| <= RowLength {
      GridRow(items, k);
    }
    if |items| > RowLength {
      GridStep(items);
      ButtonGridRows(items[RowLength..]);
      assert g[1..] == ButtonGrid(items[RowLength..]);
      assert items == items[..RowLength] + items[RowLength..];
    } else if items != [] {
      GridRow(items, 0);
      assert |g| == 1;
      assert items[0..|items|] == items;
      assert g == [items];
    }
  }

  /** The query the search box filters with: lower-cased, whitespace runs collapsed to one space. */
  function SearchQuery(search: string): string {
    Text.CollapseWhitespace(Text.ToLower(search))
  }

  predicate Matches(icon: Icon, query: string) {
    Text.Includes(Text.ToLower(icon.name), query)
  }

  /** `icons.filter(icon => icon.name.toLowerCase().includes(query))`. */
  function Filter(icons: seq<Icon>, query: string): (r: seq<Icon>)
    ensures |r| <= |icons|
  {
    if icons == [] then []
    else (if Matches(icons[0], query) then [icons[0]] else []) + Filter(icons[1..], query)
  }

  /** An icon is kept exactly when it is in the library and its lower-cased name contains the query. */
  lemma {:induction false} FilterMembers(icons: seq<Icon>, query: string, x: Icon)
    ensures x in Filter(icons, query) <==> x in icons && Matches(x, query)
  {
    if icons != [] {
      FilterMembers(icons[1..], query, x);
      assert icons == [icons[0]] + icons[1..];
    }
  }

  /** Filtering keeps the library's order: it works piecewise over a concatenation. */
  lemma {:induction false} FilterConcat(a: seq<Icon>, b: seq<Icon>, query: string)
    ensures Filter(a + b, query) == Filter(a, query) + Filter(b, query)
  {
    if a != [] {
      var ab := a + b;
      assert ab[0] == a[0] && ab[1..] == a[1..] + b;
      FilterConcat(a[1..], b, query);
      var head := if Matches(a[0], query) then [a[0]] else [];
      calc {
        Filter(ab, query);
        head + Filter(a[1..] + b, query);
        head + (Filter(a[1..], query) + Filter(b, query));
        (head + Filter(a[1..], query)) + Filter(b, query);
      }
    } else {
      assert a + b == b;
    }
  }

  /** Every name contains the empty string, so filtering by it would also give the whole library. */
  lemma {:induction false} FilterEmptyQuery(icons: seq<Icon>)
    ensures Filter(icons, "") == icons
  {
    if icons != [] {
      assert Text.OccursAt(Text.ToLower(icons[0].name), "", 0);
      FilterEmptyQuery(icons[1..]);
    }
  }

  /** The list the search box leads to. */
  function Filtered(icons: seq<Icon>, search: string): seq<Icon> {
    if search == "" then icons else Filter(icons, SearchQuery(search))
  }

  /** A cell's `[row, col]` of the grid. */
  type Cell = (int, int)

  /** The eight cells around a clicked cell. */
  function Neighbours(c: Cell): set<Cell> {
    var (row, col) := c;
    {(row - 1, col), (row + 1, col), (row, col - 1), (row, col + 1),
     (row - 1, col - 1), (row - 1, col + 1), (row + 1, col - 1), (row + 1, col + 1)}
  }

  function AbsInt(x: int): nat {
    if x < 0 then -x else x
  }

  /** A cell is a neighbour exactly when it differs from the clicked cell and is at most one step away on each axis. */
  lemma NeighboursAround(c: Cell, p: Cell)
    ensures p in Neighbours(c) <==> p != c && AbsInt(p.0 - c.0) <= 1 && AbsInt(p.1 - c.1) <= 1
  {
  }

  /** The animation delay of the icon at `[row, col]`: 60 ms per Manhattan step from the clicked icon while a pulse is active. */
  function StaggerDelay(pulse: bool, clicked: Option<Cell>, row: int, col: int): (d: int)
    ensures d >= 0
    ensures !(pulse && clicked.Some?) ==> d == 0
  {
    if pulse && clicked.Some? then
      StepDelayMs * (AbsInt(row - clicked.value.0) + AbsInt(col - clicked.value.1))
    else 0
  }

  /** During a pulse, the clicked icon starts at once, its side neighbours after one step and its corner neighbours after two. */
  lemma StaggerDelayAroundClick(c: Cell, p: Cell)
    requires p in Neighbours(c) || p == c
    ensures p == c ==> StaggerDelay(true, Some(c), p.0, p.1) == 0
    ensures p in Neighbours(c) && (p.0 == c.0 || p.1 == c.1) ==> StaggerDelay(true, Some(c), p.0, p.1) == StepDelayMs
    ensures p in Neighbours(c) && p.0 != c.0 && p.1 != c.1 ==> StaggerDelay(true, Some(c), p.0, p.1) == 2 * StepDelayMs
  {
  }

  /** An active pulse delays every icon but the clicked one. */
  lemma StaggerDelayZeroIff(c: Cell, row: int, col: int)
    ensures StaggerDelay(true, Some(c), row, col) == 0 <==> (row, col) == c
  {
  }

  class Picker {
    const icons: seq<Icon>
    var options: Options
    var staggerCoordinate: Option<Cell>
    var staggerPulse: bool
    var staggerGrid: set<Cell>
    /** Pulse-end timeouts scheduled and not yet fired; each clears the pulse when it fires. */
    var pendingPulseEnds: nat

    ghost predicate Valid()
      reads this
    {
      && options.page >= 1
      && options.pageSize == DefaultPageSize
      && options.filteredIcons == Filtered(icons, options.search)
    }

    /** Whether the next-page button is disabled. */
    function NextDisabled(): (b: bool)
      reads this
      ensures !b ==> options.filteredIcons != [] && options.page * options.pageSize < |options.filteredIcons|
    {
      options.page * options.pageSize >= |options.filteredIcons| || |options.filteredIcons| == 0
    }

    function PrevDisabled(): (b: bool)
      reads this
      ensures b <==> options.page <= 1
    {
      options.page <= 1
    }

    constructor (icons: seq<Icon>)
      ensures Valid()
      ensures this.icons == icons
      ensures options == Options("", icons, 1, DefaultPageSize)
      ensures staggerCoordinate == None && !staggerPulse && staggerGrid == {} && pendingPulseEnds == 0
    {
      this.icons := icons;
      options := Options("", icons, 1, DefaultPageSize);
      staggerCoordinate := None;
      staggerPulse := false;
      staggerGrid := {};
      pendingPulseEnds := 0;
    }

    /** The search box's change handler: store the text, filter the library (all of it for an empty text) and go to page 1. */
    method HandleSearchChange(search: string)
      requires Valid()
      modifies this
      ensures Valid()
      ensures options == old(options).(search := search, filteredIcons := Filtered(icons, search), page := 1)
      ensures unchanged(this`staggerCoordinate, this`staggerPulse, this`staggerGrid, this`pendingPulseEnds)
    {
      if search == "" {
        options := options.(search := "", filteredIcons := icons, page := 1);
        return;
      }
      var searchLower := SearchQuery(search);
      var filteredIcons := Filter(icons, searchLower);
      options := options.(search := search, filteredIcons := filteredIcons, page := 1);
    }

    /** The previous-page button: disabled on page 1, otherwise `max(1, page - 1)`. */
    method HandlePrev()
      requires Valid()
      modifies this`options
      ensures Valid()
      ensures options == old(options).(page := if old(options.page) > 1 then old(options.page) - 1 else 1)
    {
      if PrevDisabled() {
        return;
      }
      options := options.(page := if options.page - 1 > 1 then options.page - 1 else 1);
    }

    /**
     * The next-page button: when enabled, `min(ceil(icons.length / pageSize), page + 1)` with the
     * unfiltered library size. Whenever the button is enabled the cap does not bite.
     */
    method HandleNext()
      requires Valid()
      modifies this`options
      ensures Valid()
      ensures old(NextDisabled()) ==> options == old(options)
      ensures !old(NextDisabled()) ==> options == old(options).(page := old(options.page) + 1)
    {
      if NextDisabled() {
        return;
      }
      var cap := CeilDiv(|icons|, options.pageSize);
      NextStaysUnderCap(options.page, options.pageSize, |options.filteredIcons|, |icons|);
      options := options.(page := if cap < options.page + 1 then cap else options.page + 1);
    }

    /** A click on the icon at `cell`: pulse from it over its eight neighbours and schedule the pulse's end. */
    method TriggerStagger(cell: Cell)
      modifies this`staggerCoordinate, this`staggerPulse, this`staggerGrid, this`pendingPulseEnds
      ensures staggerCoordinate == Some(cell) && staggerPulse
      ensures staggerGrid == Neighbours(cell)
      ensures pendingPulseEnds == old(pendingPulseEnds) + 1
    {
      staggerCoordinate := Some(cell);
      staggerPulse := true;
      staggerGrid := Neighbours(cell);
      pendingPulseEnds := pendingPulseEnds + 1;
    }

    /** A pulse-end timeout fires: the pulse stops, whichever click scheduled it. */
    method EndPulse()
      requires pendingPulseEnds > 0
      modifies this`staggerCoordinate, this`staggerPulse, this`staggerGrid, this`pendingPulseEnds
      ensures staggerCoordinate == None && !staggerPulse && staggerGrid == {}
      ensures pendingPulseEnds == old(pendingPulseEnds) - 1
    {
      staggerPulse := false;
      staggerCoordinate := None;
      staggerGrid := {};
      pendingPulseEnds := pendingPulseEnds - 1;
    }

    /** The animation delay of the icon at `[row, col]` in the current state. */
    function Delay(row: int, col: int): (d: int)
      reads this
      ensures d >= 0
      ensures !staggerPulse ==> d == 0
    {
      StaggerDelay(staggerPulse, staggerCoordinate, row, col)
    }
  }

  /** When the next button is enabled (page·pageSize below the filtered size, itself at most the library size), page + 1 is within the cap. */
  lemma NextStaysUnderCap(page: int, pageSize: int, filtered: nat, total: nat)
    requires page >= 1 && pageSize > 0 && filtered <= total
    requires page * pageSize < filtered
    ensures page + 1 <= CeilDiv(total, pageSize)
  {
  }

  /** A click pulses outwards, and the pulse ends once its timeout fires. */
  method ClickAndSettle(p: Picker, cell: Cell)
    modifies p
    ensures p.staggerCoordinate == None && !p.staggerPulse && p.staggerGrid == {}
    ensures p.pendingPulseEnds == old(p.pendingPulseEnds)
  {
    p.TriggerStagger(cell);
    assert p.Delay(cell.0, cell.1) == 0;
    p.EndPulse();
  }
}
