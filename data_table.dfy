/**
 * The generic data table (src/components/dashboard/DataTable.tsx): the
 * drag-and-drop column reorder, the per-header sortable/draggable flags and
 * the text shown in a plain cell.
 */
module DataTable {
  import opened Wrappers
  import Formatters

  /** The reserved key of the trailing column of row actions. */
  const ActionsKey: string := "actions"

  /** A column as the table receives it; `sortable` may be left undefined. */
  datatype Column = Column(header: string, key: string, sortable: Option<bool>)

  function Keys(cols: seq<Column>): (r: seq<string>)
    ensures |r| == |cols|
    ensures forall i :: 0 <= i < |cols| ==> r[i] == cols[i].key
  {
    seq(|cols|, i requires 0 <= i < |cols| => cols[i].key)
  }

  /** The columns that take part in reordering: every column but the actions
      column, in their order. */
  function ReorderableColumns(columns: seq<Column>): (r: seq<Column>)
    ensures |r| <= |columns|
    ensures forall i :: 0 <= i < |r| ==> r[i].key != ActionsKey
    ensures forall c :: c in columns ==> (c in r <==> c.key != ActionsKey)
    ensures forall c :: c in r ==> c in columns
    ensures (forall i :: 0 <= i < |columns| ==> columns[i].key != ActionsKey) ==> r == columns
  {
    if columns == [] then []
    else
      var rest := ReorderableColumns(columns[1..]);
      if columns[0].key != ActionsKey then [columns[0]] + rest else rest
  }

  /** A trailing actions column drops out of the reorderable list. */
  lemma {:induction false} ReorderableDropsTrailingActions(cols: seq<Column>, a: Column)
    requires a.key == ActionsKey
    ensures ReorderableColumns(cols + [a]) == ReorderableColumns(cols)
    decreases |cols|
  {
    if cols == [] {
      assert [] + [a] == [a];
    } else {
      assert (cols + [a])[1..] == cols[1..] + [a];
      ReorderableDropsTrailingActions(cols[1..], a);
    }
  }

  // ---------------------------------------------------------------------
  // Array.prototype.splice as handleDrop uses it.

  /** A one-element splice: removes the element at i. */
  function RemoveAt<T>(s: seq<T>, i: nat): (r: seq<T>)
    requires i < |s|
  {
    s[..i] + s[i + 1..]
  }

  /** A zero-deletion splice: inserts x before position i; an index past the
      end appends. */
  function InsertAt<T>(s: seq<T>, i: nat, x: T): (r: seq<T>)
  {
    if i >= |s| then s + [x] else s[..i] + [x] + s[i..]
  }

  /** Takes the element at `from` out and reinserts it at `to`. */
  function MoveTo<T>(s: seq<T>, from: nat, to: nat): (r: seq<T>)
    requires from < |s|
  {
    InsertAt(RemoveAt(s, from), to, s[from])
  }

  /** Where the moved element lands: `to`, or the last slot if `to` is past it. */
  function Landing(n: nat, to: nat): nat
  {
    if to < n then to else if n == 0 then 0 else n - 1
  }

  /** Element by element: the moved element sits at its landing slot and the
      elements it passed over shift by one towards the slot it left. */
  lemma MoveToAt<T>(s: seq<T>, from: nat, to: nat, i: nat)
    requires from < |s| && i < |s|
    ensures |MoveTo(s, from, to)| == |s|
    ensures var t := Landing(|s|, to);
      MoveTo(s, from, to)[i] ==
        if i == t then s[from]
        else if from < t && from <= i < t then s[i + 1]
        else if t < from && t < i <= from then s[i - 1]
        else s[i]
  {
  }

  /** Moving is a permutation: nothing is lost or duplicated. */
  lemma MoveToPermutes<T>(s: seq<T>, from: nat, to: nat)
    requires from < |s|
    ensures |MoveTo(s, from, to)| == |s|
    ensures multiset(MoveTo(s, from, to)) == multiset(s)
  {
    var rest := RemoveAt(s, from);
    assert s == s[..from] + [s[from]] + s[from + 1..];
    assert multiset(s) == multiset(rest) + multiset{s[from]};
    if to < |rest| {
      assert rest == rest[..to] + rest[to..];
    }
  }

  /** Moving the element back from its landing slot restores the order. */
  lemma MoveToUndo<T>(s: seq<T>, from: nat, to: nat)
    requires from < |s|
    ensures MoveTo(MoveTo(s, from, to), Landing(|s|, to), from) == s
  {
    var m := MoveTo(s, from, to);
    var t := Landing(|s|, to);
    MoveToAt(s, from, to, 0);
    var back := MoveTo(m, t, from);
    assert |back| == |s|;
    forall i | 0 <= i < |s| ensures back[i] == s[i] {
      assert Landing(|m|, from) == from;
      MoveToAt(m, t, from, i);
      if i == from {
        MoveToAt(s, from, to, t);
      } else if t < from && t <= i < from {
        MoveToAt(s, from, to, i + 1);
      } else if from < t && from < i <= t {
        MoveToAt(s, from, to, i - 1);
      } else {
        MoveToAt(s, from, to, i);
      }
    }
  }

  /** Example: [A,B,C,D], source 2, drop 0 gives [C,A,B,D]. */
  lemma MoveToExample()
    ensures MoveTo(["A", "B", "C", "D"], 2, 0) == ["C", "A", "B", "D"]
  {
    assert RemoveAt(["A", "B", "C", "D"], 2) == ["A", "B", "D"];
  }

  // ---------------------------------------------------------------------
  // Drag state

  /** The drag-source ref of the table and the two handlers that use it. */
  class DragController {
    /** dragStartIndexRef.current: null until a drag starts. */
    var dragStartIndex: Option<nat>

    constructor()
      ensures dragStartIndex == None
    {
      dragStartIndex := None;
    }

    /** handleDragStart: remembers the header index the drag began on. */
    method HandleDragStart(index: nat)
      modifies this
      ensures dragStartIndex == Some(index)
    {
      dragStartIndex := Some(index);
    }

    /**
     * handleDrop: unless reordering is off, no drag has started, the drop
     * is on the drag source, or the source index names no reorderable
     * column, emits the reorderable keys with the source column moved to
     * the drop index (when a callback is set) and clears the drag source.
     * The no-op paths leave the drag source as it was.
     */
    method HandleDrop(reorderable: bool, columns: seq<Column>, dropIndex: nat, hasOrderCallback: bool)
      returns (emitted: Option<seq<string>>)
      modifies this
      ensures var cols := ReorderableColumns(columns);
        var from := old(dragStartIndex);
        if !reorderable || from == None || from == Some(dropIndex) || from.value >= |cols| then
          emitted == None && dragStartIndex == from
        else
          && dragStartIndex == None
          && emitted == (if hasOrderCallback then Some(Keys(MoveTo(cols, from.value, dropIndex))) else None)
    {
      emitted := None;
      if !reorderable {
        return;
      }
      var from := dragStartIndex;
      if from == None || from == Some(dropIndex) {
        return;
      }
      var cols := ReorderableColumns(columns);
      if from.value >= |cols| {
        return;
      }
      var movedCol := cols[from.value];
      var newOrder := cols;
      newOrder := newOrder[..from.value] + newOrder[from.value + 1..];
      if dropIndex >= |newOrder| {
        newOrder := newOrder + [movedCol];
      } else {
        newOrder := newOrder[..dropIndex] + [movedCol] + newOrder[dropIndex..];
      }
      if hasOrderCallback {
        emitted := Some(Keys(newOrder));
      }
      dragStartIndex := None;
    }
  }

  /** An emitted order is a permutation of the reorderable keys and never
      names the actions column. */
  lemma EmittedOrderPermutesKeys(columns: seq<Column>, from: nat, dropIndex: nat)
    requires from < |ReorderableColumns(columns)|
    ensures var cols := ReorderableColumns(columns);
      var order := Keys(MoveTo(cols, from, dropIndex));
      && multiset(order) == multiset(Keys(cols))
      && ActionsKey !in order
  {
    var cols := ReorderableColumns(columns);
    KeysOfMoveTo(cols, from, dropIndex);
    MoveToPermutes(Keys(cols), from, dropIndex);
    var order := Keys(MoveTo(cols, from, dropIndex));
    assert ActionsKey !in Keys(cols);
    assert ActionsKey !in multiset(order);
  }

  /** Moving commutes with any element-wise map: if `t` is `s` mapped by
      `f`, moving `t` gives the map of `s` moved. */
  lemma MoveToCommutesWithMap<T, U>(s: seq<T>, t: seq<U>, f: T -> U, from: nat, to: nat)
    requires from < |s| && |t| == |s|
    requires forall i :: 0 <= i < |s| ==> t[i] == f(s[i])
    ensures |MoveTo(t, from, to)| == |MoveTo(s, from, to)| == |s|
    ensures forall i :: 0 <= i < |s| ==> MoveTo(t, from, to)[i] == f(MoveTo(s, from, to)[i])
  {
    MoveToAt(s, from, to, 0);
    MoveToAt(t, from, to, 0);
    forall i | 0 <= i < |s| ensures MoveTo(t, from, to)[i] == f(MoveTo(s, from, to)[i]) {
      MoveToAt(s, from, to, i);
      MoveToAt(t, from, to, i);
    }
  }

  /** Moving a column and then taking keys is moving its key. */
  lemma KeysOfMoveTo(cols: seq<Column>, from: nat, to: nat)
    requires from < |cols|
    ensures Keys(MoveTo(cols, from, to)) == MoveTo(Keys(cols), from, to)
  {
    MoveToCommutesWithMap(cols, Keys(cols), (c: Column) => c.key, from, to);
  }

  // ---------------------------------------------------------------------
  // Header flags (DataTable.tsx:142-147)

  /** A header offers sorting unless its column says `sortable: false`, it
      is the actions column, or no sort callback was given. */
  function IsSortable(column: Column, hasSortCallback: bool): bool {
    column.sortable != Some(false) && column.key != ActionsKey && hasSortCallback
  }

  /** A header can be dragged when reordering is on and it is not the
      actions column. */
  function IsDraggable(reorderable: bool, column: Column): bool {
    reorderable && column.key != ActionsKey
  }

  /** With reordering on, the draggable headers are exactly the columns that
      take part in reordering. */
  lemma DraggableIffReorderable(columns: seq<Column>, c: Column)
    requires c in columns
    ensures IsDraggable(true, c) <==> c in ReorderableColumns(columns)
    ensures !IsDraggable(false, c)
  {
  }

  // ---------------------------------------------------------------------
  // Cell text (DataTable.tsx:203-205)

  /** A raw cell value, as far as String() is concerned. */
  datatype CellValue = Null | Undefined | Text(s: string) | Bool(b: bool) | Int(n: int)

  function DigitChar(d: nat): (c: char)
    requires d < 10
    ensures Formatters.IsDigit(c) && c as int - '0' as int == d
  {
    ('0' as int + d) as char
  }

  /** String(n) for a non-negative integer: its decimal digits, with no
      leading zero unless n is 0. */
  function NatString(n: nat): (r: string)
    ensures r != [] && Formatters.AllDigits(r)
    ensures |r| > 1 ==> r[0] != '0'
    ensures r == "0" <==> n == 0
    decreases n
  {
    if n < 10 then [DigitChar(n)] else NatString(n / 10) + [DigitChar(n % 10)]
  }

  /** The value a string of decimal digits denotes. */
  function DecimalValue(s: string): nat
    requires Formatters.AllDigits(s)
  {
    if s == [] then 0 else DecimalValue(s[..|s| - 1]) * 10 + (s[|s| - 1] as int - '0' as int)
  }

  /** String(n) reads back as n. */
  lemma {:induction false} NatStringRoundTrip(n: nat)
    ensures DecimalValue(NatString(n)) == n
    decreases n
  {
    var r := NatString(n);
    if n >= 10 {
      NatStringRoundTrip(n / 10);
      assert r[..|r| - 1] == NatString(n / 10);
    }
  }

  /** A digit string of value 0 is all zeros. */
  lemma {:induction false} ZeroValueAllZeros(s: string)
    requires Formatters.AllDigits(s) && DecimalValue(s) == 0
    ensures forall i :: 0 <= i < |s| ==> s[i] == '0'
    decreases |s|
  {
    if s != [] {
      ZeroValueAllZeros(s[..|s| - 1]);
      assert forall i :: 0 <= i < |s| - 1 ==> s[i] == s[..|s| - 1][i];
    }
  }

  /** The decimal text is the only digit string without a leading zero that
      denotes its number: NatString is exactly String(n). */
  lemma {:induction false} NatStringCanonical(s: string)
    requires s != [] && Formatters.AllDigits(s) && (|s| > 1 ==> s[0] != '0')
    ensures s == NatString(DecimalValue(s))
    decreases |s|
  {
    var d := s[|s| - 1] as int - '0' as int;
    if |s| > 1 {
      var init := s[..|s| - 1];
      assert init[0] == s[0];
      NatStringCanonical(init);
      if DecimalValue(init) == 0 {
        ZeroValueAllZeros(init);
        assert false;
      }
      var n := DecimalValue(s);
      assert n == DecimalValue(init) * 10 + d;
      assert n / 10 == DecimalValue(init) && n % 10 == d;
      assert s == init + [DigitChar(d)];
    }
  }

  /** String(n) / n.toString() for an integer. */
  function IntString(n: int): string {
    if n < 0 then "-" + NatString(-n) else NatString(n)
  }

  /** String(value) for the values a row may hold. */
  function Stringify(v: CellValue): string {
    match v
    case Null => "null"
    case Undefined => "undefined"
    case Text(s) => s
    case Bool(b) => if b then "true" else "false"
    case Int(n) => IntString(n)
  }

  /** The text a plain cell shows: "" for null and undefined, String(value)
      otherwise. */
  function CellDisplay(v: CellValue): (r: string)
    ensures v.Null? || v.Undefined? ==> r == ""
    ensures v.Text? ==> r == v.s
    ensures v.Bool? ==> r == (if v.b then "true" else "false")
    ensures v.Int? && v.n >= 0 ==> r != [] && Formatters.AllDigits(r) && DecimalValue(r) == v.n && (|r| > 1 ==> r[0] != '0')
    ensures v.Int? && v.n < 0 ==>
      && |r| > 1 && r[0] == '-' && r[1] != '0'
      && Formatters.AllDigits(r[1..]) && DecimalValue(r[1..]) == -v.n
  {
    if v == Null || v == Undefined then ""
    else if v.Int? then
      NatStringRoundTrip(if v.n < 0 then -v.n else v.n);
      Stringify(v)
    else Stringify(v)
  }

  /** Long text (over 60 characters) is truncated and repeated in a tooltip. */
  function IsLongText(display: string): bool {
    |display| > 60
  }

  /** The cell's title attribute: the full text, only for long text. */
  function CellTitle(v: CellValue): (r: Option<string>)
    ensures r.Some? <==> |CellDisplay(v)| > 60
    ensures r.Some? ==> r.value == CellDisplay(v)
  {
    var display := CellDisplay(v);
    if IsLongText(display) then Some(display) else None
  }
}
