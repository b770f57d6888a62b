/**
 * The business list page (src/app/dashboard/businesses/page.tsx): the
 * columns the server describes or the first row implies, the persisted
 * column order and sort, the query of each request, and the handlers that
 * reset the page.
 */
module BusinessesPage {
  import opened Wrappers
  import ColumnTranslations
  import DataTable
  import opened ColumnOrder

  datatype Direction = Asc | Desc

  function DirectionText(d: Direction): string {
    if d == Asc then "asc" else "desc"
  }

  function Flip(d: Direction): Direction {
    if d == Asc then Desc else Asc
  }

  // ---------------------------------------------------------------------
  // Column descriptors of a response

  /** One `{ key, label }` descriptor; the label may be missing. */
  datatype BackendColumn = BackendColumn(key: string, backendLabel: Option<string>)

  /** The three shapes the `columns` field of a response may take. */
  datatype ColumnSpec =
    | KeyList(keys: seq<string>)                 // ["name", "code", ...]
    | DescriptorList(items: seq<BackendColumn>)  // [{ key, label }, ...]
    | KeyMap(entries: seq<(string, string)>)     // { name: "Nome", ... }, in Object.entries order

  /** The keys a descriptor names, in order. */
  function SpecKeys(spec: ColumnSpec): seq<string> {
    match spec
    case KeyList(keys) => keys
    case DescriptorList(items) => seq(|items|, i requires 0 <= i < |items| => items[i].key)
    case KeyMap(entries) => seq(|entries|, i requires 0 <= i < |entries| => entries[i].0)
  }

  /** The label the server sent beside the i-th key: none for a bare key,
      the descriptor's `label`, or the key map's value. */
  function SpecLabel(spec: ColumnSpec, i: nat): Option<string>
    requires i < |SpecKeys(spec)|
  {
    match spec
    case KeyList(_) => None
    case DescriptorList(items) => items[i].backendLabel
    case KeyMap(entries) => Some(entries[i].1)
  }

  /**
   * The normalisation of a `columns` field: every key it names, in order,
   * captioned by resolveColumnLabel of the key and the label sent beside it.
   * Translated keys get their fixed caption whatever the server sent, and
   * no non-empty key gets an empty caption.
   */
  function Normalize(spec: ColumnSpec): (r: seq<ColumnDef>)
    ensures ColumnKeys(r) == SpecKeys(spec)
    ensures forall i :: 0 <= i < |r| ==>
      r[i].caption == ColumnTranslations.ResolveColumnLabel(r[i].key, SpecLabel(spec, i))
    ensures forall i :: 0 <= i < |r| && r[i].key in ColumnTranslations.TranslatedKeys ==>
      r[i].caption == ColumnTranslations.Translations[r[i].key]
    ensures forall i :: 0 <= i < |r| && r[i].key != "" ==> r[i].caption != ""
  {
    match spec
    case KeyList(keys) =>
      seq(|keys|, i requires 0 <= i < |keys| => ColumnDef(keys[i], ColumnTranslations.ResolveColumnLabel(keys[i], None)))
    case DescriptorList(items) =>
      seq(|items|, i requires 0 <= i < |items| =>
        ColumnDef(items[i].key, ColumnTranslations.ResolveColumnLabel(items[i].key, items[i].backendLabel)))
    case KeyMap(entries) =>
      seq(|entries|, i requires 0 <= i < |entries| =>
        ColumnDef(entries[i].0, ColumnTranslations.ResolveColumnLabel(entries[i].0, Some(entries[i].1))))
  }

  /** A row of the response, as far as the page looks at it: its own keys in
      Object.keys order. */
  datatype Row = Row(fieldKeys: seq<string>)

  /** The internal fields never offered as columns. */
  predicate IsInternalField(k: string) {
    k == "id" || k == "deleted_at"
  }

  /** The fallback columns: the first row's keys in order, without the
      internal fields, captioned by resolveColumnLabel. */
  function RowKeyColumns(fieldKeys: seq<string>): (r: seq<ColumnDef>)
    ensures |r| <= |fieldKeys|
    ensures forall k :: k in ColumnKeys(r) <==> k in fieldKeys && !IsInternalField(k)
    ensures forall i :: 0 <= i < |r| ==> r[i].caption == ColumnTranslations.ResolveColumnLabel(r[i].key, None)
    ensures forall i :: 0 <= i < |r| && r[i].key != "" ==> r[i].caption != ""
  {
    if fieldKeys == [] then []
    else
      var k := fieldKeys[0];
      var rest := RowKeyColumns(fieldKeys[1..]);
      var head := if IsInternalField(k) then [] else [ColumnDef(k, ColumnTranslations.ResolveColumnLabel(k, None))];
      ColumnKeysAppend(head, rest);
      assert ColumnKeys(head) == if IsInternalField(k) then [] else [k];
      assert fieldKeys == [k] + fieldKeys[1..];
      head + rest
  }

  /** The fallback keeps the first row's keys in order: it is the bare-key
      normalisation of those keys with the internal fields filtered out. */
  lemma {:induction false} RowKeyColumnsFiltersKeyList(fieldKeys: seq<string>)
    ensures RowKeyColumns(fieldKeys) == FilterOut(Normalize(KeyList(fieldKeys)), ["id", "deleted_at"])
    decreases |fieldKeys|
  {
    if fieldKeys != [] {
      var n := Normalize(KeyList(fieldKeys));
      assert n[1..] == Normalize(KeyList(fieldKeys[1..]));
      assert n[0] == ColumnDef(fieldKeys[0], ColumnTranslations.ResolveColumnLabel(fieldKeys[0], None));
      assert (n[0].key in ["id", "deleted_at"]) == IsInternalField(fieldKeys[0]);
      RowKeyColumnsFiltersKeyList(fieldKeys[1..]);
    }
  }

  /** The live columns once a response's `columns` field is applied: its
      normalisation when that is non-empty, else the columns as they were. */
  function ServerColumnsApplied(current: seq<ColumnDef>, columns: Option<ColumnSpec>): (r: seq<ColumnDef>)
    ensures columns.Some? && |SpecKeys(columns.value)| > 0 ==> r == Normalize(columns.value)
    ensures columns.None? || |SpecKeys(columns.value)| == 0 ==> r == current
  {
    if columns.Some? && |Normalize(columns.value)| > 0 then Normalize(columns.value) else current
  }

  /**
   * The live columns after a response, as the code reads: the server's
   * columns are applied first; then the first row's keys replace them
   * whenever the response has no `columns` OR the columns seen when the
   * request was issued were empty. On the first request the latter always
   * holds, so the server's columns are overwritten by the row-key fallback.
   */
  function ColumnsAfterResponseAsWritten(columnsAtRequest: seq<ColumnDef>, current: seq<ColumnDef>,
                                         rows: seq<Row>, columns: Option<ColumnSpec>): (r: seq<ColumnDef>)
    ensures |columnsAtRequest| == 0 && |rows| > 0 ==> r == RowKeyColumns(rows[0].fieldKeys)
    ensures columns.None? && |rows| > 0 ==> r == RowKeyColumns(rows[0].fieldKeys)
    ensures columns.Some? && |SpecKeys(columns.value)| > 0 && (|columnsAtRequest| > 0 || |rows| == 0) ==>
      r == Normalize(columns.value)
    ensures (columns.None? || |SpecKeys(columns.value)| == 0) && (|rows| == 0 || (columns.Some? && |columnsAtRequest| > 0)) ==>
      r == current
  {
    var afterServer := ServerColumnsApplied(current, columns);
    if (columns.None? || |columnsAtRequest| == 0) && |rows| > 0 then RowKeyColumns(rows[0].fieldKeys)
    else afterServer
  }

  /**
   * The live columns after a response, with the emptiness test made on the
   * columns as they stand once the server's are applied: a response without
   * `columns`, or with columns that leave the page with none, falls back to
   * the first row's keys; server columns are never overwritten.
   */
  function ColumnsAfterResponse(current: seq<ColumnDef>, rows: seq<Row>, columns: Option<ColumnSpec>): (r: seq<ColumnDef>)
    ensures columns.Some? && |SpecKeys(columns.value)| > 0 ==> r == Normalize(columns.value)
    ensures columns.None? && |rows| > 0 ==> r == RowKeyColumns(rows[0].fieldKeys)
    ensures columns.Some? && |SpecKeys(columns.value)| == 0 ==>
      r == if |current| == 0 && |rows| > 0 then RowKeyColumns(rows[0].fieldKeys) else current
    ensures |rows| == 0 ==> r == ServerColumnsApplied(current, columns)
  {
    var afterServer := ServerColumnsApplied(current, columns);
    if (columns.None? || |afterServer| == 0) && |rows| > 0 then RowKeyColumns(rows[0].fieldKeys)
    else afterServer
  }

  /** The correction is the code as written with the stale length replaced
      by the length of the columns the response has just set. */
  lemma CorrectionReadsFreshColumns(current: seq<ColumnDef>, rows: seq<Row>, columns: Option<ColumnSpec>)
    ensures ColumnsAfterResponse(current, rows, columns) ==
      ColumnsAfterResponseAsWritten(ServerColumnsApplied(current, columns), current, rows, columns)
  {
  }

  /** On a first response carrying rows, the code as written discards the
      server's columns: with server columns ["name"] and a first row with
      keys id and code, the live columns become [code], not [name]. */
  lemma FirstResponseDiscardsServerColumns()
    ensures var rows := [Row(["id", "code"])];
      var spec := KeyList(["name"]);
      && ColumnKeys(ColumnsAfterResponseAsWritten([], [], rows, Some(spec))) == ["code"]
      && ColumnKeys(ColumnsAfterResponse([], rows, Some(spec))) == ["name"]
  {
    var r := RowKeyColumns(["id", "code"]);
    assert ["id", "code"][1..] == ["code"];
    assert ["code"][1..] == [];
    assert IsInternalField("id") && !IsInternalField("code");
    assert |r| == 1;
    assert ColumnKeys(r)[0] == "code";
  }

  /** Apart from that first response, both readings agree. */
  lemma AsWrittenAgreesOnceColumnsExist(columnsAtRequest: seq<ColumnDef>, current: seq<ColumnDef>,
                                        rows: seq<Row>, columns: Option<ColumnSpec>)
    requires |columnsAtRequest| > 0
    requires columns.Some? ==> |SpecKeys(columns.value)| > 0
    ensures ColumnsAfterResponseAsWritten(columnsAtRequest, current, rows, columns) ==
            ColumnsAfterResponse(current, rows, columns)
  {
  }

  // ---------------------------------------------------------------------
  // Query of a request

  /** JavaScript's WhiteSpace and LineTerminator characters, which trim()
      removes. */
  predicate IsJsWhitespace(c: char) {
    c == '\t' || c == '\n' || c == '\U{000B}' || c == '\U{000C}' || c == '\r' || c == ' ' ||
    c == '\U{00A0}' || c == '\U{1680}' || ('\U{2000}' <= c <= '\U{200A}') ||
    c == '\U{2028}' || c == '\U{2029}' || c == '\U{202F}' || c == '\U{205F}' ||
    c == '\U{3000}' || c == '\U{FEFF}'
  }

  predicate IsBlank(s: string) {
    forall i :: 0 <= i < |s| ==> IsJsWhitespace(s[i])
  }

  lemma BlankCons(c: char, t: string)
    requires IsJsWhitespace(c) && IsBlank(t)
    ensures IsBlank([c] + t) && IsBlank(t + [c])
  {
  }

  /** How many whitespace characters the string starts with. */
  function LeadingBlanks(s: string): (n: nat)
    ensures n <= |s| && IsBlank(s[..n])
    ensures n == |s| || !IsJsWhitespace(s[n])
  {
    if s != [] && IsJsWhitespace(s[0]) then
      var m := LeadingBlanks(s[1..]);
      assert s[..m + 1] == [s[0]] + s[1..][..m];
      BlankCons(s[0], s[1..][..m]);
      m + 1
    else 0
  }

  /** How many whitespace characters the string ends with. */
  function TrailingBlanks(s: string): (n: nat)
    ensures n <= |s| && IsBlank(s[|s| - n..])
    ensures n == |s| || !IsJsWhitespace(s[|s| - n - 1])
  {
    if s != [] && IsJsWhitespace(s[|s| - 1]) then
      var t := s[..|s| - 1];
      var m := TrailingBlanks(t);
      assert s[|s| - (m + 1)..] == t[|t| - m..] + [s[|s| - 1]];
      BlankCons(s[|s| - 1], t[|t| - m..]);
      m + 1
    else 0
  }

  /** Strips leading whitespace: what is removed is blank, and what is left
      does not start with whitespace. */
  function TrimStart(s: string): (r: string)
    ensures |r| <= |s| && r == s[|s| - |r|..]
    ensures IsBlank(s[..|s| - |r|])
    ensures r == [] || !IsJsWhitespace(r[0])
  {
    s[LeadingBlanks(s)..]
  }

  /** Strips trailing whitespace, symmetrically. */
  function TrimEnd(s: string): (r: string)
    ensures |r| <= |s| && r == s[..|r|]
    ensures IsBlank(s[|r|..])
    ensures r == [] || !IsJsWhitespace(r[|r| - 1])
  {
    s[..|s| - TrailingBlanks(s)]
  }

  function Trim(s: string): string {
    TrimEnd(TrimStart(s))
  }

  /** trim() leaves nothing exactly when the string is all whitespace. */
  lemma TrimEmptyIffBlank(s: string)
    ensures Trim(s) == "" <==> IsBlank(s)
  {
    var t := TrimStart(s);
    var n := |s| - |t|;
    if Trim(s) == "" {
      assert IsBlank(t[0..]);
      forall i | 0 <= i < |s| ensures IsJsWhitespace(s[i]) {
        if i < n {
          assert s[..n][i] == s[i];
        }
      }
    }
  }

  /** The value of the first parameter with the given name. */
  function ParamValue(params: seq<(string, string)>, name: string): Option<string> {
    if params == [] then None
    else if params[0].0 == name then Some(params[0].1)
    else ParamValue(params[1..], name)
  }

  /** The search parameter: the text as typed, present unless it is blank. */
  function SearchParam(search: string): (r: seq<(string, string)>)
    ensures r == [] || (|r| == 1 && r[0].0 == "search")
    ensures r == [] <==> IsBlank(search)
    ensures r != [] ==> r[0].1 == search
  {
    TrimEmptyIffBlank(search);
    if Trim(search) != "" then [("search", search)] else []
  }

  /** The status parameter: absent for "all", else whether disabled
      records are wanted. */
  function StatusParam(statusFilter: string): (r: seq<(string, string)>)
    ensures r == [] || (|r| == 1 && r[0].0 == "disabled")
    ensures r == [] <==> statusFilter == "all"
    ensures r != [] ==> r[0].1 == if statusFilter == "inactive" then "true" else "false"
  {
    if statusFilter != "all" then [("disabled", if statusFilter == "inactive" then "true" else "false")] else []
  }

  /** The sort parameters: field and direction, only for a non-empty key. */
  function SortParams(sortKey: Option<string>, dir: Direction): (r: seq<(string, string)>)
    ensures r == [] || (|r| == 2 && r[0].0 == "sort_by" && r[1].0 == "order")
    ensures r == [] <==> !(sortKey.Some? && sortKey.value != "")
    ensures r != [] ==> r[0].1 == sortKey.value && r[1].1 == DirectionText(dir)
  {
    if sortKey.Some? && sortKey.value != "" then [("sort_by", sortKey.value), ("order", DirectionText(dir))] else []
  }

  /**
   * The query of a list request: page and size always, the search text as
   * typed when it is not blank, `disabled` unless the filter is "all"
   * ("true" for "inactive", "false" otherwise), and the sort field and
   * direction only when a non-empty sort key is set.
   */
  function QueryParams(page: int, size: int, search: string, statusFilter: string,
                       sortKey: Option<string>, dir: Direction): (r: seq<(string, string)>)
    ensures |r| >= 2 && r[0] == ("page", DataTable.IntString(page)) && r[1] == ("size", DataTable.IntString(size))
    ensures ParamValue(r, "search") == if IsBlank(search) then None else Some(search)
    ensures ParamValue(r, "disabled") ==
      if statusFilter == "all" then None else Some(if statusFilter == "inactive" then "true" else "false")
    ensures ParamValue(r, "sort_by") == if sortKey.Some? && sortKey.value != "" then Some(sortKey.value) else None
    ensures ParamValue(r, "order") == if sortKey.Some? && sortKey.value != "" then Some(DirectionText(dir)) else None
  {
    var base := [("page", DataTable.IntString(page)), ("size", DataTable.IntString(size))];
    var a, b, c := SearchParam(search), StatusParam(statusFilter), SortParams(sortKey, dir);
    ParamsLookup(base, a, b, c);
    base + a + b + c
  }

  /** A list request carries at most six parameters and nothing but the six
      names above. */
  lemma QueryParamsNamesOnlyKnown(page: int, size: int, search: string, statusFilter: string,
                                  sortKey: Option<string>, dir: Direction)
    ensures var r := QueryParams(page, size, search, statusFilter, sortKey, dir);
      && |r| <= 6 && (forall p :: p in r ==> KnownParamName(p.0))
      && Distinct(ParamNames(r))
  {
    var base := [("page", DataTable.IntString(page)), ("size", DataTable.IntString(size))];
    ParamsNamed(base, SearchParam(search), StatusParam(statusFilter), SortParams(sortKey, dir));
    ParamsDistinct(base, SearchParam(search), StatusParam(statusFilter), SortParams(sortKey, dir));
  }

  /** The names of a query's parameters, in order. */
  function ParamNames(params: seq<(string, string)>): (r: seq<string>)
    ensures |r| == |params| && forall i :: 0 <= i < |params| ==> r[i] == params[i].0
  {
    seq(|params|, i requires 0 <= i < |params| => params[i].0)
  }

  /** The names a list request may carry. */
  predicate KnownParamName(name: string) {
    name == "page" || name == "size" || name == "search" || name == "disabled" || name == "sort_by" || name == "order"
  }

  /** A query assembled from its parts names nothing else and has at most
      six parameters. */
  lemma ParamsNamed(base: seq<(string, string)>, a: seq<(string, string)>, b: seq<(string, string)>, c: seq<(string, string)>)
    requires |base| == 2 && base[0].0 == "page" && base[1].0 == "size"
    requires a == [] || (|a| == 1 && a[0].0 == "search")
    requires b == [] || (|b| == 1 && b[0].0 == "disabled")
    requires c == [] || (|c| == 2 && c[0].0 == "sort_by" && c[1].0 == "order")
    ensures |base + a + b + c| <= 6
    ensures forall p :: p in base + a + b + c ==> KnownParamName(p.0)
  {
    forall p | p in base + a + b + c ensures KnownParamName(p.0) {
      assert p in base || p in a || p in b || p in c;
    }
  }

  lemma ParamNamesAppend(x: seq<(string, string)>, y: seq<(string, string)>)
    ensures ParamNames(x + y) == ParamNames(x) + ParamNames(y)
  {
  }

  /** A query assembled from its parts names no parameter twice. */
  lemma ParamsDistinct(base: seq<(string, string)>, a: seq<(string, string)>, b: seq<(string, string)>, c: seq<(string, string)>)
    requires |base| == 2 && base[0].0 == "page" && base[1].0 == "size"
    requires a == [] || (|a| == 1 && a[0].0 == "search")
    requires b == [] || (|b| == 1 && b[0].0 == "disabled")
    requires c == [] || (|c| == 2 && c[0].0 == "sort_by" && c[1].0 == "order")
    ensures Distinct(ParamNames(base + a + b + c))
  {
    ParamNamesAppend(base + a + b, c);
    ParamNamesAppend(base + a, b);
    ParamNamesAppend(base, a);
    var na: seq<string> := if a == [] then [] else ["search"];
    var nb: seq<string> := if b == [] then [] else ["disabled"];
    var nc: seq<string> := if c == [] then [] else ["sort_by", "order"];
    assert ParamNames(base) == ["page", "size"];
    assert ParamNames(a) == na && ParamNames(b) == nb && ParamNames(c) == nc;
    assert ParamNames(base + a + b + c) == ["page", "size"] + na + nb + nc;
    var full: seq<string> := ["page", "size", "search", "disabled", "sort_by", "order"];
    assert Distinct(full);
    // Every name list the parts can give is a subsequence of `full`.
    if a == [] && b == [] && c == [] {
      assert ["page", "size"] + na + nb + nc == full[..2];
    } else if a == [] && b == [] {
      assert ["page", "size"] + na + nb + nc == full[..2] + full[4..];
    } else if a == [] && c == [] {
      assert ["page", "size"] + na + nb + nc == full[..2] + full[3..4];
    } else if a == [] {
      assert ["page", "size"] + na + nb + nc == full[..2] + full[3..];
    } else if b == [] && c == [] {
      assert ["page", "size"] + na + nb + nc == full[..3];
    } else if b == [] {
      assert ["page", "size"] + na + nb + nc == full[..3] + full[4..];
    } else if c == [] {
      assert ["page", "size"] + na + nb + nc == full[..4];
    } else {
      assert ["page", "size"] + na + nb + nc == full;
    }
  }

  /** A lookup in a joined list finds the first part's value if it has one. */
  lemma {:induction false} ParamValueAppend(a: seq<(string, string)>, b: seq<(string, string)>, name: string)
    ensures ParamValue(a + b, name) == if ParamValue(a, name).Some? then ParamValue(a, name) else ParamValue(b, name)
    decreases |a|
  {
    if a == [] {
      assert a + b == b;
    } else {
      assert (a + b)[1..] == a[1..] + b;
      ParamValueAppend(a[1..], b, name);
    }
  }

  /** Past page and size, a lookup in the query falls through its parts. */
  lemma ParamsLookupOne(base: seq<(string, string)>, a: seq<(string, string)>, b: seq<(string, string)>,
                        c: seq<(string, string)>, name: string)
    requires |base| == 2 && base[0].0 == "page" && base[1].0 == "size"
    requires name != "page" && name != "size"
    ensures ParamValue(base + a + b + c, name) ==
      if ParamValue(a, name).Some? then ParamValue(a, name)
      else if ParamValue(b, name).Some? then ParamValue(b, name)
      else ParamValue(c, name)
  {
    ParamValueAppend(base + a + b, c, name);
    ParamValueAppend(base + a, b, name);
    ParamValueAppend(base, a, name);
    assert base[1..][1..] == [];
  }

  lemma ParamsLookup(base: seq<(string, string)>, a: seq<(string, string)>, b: seq<(string, string)>, c: seq<(string, string)>)
    requires |base| == 2 && base[0].0 == "page" && base[1].0 == "size"
    requires a == [] || (|a| == 1 && a[0].0 == "search")
    requires b == [] || (|b| == 1 && b[0].0 == "disabled")
    requires c == [] || (|c| == 2 && c[0].0 == "sort_by" && c[1].0 == "order")
    ensures ParamValue(base + a + b + c, "search") == if a == [] then None else Some(a[0].1)
    ensures ParamValue(base + a + b + c, "disabled") == if b == [] then None else Some(b[0].1)
    ensures ParamValue(base + a + b + c, "sort_by") == if c == [] then None else Some(c[0].1)
    ensures ParamValue(base + a + b + c, "order") == if c == [] then None else Some(c[1].1)
  {
    ParamsLookupOne(base, a, b, c, "search");
    ParamsLookupOne(base, a, b, c, "disabled");
    ParamsLookupOne(base, a, b, c, "sort_by");
    ParamsLookupOne(base, a, b, c, "order");
    if a != [] { assert a[1..] == []; }
    if b != [] { assert b[1..] == []; }
    if c != [] { assert c[1..][1..] == []; }
  }

  // ---------------------------------------------------------------------
  // Sorting

  /** The sort state after a click on a header: the same key flips the
      direction, another key is sorted ascending. */
  function SortAfterClick(sortKey: Option<string>, dir: Direction, key: string): (Option<string>, Direction) {
    if sortKey == Some(key) then (Some(key), Flip(dir)) else (Some(key), Asc)
  }

  /** Two clicks on the current sort key restore the direction; two clicks
      on a new key leave it sorted descending. */
  lemma TwoClicksOnAKey(sortKey: Option<string>, dir: Direction, key: string)
    ensures var (k1, d1) := SortAfterClick(sortKey, dir, key);
      var (k2, d2) := SortAfterClick(k1, d1, key);
      && k1 == k2 == Some(key)
      && d2 == (if sortKey == Some(key) then dir else Desc)
  {
  }

  // ---------------------------------------------------------------------
  // Persisted preferences

  /** The record persisted under "businesses_table_prefs". */
  datatype Prefs = Prefs(order: Option<seq<string>>, sortBy: Option<string>, orderDir: Option<Direction>)

  /** What local storage holds: nothing (or ""), a record, or text that does
      not parse (ignored). */
  datatype Stored = Absent | Corrupt | Saved(prefs: Prefs)

  /** The record persistPrefs writes. */
  function PrefsRecord(cols: seq<ColumnDef>, sortKey: Option<string>, dir: Direction): Prefs {
    Prefs(Some(ColumnKeys(cols)), sortKey, Some(dir))
  }

  /** A saved order worth applying: present and non-empty. */
  predicate HasSavedOrder(stored: Stored) {
    stored.Saved? && stored.prefs.order.Some? && |stored.prefs.order.value| > 0
  }

  /** The live columns once the saved order is applied (only to columns that
      are there). */
  function StoredOrderApplied(stored: Stored, cols: seq<ColumnDef>): (r: seq<ColumnDef>)
    ensures forall c :: c in r ==> c in cols
  {
    if |cols| > 0 && HasSavedOrder(stored) then MergeOrder(stored.prefs.order.value, cols) else cols
  }

  /** The merge is value-stable on its own output: applying the saved order
      to columns it already ordered yields the same columns. (The effect
      still hands React a new list each time; only its contents repeat.) */
  lemma StoredOrderAppliedStable(stored: Stored, cols: seq<ColumnDef>)
    requires DistinctKeys(cols)
    ensures StoredOrderApplied(stored, StoredOrderApplied(stored, cols)) == StoredOrderApplied(stored, cols)
  {
    if |cols| > 0 && HasSavedOrder(stored) {
      var m := MergeOrder(stored.prefs.order.value, cols);
      MergeIdempotent(stored.prefs.order.value, cols);
      assert cols[0] in cols;
      KeyWitness(m, cols[0].key);
    }
  }

  // ---------------------------------------------------------------------
  // The displayed columns

  const ActionsColumn: DataTable.Column := DataTable.Column("Ações", DataTable.ActionsKey, Some(false))

  /** The dynamic columns as the table receives them: each sortable. */
  function AsTableColumns(dyn: seq<ColumnDef>): (r: seq<DataTable.Column>)
    ensures DataTable.Keys(r) == ColumnKeys(dyn)
  {
    seq(|dyn|, i requires 0 <= i < |dyn| => DataTable.Column(dyn[i].caption, dyn[i].key, Some(true)))
  }

  /** The column list handed to the table: the dynamic columns in order,
      then the actions column. */
  function DisplayColumns(dyn: seq<ColumnDef>): seq<DataTable.Column> {
    AsTableColumns(dyn) + [ActionsColumn]
  }

  /** Every dynamic column offers sorting and dragging (unless its key is
      "actions"); the trailing actions column offers neither. */
  lemma DisplayedHeaderFlags(dyn: seq<ColumnDef>)
    ensures var cols := DisplayColumns(dyn);
      && |cols| == |dyn| + 1
      && cols[|dyn|].key == DataTable.ActionsKey
      && !DataTable.IsSortable(cols[|dyn|], true) && !DataTable.IsDraggable(true, cols[|dyn|])
      && forall i :: 0 <= i < |dyn| ==>
           && cols[i].header == dyn[i].caption
           && (DataTable.IsSortable(cols[i], true) <==> dyn[i].key != DataTable.ActionsKey)
           && (DataTable.IsDraggable(true, cols[i]) <==> dyn[i].key != DataTable.ActionsKey)
  {
  }

  /** Moving a dynamic column and then taking keys is moving its key. */
  lemma ColumnKeysOfMoveTo(cols: seq<ColumnDef>, from: nat, to: nat)
    requires from < |cols|
    ensures ColumnKeys(DataTable.MoveTo(cols, from, to)) == DataTable.MoveTo(ColumnKeys(cols), from, to)
  {
    DataTable.MoveToCommutesWithMap(cols, ColumnKeys(cols), (c: ColumnDef) => c.key, from, to);
  }

  /**
   * A drag in the table followed by the page's order handler moves exactly
   * the dragged dynamic column: the order the table emits, merged into the
   * live columns, is the live columns with that one moved.
   */
  lemma DropMovesDynamicColumn(dyn: seq<ColumnDef>, from: nat, to: nat)
    requires DistinctKeys(dyn)
    requires DataTable.ActionsKey !in ColumnKeys(dyn)
    requires from < |dyn|
    ensures DataTable.ReorderableColumns(DisplayColumns(dyn)) == AsTableColumns(dyn)
    ensures var emitted := DataTable.Keys(DataTable.MoveTo(DataTable.ReorderableColumns(DisplayColumns(dyn)), from, to));
      MergeOrder(emitted, dyn) == DataTable.MoveTo(dyn, from, to)
  {
    var table := AsTableColumns(dyn);
    DataTable.ReorderableDropsTrailingActions(table, ActionsColumn);
    forall i | 0 <= i < |table| ensures table[i].key != DataTable.ActionsKey {
      assert ColumnKeys(dyn)[i] == table[i].key;
    }
    assert DataTable.ReorderableColumns(DisplayColumns(dyn)) == table;
    DataTable.KeysOfMoveTo(table, from, to);
    ColumnKeysOfMoveTo(dyn, from, to);
    DataTable.MoveToPermutes(dyn, from, to);
    MergeAppliesPermutation(DataTable.MoveTo(dyn, from, to), dyn);
  }

  /** The notes cell: the trimmed text, cut to 60 characters followed by an
      ellipsis when longer; the full trimmed text goes to the tooltip. */
  function NotesPreview(notes: Option<string>): (r: string)
    ensures var t := Trim(if notes.Some? then notes.value else "");
      && |r| <= 61
      && (|t| <= 60 ==> r == t)
      && (|t| > 60 ==> |r| == 61 && r[..60] <= t && r[60] == '\U{2026}')
      && (r != t ==> |t| > 60)
  {
    var text := Trim(if notes.Some? then notes.value else "");
    if |text| > 60 then text[..60] + ['\U{2026}'] else text
  }

  // ---------------------------------------------------------------------
  // The page state

  /** What a list request came back with. */
  datatype FetchOutcome =
    | RequestFailed
    | NotModified
    | Received(rows: Option<seq<Row>>, total: int, lastPage: int, columns: Option<ColumnSpec>)

  class BusinessList {
    var currentPage: int
    var searchTerm: string
    var statusFilter: string
    var itemsPerPage: int
    var sortKey: Option<string>
    var sortDirection: Direction
    var dynamicColumns: seq<ColumnDef>
    var rows: seq<Row>
    var totalPages: int
    var totalItems: int
    /** Local storage, as far as this page uses it. */
    var storage: Stored

    /** The initial state: page 1, no search, every status, 10 per page,
        no sort key (ascending), no columns, no rows. */
    constructor(storage: Stored)
      ensures currentPage == 1 && searchTerm == "" && statusFilter == "all" && itemsPerPage == 10
      ensures sortKey == None && sortDirection == Asc
      ensures dynamicColumns == [] && rows == [] && totalPages == 0 && totalItems == 0
      ensures this.storage == storage
    {
      currentPage := 1;
      searchTerm := "";
      statusFilter := "all";
      itemsPerPage := 10;
      sortKey := None;
      sortDirection := Asc;
      dynamicColumns := [];
      rows := [];
      totalPages := 0;
      totalItems := 0;
      this.storage := storage;
    }

    /** The query of the request the current state issues. */
    function Query(): seq<(string, string)>
      reads this
    {
      QueryParams(currentPage, itemsPerPage, searchTerm, statusFilter, sortKey, sortDirection)
    }

    method PersistPrefs(cols: seq<ColumnDef>, sKey: Option<string>, dir: Direction)
      modifies this`storage
      ensures storage == Saved(PrefsRecord(cols, sKey, dir))
    {
      storage := Saved(PrefsRecord(cols, sKey, dir));
    }

    method HandlePageChange(page: int)
      modifies this`currentPage
      ensures currentPage == page
    {
      currentPage := page;
    }

    method HandleSearchChange(search: string)
      modifies this`searchTerm, this`currentPage
      ensures searchTerm == search && currentPage == 1
    {
      searchTerm := search;
      currentPage := 1;
    }

    method HandleStatusFilterChange(status: string)
      modifies this`statusFilter, this`currentPage
      ensures statusFilter == status && currentPage == 1
    {
      statusFilter := status;
      currentPage := 1;
    }

    method HandlePageSizeChange(size: int)
      modifies this`itemsPerPage, this`currentPage
      ensures itemsPerPage == size && currentPage == 1
    {
      itemsPerPage := size;
      currentPage := 1;
    }

    /** A click on a sortable header: flips or sets the sort, persists the
        column order with the new sort, and returns to page 1. */
    method HandleSortChange(key: string)
      modifies this`sortKey, this`sortDirection, this`storage, this`currentPage
      ensures (sortKey, sortDirection) == SortAfterClick(old(sortKey), old(sortDirection), key)
      ensures storage == Saved(PrefsRecord(dynamicColumns, Some(key), sortDirection))
      ensures currentPage == 1
    {
      if sortKey == Some(key) {
        var flipped := Flip(sortDirection);
        sortDirection := flipped;
        PersistPrefs(dynamicColumns, Some(key), flipped);
      } else {
        sortKey := Some(key);
        sortDirection := Asc;
        PersistPrefs(dynamicColumns, Some(key), Asc);
      }
      currentPage := 1;
    }

    /** The table emitted a new key order: merge it into the live columns
        and persist it with the current sort. */
    method HandleColumnOrderChange(newOrderKeys: seq<string>)
      modifies this`dynamicColumns, this`storage
      ensures dynamicColumns == MergeOrder(newOrderKeys, old(dynamicColumns))
      ensures storage == Saved(PrefsRecord(dynamicColumns, sortKey, sortDirection))
    {
      var reordered := MergeStoredOrder(newOrderKeys, dynamicColumns);
      dynamicColumns := reordered;
      PersistPrefs(reordered, sortKey, sortDirection);
    }

    /** On mount: a saved non-empty sort key and a saved direction are
        restored; a saved order is applied only to columns already there. */
    method RestorePrefsOnMount()
      modifies this`sortKey, this`sortDirection, this`dynamicColumns
      ensures storage.Saved? && storage.prefs.sortBy.Some? && storage.prefs.sortBy.value != "" ==>
        sortKey == storage.prefs.sortBy
      ensures !(storage.Saved? && storage.prefs.sortBy.Some? && storage.prefs.sortBy.value != "") ==>
        sortKey == old(sortKey)
      ensures sortDirection == if storage.Saved? && storage.prefs.orderDir.Some? then storage.prefs.orderDir.value else old(sortDirection)
      ensures dynamicColumns == StoredOrderApplied(storage, old(dynamicColumns))
    {
      if storage.Saved? {
        var saved := storage.prefs;
        if saved.sortBy.Some? && saved.sortBy.value != "" {
          sortKey := saved.sortBy;
        }
        if saved.orderDir.Some? {
          sortDirection := saved.orderDir.value;
        }
      }
      // The mount effect merges the saved order exactly as the later effect does.
      ApplyStoredOrder();
    }

    /** Once columns are present, the saved order is applied to them. */
    method ApplyStoredOrder()
      modifies this`dynamicColumns
      ensures dynamicColumns == StoredOrderApplied(storage, old(dynamicColumns))
    {
      if |dynamicColumns| > 0 && HasSavedOrder(storage) {
        var reordered := MergeStoredOrder(storage.prefs.order.value, dynamicColumns);
        if |reordered| > 0 {
          dynamicColumns := reordered;
        }
      }
    }

    /** A response: failures, "not modified" and bodies without rows change
        nothing; otherwise rows, totals and columns are replaced. */
    method ApplyResponse(outcome: FetchOutcome)
      modifies this`rows, this`totalPages, this`totalItems, this`dynamicColumns
      ensures !(outcome.Received? && outcome.rows.Some?) ==>
        rows == old(rows) && totalPages == old(totalPages) && totalItems == old(totalItems) && dynamicColumns == old(dynamicColumns)
      ensures outcome.Received? && outcome.rows.Some? ==>
        && rows == outcome.rows.value
        && totalPages == outcome.lastPage
        && totalItems == outcome.total
        && dynamicColumns == ColumnsAfterResponse(old(dynamicColumns), outcome.rows.value, outcome.columns)
    {
      if outcome.Received? && outcome.rows.Some? {
        var data := outcome.rows.value;
        rows := data;
        totalPages := outcome.lastPage;
        totalItems := outcome.total;
        dynamicColumns := ColumnsAfterResponse(dynamicColumns, data, outcome.columns);
      }
    }
  }
}
