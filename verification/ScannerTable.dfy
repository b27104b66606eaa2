/** `_scanner_table_bumps`: tables in a scanner's log, with merged cells carried downward. */
module ScannerTable {
  import opened Domain
  import opened Lines

  const LIBRARY := "library"
  const INSTALLED := "installed version"
  const FIXED := "fixed version"

  const MERGED: seq<string> := ["vulnerability", "severity", "status", INSTALLED, FIXED]

  // ---- reading one line ----

  predicate IsSeparator(c: char) { c in {'\U{2502}', '|'} }

  predicate IsBorder(c: char) { c in {'\U{250C}', '\U{251C}', '\U{2514}', '\U{2500}', '+', '-', '='} }

  predicate IsRule(c: char) { c in {'\U{251C}', '\U{253C}', '\U{2524}', '\U{2500}'} }

  function SplitCells(s: string): (cells: seq<string>)
    ensures cells != []
  {
    if s == "" then [""]
    else if IsSeparator(s[0]) then [""] + SplitCells(s[1..])
    else [[s[0]] + SplitCells(s[1..])[0]] + SplitCells(s[1..])[1..]
  }

  /** `names` are the cells in lower case. */
  datatype Line = Prose | Neutral | Cells(cells: seq<string>, names: seq<string>)

  function LineOf(text: string, lower: string -> string): Line {
    if '\U{2502}' !in text && Count(text, '|') < 4 then
      if Strip(text) != "" && !IsBorder(Strip(text)[0]) then Prose else Neutral
    else
      var cells := Map(Strip, SplitCells(Trim(Strip(text), IsSeparator)));
      Cells(cells, Map(lower, cells))
  }

  function LinesOf(log: string, lower: string -> string): seq<Line> {
    Map(text => LineOf(text, lower), SplitPlain(log))
  }

  // ---- what a table means ----

  type Columns = map<string, nat>
  type Entry = map<string, string>

  predicate IsHeader(line: Line) {
    line.Cells? && LIBRARY in line.names && INSTALLED in line.names && FIXED in line.names
  }

  /** A repeated name stands for its last column. */
  function ColumnsOf(names: seq<string>): (columns: Columns)
    ensures forall name :: name in columns <==> name in names
    ensures forall name <- columns :: columns[name] < |names| && names[columns[name]] == name
  {
    if names == [] then map[]
    else
      var last := |names| - 1;
      assert names == names[..last] + [names[last]];
      ColumnsOf(names[..last])[names[last] := last]
  }

  /** The header that line i of the log belongs to: the last one before it, unless prose intervenes. */
  function HeaderOf(lines: seq<Line>, i: nat): (h: Option<nat>)
    requires i <= |lines|
    ensures h.Some? ==> h.value < i && IsHeader(lines[h.value])
  {
    if i == 0 || lines[i - 1].Prose? then None
    else if IsHeader(lines[i - 1]) then Some(i - 1)
    else HeaderOf(lines, i - 1)
  }

  lemma {:induction false} HeaderOfMeans(lines: seq<Line>, i: nat, h: nat)
    requires i <= |lines|
    ensures HeaderOf(lines, i) == Some(h) <==>
      && h < i && IsHeader(lines[h])
      && forall j | h < j < i :: !lines[j].Prose? && !IsHeader(lines[j])
  {
    if i > 0 && h < i - 1 {
      HeaderOfMeans(lines, i - 1, h);
    }
    if i > 0 && h >= i - 1 && !lines[i - 1].Prose? && !IsHeader(lines[i - 1]) {
      assert HeaderOf(lines, i) == HeaderOf(lines, i - 1);
    }
  }

  function ColumnsAt(lines: seq<Line>, i: nat): Option<Columns>
    requires i <= |lines|
  {
    if HeaderOf(lines, i).Some? then Some(ColumnsOf(lines[HeaderOf(lines, i).value].names)) else None
  }

  predicate NamesLibrary(library: string) { library != "" && !IsRule(library[0]) }

  /** What a line is to the table around it.  A row that is too short, or names no library, is Other. */
  datatype Role = Other | Unreadable | Row(cells: Entry)

  function RoleIn(line: Line, columns: Option<Columns>): Role {
    if !line.Cells? || IsHeader(line) || columns.None? || |line.cells| < |columns.value| then Other
    else RowIn(line.cells, columns.value)
  }

  predicate Readable(cells: seq<string>, columns: Columns) {
    forall name <- columns :: columns[name] < |cells|
  }

  function RowIn(cells: seq<string>, columns: Columns): Role {
    if !Readable(cells, columns) then Unreadable
    else
      var row := map name | name in columns :: cells[columns[name]];
      if LIBRARY in row && NamesLibrary(row[LIBRARY]) then Row(row) else Other
  }

  function Roles(lines: seq<Line>): (roles: seq<Role>)
    ensures |roles| == |lines|
  {
    seq(|lines|, i requires 0 <= i < |lines| => RoleIn(lines[i], ColumnsAt(lines, i)))
  }

  // ---- what the rows of a table say ----

  /** A column as the rows fill it; other lines hold nothing. */
  function Column(roles: seq<Role>, name: string): (column: seq<Option<string>>)
    ensures |column| == |roles|
  {
    seq(|roles|, i requires 0 <= i < |roles| =>
      if roles[i].Row? && name in roles[i].cells then Some(roles[i].cells[name]) else None)
  }

  /** `value` is the last non-blank cell from `first` up to n, or blank when there is none. */
  ghost predicate LastFilled(column: seq<Option<string>>, first: nat, n: nat, value: string)
    requires n <= |column|
  {
    if value == "" then
      forall j | first <= j < n :: column[j] in {None, Some("")}
    else
      exists j :: first <= j < n && column[j] == Some(value)
        && forall k | j < k < n :: column[k] in {None, Some("")}
  }

  /** The entry read from row i: its merged cells are filled from the rows above, down from `first`. */
  ghost predicate IsEntry(roles: seq<Role>, first: nat, i: nat, entry: Entry)
    requires i < |roles|
  {
    && roles[i].Row?
    && entry.Keys == roles[i].cells.Keys
    && forall name <- entry ::
         if name in MERGED then LastFilled(Column(roles, name), first, i + 1, entry[name])
         else entry[name] == roles[i].cells[name]
  }

  /** The rows among the first n lines, in order. */
  function RowsOf(roles: seq<Role>, n: nat): (rows: seq<nat>)
    requires n <= |roles|
    ensures forall i :: i in rows <==> 0 <= i < n && roles[i].Row?
    ensures forall k | 0 <= k < |rows| :: rows[k] < n
    ensures forall k, m | 0 <= k < m < |rows| :: rows[k] < rows[m]
  {
    if n == 0 then []
    else RowsOf(roles, n - 1) + if roles[n - 1].Row? then [n - 1] else []
  }

  /** For every line, where the rows of its table start. */
  function Firsts(lines: seq<Line>): (firsts: seq<nat>)
    ensures |firsts| == |lines| + 1
  {
    seq(|lines| + 1, i requires 0 <= i <= |lines| => First(lines, i))
  }

  function Tables(lines: seq<Line>): (tables: seq<Option<Columns>>)
    ensures |tables| == |lines| + 1
  {
    seq(|lines| + 1, i requires 0 <= i <= |lines| => ColumnsAt(lines, i))
  }

  function First(lines: seq<Line>, i: nat): nat
    requires i <= |lines|
  {
    if HeaderOf(lines, i).Some? then HeaderOf(lines, i).value + 1 else i
  }

  /** One entry for each of `rows`, each filled from its own table. */
  ghost predicate AreEntries(roles: seq<Role>, firsts: seq<nat>, rows: seq<nat>, entries: seq<Entry>) {
    && |rows| == |entries|
    && forall k | 0 <= k < |rows| ::
         && rows[k] < |roles| && rows[k] < |firsts|
         && IsEntry(roles, firsts[rows[k]], rows[k], entries[k])
  }

  // ---- the loop ----

  function Get(entry: Entry, name: string): string { if name in entry then entry[name] else "" }

  method CarryDown(row: Entry, previous: Entry) returns (carried: Entry)
    requires previous == map[] || previous.Keys == row.Keys
    ensures carried.Keys == row.Keys
    ensures forall name <- row ::
      carried[name] == if name in MERGED && row[name] == "" then Get(previous, name) else row[name]
  {
    carried := row;
    var n := 0;
    while n < |MERGED|
      invariant n <= |MERGED| && carried.Keys == row.Keys
      invariant forall name <- row ::
        carried[name] == if name in MERGED[..n] && row[name] == "" then Get(previous, name) else row[name]
    {
      var name := MERGED[n];
      assert MERGED[..n + 1] == MERGED[..n] + [name];
      if Get(carried, name) == "" && Get(previous, name) != "" {
        carried := carried[name := previous[name]];
      }
      n := n + 1;
    }
    assert MERGED[..n] == MERGED;
  }

  /** `previous` is the last entry of a table whose rows start at `first`, or empty before its first row. */
  ghost predicate Remembers(roles: seq<Role>, first: nat, n: nat, columns: Columns, previous: Entry)
    requires n <= |roles|
  {
    && (previous == map[] || previous.Keys == columns.Keys)
    && forall name | name in MERGED && name in columns ::
         LastFilled(Column(roles, name), first, n, Get(previous, name))
  }

  lemma StillRemembers(roles: seq<Role>, first: nat, n: nat, columns: Columns, previous: Entry)
    requires n < |roles| && !roles[n].Row? && Remembers(roles, first, n, columns, previous)
    ensures Remembers(roles, first, n + 1, columns, previous)
  {
    forall name | name in MERGED && name in columns
      ensures LastFilled(Column(roles, name), first, n + 1, Get(previous, name))
    {
      FilledSkips(Column(roles, name), first, n, Get(previous, name));
    }
  }

  lemma FilledSkips(column: seq<Option<string>>, first: nat, n: nat, value: string)
    requires n < |column| && column[n] in {None, Some("")} && LastFilled(column, first, n, value)
    ensures LastFilled(column, first, n + 1, value)
  {
  }

  lemma FilledTakes(column: seq<Option<string>>, first: nat, n: nat, value: string, cell: string)
    requires first <= n < |column| && column[n] == Some(cell) && LastFilled(column, first, n, value)
    ensures LastFilled(column, first, n + 1, if cell == "" then value else cell)
  {
  }

  lemma EntryRead(roles: seq<Role>, first: nat, n: nat, columns: Columns, previous: Entry, entry: Entry)
    requires first <= n < |roles| && Remembers(roles, first, n, columns, previous)
    requires roles[n].Row? && roles[n].cells.Keys == columns.Keys == entry.Keys
    requires forall name <- entry ::
      entry[name] == if name in MERGED && roles[n].cells[name] == "" then Get(previous, name) else roles[n].cells[name]
    ensures IsEntry(roles, first, n, entry) && Remembers(roles, first, n + 1, columns, entry)
  {
    forall name | name in MERGED && name in columns
      ensures LastFilled(Column(roles, name), first, n + 1, entry[name])
    {
      FilledTakes(Column(roles, name), first, n, Get(previous, name), roles[n].cells[name]);
    }
  }

  /** The loop's state after n lines, when the current table's rows start at `first`. */
  ghost predicate Inv(
    roles: seq<Role>, firsts: seq<nat>, first: nat, n: nat, columns: Option<Columns>, previous: Entry, entries: seq<Entry>)
    requires n <= |roles|
  {
    && first <= n
    && (forall i | 0 <= i < n :: !roles[i].Unreadable?)
    && (columns.Some? ==> Remembers(roles, first, n, columns.value, previous))
    && AreEntries(roles, firsts, RowsOf(roles, n), entries)
  }

  /** A line that is not a row: the table goes on, ends, or begins. */
  lemma Passed(
    roles: seq<Role>, firsts: seq<nat>, first: nat, n: nat, columns: Option<Columns>, previous: Entry, entries: seq<Entry>)
    requires n < |roles| && roles[n].Other? && Inv(roles, firsts, first, n, columns, previous, entries)
    ensures Inv(roles, firsts, first, n + 1, columns, previous, entries)
    ensures Inv(roles, firsts, n + 1, n + 1, None, previous, entries)
    ensures forall starting :: Inv(roles, firsts, n + 1, n + 1, Some(starting), map[], entries)
  {
    if columns.Some? {
      StillRemembers(roles, first, n, columns.value, previous);
    }
  }

  lemma Taken(
    roles: seq<Role>, firsts: seq<nat>, n: nat, columns: Columns, previous: Entry, entries: seq<Entry>, entry: Entry)
    requires n < |roles| && n < |firsts| && Inv(roles, firsts, firsts[n], n, Some(columns), previous, entries)
    requires roles[n].Row? && entry.Keys == roles[n].cells.Keys == columns.Keys
    requires var cells := roles[n].cells;
      forall name <- entry ::
        entry[name] == if name in MERGED && cells[name] == "" then Get(previous, name) else cells[name]
    ensures Inv(roles, firsts, firsts[n], n + 1, Some(columns), entry, entries + [entry])
  {
    EntryRead(roles, firsts[n], n, columns, previous, entry);
    EntryTaken(roles, firsts, RowsOf(roles, n), entries, n, entry);
  }

  lemma EntryTaken(
    roles: seq<Role>, firsts: seq<nat>, rows: seq<nat>, entries: seq<Entry>, n: nat, entry: Entry)
    requires AreEntries(roles, firsts, rows, entries) && n < |roles| && n < |firsts|
    requires IsEntry(roles, firsts[n], n, entry)
    ensures AreEntries(roles, firsts, rows + [n], entries + [entry])
  {
  }

  function TableAfter(line: Line, columns: Option<Columns>): Option<Columns> {
    if line.Prose? then None else if IsHeader(line) then Some(ColumnsOf(line.names)) else columns
  }

  /** The table of each line follows from the table of the line before. */
  ghost predicate Describe(lines: seq<Line>, roles: seq<Role>, firsts: seq<nat>, tables: seq<Option<Columns>>) {
    && |roles| == |lines| && |firsts| == |lines| + 1 == |tables|
    && tables[0] == None && firsts[0] == 0
    && forall n | 0 <= n < |lines| ::
         && roles[n] == RoleIn(lines[n], tables[n])
         && tables[n + 1] == TableAfter(lines[n], tables[n])
         && firsts[n + 1] == if tables[n].None? || lines[n].Prose? || IsHeader(lines[n]) then n + 1 else firsts[n]
  }

  lemma TablesDescribe(lines: seq<Line>)
    ensures Describe(lines, Roles(lines), Firsts(lines), Tables(lines))
  {
    forall n | 0 <= n < |lines|
      ensures ColumnsAt(lines, n + 1) == TableAfter(lines[n], ColumnsAt(lines, n))
      ensures First(lines, n + 1) ==
        if ColumnsAt(lines, n).None? || lines[n].Prose? || IsHeader(lines[n]) then n + 1 else First(lines, n)
    {
    }
  }

  /** Returns None where the source fails with IndexError. */
  method ReadTables(lines: seq<Line>) returns (result: Option<seq<Entry>>)
    ensures result.None? <==> Unreadable in Roles(lines)
    ensures result.Some? ==>
      AreEntries(Roles(lines), Firsts(lines), RowsOf(Roles(lines), |lines|), result.value)
  {
    TablesDescribe(lines);
    result := ReadLines(lines, Roles(lines), Firsts(lines), Tables(lines));
  }

  method ReadLines(
    lines: seq<Line>, ghost roles: seq<Role>, ghost firsts: seq<nat>, ghost tables: seq<Option<Columns>>)
    returns (result: Option<seq<Entry>>)
    requires Describe(lines, roles, firsts, tables)
    ensures result.None? <==> Unreadable in roles
    ensures result.Some? ==> AreEntries(roles, firsts, RowsOf(roles, |roles|), result.value)
  {
    var entries: seq<Entry> := [];
    var columns: Option<Columns>, previous: Entry := None, map[];
    var n := 0;
    while n < |lines|
      invariant n <= |lines| && columns == tables[n]
      invariant Inv(roles, firsts, firsts[n], n, columns, previous, entries)
    {
      var line := lines[n];
      var role := RoleIn(line, columns);
      match role {
        case Other =>
          Passed(roles, firsts, firsts[n], n, columns, previous, entries);
          if line.Prose? {
            columns := None;
          } else if IsHeader(line) {
            columns, previous := Some(ColumnsOf(line.names)), map[];
          }
        case Unreadable =>
          return None;
        case Row(cells) =>
          var entry := CarryDown(cells, previous);
          Taken(roles, firsts, n, columns.value, previous, entries, entry);
          entries, previous := entries + [entry], entry;
      }
      n := n + 1;
    }
    result := Some(entries);
  }

  function Collected<T>(entries: seq<Entry>, bump: Entry -> Option<T>): seq<T> {
    if entries == [] then []
    else (if bump(entries[0]).Some? then [bump(entries[0]).value] else []) + Collected(entries[1..], bump)
  }

  /** `lower` is Python's str.lower, and `bump` reads a version bump from one entry. */
  method ScannerTableBumps<T>(log: string, lower: string -> string, bump: Entry -> Option<T>)
    returns (bumps: Option<seq<T>>)
    ensures var lines := LinesOf(log, lower);
      && (bumps.None? <==> Unreadable in Roles(lines))
      && (bumps.Some? ==>
            exists entries ::
              && AreEntries(Roles(lines), Firsts(lines), RowsOf(Roles(lines), |lines|), entries)
              && bumps.value == Collected(entries, bump))
  {
    var lines := LinesOf(log, lower);
    var entries := ReadTables(lines);
    bumps := if entries.Some? then Some(Collected(entries.value, bump)) else None;
  }

  // ---- consequences ----

  /** A row is read only under a header, with neither prose nor another header in between. */
  lemma RowsBelongToATable(lines: seq<Line>, i: nat)
    requires i < |lines| && Roles(lines)[i].Row?
    ensures exists h: nat | h < i ::
      && IsHeader(lines[h])
      && Firsts(lines)[i] == h + 1
      && Roles(lines)[i].cells.Keys == (set name | name in lines[h].names)
      && forall j | h < j <= i :: !lines[j].Prose? && !IsHeader(lines[j])
  {
    var h := HeaderOf(lines, i).value;
    HeaderOfMeans(lines, i, h);
    assert IsHeader(lines[h]) && Firsts(lines)[i] == h + 1;
  }

  lemma FilledOnce(column: seq<Option<string>>, first: nat, n: nat, a: string, b: string)
    requires n <= |column| && LastFilled(column, first, n, a) && LastFilled(column, first, n, b)
    ensures a == b
  {
  }

  lemma EntryIsUnique(roles: seq<Role>, first: nat, i: nat, a: Entry, b: Entry)
    requires i < |roles| && IsEntry(roles, first, i, a) && IsEntry(roles, first, i, b)
    ensures a == b
  {
    forall name | name in a
      ensures a[name] == b[name]
    {
      if name in MERGED {
        FilledOnce(Column(roles, name), first, i + 1, a[name], b[name]);
      }
    }
  }

  ghost predicate Distinct(names: seq<string>) {
    forall i, j | 0 <= i < j < |names| :: names[i] != names[j]
  }

  lemma {:induction false} ColumnCount(names: seq<string>)
    ensures |ColumnsOf(names)| <= |names|
    ensures |ColumnsOf(names)| == |names| <==> Distinct(names)
  {
    if names != [] {
      var last := |names| - 1;
      ColumnCount(names[..last]);
      OneMoreColumn(ColumnsOf(names[..last]), names[last], last);
      LastDistinct(names);
    }
  }

  lemma OneMoreColumn(columns: Columns, name: string, index: nat)
    ensures |columns[name := index]| == |columns| + if name in columns then 0 else 1
  {
    assert columns[name := index].Keys == columns.Keys + {name};
    if name in columns {
      assert columns[name := index].Keys == columns.Keys;
    } else {
      assert |columns.Keys + {name}| == |columns.Keys| + 1;
    }
  }

  lemma LastDistinct(names: seq<string>)
    requires names != []
    ensures var last := |names| - 1;
      Distinct(names) <==> Distinct(names[..last]) && names[last] !in names[..last]
  {
  }

  // ---- texts of tables ----

  /** A cell that a table can show: blank, or without outer spaces. */
  predicate Clean(cell: string) {
    && NoBreaks(cell) && (forall c <- cell :: !IsSeparator(c))
    && (cell != "" ==> !IsSpace(cell[0]) && !IsSpace(cell[|cell| - 1]))
  }

  function Shown(cell: string): string { if cell == "" then " " else cell }

  function Piped(cells: seq<string>): string
    requires cells != []
  {
    if |cells| == 1 then Shown(cells[0]) else Shown(cells[0]) + "\U{2502}" + Piped(cells[1..])
  }

  /** One line of a table: cells between box-drawing bars, a blank cell as a space. */
  function TableText(cells: seq<string>): string
    requires cells != []
  {
    "\U{2502}" + Piped(cells) + "\U{2502}"
  }

  lemma {:induction false} SplitCell(cell: string, rest: string)
    requires forall c <- cell :: !IsSeparator(c)
    ensures SplitCells(cell + "\U{2502}" + rest) == [cell] + SplitCells(rest)
    ensures SplitCells(cell) == [cell]
    decreases |cell|
  {
    var text := cell + "\U{2502}" + rest;
    if cell == "" {
      assert text[1..] == rest;
    } else {
      assert text[1..] == cell[1..] + "\U{2502}" + rest;
      SplitCell(cell[1..], rest);
      assert [cell[0]] + cell[1..] == cell;
    }
  }

  lemma {:induction false} SplitPiped(cells: seq<string>)
    requires cells != [] && forall cell <- cells :: Clean(cell)
    ensures SplitCells(Piped(cells)) == Map(Shown, cells)
  {
    assert Clean(cells[0]);
    if |cells| > 1 {
      SplitCell(Shown(cells[0]), Piped(cells[1..]));
      SplitPiped(cells[1..]);
    } else {
      SplitCell(Shown(cells[0]), "");
    }
  }

  lemma {:induction false} PipedEnds(cells: seq<string>)
    requires cells != [] && forall cell <- cells :: Clean(cell)
    ensures var text := Piped(cells);
      text != "" && NoBreaks(text) && !IsSeparator(text[0]) && !IsSeparator(text[|text| - 1])
  {
    assert Clean(cells[0]);
    var first := Shown(cells[0]);
    assert first[0] in first && first[|first| - 1] in first;
    if |cells| > 1 { PipedEnds(cells[1..]); }
  }

  lemma StripShown(cells: seq<string>)
    requires forall cell <- cells :: Clean(cell)
    ensures Map(Strip, Map(Shown, cells)) == cells
  {
    forall i | 0 <= i < |cells|
      ensures Strip(Shown(cells[i])) == cells[i]
    {
      assert Clean(cells[i]);
      assert " "[1..] == "";
    }
  }

  lemma BarsTrimmed(inner: string)
    requires inner != "" && !IsSeparator(inner[0]) && !IsSeparator(inner[|inner| - 1])
    ensures var text := "\U{2502}" + inner + "\U{2502}";
      Strip(text) == text && Trim(text, IsSeparator) == inner
  {
    var text := "\U{2502}" + inner + "\U{2502}";
    var half := inner + "\U{2502}";
    assert text[0] == '\U{2502}' && text[|text| - 1] == '\U{2502}' && text[1..] == half;
    assert half[0] == inner[0] && half[|half| - 1] == '\U{2502}' && half[..|half| - 1] == inner;
    assert Trim(text, IsSeparator) == Trim(half, IsSeparator) == Trim(inner, IsSeparator) == inner;
  }

  /** The line reads back as the cells it was written from. */
  lemma TableTextReadsBack(cells: seq<string>, lower: string -> string)
    requires cells != [] && forall cell <- cells :: Clean(cell)
    ensures LineOf(TableText(cells), lower) == Cells(cells, Map(lower, cells))
    ensures NoBreaks(TableText(cells))
  {
    PipedEnds(cells);
    BarsTrimmed(Piped(cells));
    assert TableText(cells)[0] in TableText(cells);
    SplitPiped(cells);
    StripShown(cells);
  }

  /** The cells of a row "x | x | x". */
  function Crosses(count: nat): seq<string> { seq(count, _ => "x") }

  lemma CrossesReadBack(count: nat, lower: string -> string)
    requires count > 0
    ensures LineOf(TableText(Crosses(count)), lower) == Cells(Crosses(count), Map(lower, Crosses(count)))
    ensures NoBreaks(TableText(Crosses(count)))
  {
    assert Clean("x");
    TableTextReadsBack(Crosses(count), lower);
  }

  lemma ShortRowFails(names: seq<string>, lower: string -> string)
    requires names != [] && !Distinct(names)
    ensures var count := |ColumnsOf(names)|;
      && count > 0 && NoBreaks(TableText(Crosses(count)))
      && RoleIn(LineOf(TableText(Crosses(count)), lower), Some(ColumnsOf(names))) == Unreadable
  {
    var count := |ColumnsOf(names)|;
    assert names[0] in ColumnsOf(names);
    CrossesReadBack(count, lower);
    UniformRowFails(names, Crosses(count), Map(lower, Crosses(count)));
  }

  lemma UniformRowFails(names: seq<string>, cells: seq<string>, same: seq<string>)
    requires names != [] && !Distinct(names) && |cells| == |ColumnsOf(names)|
    requires forall a <- same, b <- same :: a == b
    ensures RoleIn(Cells(cells, same), Some(ColumnsOf(names))) == Unreadable
  {
    var columns, last := ColumnsOf(names), names[|names| - 1];
    ColumnCount(names);
    assert last in columns && columns[last] == |names| - 1;
    assert LIBRARY != INSTALLED;
  }

  /** Some text below a header makes the reader fail exactly when the header repeats a name. */
  lemma HeaderIsSafeExactlyWhenDistinct(names: seq<string>, lower: string -> string)
    requires names != []
    ensures (exists text :: RoleIn(LineOf(text, lower), Some(ColumnsOf(names))) == Unreadable) <==> !Distinct(names)
  {
    ColumnCount(names);
    if !Distinct(names) { ShortRowFails(names, lower); }
  }

  /** The same of whole logs: below a header of these cells, some row makes the reader fail with
      IndexError if and only if two cells name the same column. */
  lemma LogFailsExactlyWhenRepeated(header: seq<string>, lower: string -> string)
    requires forall cell <- header :: Clean(cell)
    requires IsHeader(Cells(header, Map(lower, header)))
    ensures (exists row :: NoBreaks(row) && Unreadable in Roles(LinesOf(TableText(header) + "\n" + row, lower)))
      <==> !Distinct(Map(lower, header))
  {
    var names := Map(lower, header);
    TableTextReadsBack(header, lower);
    forall row | NoBreaks(row)
      ensures Unreadable in Roles(LinesOf(TableText(header) + "\n" + row, lower)) <==>
        row != "" && RoleIn(LineOf(row, lower), Some(ColumnsOf(names))) == Unreadable
    {
      RowBelowHeader(header, row, lower);
    }
    HeaderIsSafeExactlyWhenDistinct(names, lower);
    if !Distinct(names) {
      ShortRowFails(names, lower);
      assert NoBreaks(TableText(Crosses(|ColumnsOf(names)|)));
    }
  }

  lemma RowBelowHeader(header: seq<string>, row: string, lower: string -> string)
    requires header != [] && (forall cell <- header :: Clean(cell)) && NoBreaks(row)
    requires IsHeader(Cells(header, Map(lower, header)))
    ensures Unreadable in Roles(LinesOf(TableText(header) + "\n" + row, lower)) <==>
      row != "" && RoleIn(LineOf(row, lower), Some(ColumnsOf(Map(lower, header)))) == Unreadable
  {
    var lines := LinesOf(TableText(header) + "\n" + row, lower);
    TableTextReadsBack(header, lower);
    SplitTwo(TableText(header), row);
    HeaderAlone(lines);
  }

  lemma HeaderAlone(lines: seq<Line>)
    requires 1 <= |lines| <= 2 && IsHeader(lines[0])
    ensures Unreadable in Roles(lines) <==>
      |lines| == 2 && RoleIn(lines[1], Some(ColumnsOf(lines[0].names))) == Unreadable
  {
    var roles := Roles(lines);
    RoleAt(lines, 0);
    if |lines| == 2 {
      RoleAt(lines, 1);
      UnderHeader(lines);
      InPair(roles);
    } else {
      assert roles == [roles[0]];
    }
  }

  lemma RoleAt(lines: seq<Line>, i: nat)
    requires i < |lines|
    ensures Roles(lines)[i] == RoleIn(lines[i], ColumnsAt(lines, i))
    ensures IsHeader(lines[i]) ==> Roles(lines)[i] == Other
  {
  }

  lemma UnderHeader(lines: seq<Line>)
    requires |lines| > 1 && IsHeader(lines[0])
    ensures ColumnsAt(lines, 1) == Some(ColumnsOf(lines[0].names))
  {
    assert HeaderOf(lines, 1) == Some(0);
  }

  lemma InPair(roles: seq<Role>)
    requires |roles| == 2
    ensures Unreadable in roles <==> roles[0] == Unreadable || roles[1] == Unreadable
  {
  }
}
