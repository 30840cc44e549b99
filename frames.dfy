/**
 * An abstract pandas data frame: an ordered list of named columns of cells,
 * all of the same length (the row count). Frames are changed in place by
 * `drop(..., inplace=True)`, `replace(..., inplace=True)` and column assignment,
 * so the frame is a class whose methods reassign its fields.
 */
module Frames {
  import opened Common

  /** One cell: a missing value (NaN), a text read from the file, or a number. */
  datatype Cell = Missing | Text(s: string) | Number(x: real)

  datatype Column = Column(name: string, cells: seq<Cell>)

  /** The missing-value marker of the input files. */
  const NaText: string := "na"

  function Names(cols: seq<Column>): seq<string>
  {
    seq(|cols|, i requires 0 <= i < |cols| => cols[i].name)
  }

  /** Column labels are unique (pandas' `read_csv` renames duplicates). */
  ghost predicate DistinctNames(cols: seq<Column>)
  {
    forall i, j :: 0 <= i < j < |cols| ==> cols[i].name != cols[j].name
  }

  lemma NameInNames(cols: seq<Column>, c: Column)
    requires c in cols
    ensures c.name in Names(cols)
  {
    var i :| 0 <= i < |cols| && cols[i] == c;
    assert Names(cols)[i] == c.name;
  }

  /** `df.isnull().sum()` for one column. */
  function NullCount(cells: seq<Cell>): (n: nat)
    ensures n <= |cells|
    ensures n == 0 <==> Missing !in cells
  {
    if cells == [] then 0
    else
      assert cells == [cells[0]] + cells[1..];
      (if cells[0] == Missing then 1 else 0) + NullCount(cells[1..])
  }

  /** `df[name]`: the column with that label, or None where pandas raises KeyError. */
  function Lookup(cols: seq<Column>, name: string): (r: Option<Column>)
    ensures r.Some? <==> name in Names(cols)
    ensures r.Some? ==> r.value in cols && r.value.name == name
  {
    if cols == [] then None
    else
      assert Names(cols) == [cols[0].name] + Names(cols[1..]);
      if cols[0].name == name then Some(cols[0]) else Lookup(cols[1..], name)
  }

  /** `df[names]` for a list of labels: the columns in the order of `names`, or None (KeyError). */
  function Select(cols: seq<Column>, names: seq<string>): (r: Option<seq<Column>>)
    ensures r.Some? <==> forall n :: n in names ==> n in Names(cols)
    ensures r.Some? ==> |r.value| == |names|
    ensures r.Some? ==> forall i :: 0 <= i < |names| ==> Lookup(cols, names[i]) == Some(r.value[i])
  {
    if names == [] then Some([])
    else
      var head := Lookup(cols, names[0]);
      var rest := Select(cols, names[1..]);
      assert names == [names[0]] + names[1..];
      if head.Some? && rest.Some? then Some([head.value] + rest.value) else None
  }

  /** The columns whose label is not in `names`, in their original order. */
  function Without(cols: seq<Column>, names: seq<string>): (r: seq<Column>)
    ensures |r| <= |cols|
    ensures forall c :: c in r <==> c in cols && c.name !in names
  {
    if cols == [] then []
    else
      assert cols == [cols[0]] + cols[1..];
      (if cols[0].name in names then [] else [cols[0]]) + Without(cols[1..], names)
  }

  lemma {:induction false} WithoutNothing(cols: seq<Column>)
    ensures Without(cols, []) == cols
  {
    if cols != [] {
      WithoutNothing(cols[1..]);
      assert cols == [cols[0]] + cols[1..];
    }
  }

  lemma {:induction false} WithoutKeepsDistinct(cols: seq<Column>, names: seq<string>)
    requires DistinctNames(cols)
    ensures DistinctNames(Without(cols, names))
  {
    if cols != [] {
      var rest := Without(cols[1..], names);
      WithoutKeepsDistinct(cols[1..], names);
      forall c | c in rest ensures c.name != cols[0].name {
        var k :| 0 <= k < |cols[1..]| && cols[1..][k] == c;
        assert cols[k + 1] == c;
      }
    }
  }

  /** `df.replace(to_replace="na", value=np.NAN)` on one column. */
  function NaReplaced(cells: seq<Cell>): (r: seq<Cell>)
    ensures |r| == |cells|
    ensures Text(NaText) !in r
    ensures forall i :: 0 <= i < |cells| && cells[i] != Text(NaText) ==> r[i] == cells[i]
    ensures forall i :: 0 <= i < |cells| && cells[i] == Text(NaText) ==> r[i] == Missing
  {
    seq(|cells|, i requires 0 <= i < |cells| => if cells[i] == Text(NaText) then Missing else cells[i])
  }

  function NaReplacedColumns(cols: seq<Column>): (r: seq<Column>)
  {
    seq(|cols|, i requires 0 <= i < |cols| => Column(cols[i].name, NaReplaced(cols[i].cells)))
  }

  /** `df[name] = cells`: overwrite the column with that label in place, or append a new one. */
  function Assigned(cols: seq<Column>, name: string, cells: seq<Cell>): (r: seq<Column>)
    ensures |r| == if name in Names(cols) then |cols| else |cols| + 1
    ensures Column(name, cells) in r
    ensures forall c :: c in r ==> c == Column(name, cells) || (c in cols && c.name != name)
    ensures forall c :: c in cols && c.name != name ==> c in r
  {
    if name in Names(cols) then
      var r := seq(|cols|, i requires 0 <= i < |cols| => if cols[i].name == name then Column(name, cells) else cols[i]);
      assert Column(name, cells) in r by {
        var k :| 0 <= k < |cols| && Names(cols)[k] == name;
        assert r[k] == Column(name, cells);
      }
      assert forall c :: c in cols && c.name != name ==> c in r by {
        forall c | c in cols && c.name != name ensures c in r {
          var k :| 0 <= k < |cols| && cols[k] == c;
          assert r[k] == c;
        }
      }
      r
    else
      assert forall c :: c in cols ==> c.name != name by {
        forall c | c in cols ensures c.name != name {
          NameInNames(cols, c);
        }
      }
      cols + [Column(name, cells)]
  }

  lemma AssignedKeepsShape(cols: seq<Column>, rows: nat, name: string, cells: seq<Cell>)
    requires DistinctNames(cols)
    requires forall i :: 0 <= i < |cols| ==> |cols[i].cells| == rows
    requires |cells| == rows
    ensures DistinctNames(Assigned(cols, name, cells))
    ensures forall i :: 0 <= i < |Assigned(cols, name, cells)| ==> |Assigned(cols, name, cells)[i].cells| == rows
  {
    var r := Assigned(cols, name, cells);
    if name !in Names(cols) {
      forall i | 0 <= i < |cols| ensures cols[i].name != name {
        assert Names(cols)[i] == cols[i].name;
      }
    }
  }

  class Frame {
    var columns: seq<Column>
    var rows: nat

    ghost predicate Valid()
      reads this
    {
      DistinctNames(columns) &&
      forall i :: 0 <= i < |columns| ==> |columns[i].cells| == rows
    }

    constructor (columns: seq<Column>, rows: nat)
      requires DistinctNames(columns)
      requires forall i :: 0 <= i < |columns| ==> |columns[i].cells| == rows
      ensures Valid() && this.columns == columns && this.rows == rows
    {
      this.columns := columns;
      this.rows := rows;
    }

    /** `df.drop(names, axis=1, inplace=True)`; every label must exist (pandas raises otherwise). */
    method Drop(names: seq<string>)
      requires Valid()
      requires forall n :: n in names ==> n in Names(columns)
      modifies this
      ensures Valid() && rows == old(rows)
      ensures columns == Without(old(columns), names)
    {
      WithoutKeepsDistinct(columns, names);
      var kept := Without(columns, names);
      forall i | 0 <= i < |kept| ensures |kept[i].cells| == rows {
        assert kept[i] in columns;
      }
      columns := kept;
    }

    /** `df.replace(to_replace="na", value=np.NAN, inplace=True)`. */
    method ReplaceNa()
      requires Valid()
      modifies this
      ensures Valid() && rows == old(rows)
      ensures columns == NaReplacedColumns(old(columns))
      ensures Names(columns) == Names(old(columns))
    {
      columns := NaReplacedColumns(columns);
    }

    /** `df[name] = cells`; pandas demands one value per row. */
    method SetColumn(name: string, cells: seq<Cell>)
      requires Valid() && |cells| == rows
      modifies this
      ensures Valid() && rows == old(rows)
      ensures columns == Assigned(old(columns), name, cells)
    {
      AssignedKeepsShape(columns, rows, name, cells);
      columns := Assigned(columns, name, cells);
    }
  }
}
