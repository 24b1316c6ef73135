/**
 * The name list of the picker: the values of the sheet's column A that
 * survive the filter of `read_excel` (chouyipaoming.py, line 82).
 * Opening and closing the workbook is not modelled; its column arrives here
 * as a sequence of cells.
 */
module NameSource {
  import opened Wrappers

  /** The value of one cell as the spreadsheet reader reports it:
      nothing (Python `None`), a string, or anything else (a number, a date,
      a boolean), which has no `strip` method. */
  datatype Cell = Empty | Text(s: string) | NonText

  /** Why the column could not be turned into a name list. */
  datatype LoadError = NonTextCell

  /** Python's `str.isspace` for one character: the characters `str.strip()` removes. */
  predicate IsSpace(c: char) {
    var n := c as int;
    n in {9, 10, 11, 12, 13, 28, 29, 30, 31, 32, 133, 160, 5760, 8232, 8233, 8239, 8287, 12288}
    || 8192 <= n <= 8202
  }

  /** `s.strip()` is the empty string, so `s.strip()` is falsy. */
  predicate IsBlank(s: string) {
    forall i :: 0 <= i < |s| ==> IsSpace(s[i])
  }

  /** The comprehension's condition: `value is not None and value.strip()`. */
  predicate Keeps(c: Cell) {
    c.Text? && !IsBlank(c.s)
  }

  /** The comprehension's output: the kept values, unstripped, in column
      order. It skips `NonText` cells, on which the comprehension raises
      instead; `ReadNames` reports those. */
  function KeepNames(cells: seq<Cell>): (names: seq<string>)
    ensures |names| <= |cells|
    ensures forall k :: 0 <= k < |names| ==> !IsBlank(names[k])
  {
    if cells == [] then []
    else (if Keeps(cells[0]) then [cells[0].s] else []) + KeepNames(cells[1..])
  }

  /** `read_excel` after the workbook is open: a non-string, non-empty cell makes
      `strip` raise, which `read_excel` turns into an `IOError`. An empty list is
      not an error. */
  function ReadNames(cells: seq<Cell>): (r: Result<seq<string>, LoadError>)
    ensures r.Failure? <==> exists i :: 0 <= i < |cells| && cells[i].NonText?
    ensures r.Success? ==> r.value == KeepNames(cells)
    ensures r.Success? ==> forall k :: 0 <= k < |r.value| ==> !IsBlank(r.value[k])
  {
    if exists i :: 0 <= i < |cells| && cells[i].NonText? then Failure(NonTextCell)
    else Success(KeepNames(cells))
  }

  /** The positions, from `from` on, of the cells the filter keeps, in increasing order. */
  function KeptPositions(cells: seq<Cell>, from: nat): seq<nat>
    requires from <= |cells|
    decreases |cells| - from
  {
    if from == |cells| then []
    else (if Keeps(cells[from]) then [from] else []) + KeptPositions(cells, from + 1)
  }

  /** The filter selects exactly the kept cells: the names are the values of the
      cells at strictly increasing positions (so they are a subsequence of the
      column, in its order), and a position is among them exactly when its cell
      is a string that is not whitespace only. */
  lemma {:induction false} KeepNamesExact(cells: seq<Cell>, from: nat)
    requires from <= |cells|
    ensures var ps, names := KeptPositions(cells, from), KeepNames(cells[from..]);
      |ps| == |names|
      && (forall k :: 0 <= k < |ps| ==> from <= ps[k] < |cells| && cells[ps[k]] == Text(names[k]))
      && (forall k, l :: 0 <= k < l < |ps| ==> ps[k] < ps[l])
      && (forall i :: from <= i < |cells| ==> (Keeps(cells[i]) <==> i in ps))
    decreases |cells| - from
  {
    if from < |cells| {
      KeepNamesExact(cells, from + 1);
      assert cells[from..][1..] == cells[from + 1..];
      assert cells[from..][0] == cells[from];
    }
  }
}
