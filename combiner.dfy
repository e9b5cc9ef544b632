/** The fusion stage: stacking all tables (`pd.concat(..., ignore_index=True)`)
    or folding an outer join over them (`pd.merge(..., how='outer')`). */
module Combiner {
  import opened Wrappers
  import opened Tables

  datatype Mode = Concat | Merge

  /** The two mode strings the pipeline recognises; any other selects no branch. */
  function ParseMode(mode: string): (r: Option<Mode>)
    ensures r == Some(Concat) <==> mode == "concat"
    ensures r == Some(Merge) <==> mode == "merge"
  {
    if mode == "concat" then Some(Concat)
    else if mode == "merge" then Some(Merge)
    else None
  }

  /** `pd.merge(left, right, how='outer')`: the joined table, or the message of
      the exception it raises (no common column, incompatible key dtypes).
      Its cell-level semantics are the library's and stay abstract. */
  type OuterJoin = (Table, Table) -> Result<Table, string>

  // ---- concat ----

  /** Appends the columns of `cols` not yet in `acc`, in order of appearance. */
  function AddColumns(acc: seq<string>, cols: seq<string>): (r: seq<string>)
    requires Distinct(acc)
    ensures Distinct(r)
    ensures ColumnSet(r) == ColumnSet(acc) + ColumnSet(cols)
    ensures |acc| <= |r| && r[..|acc|] == acc
    decreases |cols|
  {
    if cols == [] then acc
    else if cols[0] in acc then
      assert ColumnSet(cols) == ColumnSet(cols[1..]) + {cols[0]};
      AddColumns(acc, cols[1..])
    else
      assert ColumnSet(cols) == ColumnSet(cols[1..]) + {cols[0]};
      assert ColumnSet(acc + [cols[0]]) == ColumnSet(acc) + {cols[0]};
      var r := AddColumns(acc + [cols[0]], cols[1..]);
      assert r[..|acc|] == (acc + [cols[0]])[..|acc|];
      r
  }

  /** The union of the tables' columns, each once, in order of first appearance. */
  function UnionColumns(ts: seq<Table>): (r: seq<string>)
    ensures Distinct(r)
    ensures forall c :: c in r <==> exists i :: 0 <= i < |ts| && c in ts[i].columns
    decreases |ts|
  {
    if ts == [] then []
    else
      var init := ts[..|ts| - 1];
      var r := AddColumns(UnionColumns(init), ts[|ts| - 1].columns);
      assert forall c :: c in r <==> c in ColumnSet(r);
      assert forall i :: 0 <= i < |init| ==> init[i] == ts[i];
      r
  }

  /** A row widened to `columns`, with `Missing` where it had no value. */
  function Pad(row: Row, columns: seq<string>): (r: Row)
    ensures r.Keys == ColumnSet(columns)
  {
    map c | c in columns :: if c in row then row[c] else Missing
  }

  function TotalRows(ts: seq<Table>): nat
    decreases |ts|
  {
    if ts == [] then 0 else TotalRows(ts[..|ts| - 1]) + |ts[|ts| - 1].rows|
  }

  /** Every table's rows, widened to `columns`, in table order. */
  function StackedRows(ts: seq<Table>, columns: seq<string>): (r: seq<Row>)
    ensures |r| == TotalRows(ts)
    ensures forall j :: 0 <= j < |r| ==> r[j].Keys == ColumnSet(columns)
    decreases |ts|
  {
    if ts == [] then []
    else
      var last := ts[|ts| - 1];
      StackedRows(ts[..|ts| - 1], columns)
        + seq(|last.rows|, k requires 0 <= k < |last.rows| => Pad(last.rows[k], columns))
  }

  /** `pd.concat(ts, ignore_index=True)`: the result has every column of every
      table and every row of every table; the index is the row position. */
  function ConcatAll(ts: seq<Table>): (r: Table)
    requires |ts| > 0
    ensures WellFormed(r)
    ensures |r.rows| == TotalRows(ts)
    ensures forall c :: c in r.columns <==> exists i :: 0 <= i < |ts| && c in ts[i].columns
  {
    var columns := UnionColumns(ts);
    Table(columns, StackedRows(ts, columns))
  }

  /** Row `k` of table `i` lands at position (rows of the tables before `i`) + `k`. */
  lemma {:induction false} StackedRowAt(ts: seq<Table>, columns: seq<string>, i: nat, k: nat)
    requires i < |ts| && k < |ts[i].rows|
    ensures TotalRows(ts[..i]) + k < TotalRows(ts)
    ensures StackedRows(ts, columns)[TotalRows(ts[..i]) + k] == Pad(ts[i].rows[k], columns)
    decreases |ts|
  {
    var init := ts[..|ts| - 1];
    if i == |ts| - 1 {
      assert ts[..i] == init;
    } else {
      StackedRowAt(init, columns, i, k);
      assert init[..i] == ts[..i];
    }
  }

  /** Concatenation keeps every cell of every input row, and fills the columns
      a table lacks with `Missing` in that table's rows. */
  lemma ConcatKeepsCells(ts: seq<Table>, i: nat, k: nat, c: string)
    requires i < |ts| && k < |ts[i].rows| && WellFormed(ts[i])
    ensures TotalRows(ts[..i]) + k < |ConcatAll(ts).rows|
    ensures var r := ConcatAll(ts); var row := r.rows[TotalRows(ts[..i]) + k];
      && (c in ts[i].columns ==> c in row && row[c] == ts[i].rows[k][c])
      && (c in r.columns && c !in ts[i].columns ==> c in row && row[c] == Missing)
  {
    StackedRowAt(ts, UnionColumns(ts), i, k);
    assert ts[i].rows[k].Keys == ColumnSet(ts[i].columns);
  }

  /** With distinct columns throughout, nothing is skipped. */
  lemma {:induction false} AddDistinctColumns(acc: seq<string>, cols: seq<string>)
    requires Distinct(acc) && Distinct(acc + cols)
    ensures AddColumns(acc, cols) == acc + cols
    decreases |cols|
  {
    if cols != [] {
      assert (acc + cols)[|acc|] == cols[0];
      assert cols[0] !in acc by {
        forall j | 0 <= j < |acc| ensures acc[j] != cols[0] {
          assert (acc + cols)[j] == acc[j];
        }
      }
      assert (acc + [cols[0]]) + cols[1..] == acc + cols;
      AddDistinctColumns(acc + [cols[0]], cols[1..]);
    }
  }

  /** Widening a row to exactly its own columns leaves it unchanged. */
  lemma PadOwnColumns(row: Row, columns: seq<string>)
    requires row.Keys == ColumnSet(columns)
    ensures Pad(row, columns) == row
  {
    var p := Pad(row, columns);
    assert p.Keys == row.Keys;
    forall c | c in p ensures p[c] == row[c] {
    }
  }

  lemma UnionOfOne(t: Table)
    requires Distinct(t.columns)
    ensures UnionColumns([t]) == t.columns
  {
    assert [t][..0] == [];
    assert [] + t.columns == t.columns;
    AddDistinctColumns([], t.columns);
  }

  lemma StackedOfOne(t: Table)
    requires WellFormed(t)
    ensures StackedRows([t], t.columns) == t.rows
  {
    assert [t][..0] == [];
    var rows := StackedRows([t], t.columns);
    forall k | 0 <= k < |t.rows| ensures rows[k] == t.rows[k] {
      PadOwnColumns(t.rows[k], t.columns);
    }
  }

  /** Concatenating a single well-formed table gives back that table. */
  lemma ConcatOfOne(t: Table)
    requires WellFormed(t)
    ensures ConcatAll([t]) == t
  {
    UnionOfOne(t);
    StackedOfOne(t);
  }

  // ---- merge ----

  /** One more join onto an accumulated result; a raised exception stays raised. */
  function JoinOnto(join: OuterJoin, acc: Result<Table, string>, t: Table): Result<Table, string>
  {
    match acc
    case Err(e) => Err(e)
    case Ok(left) => join(left, t)
  }

  /** The merge branch's result: ((t0 ⋈ t1) ⋈ t2) ⋈ ..., stopping at the first
      join that raises. */
  function MergeAll(join: OuterJoin, ts: seq<Table>): Result<Table, string>
    requires |ts| > 0
    decreases |ts|
  {
    if |ts| == 1 then Ok(ts[0]) else JoinOnto(join, MergeAll(join, ts[..|ts| - 1]), ts[|ts| - 1])
  }

  /** Head-first fold of `join` over `rest`, starting from `acc`. */
  function FoldJoin(join: OuterJoin, acc: Table, rest: seq<Table>): Result<Table, string>
    decreases |rest|
  {
    if rest == [] then Ok(acc)
    else
      match join(acc, rest[0])
      case Err(e) => Err(e)
      case Ok(next) => FoldJoin(join, next, rest[1..])
  }

  lemma {:induction false} FoldJoinSnoc(join: OuterJoin, acc: Table, rest: seq<Table>, t: Table)
    ensures FoldJoin(join, acc, rest + [t]) == JoinOnto(join, FoldJoin(join, acc, rest), t)
    decreases |rest|
  {
    if rest == [] {
      assert rest + [t] == [t];
    } else {
      assert (rest + [t])[1..] == rest[1..] + [t];
      match join(acc, rest[0])
      case Err(e) =>
      case Ok(next) => FoldJoinSnoc(join, next, rest[1..], t);
    }
  }

  /** The merge result is the head-first fold that starts from the first table
      and joins the others onto it one at a time. */
  lemma {:induction false} MergeIsLeftFold(join: OuterJoin, ts: seq<Table>)
    requires |ts| > 0
    ensures MergeAll(join, ts) == FoldJoin(join, ts[0], ts[1..])
    decreases |ts|
  {
    if |ts| > 1 {
      var init := ts[..|ts| - 1];
      MergeIsLeftFold(join, init);
      FoldJoinSnoc(join, ts[0], init[1..], ts[|ts| - 1]);
      assert init[1..] + [ts[|ts| - 1]] == ts[1..];
    }
  }

  /** Once a join raises, the merge ends with that exception: the tables after
      it are never joined. */
  lemma {:induction false} MergeStopsAtFailure(join: OuterJoin, ts: seq<Table>, i: nat)
    requires 0 < i <= |ts| && MergeAll(join, ts[..i]).Err?
    ensures MergeAll(join, ts) == MergeAll(join, ts[..i])
    decreases |ts|
  {
    if i < |ts| {
      var init := ts[..|ts| - 1];
      assert init[..i] == ts[..i];
      MergeStopsAtFailure(join, init, i);
    } else {
      assert ts[..i] == ts;
    }
  }

  /** When the joins up to table `i` succeed and joining table `i` raises, the
      merge ends with exactly that exception. */
  lemma MergeFailsAtFirstFailingJoin(join: OuterJoin, ts: seq<Table>, i: nat)
    requires 1 <= i < |ts| && MergeAll(join, ts[..i]).Ok?
    requires join(MergeAll(join, ts[..i]).value, ts[i]).Err?
    ensures MergeAll(join, ts) == join(MergeAll(join, ts[..i]).value, ts[i])
  {
    assert ts[..i + 1][..i] == ts[..i];
    assert MergeAll(join, ts[..i + 1]) == join(MergeAll(join, ts[..i]).value, ts[i]);
    MergeStopsAtFailure(join, ts, i + 1);
  }

  /** The merge branch: the accumulator starts at the first table and is
      reassigned once per further table; an exception from a join ends the loop. */
  method MergeTables(join: OuterJoin, dataframes: seq<Table>) returns (fusion: Result<Table, string>)
    requires |dataframes| > 0
    ensures fusion == MergeAll(join, dataframes)
  {
    var acc := dataframes[0];
    for i := 1 to |dataframes|
      invariant MergeAll(join, dataframes[..i]) == Ok(acc)
    {
      assert dataframes[..i + 1][..i] == dataframes[..i];
      var joined := join(acc, dataframes[i]);
      assert MergeAll(join, dataframes[..i + 1]) == joined;
      if joined.Err? {
        MergeStopsAtFailure(join, dataframes, i + 1);
        return Err(joined.error);
      }
      acc := joined.value;
    }
    assert dataframes[..|dataframes|] == dataframes;
    fusion := Ok(acc);
  }

  /** The fusion dispatch on the mode. */
  function Fuse(mode: Mode, join: OuterJoin, ts: seq<Table>): Result<Table, string>
    requires |ts| > 0
  {
    match mode
    case Concat => Ok(ConcatAll(ts))
    case Merge => MergeAll(join, ts)
  }

  /** With one well-formed table, both modes return that table unchanged. */
  lemma SingleTableFusion(join: OuterJoin, t: Table)
    requires WellFormed(t)
    ensures Fuse(Concat, join, [t]) == Ok(t)
    ensures Fuse(Merge, join, [t]) == Ok(t)
  {
    ConcatOfOne(t);
  }
}
