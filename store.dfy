/** The database contents as the loader sees them: each table holds its rows
    in insertion order. */
module Store {
  import opened Records

  type Tables = map<Table, seq<Row>>

  /** One `INSERT` statement. */
  datatype Insert = Insert(table: Table, row: Row)

  function Rows(m: Tables, t: Table): seq<Row>
  {
    if t in m then m[t] else []
  }

  /** The tables after one insert: its row follows the table's existing rows. */
  function Apply(m: Tables, ins: Insert): Tables
  {
    m[ins.table := Rows(m, ins.table) + [ins.row]]
  }

  /** The tables after a sequence of inserts, performed in order. */
  function ApplyAll(m: Tables, inserts: seq<Insert>): Tables
  {
    if inserts == [] then m
    else Apply(ApplyAll(m, inserts[..|inserts| - 1]), inserts[|inserts| - 1])
  }

  /** The rows that `inserts` adds to table `t`, in order. */
  function RowsFor(inserts: seq<Insert>, t: Table): seq<Row>
  {
    if inserts == [] then []
    else
      var last := inserts[|inserts| - 1];
      RowsFor(inserts[..|inserts| - 1], t) + (if last.table == t then [last.row] else [])
  }

  /** After a sequence of inserts every table holds its old rows followed by
      the rows inserted into it, in insertion order, and nothing else. */
  lemma {:induction false} ApplyAllRows(m: Tables, inserts: seq<Insert>, t: Table)
    ensures Rows(ApplyAll(m, inserts), t) == Rows(m, t) + RowsFor(inserts, t)
  {
    if inserts != [] {
      ApplyAllRows(m, inserts[..|inserts| - 1], t);
    }
  }

  lemma ApplyAllOne(m: Tables, ins: Insert)
    ensures ApplyAll(m, [ins]) == Apply(m, ins)
  {
    assert [ins][..0] == [];
  }

  /** Performing two sequences of inserts one after the other is performing
      their concatenation. */
  lemma {:induction false} ApplyAllAppend(m: Tables, a: seq<Insert>, b: seq<Insert>)
    ensures ApplyAll(m, a + b) == ApplyAll(ApplyAll(m, a), b)
    decreases |b|
  {
    if b == [] {
      assert a + b == a;
    } else {
      assert (a + b)[..|a + b| - 1] == a + b[..|b| - 1];
      ApplyAllAppend(m, a, b[..|b| - 1]);
    }
  }

  /** Every inserted row is in its table afterwards. */
  lemma {:induction false} InsertedRowsPresent(m: Tables, inserts: seq<Insert>, k: nat)
    requires k < |inserts|
    ensures inserts[k].row in Rows(ApplyAll(m, inserts), inserts[k].table)
  {
    var t := inserts[k].table;
    ApplyAllRows(m, inserts, t);
    RowsForContains(inserts, k);
  }

  /** The same, for an insert given by its value. */
  lemma InsertedRowPresent(m: Tables, inserts: seq<Insert>, k: nat, ins: Insert)
    requires k < |inserts| && inserts[k] == ins
    ensures ins.row in Rows(ApplyAll(m, inserts), ins.table)
  {
    InsertedRowsPresent(m, inserts, k);
  }

  lemma {:induction false} RowsForContains(inserts: seq<Insert>, k: nat)
    requires k < |inserts|
    ensures inserts[k].row in RowsFor(inserts, inserts[k].table)
  {
    var n := |inserts| - 1;
    if k < n {
      RowsForContains(inserts[..n], k);
    }
  }

  /** The rows that a sequence of inserts adds to a table are those of its
      first inserts followed by those of the rest. */
  lemma {:induction false} RowsForAppend(a: seq<Insert>, b: seq<Insert>, t: Table)
    ensures RowsFor(a + b, t) == RowsFor(a, t) + RowsFor(b, t)
    decreases |b|
  {
    if b == [] {
      assert a + b == a;
    } else {
      assert (a + b)[..|a + b| - 1] == a + b[..|b| - 1];
      RowsForAppend(a, b[..|b| - 1], t);
    }
  }

  /** Two states hold the same rows in every table, whatever their order;
      constraints checked at commit look at no more than this. */
  predicate SameContents(a: Tables, b: Tables)
  {
    forall t :: multiset(Rows(a, t)) == multiset(Rows(b, t))
  }

  /** The rows that `f` gives for each of `xs`, counted without their order. */
  function Total<T>(f: T -> multiset<Row>, xs: seq<T>): multiset<Row>
  {
    if xs == [] then multiset{} else Total(f, xs[..|xs| - 1]) + f(xs[|xs| - 1])
  }

  lemma {:induction false} TotalAppend<T>(f: T -> multiset<Row>, a: seq<T>, b: seq<T>)
    ensures Total(f, a + b) == Total(f, a) + Total(f, b)
    decreases |b|
  {
    if b == [] {
      assert a + b == a;
    } else {
      assert (a + b)[..|a + b| - 1] == a + b[..|b| - 1];
      TotalAppend(f, a, b[..|b| - 1]);
    }
  }

  lemma MultisetCancel<T>(a: multiset<T>, b: multiset<T>, x: T)
    requires a + multiset{x} == b + multiset{x}
    ensures a == b
  {
    forall y ensures a[y] == b[y] {
      assert (a + multiset{x})[y] == (b + multiset{x})[y];
    }
  }

  /** The total does not depend on the order of `xs`. */
  lemma {:induction false} TotalPermutation<T>(f: T -> multiset<Row>, xs: seq<T>, ys: seq<T>)
    requires multiset(xs) == multiset(ys)
    ensures Total(f, xs) == Total(f, ys)
    decreases |xs|
  {
    if xs == [] {
      assert |ys| == |multiset(ys)| == 0;
    } else {
      var n := |xs| - 1;
      var x := xs[n];
      assert xs == xs[..n] + [x];
      assert x in multiset(ys);
      var p :| 0 <= p < |ys| && ys[p] == x;
      var before, after := ys[..p], ys[p + 1..];
      assert ys == before + [x] + after;
      assert multiset(xs[..n]) == multiset(before + after) by {
        assert multiset(xs) == multiset(xs[..n]) + multiset{x};
        assert multiset(ys) == multiset(before + after) + multiset{x} by {
          assert multiset(ys) == multiset(before) + multiset{x} + multiset(after);
          assert multiset(before + after) == multiset(before) + multiset(after);
        }
        MultisetCancel(multiset(xs[..n]), multiset(before + after), x);
      }
      TotalPermutation(f, xs[..n], before + after);
      TotalAppend(f, before, after);
      TotalAppend(f, before + [x], after);
      TotalAppend(f, before, [x]);
      assert Total(f, [x]) == f(x) by { assert [x][..0] == []; }
    }
  }
}
