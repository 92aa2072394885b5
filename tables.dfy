/**
 * The two input tables of the Ybus calculator and their clean-up before
 * assembly: the line table loses every incomplete row, the generator
 * (isolated-element) table is coerced leniently to numbers and loses the rows
 * that name no node.
 */
module Tables {
  import opened Wrappers

  /** One cell of an edited table: empty (NaN), a number, or text that the
      numeric conversion cannot read. */
  datatype Cell<T> = Missing | Value(v: T) | Unparseable

  /** A row of the line table as entered: origin node, destination node,
      series conductance g, series susceptance b and half line charging B/2. */
  datatype RawLine = RawLine(
    origin: Option<int>, destination: Option<int>,
    g: Option<real>, b: Option<real>, halfShunt: Option<real>)

  /** A complete line row. */
  datatype Line = Line(origin: int, destination: int, g: real, b: real, halfShunt: real)

  /** A row of the generator / isolated-element table as entered. */
  datatype RawGen = RawGen(node: Cell<int>, g: Cell<real>, b: Cell<real>)

  /** A generator row after normalisation: its node is an integer. */
  datatype Gen = Gen(node: int, g: Cell<real>, b: Cell<real>)

  /** Why a computation stops with an exception. */
  datatype Error =
    | NodeNotInteger        // `astype(int)` on a generator node it cannot convert
    | NotNumeric            // `complex(g, b)` on a value that is not a number
    | UnknownNode(node: int) // index lookup of a generator node with no line

  predicate Complete(row: RawLine) {
    row.origin.Some? && row.destination.Some? && row.g.Some? && row.b.Some? && row.halfShunt.Some?
  }

  /** `dropna(how="any")` on the line table: keeps the complete rows, in order. */
  function DropIncomplete(rows: seq<RawLine>): (r: seq<RawLine>)
    ensures |r| <= |rows|
    ensures forall k :: 0 <= k < |r| ==> Complete(r[k]) && r[k] in rows
    ensures forall row :: row in rows && Complete(row) ==> row in r
  {
    if rows == [] then []
    else if Complete(rows[0]) then [rows[0]] + DropIncomplete(rows[1..])
    else DropIncomplete(rows[1..])
  }

  lemma {:induction false} DropIncompleteIdempotent(rows: seq<RawLine>)
    ensures DropIncomplete(DropIncomplete(rows)) == DropIncomplete(rows)
  {
    if rows != [] {
      DropIncompleteIdempotent(rows[1..]);
    }
  }

  lemma {:induction false} DropIncompleteAppend(xs: seq<RawLine>, ys: seq<RawLine>)
    ensures DropIncomplete(xs + ys) == DropIncomplete(xs) + DropIncomplete(ys)
  {
    if xs != [] {
      assert (xs + ys)[1..] == xs[1..] + ys;
      DropIncompleteAppend(xs[1..], ys);
    } else {
      assert xs + ys == ys;
    }
  }

  lemma {:induction false} DropIncompleteEmpty(rows: seq<RawLine>)
    ensures DropIncomplete(rows) == [] <==> forall k :: 0 <= k < |rows| ==> !Complete(rows[k])
  {
    if rows != [] {
      DropIncompleteEmpty(rows[1..]);
      if !Complete(rows[0]) {
        assert forall k :: 1 <= k < |rows| ==> rows[k] == rows[1..][k - 1];
      }
    }
  }

  function AsLine(row: RawLine): (l: Line)
    requires Complete(row)
  {
    Line(row.origin.value, row.destination.value, row.g.value, row.b.value, row.halfShunt.value)
  }

  /** The complete rows read as lines, in table order. */
  function AsLines(rows: seq<RawLine>): (r: seq<Line>)
    requires forall k :: 0 <= k < |rows| ==> Complete(rows[k])
    ensures |r| == |rows|
    ensures forall k :: 0 <= k < |r| ==> r[k] == AsLine(rows[k])
  {
    seq(|rows|, k requires 0 <= k < |rows| => AsLine(rows[k]))
  }

  /** The line table the assembler works on. */
  function CleanLines(rows: seq<RawLine>): seq<Line>
  {
    AsLines(DropIncomplete(rows))
  }

  /** `pd.to_numeric(..., errors="coerce").fillna(0)` on one cell. */
  function Lenient(c: Cell<real>): (r: Cell<real>)
    ensures r.Value?
    ensures c.Value? ==> r == c
    ensures !c.Value? ==> r == Value(0.0)
  {
    match c
    case Value(x) => Value(x)
    case _ => Value(0.0)
  }

  /** A generator row with no empty cell (`dropna(how="any")` keeps it). */
  predicate GenComplete(row: RawGen) {
    !row.node.Missing? && !row.g.Missing? && !row.b.Missing?
  }

  predicate AnyGenComplete(rows: seq<RawGen>) {
    exists k :: 0 <= k < |rows| && GenComplete(rows[k])
  }

  /** Both admittance columns coerced, when the table has a complete row. */
  function Coerce(rows: seq<RawGen>): (r: seq<RawGen>)
    ensures |r| == |rows|
  {
    if AnyGenComplete(rows) then
      seq(|rows|, k requires 0 <= k < |rows| => RawGen(rows[k].node, Lenient(rows[k].g), Lenient(rows[k].b)))
    else rows
  }

  /** `dropna(subset=['Nodo'])`: the rows that name a node, in order. */
  function KeepNoded(rows: seq<RawGen>): (r: seq<RawGen>)
    ensures |r| <= |rows|
    ensures forall k :: 0 <= k < |r| ==> !r[k].node.Missing? && r[k] in rows
    ensures forall row :: row in rows && !row.node.Missing? ==> row in r
  {
    if rows == [] then []
    else if !rows[0].node.Missing? then [rows[0]] + KeepNoded(rows[1..])
    else KeepNoded(rows[1..])
  }

  /** The node filter keeps table order and every copy of a row: filtering
      a concatenation is the concatenation of the filtered parts. */
  lemma {:induction false} KeepNodedAppend(xs: seq<RawGen>, ys: seq<RawGen>)
    ensures KeepNoded(xs + ys) == KeepNoded(xs) + KeepNoded(ys)
  {
    if xs != [] {
      assert (xs + ys)[1..] == xs[1..] + ys;
      KeepNodedAppend(xs[1..], ys);
    } else {
      assert xs + ys == ys;
    }
  }

  /** `astype(int)` on the node column: fails on a node it cannot convert. */
  function ToGens(rows: seq<RawGen>): (r: Result<seq<Gen>, Error>)
    requires forall k :: 0 <= k < |rows| ==> !rows[k].node.Missing?
    ensures r.Success? <==> forall k :: 0 <= k < |rows| ==> rows[k].node.Value?
    ensures r.Failure? ==> r.error == NodeNotInteger
    ensures r.Success? ==> |r.value| == |rows|
    ensures r.Success? ==> forall k :: 0 <= k < |rows| ==> r.value[k] == Gen(rows[k].node.v, rows[k].g, rows[k].b)
  {
    if forall k :: 0 <= k < |rows| ==> rows[k].node.Value? then
      Success(seq(|rows|, k requires 0 <= k < |rows| => Gen(rows[k].node.v, rows[k].g, rows[k].b)))
    else Failure(NodeNotInteger)
  }

  /** The whole clean-up of the generator table (coercion, node filter, int). */
  function NormalizeGens(rows: seq<RawGen>): Result<seq<Gen>, Error>
  {
    ToGens(KeepNoded(Coerce(rows)))
  }

  /** The clean-up fails exactly when some row names a node that cannot be
      read as an integer; rows with an empty node never make it fail. */
  lemma NormalizeGensFails(rows: seq<RawGen>)
    ensures NormalizeGens(rows).Failure? <==> exists k :: 0 <= k < |rows| && rows[k].node.Unparseable?
    ensures NormalizeGens(rows).Failure? ==> NormalizeGens(rows).error == NodeNotInteger
  {
    var c := Coerce(rows);
    assert forall k :: 0 <= k < |rows| ==> c[k].node == rows[k].node;
    var kept := KeepNoded(c);
    if exists k :: 0 <= k < |rows| && rows[k].node.Unparseable? {
      var k :| 0 <= k < |rows| && rows[k].node.Unparseable?;
      assert c[k] in c;
      var m :| 0 <= m < |kept| && kept[m] == c[k];
      assert !kept[m].node.Value?;
    } else {
      forall m | 0 <= m < |kept| ensures kept[m].node.Value? {
        assert kept[m] in c;
      }
    }
  }

  predicate CoercedFrom(gen: Gen, row: RawGen) {
    row.node == Value(gen.node) && gen.g == Lenient(row.g) && gen.b == Lenient(row.b)
  }

  /** When the table has a complete row, every remaining admittance cell is a
      number: the entered one, or 0 for an empty or unreadable cell. */
  lemma NormalizeGensCoerces(rows: seq<RawGen>)
    requires AnyGenComplete(rows) && NormalizeGens(rows).Success?
    ensures forall gen :: gen in NormalizeGens(rows).value ==>
      exists k :: 0 <= k < |rows| && CoercedFrom(gen, rows[k])
  {
    var c := Coerce(rows);
    var kept := KeepNoded(c);
    var gens := NormalizeGens(rows).value;
    forall gen | gen in gens ensures exists k :: 0 <= k < |rows| && CoercedFrom(gen, rows[k]) {
      var m :| 0 <= m < |gens| && gens[m] == gen;
      assert kept[m] in c;
      var k :| 0 <= k < |c| && c[k] == kept[m];
      assert CoercedFrom(gen, rows[k]);
    }
  }

  /** When no row is complete nothing is coerced, and every remaining row
      still has an empty admittance cell. */
  lemma NormalizeGensUncoerced(rows: seq<RawGen>)
    requires !AnyGenComplete(rows) && NormalizeGens(rows).Success?
    ensures forall gen :: gen in NormalizeGens(rows).value ==> gen.g.Missing? || gen.b.Missing?
  {
    var kept := KeepNoded(rows);
    var gens := NormalizeGens(rows).value;
    forall gen | gen in gens ensures gen.g.Missing? || gen.b.Missing? {
      var m :| 0 <= m < |gens| && gens[m] == gen;
      assert kept[m] in rows;
      var k :| 0 <= k < |rows| && rows[k] == kept[m];
      assert !GenComplete(rows[k]);
    }
  }
}
