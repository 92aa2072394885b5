/**
 * The bus-admittance rule, stated per pair of node ids: what one line row
 * and one generator row add to the cell between node `a` and node `b`, and
 * the sums over a whole table. The assembler in module Ybus is proved to
 * fill its matrix with exactly these sums.
 */
module Stamping {
  import opened Wrappers
  import opened ComplexNumbers
  import opened Tables

  /** The four in-place updates of one line with ends `i`, `j`, read at
      cell (`a`, `b`): `-y` at (i, j) and at (j, i), `+d` at (i, i) and at
      (j, j). When `i == j` all four land on the same cell. */
  function Stamp(i: int, j: int, y: Complex, d: Complex, a: int, b: int): Complex
  {
    var t1 := if a == i && b == j then Neg(y) else Zero;
    var t2 := if a == j && b == i then Neg(y) else Zero;
    var t3 := if a == i && b == i then d else Zero;
    var t4 := if a == j && b == j then d else Zero;
    Add(Add(Add(t1, t2), t3), t4)
  }

  /** Series admittance g + jb of a line. */
  function Series(l: Line): Complex {
    Complex(l.g, l.b)
  }

  /** Half line charging jB/2 of a line, added at each of its ends. */
  function Shunt(l: Line): Complex {
    Complex(0.0, l.halfShunt)
  }

  function LineStampAt(l: Line, a: int, b: int): Complex {
    Stamp(l.origin, l.destination, Series(l), Add(Series(l), Shunt(l)), a, b)
  }

  /** Total that the lines add to the cell between nodes `a` and `b`. */
  function LineSumAt(lines: seq<Line>, a: int, b: int): Complex
  {
    if lines == [] then Zero
    else Add(LineSumAt(lines[..|lines| - 1], a, b), LineStampAt(lines[|lines| - 1], a, b))
  }

  /** A generator row takes part when both admittance cells are non-empty. */
  predicate Contributes(gen: Gen) {
    !gen.g.Missing? && !gen.b.Missing?
  }

  function GenStampAt(gen: Gen, a: int, b: int): Complex {
    if Contributes(gen) && gen.g.Value? && gen.b.Value? && a == gen.node && b == gen.node
    then Complex(gen.g.v, gen.b.v)
    else Zero
  }

  /** Total that the generator rows add to the cell between `a` and `b`. */
  function GenSumAt(gens: seq<Gen>, a: int, b: int): Complex
  {
    if gens == [] then Zero
    else Add(GenSumAt(gens[..|gens| - 1], a, b), GenStampAt(gens[|gens| - 1], a, b))
  }

  /** The final cell: line contributions first, then generator rows. */
  function YbusAt(lines: seq<Line>, gens: seq<Gen>, a: int, b: int): Complex {
    Add(LineSumAt(lines, a, b), GenSumAt(gens, a, b))
  }

  /** The exception one generator row raises, if any: `complex(g, b)` on a
      value that is not a number, else the index lookup of an unknown node. */
  function GenFault(gen: Gen, nodes: seq<int>): (r: Option<Error>)
    ensures r.None? <==> !Contributes(gen) || (gen.g.Value? && gen.b.Value? && gen.node in nodes)
    ensures r == Some(NotNumeric) <==> Contributes(gen) && !(gen.g.Value? && gen.b.Value?)
    ensures Contributes(gen) && gen.g.Value? && gen.b.Value? && gen.node !in nodes ==>
              r == Some(UnknownNode(gen.node))
  {
    if !Contributes(gen) then None
    else if !(gen.g.Value? && gen.b.Value?) then Some(NotNumeric)
    else if gen.node !in nodes then Some(UnknownNode(gen.node))
    else None
  }

  /** The exception of the first faulty generator row, in table order. */
  function FirstFault(gens: seq<Gen>, nodes: seq<int>): (r: Option<Error>)
    ensures r.None? <==> forall k :: 0 <= k < |gens| ==> GenFault(gens[k], nodes).None?
    ensures r.Some? ==> exists k :: 0 <= k < |gens| && GenFault(gens[k], nodes) == r &&
                          forall m :: 0 <= m < k ==> GenFault(gens[m], nodes).None?
  {
    if gens == [] then None
    else
      var prefix := gens[..|gens| - 1];
      var first := FirstFault(prefix, nodes);
      assert forall k :: 0 <= k < |prefix| ==> prefix[k] == gens[k];
      if first.Some? then first else GenFault(gens[|gens| - 1], nodes)
  }

  // ---------------------------------------------------------------------------
  // One line

  /** A line between two different nodes changes exactly four cells:
      (i, j) and (j, i) by -(g + jb), (i, i) and (j, j) by g + jb + jB/2. */
  lemma LineStampFourCells(l: Line, a: int, b: int)
    requires l.origin != l.destination
    ensures LineStampAt(l, l.origin, l.destination) == Neg(Series(l))
    ensures LineStampAt(l, l.destination, l.origin) == Neg(Series(l))
    ensures LineStampAt(l, l.origin, l.origin) == Add(Series(l), Shunt(l))
    ensures LineStampAt(l, l.destination, l.destination) == Add(Series(l), Shunt(l))
    ensures !((a == l.origin || a == l.destination) && (b == l.origin || b == l.destination)) ==>
              LineStampAt(l, a, b) == Zero
  {
  }

  /** A line whose two ends are the same node: the two subtractions cancel
      two of the additions, leaving twice the half charging on the diagonal. */
  lemma SelfLoopStamp(l: Line, a: int, b: int)
    requires l.origin == l.destination
    ensures LineStampAt(l, l.origin, l.origin) == Complex(0.0, 2.0 * l.halfShunt)
    ensures a != l.origin || b != l.origin ==> LineStampAt(l, a, b) == Zero
  {
  }

  // ---------------------------------------------------------------------------
  // Whole line table

  lemma {:induction false} LineSumSymmetric(lines: seq<Line>, a: int, b: int)
    ensures LineSumAt(lines, a, b) == LineSumAt(lines, b, a)
  {
    if lines != [] {
      LineSumSymmetric(lines[..|lines| - 1], a, b);
    }
  }

  /** Splitting the table: the contributions of two parts add up. */
  lemma {:induction false} LineSumAppend(xs: seq<Line>, ys: seq<Line>, a: int, b: int)
    ensures LineSumAt(xs + ys, a, b) == Add(LineSumAt(xs, a, b), LineSumAt(ys, a, b))
  {
    if ys == [] {
      assert xs + ys == xs;
    } else {
      var ys' := ys[..|ys| - 1];
      assert (xs + ys)[..|xs + ys| - 1] == xs + ys';
      LineSumAppend(xs, ys', a, b);
    }
  }

  /** The order of the line rows does not matter. */
  lemma LineOrderIrrelevant(xs: seq<Line>, ys: seq<Line>, a: int, b: int)
    ensures LineSumAt(xs + ys, a, b) == LineSumAt(ys + xs, a, b)
  {
    LineSumAppend(xs, ys, a, b);
    LineSumAppend(ys, xs, a, b);
  }

  predicate Joins(l: Line, a: int, b: int) {
    (l.origin == a && l.destination == b) || (l.origin == b && l.destination == a)
  }

  /** Sum of the series admittances of the lines joining `a` and `b`. */
  function JoiningSeries(lines: seq<Line>, a: int, b: int): Complex
  {
    if lines == [] then Zero
    else
      var l := lines[|lines| - 1];
      Add(JoiningSeries(lines[..|lines| - 1], a, b), if Joins(l, a, b) then Series(l) else Zero)
  }

  /** An off-diagonal cell is minus the sum of g + jb over the lines that
      join its two nodes, in either direction. */
  lemma {:induction false} OffDiagonal(lines: seq<Line>, a: int, b: int)
    requires a != b
    ensures LineSumAt(lines, a, b) == Neg(JoiningSeries(lines, a, b))
  {
    if lines != [] {
      var l := lines[|lines| - 1];
      OffDiagonal(lines[..|lines| - 1], a, b);
      OffDiagonalStamp(l, a, b);
      NegAdd(JoiningSeries(lines[..|lines| - 1], a, b), if Joins(l, a, b) then Series(l) else Zero);
    }
  }

  lemma OffDiagonalStamp(l: Line, a: int, b: int)
    requires a != b
    ensures LineStampAt(l, a, b) == Neg(if Joins(l, a, b) then Series(l) else Zero)
  {
    if l.origin == a && l.destination == b {
    } else if l.origin == b && l.destination == a {
    } else {
    }
  }

  lemma NegAdd(x: Complex, y: Complex)
    ensures Add(Neg(x), Neg(y)) == Neg(Add(x, y))
  {
  }

  /** Two different nodes that no line joins have a zero cell. */
  lemma {:induction false} NotJoinedIsZero(lines: seq<Line>, a: int, b: int)
    requires a != b
    requires forall l :: l in lines ==> !Joins(l, a, b)
    ensures LineSumAt(lines, a, b) == Zero
  {
    if lines != [] {
      var prefix := lines[..|lines| - 1];
      assert forall l :: l in prefix ==> l in lines;
      NotJoinedIsZero(prefix, a, b);
      assert lines[|lines| - 1] in lines;
      OffDiagonalStamp(lines[|lines| - 1], a, b);
    }
  }

  /** What one line adds to the diagonal cell of node `a`. */
  function IncidentShare(l: Line, a: int): Complex {
    if l.origin == a && l.destination == a then Complex(0.0, 2.0 * l.halfShunt)
    else if l.origin == a || l.destination == a then Add(Series(l), Shunt(l))
    else Zero
  }

  function IncidentSum(lines: seq<Line>, a: int): Complex
  {
    if lines == [] then Zero
    else Add(IncidentSum(lines[..|lines| - 1], a), IncidentShare(lines[|lines| - 1], a))
  }

  /** A diagonal cell sums g + jb + jB/2 over the lines incident to its
      node, and 2 * jB/2 for each self-loop on it. */
  lemma {:induction false} Diagonal(lines: seq<Line>, a: int)
    ensures LineSumAt(lines, a, a) == IncidentSum(lines, a)
  {
    if lines != [] {
      Diagonal(lines[..|lines| - 1], a);
    }
  }

  // ---------------------------------------------------------------------------
  // Generator rows

  /** Generator rows touch nothing off the diagonal. */
  lemma {:induction false} GenOffDiagonalZero(gens: seq<Gen>, a: int, b: int)
    requires a != b
    ensures GenSumAt(gens, a, b) == Zero
  {
    if gens != [] {
      GenOffDiagonalZero(gens[..|gens| - 1], a, b);
    }
  }

  lemma GenSumStep(gens: seq<Gen>, gen: Gen, a: int, b: int)
    ensures GenSumAt(gens + [gen], a, b) == Add(GenSumAt(gens, a, b), GenStampAt(gen, a, b))
  {
    assert (gens + [gen])[..|gens|] == gens;
  }

  /** One more generator row with both values changes only the diagonal
      cell of its node, by g + jb; one with an empty value changes nothing. */
  lemma AddGenerator(lines: seq<Line>, gens: seq<Gen>, gen: Gen, a: int, b: int)
    ensures Contributes(gen) && gen.g.Value? && gen.b.Value? && a == gen.node && b == gen.node ==>
              YbusAt(lines, gens + [gen], a, b) == Add(YbusAt(lines, gens, a, b), Complex(gen.g.v, gen.b.v))
    ensures !(Contributes(gen) && a == gen.node && b == gen.node) ==>
              YbusAt(lines, gens + [gen], a, b) == YbusAt(lines, gens, a, b)
  {
    GenSumStep(gens, gen, a, b);
  }

  lemma OneLine(l: Line, a: int, b: int)
    ensures LineSumAt([l], a, b) == LineStampAt(l, a, b)
  {
    assert [l][..0] == [];
  }

  /** A network of one line between two different nodes and no generator:
      g + j(b + B/2) on both diagonal cells, -(g + jb) on both others. */
  lemma IsolatedLine(l: Line)
    requires l.origin != l.destination
    ensures YbusAt([l], [], l.origin, l.origin) == Complex(l.g, l.b + l.halfShunt)
    ensures YbusAt([l], [], l.destination, l.destination) == Complex(l.g, l.b + l.halfShunt)
    ensures YbusAt([l], [], l.origin, l.destination) == Complex(-l.g, -l.b)
    ensures YbusAt([l], [], l.destination, l.origin) == Complex(-l.g, -l.b)
  {
    OneLine(l, l.origin, l.origin);
    OneLine(l, l.destination, l.destination);
    OneLine(l, l.origin, l.destination);
    OneLine(l, l.destination, l.origin);
    LineStampFourCells(l, 0, 0);
  }

  /** The assembled matrix is symmetric. */
  lemma YbusSymmetric(lines: seq<Line>, gens: seq<Gen>, a: int, b: int)
    ensures YbusAt(lines, gens, a, b) == YbusAt(lines, gens, b, a)
  {
    LineSumSymmetric(lines, a, b);
    if a != b {
      GenOffDiagonalZero(gens, a, b);
      GenOffDiagonalZero(gens, b, a);
    }
  }

  /** Rows that lack an admittance value add nothing and raise nothing. */
  lemma {:induction false} NonContributingRows(gens: seq<Gen>, nodes: seq<int>, a: int, b: int)
    requires forall gen :: gen in gens ==> !Contributes(gen)
    ensures GenSumAt(gens, a, b) == Zero
    ensures FirstFault(gens, nodes).None?
  {
    if gens != [] {
      var prefix := gens[..|gens| - 1];
      assert forall gen :: gen in prefix ==> gen in gens;
      NonContributingRows(prefix, nodes, a, b);
    }
  }
}
