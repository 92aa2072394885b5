/**
 * Worked networks: one line, a three-node chain, a self-loop, and a
 * generator on a node that no line reaches.
 */
module Scenarios {
  import opened Wrappers
  import opened ComplexNumbers
  import opened Tables
  import opened Nodes
  import opened Stamping

  lemma TwoLines(l1: Line, l2: Line, a: int, b: int)
    ensures LineSumAt([l1, l2], a, b) == Add(LineStampAt(l1, a, b), LineStampAt(l2, a, b))
  {
    assert [l1, l2][..1] == [l1];
    OneLine(l1, a, b);
  }

  /** Line 1-2 with g = 0, b = -10, B/2 = 0.1: nodes [1, 2]. */
  lemma SingleLineNodes()
    ensures NodesOf([Line(1, 2, 0.0, -10.0, 0.1)]) == [1, 2]
  {
    var lines := [Line(1, 2, 0.0, -10.0, 0.1)];
    assert IsEndpoint(lines, 1) && IsEndpoint(lines, 2);
    AscendingUnique(NodesOf(lines), [1, 2]);
  }

  /** Line 1-2 with g = 0, b = -10, B/2 = 0.1 and no generator: -9.9j on
      the diagonal, 10j off it. */
  lemma SingleLineCells(l: Line)
    requires l == Line(1, 2, 0.0, -10.0, 0.1)
    ensures YbusAt([l], [], 1, 1) == Complex(0.0, -9.9)
    ensures YbusAt([l], [], 2, 2) == Complex(0.0, -9.9)
    ensures YbusAt([l], [], 1, 2) == Complex(0.0, 10.0)
    ensures YbusAt([l], [], 2, 1) == Complex(0.0, 10.0)
  {
    IsolatedLine(l);
  }

  /** Lines 1-2 and 2-3: nodes [1, 2, 3]. */
  lemma ThreeNodeChainNodes(lines: seq<Line>)
    requires lines == [Line(1, 2, 1.0, -5.0, 0.0), Line(2, 3, 1.0, -5.0, 0.0)]
    ensures NodesOf(lines) == [1, 2, 3]
  {
    forall x ensures IsEndpoint(lines, x) <==> x in [1, 2, 3] {
      if IsEndpoint(lines, x) {
        var l :| l in lines && (l.origin == x || l.destination == x);
        assert l == lines[0] || l == lines[1];
      }
      assert lines[0] in lines && lines[1] in lines;
    }
    AscendingUnique(NodesOf(lines), [1, 2, 3]);
  }

  /** Lines 1-2 and 2-3, each g = 1, b = -5, B/2 = 0: node 2 collects both
      lines, nodes 1 and 3 one each, and cell (1, 3) stays zero. */
  lemma ThreeNodeChainCells()
    ensures LineSumAt([Line(1, 2, 1.0, -5.0, 0.0), Line(2, 3, 1.0, -5.0, 0.0)], 2, 2) == Complex(2.0, -10.0)
    ensures LineSumAt([Line(1, 2, 1.0, -5.0, 0.0), Line(2, 3, 1.0, -5.0, 0.0)], 1, 1) == Complex(1.0, -5.0)
    ensures LineSumAt([Line(1, 2, 1.0, -5.0, 0.0), Line(2, 3, 1.0, -5.0, 0.0)], 3, 3) == Complex(1.0, -5.0)
    ensures LineSumAt([Line(1, 2, 1.0, -5.0, 0.0), Line(2, 3, 1.0, -5.0, 0.0)], 1, 3) == Zero
  {
    var l1, l2 := Line(1, 2, 1.0, -5.0, 0.0), Line(2, 3, 1.0, -5.0, 0.0);
    TwoLines(l1, l2, 2, 2);
    TwoLines(l1, l2, 1, 1);
    TwoLines(l1, l2, 3, 3);
    TwoLines(l1, l2, 1, 3);
  }

  /** A line from node 5 to itself keeps 2 * jB/2 on its diagonal. */
  lemma SelfLoopLine(g: real, b: real, h: real)
    ensures NodesOf([Line(5, 5, g, b, h)]) == [5]
    ensures LineSumAt([Line(5, 5, g, b, h)], 5, 5) == Complex(0.0, 2.0 * h)
  {
    var lines := [Line(5, 5, g, b, h)];
    assert IsEndpoint(lines, 5);
    AscendingUnique(NodesOf(lines), [5]);
    OneLine(lines[0], 5, 5);
  }

  /** A generator with both values on node 7, which no line reaches, makes
      the index lookup fail. */
  lemma GeneratorOnUnknownNode()
    ensures FirstFault([Gen(7, Value(0.0), Value(1.0))], NodesOf([Line(1, 2, 0.0, -10.0, 0.1)]))
            == Some(UnknownNode(7))
  {
    var lines := [Line(1, 2, 0.0, -10.0, 0.1)];
    assert !IsEndpoint(lines, 7);
    var gens := [Gen(7, Value(0.0), Value(1.0))];
    assert gens[..0] == [];
  }
}
