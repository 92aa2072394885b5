/**
 * The Ybus calculator: `calcular_matriz_ybus` filling an n x n complex
 * array in place, and the compute action that cleans both tables first.
 */
module Ybus {
  import opened Wrappers
  import opened ComplexNumbers
  import opened Tables
  import opened Nodes
  import opened Stamping

  /** What pressing "compute" ends with. */
  datatype Outcome =
    | InsufficientData                                 // the warning shown for an empty line table
    | Raised(error: Error)                             // an exception escapes the computation
    | Computed(ybus: array2<Complex>, nodes: seq<int>)  // the matrix and its node labels

  /** The four updates of one line (i, j) with series admittance `y`. */
  method StampLine(ybus: array2<Complex>, i: nat, j: nat, y: Complex, shunt: Complex)
    requires i < ybus.Length0 && j < ybus.Length0 && ybus.Length0 == ybus.Length1
    modifies ybus
    ensures forall p, q :: 0 <= p < ybus.Length0 && 0 <= q < ybus.Length1 ==>
              ybus[p, q] == Add(old(ybus[p, q]), Stamp(i, j, y, Add(y, shunt), p, q))
  {
    ybus[i, j] := Sub(ybus[i, j], y);
    ybus[j, i] := Sub(ybus[j, i], y);
    ybus[i, i] := Add(ybus[i, i], Add(y, shunt));
    ybus[j, j] := Add(ybus[j, j], Add(y, shunt));
  }

  /** `Ybus[i, i] += y`. */
  method AddToDiagonal(ybus: array2<Complex>, i: nat, y: Complex)
    requires i < ybus.Length0 && ybus.Length0 == ybus.Length1
    modifies ybus
    ensures ybus[i, i] == Add(old(ybus[i, i]), y)
    ensures forall p, q :: 0 <= p < ybus.Length0 && 0 <= q < ybus.Length1 && !(p == i && q == i) ==>
              ybus[p, q] == old(ybus[p, q])
    ensures (forall p, q :: 0 <= p < ybus.Length0 && 0 <= q < ybus.Length1 ==> old(ybus[p, q]) == old(ybus[q, p])) ==>
              forall p, q :: 0 <= p < ybus.Length0 && 0 <= q < ybus.Length1 ==> ybus[p, q] == ybus[q, p]
  {
    ybus[i, i] := Add(ybus[i, i], y);
  }

  /** Index-level and id-level stamps agree through the index map. */
  lemma StampAtIndex(nodes: seq<int>, l: Line, p: nat, q: nat)
    requires StrictlyAscending(nodes) && p < |nodes| && q < |nodes|
    requires l.origin in nodes && l.destination in nodes
    ensures Stamp(IndexOf(nodes)[l.origin], IndexOf(nodes)[l.destination], Series(l),
                  Add(Series(l), Shunt(l)), p, q)
            == LineStampAt(l, nodes[p], nodes[q])
  {
    var index := IndexOf(nodes);
    var i, j := index[l.origin], index[l.destination];
    assert p == i <==> nodes[p] == l.origin;
    assert q == i <==> nodes[q] == l.origin;
    assert p == j <==> nodes[p] == l.destination;
    assert q == j <==> nodes[q] == l.destination;
  }

  /** The line loop: every line row stamped, in table order, into a zero
      matrix indexed by `nodes`. */
  method StampLines(ybus: array2<Complex>, lines: seq<Line>, nodes: seq<int>)
    requires StrictlyAscending(nodes)
    requires forall x :: IsEndpoint(lines, x) ==> x in nodes
    requires ybus.Length0 == |nodes| && ybus.Length1 == |nodes|
    requires forall p, q :: 0 <= p < |nodes| && 0 <= q < |nodes| ==> ybus[p, q] == Zero
    modifies ybus
    ensures forall p, q :: 0 <= p < |nodes| && 0 <= q < |nodes| ==>
              ybus[p, q] == LineSumAt(lines, nodes[p], nodes[q])
    ensures forall p, q :: 0 <= p < |nodes| && 0 <= q < |nodes| ==> ybus[p, q] == ybus[q, p]
  {
    var n := |nodes|;
    var index := IndexOf(nodes);
    var k := 0;
    while k < |lines|
      invariant 0 <= k <= |lines|
      invariant forall p, q :: 0 <= p < n && 0 <= q < n ==>
                  ybus[p, q] == LineSumAt(lines[..k], nodes[p], nodes[q])
      invariant forall p, q :: 0 <= p < n && 0 <= q < n ==> ybus[p, q] == ybus[q, p]
    {
      var l := lines[k];
      assert IsEndpoint(lines, l.origin) && IsEndpoint(lines, l.destination);
      StampLine(ybus, index[l.origin], index[l.destination], Complex(l.g, l.b), Complex(0.0, l.halfShunt));
      forall p, q | 0 <= p < n && 0 <= q < n {
        StampAtIndex(nodes, l, p, q);
      }
      assert lines[..k + 1][..k] == lines[..k];
      forall p, q | 0 <= p < n && 0 <= q < n ensures ybus[p, q] == ybus[q, p] {
        LineSumSymmetric(lines[..k + 1], nodes[p], nodes[q]);
      }
      k := k + 1;
    }
    assert lines[..k] == lines;
  }

  lemma GenPrefixStep(lines: seq<Line>, gens: seq<Gen>, nodes: seq<int>, k: nat)
    requires k < |gens|
    ensures FirstFault(gens[..k + 1], nodes) ==
      if FirstFault(gens[..k], nodes).Some? then FirstFault(gens[..k], nodes) else GenFault(gens[k], nodes)
    ensures forall a, b ::
      YbusAt(lines, gens[..k + 1], a, b) == Add(YbusAt(lines, gens[..k], a, b), GenStampAt(gens[k], a, b))
  {
    assert gens[..k + 1][..k] == gens[..k];
  }

  lemma FirstFaultAt(gens: seq<Gen>, nodes: seq<int>, k: nat)
    requires k < |gens| && FirstFault(gens[..k], nodes).None? && GenFault(gens[k], nodes).Some?
    ensures FirstFault(gens, nodes) == GenFault(gens[k], nodes)
  {
    assert forall m :: 0 <= m < k ==> gens[..k][m] == gens[m];
  }

  /** The generator loop: each row with both values adds g + jb to its
      node's diagonal cell; the first faulty row stops the loop. */
  method AddGenerators(ybus: array2<Complex>, lines: seq<Line>, gens: seq<Gen>, nodes: seq<int>)
    returns (fault: Option<Error>)
    requires StrictlyAscending(nodes)
    requires ybus.Length0 == |nodes| && ybus.Length1 == |nodes|
    requires forall p, q :: 0 <= p < |nodes| && 0 <= q < |nodes| ==>
               ybus[p, q] == LineSumAt(lines, nodes[p], nodes[q])
    requires forall p, q :: 0 <= p < |nodes| && 0 <= q < |nodes| ==> ybus[p, q] == ybus[q, p]
    modifies ybus
    ensures fault == FirstFault(gens, nodes)
    ensures fault.None? ==> forall p, q :: 0 <= p < |nodes| && 0 <= q < |nodes| ==>
              ybus[p, q] == YbusAt(lines, gens, nodes[p], nodes[q])
    ensures forall p, q :: 0 <= p < |nodes| && 0 <= q < |nodes| ==> ybus[p, q] == ybus[q, p]
  {
    var n := |nodes|;
    var index := IndexOf(nodes);
    var k := 0;
    while k < |gens|
      invariant 0 <= k <= |gens|
      invariant FirstFault(gens[..k], nodes).None?
      invariant forall p, q :: 0 <= p < n && 0 <= q < n ==>
                  ybus[p, q] == YbusAt(lines, gens[..k], nodes[p], nodes[q])
      invariant forall p, q :: 0 <= p < n && 0 <= q < n ==> ybus[p, q] == ybus[q, p]
    {
      var gen := gens[k];
      GenPrefixStep(lines, gens, nodes, k);
      if !gen.g.Missing? && !gen.b.Missing? {
        if !(gen.g.Value? && gen.b.Value?) {
          FirstFaultAt(gens, nodes, k);
          return Some(NotNumeric);
        }
        if gen.node !in index {
          FirstFaultAt(gens, nodes, k);
          return Some(UnknownNode(gen.node));
        }
        var i := index[gen.node];
        AddToDiagonal(ybus, i, Complex(gen.g.v, gen.b.v));
        forall p, q | 0 <= p < n && 0 <= q < n
          ensures ybus[p, q] == YbusAt(lines, gens[..k + 1], nodes[p], nodes[q])
        {
          assert p == i <==> nodes[p] == gen.node;
          assert q == i <==> nodes[q] == gen.node;
        }
      } else {
        forall p, q | 0 <= p < n && 0 <= q < n
          ensures ybus[p, q] == YbusAt(lines, gens[..k + 1], nodes[p], nodes[q])
        {
          assert GenStampAt(gen, nodes[p], nodes[q]) == Zero;
        }
      }
      k := k + 1;
    }
    assert gens[..k] == gens;
    fault := None;
  }

  /** `calcular_matriz_ybus`: drops incomplete line rows, enumerates the
      nodes, stamps every line, then adds every generator row to its node's
      diagonal cell; a generator row on a node without lines raises. */
  method Assemble(rows: seq<RawLine>, gens: seq<Gen>) returns (r: Outcome)
    ensures !r.InsufficientData?
    ensures r.Raised? <==> FirstFault(gens, NodesOf(CleanLines(rows))).Some?
    ensures r.Raised? ==> FirstFault(gens, NodesOf(CleanLines(rows))) == Some(r.error)
    ensures r.Computed? ==> fresh(r.ybus) && r.nodes == NodesOf(CleanLines(rows))
    ensures r.Computed? ==> r.ybus.Length0 == |r.nodes| && r.ybus.Length1 == |r.nodes|
    ensures r.Computed? ==> forall p, q :: 0 <= p < |r.nodes| && 0 <= q < |r.nodes| ==>
              r.ybus[p, q] == YbusAt(CleanLines(rows), gens, r.nodes[p], r.nodes[q])
    ensures r.Computed? ==> forall p, q :: 0 <= p < |r.nodes| && 0 <= q < |r.nodes| ==>
              r.ybus[p, q] == r.ybus[q, p]
  {
    var lines := CleanLines(rows);
    var nodes := NodesOf(lines);
    var n := |nodes|;
    var ybus := new Complex[n, n]((p, q) => Zero);
    StampLines(ybus, lines, nodes);
    var fault := AddGenerators(ybus, lines, gens, nodes);
    if fault.Some? {
      return Raised(fault.value);
    }
    r := Computed(ybus, nodes);
  }

  /** After the generator clean-up no row reaches `complex(g, b)` with a
      value that is not a number: either every cell was coerced, or no row
      has both values. */
  lemma CleanGeneratorsAreNumeric(genRows: seq<RawGen>, nodes: seq<int>)
    requires NormalizeGens(genRows).Success?
    ensures FirstFault(NormalizeGens(genRows).value, nodes) != Some(NotNumeric)
  {
    var gens := NormalizeGens(genRows).value;
    if AnyGenComplete(genRows) {
      NormalizeGensCoerces(genRows);
      forall k | 0 <= k < |gens| ensures GenFault(gens[k], nodes) != Some(NotNumeric) {
        assert gens[k] in gens;
      }
    } else {
      NormalizeGensUncoerced(genRows);
      NonContributingRows(gens, nodes, 0, 0);
    }
  }

  /** A generator table without a single complete row changes nothing. */
  lemma IncompleteGeneratorTableIgnored(genRows: seq<RawGen>, nodes: seq<int>, a: int, b: int)
    requires !AnyGenComplete(genRows) && NormalizeGens(genRows).Success?
    ensures GenSumAt(NormalizeGens(genRows).value, a, b) == Zero
    ensures FirstFault(NormalizeGens(genRows).value, nodes).None?
  {
    NormalizeGensUncoerced(genRows);
    NonContributingRows(NormalizeGens(genRows).value, nodes, a, b);
  }

  /** The "Calcular matriz Ybus" action: drop incomplete line rows, warn when
      none is left, clean the generator table, then assemble. */
  method Calculate(lineRows: seq<RawLine>, genRows: seq<RawGen>) returns (r: Outcome)
    ensures r.InsufficientData? <==> forall k :: 0 <= k < |lineRows| ==> !Complete(lineRows[k])
    ensures !r.InsufficientData? && NormalizeGens(genRows).Failure? ==> r == Raised(NodeNotInteger)
    ensures r.Raised? ==> r.error != NotNumeric
    ensures !r.InsufficientData? && NormalizeGens(genRows).Success? ==>
              (r.Raised? <==> FirstFault(NormalizeGens(genRows).value, NodesOf(CleanLines(lineRows))).Some?)
    ensures r.Raised? && NormalizeGens(genRows).Success? ==>
              FirstFault(NormalizeGens(genRows).value, NodesOf(CleanLines(lineRows))) == Some(r.error)
    ensures r.Raised? && r.error.UnknownNode? ==> !IsEndpoint(CleanLines(lineRows), r.error.node)
    ensures r.Computed? ==> NormalizeGens(genRows).Success? && fresh(r.ybus)
    ensures r.Computed? ==> r.nodes == NodesOf(CleanLines(lineRows)) && r.nodes != []
    ensures r.Computed? ==> r.ybus.Length0 == |r.nodes| && r.ybus.Length1 == |r.nodes|
    ensures r.Computed? ==> forall p, q :: 0 <= p < |r.nodes| && 0 <= q < |r.nodes| ==>
              r.ybus[p, q] == YbusAt(CleanLines(lineRows), NormalizeGens(genRows).value, r.nodes[p], r.nodes[q])
  {
    var rows := DropIncomplete(lineRows);
    DropIncompleteEmpty(lineRows);
    if rows == [] {
      return InsufficientData;
    }
    var gens := NormalizeGens(genRows);
    if gens.Failure? {
      return Raised(gens.error);
    }
    DropIncompleteIdempotent(lineRows);
    r := Assemble(rows, gens.value);
    var lines := CleanLines(lineRows);
    CleanGeneratorsAreNumeric(genRows, NodesOf(lines));
    assert lines[0].origin in NodesOf(lines) by {
      assert IsEndpoint(lines, lines[0].origin);
    }
  }
}
