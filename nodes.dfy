/**
 * Node enumeration: the ascending list of distinct node ids met as an origin
 * or a destination of a line, and the map from each id to its matrix index.
 */
module Nodes {
  import opened Tables

  predicate StrictlyAscending(s: seq<int>) {
    forall a, b :: 0 <= a < b < |s| ==> s[a] < s[b]
  }

  /** `x` inserted into an ascending list without duplicates. */
  function Insert(s: seq<int>, x: int): (r: seq<int>)
    requires StrictlyAscending(s)
    ensures StrictlyAscending(r)
    ensures forall y :: y in r <==> y in s || y == x
  {
    if s == [] then [x]
    else if x < s[0] then [x] + s
    else if x == s[0] then s
    else
      var tail := Insert(s[1..], x);
      assert forall y :: y in tail ==> y > s[0];
      ConsAscending(s[0], tail);
      [s[0]] + tail
  }

  lemma ConsAscending(x: int, t: seq<int>)
    requires StrictlyAscending(t) && forall y :: y in t ==> x < y
    ensures StrictlyAscending([x] + t)
  {
    var r := [x] + t;
    forall a, b | 0 <= a < b < |r| ensures r[a] < r[b] {
      assert r[b] == t[b - 1] && t[b - 1] in t;
      if a > 0 {
        assert r[a] == t[a - 1];
      }
    }
  }

  /** `sorted(set(xs))`. */
  function SortedDistinct(xs: seq<int>): (r: seq<int>)
    ensures StrictlyAscending(r)
    ensures forall y :: y in r <==> y in xs
  {
    if xs == [] then []
    else Insert(SortedDistinct(xs[..|xs| - 1]), xs[|xs| - 1])
  }

  lemma HeadIn(s: seq<int>)
    ensures s != [] ==> s[0] in s
  {
  }

  /** Two ascending lists without duplicates that hold the same ids are the
      same list: `sorted(set(...))` has exactly one possible result. */
  lemma {:induction false} AscendingUnique(s: seq<int>, t: seq<int>)
    requires StrictlyAscending(s) && StrictlyAscending(t)
    requires forall y :: y in s <==> y in t
    ensures s == t
  {
    if s != [] && t != [] {
      assert s == [s[0]] + s[1..] && t == [t[0]] + t[1..];
      assert s[0] == t[0] by {
        assert s[0] in t && t[0] in s;
      }
      forall y ensures y in s[1..] <==> y in t[1..] {
        if y in s[1..] {
          assert y in s && y != s[0];
        }
        if y in t[1..] {
          assert y in t && y != t[0];
        }
      }
      AscendingUnique(s[1..], t[1..]);
    } else if s != [] {
      HeadIn(s);
      assert false;
    } else if t != [] {
      HeadIn(t);
      assert false;
    }
  }

  /** Ids at either end of some line. */
  predicate IsEndpoint(lines: seq<Line>, x: int) {
    exists l :: l in lines && (l.origin == x || l.destination == x)
  }

  /** The origin column followed by the destination column. */
  function Endpoints(lines: seq<Line>): (r: seq<int>)
    ensures forall x :: x in r <==> IsEndpoint(lines, x)
  {
    var origins := seq(|lines|, k requires 0 <= k < |lines| => lines[k].origin);
    var destinations := seq(|lines|, k requires 0 <= k < |lines| => lines[k].destination);
    assert forall x :: x in origins ==> IsEndpoint(lines, x);
    assert forall x :: x in destinations ==> IsEndpoint(lines, x);
    assert forall x :: IsEndpoint(lines, x) ==> x in origins || x in destinations by {
      forall x | IsEndpoint(lines, x) ensures x in origins || x in destinations {
        var l :| l in lines && (l.origin == x || l.destination == x);
        var k :| 0 <= k < |lines| && lines[k] == l;
        assert origins[k] == l.origin && destinations[k] == l.destination;
      }
    }
    origins + destinations
  }

  /** The node list of the matrix: the line endpoints, ascending, each once. */
  function NodesOf(lines: seq<Line>): (r: seq<int>)
    ensures StrictlyAscending(r)
    ensures forall x :: x in r <==> IsEndpoint(lines, x)
  {
    SortedDistinct(Endpoints(lines))
  }

  /** `{nodo: idx for idx, nodo in enumerate(nodos)}`. */
  function IndexOf(nodes: seq<int>): (m: map<int, nat>)
    requires StrictlyAscending(nodes)
    ensures m.Keys == set x | x in nodes
    ensures forall k :: 0 <= k < |nodes| ==> m[nodes[k]] == k
    ensures forall x :: x in m ==> m[x] < |nodes| && nodes[m[x]] == x
  {
    map k | 0 <= k < |nodes| :: nodes[k] := k
  }
}
