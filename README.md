# Ybus assembler — a verified Dafny model

The program computes the nodal admittance matrix (Ybus) of a power network.
It takes two tables. The line table has one row per branch: origin node,
destination node, series conductance g, series susceptance b and half line
charging B/2. The generator table, for isolated elements, has one row per
shunt element: node, conductance and susceptance. This model covers the
assembler `calcular_matriz_ybus` and the clean-up that the "Calcular matriz
Ybus" action applies to both tables before calling it.

Complex numbers are pairs of exact reals (`ComplexNumbers.Complex`), so the
arithmetic has no rounding.

Modules:

- `Tables` (tables.dfy): the raw and cleaned rows. It holds the line-table
  filter (`dropna(how="any")`) and the lenient generator clean-up: numeric
  coercion to 0 when the table has a complete row, removal of rows with no
  node, and the integer conversion of the node column, which can fail.
- `Nodes` (nodes.dfy): `sorted(set(origins) | set(destinations))` as
  `NodesOf`, and the node-to-index map `IndexOf`.
- `Stamping` (stamping.dfy): the bus-admittance rule stated per pair of
  node ids. `LineSumAt` and `GenSumAt` give what the line and generator
  tables add to each cell. `FirstFault` gives the exception of the first
  faulty generator row. The lemmas cover the four touched cells, self-loops,
  symmetry, off-diagonal and diagonal sums, and row order.
- `Ybus` (ybus.dfy): the assembler as imperative code. It fills an n x n
  `array2<Complex>` in place with the four `-=`/`+=` updates per line, then
  one `+=` per generator row. It is proved to produce exactly
  `YbusAt(lines, gens, nodes[p], nodes[q])` in every cell. `Calculate` is
  the whole compute action: the empty-table warning, the generator
  clean-up, then assembly.
- `Scenarios` (scenarios.dfy): worked networks. They are a single line, a
  three-node chain, a self-loop and a generator on a node that no line
  reaches.

Two behaviours are kept as the code has them:

- A line whose origin equals its destination is accepted. Its four updates
  land on one diagonal cell, which keeps a net 2·jB/2
  (`Stamping.SelfLoopStamp`).
- A generator row with both values, on a node that no line touches, makes
  the index lookup at ybus.py:50 raise `KeyError`. Such a row is not
  dropped: the model returns `Raised(UnknownNode(node))`.

Generator values are not always coerced to numbers. Coercion
(ybus.py:128-129) runs only when the generator table has at least one row
with all three cells filled (ybus.py:126). Otherwise empty cells stay empty,
and the assembler skips those rows (ybus.py:48). `Tables.Coerce` models this
condition, and `Ybus.IncompleteGeneratorTableIgnored` states what follows
from it.

## Model

| member | source | states |
|---|---|---|
| `Tables.DropIncomplete` | ybus.py:28 | keeps only rows with all five fields present; every complete input row is kept; never longer than the input |
| `Tables.DropIncompleteIdempotent` | ybus.py:113 | dropping incomplete rows a second time (ybus.py:28 after ybus.py:113) changes nothing |
| `Tables.DropIncompleteAppend` | ybus.py:28 | the filter keeps table order: filtering a concatenation is the concatenation of the filtered parts |
| `Tables.DropIncompleteEmpty` | ybus.py:113-116 | the cleaned line table is empty exactly when no row is complete |
| `Tables.Lenient` | ybus.py:128-129 | a number stays itself; an empty or unreadable cell becomes 0 |
| `Tables.KeepNoded` | ybus.py:138 | keeps exactly the generator rows whose node cell is filled |
| `Tables.KeepNodedAppend` | ybus.py:138 | the node filter keeps table order and every copy of a row: filtering a concatenation is the concatenation of the filtered parts |
| `Tables.ToGens` | ybus.py:141 | the integer conversion succeeds exactly when every remaining node is readable, keeps every row and fails with `NodeNotInteger` otherwise |
| `Tables.NormalizeGensFails` | ybus.py:126-141 | the generator clean-up fails exactly when some row has an unreadable node, and then with `NodeNotInteger` |
| `Tables.NormalizeGensCoerces` | ybus.py:126-129 | with a complete row present, each cleaned row comes from an input row with the same node and leniently coerced g and b |
| `Tables.NormalizeGensUncoerced` | ybus.py:126-138 | with no complete row, every cleaned row still has an empty g or b |
| `Nodes.Insert` | ybus.py:29 | inserting into an ascending duplicate-free list keeps it so and adds exactly the new id |
| `Nodes.SortedDistinct` | ybus.py:29 | result is strictly ascending and holds exactly the ids of the input |
| `Nodes.AscendingUnique` | ybus.py:29 | two strictly ascending lists with the same ids are equal, so the node list is fully determined |
| `Nodes.Endpoints` | ybus.py:29 | holds exactly the ids that are an origin or a destination of some line |
| `Nodes.NodesOf` | ybus.py:29 | the node list is strictly ascending and its ids are exactly the line endpoints |
| `Nodes.IndexOf` | ybus.py:30-32 | the index map sends the k-th node to k, its keys are exactly the nodes and every index maps back to its node |
| `Stamping.GenFault` | ybus.py:48-50 | a row raises nothing iff it lacks a value or is numeric on a known node; it raises `NotNumeric` iff both cells are filled but not both numbers; a numeric row on a node outside the list raises `UnknownNode` of that node |
| `Stamping.FirstFault` | ybus.py:47-51 | no fault iff no row raises; otherwise the fault of a row that all earlier rows pass |
| `Stamping.LineStampFourCells` | ybus.py:41-44 | a line i–j with i ≠ j subtracts g + jb at (i,j) and (j,i), adds g + jb + jB/2 at (i,i) and (j,j) and leaves every other cell unchanged |
| `Stamping.SelfLoopStamp` | ybus.py:41-44 | a line i–i leaves a net 2·jB/2 at (i,i) and nothing elsewhere |
| `Stamping.LineSumSymmetric` | ybus.py:41-44 | after any prefix of the line table, cell (a,b) equals cell (b,a) |
| `Stamping.LineSumAppend` | ybus.py:36-44 | the contributions of two parts of the line table add up |
| `Stamping.LineOrderIrrelevant` | ybus.py:36 | swapping two blocks of line rows does not change any cell |
| `Stamping.OffDiagonal` | ybus.py:41-42 | an off-diagonal cell is minus the sum of g + jb over the lines joining its two nodes in either direction |
| `Stamping.NotJoinedIsZero` | ybus.py:33-42 | an off-diagonal cell of two nodes that no line joins stays zero |
| `Stamping.Diagonal` | ybus.py:43-44 | a diagonal cell sums g + jb + jB/2 over the lines incident to its node (2·jB/2 per self-loop) |
| `Stamping.GenOffDiagonalZero` | ybus.py:51 | generator rows add nothing off the diagonal |
| `Stamping.AddGenerator` | ybus.py:47-51 | one more numeric generator row adds g + jb to its node's diagonal cell only; a row with an empty value changes nothing |
| `Stamping.IsolatedLine` | ybus.py:36-44 | one line between two nodes: g + j(b + B/2) on both diagonal cells and -(g + jb) on both off-diagonal cells |
| `Stamping.YbusSymmetric` | ybus.py:41-51 | the final cell (a,b) equals (b,a) |
| `Stamping.NonContributingRows` | ybus.py:48 | rows lacking a value add nothing and raise nothing |
| `Ybus.StampLine` | ybus.py:41-44 | the four in-place updates change each cell by exactly the stamp of the line at that index pair |
| `Ybus.AddToDiagonal` | ybus.py:51 | only cell (i,i) changes, by y, and symmetry is kept |
| `Ybus.StampAtIndex` | ybus.py:37 | the stamp at indices from the index map equals the stamp at the corresponding node ids |
| `Ybus.StampLines` | ybus.py:33-44 | from the zero matrix, the line loop leaves every cell equal to the line contributions of its node pair, and symmetric after every line |
| `Ybus.AddGenerators` | ybus.py:46-51 | the generator loop reports the first faulty row's exception; with none, every cell equals line plus generator contributions; symmetric throughout |
| `Ybus.Assemble` | ybus.py:27-53 | allocates an n × n matrix for the ascending endpoint list and fills every cell with `YbusAt`; raises exactly the first generator fault |
| `Ybus.CleanGeneratorsAreNumeric` | ybus.py:49 | after the generator clean-up no row reaches `complex(g, b)` with a non-number |
| `Ybus.IncompleteGeneratorTableIgnored` | ybus.py:126-138 | a generator table with no complete row adds nothing and raises nothing |
| `Ybus.Calculate` | ybus.py:111-147 | warns iff no line row is complete; otherwise fails on an unreadable generator node; after a successful clean-up it raises exactly the first generator fault (never `NotNumeric`, `UnknownNode` only for a node no line touches) and otherwise returns the assembled matrix over the ascending endpoint list |
| `Scenarios.SingleLineNodes` | ybus.py:29 | one line 1–2 gives nodes [1, 2] |
| `Scenarios.SingleLineCells` | ybus.py:36-44 | line 1–2 with g = 0, b = -10, B/2 = 0.1: -9.9j on the diagonal, 10j off it |
| `Scenarios.ThreeNodeChainNodes` | ybus.py:29 | lines 1–2 and 2–3 give nodes [1, 2, 3] |
| `Scenarios.ThreeNodeChainCells` | ybus.py:36-44 | node 2 collects both lines (2 - 10j), nodes 1 and 3 one each (1 - 5j), cell (1,3) is zero |
| `Scenarios.SelfLoopLine` | ybus.py:41-44 | a line from node 5 to itself gives one node and 2·jB/2 on its diagonal |
| `Scenarios.GeneratorOnUnknownNode` | ybus.py:50 | a numeric generator on node 7, with only line 1–2, raises `UnknownNode(7)` |

## Left out

- Rounding: `np.round(Ybus, 6)` (ybus.py:53) is floating-point rounding. The model keeps exact real values and does not round.
- Floating point: all admittances are exact reals, so the order of accumulation cannot change a result. In the source it can change the last bits.
- Parsing: how `pd.to_numeric` and `astype(int)` read a cell is library behaviour. A cell is `Missing`, `Value(x)` or `Unparseable`. A node value that `astype(int)` truncates, such as 2.7 read as 2, is given as the integer it becomes.
- Values in an uncoerced generator column: when no row is complete, cells keep their entered form. The model treats a `Value` cell there as its number. Such rows always lack a value anyway and never reach `complex(g, b)` (`Ybus.CleanGeneratorsAreNumeric`).
- The guard that creates a missing `Nodo` column (ybus.py:119-120): the column is always created at ybus.py:107, so the guard never fires.
- Unused results: the `Nodo` column of the line table (ybus.py:123), the `Y_gen` column (ybus.py:132, 135) and the merge into `data_final` (ybus.py:144). The assembler never reads them.
- User interface and export: page setup, styles, sidebar and session state, data editors, messages, the matrix display with "Nodo {id}" labels, the Excel export, the random file name and the download buttons (ybus.py:11-23, 55-109, 149-170). These are presentation and I/O.
- Exceptions: an exception that escapes the computation is modelled as a `Raised` outcome. How Streamlit shows it is not modelled, and neither is the partly filled matrix that it discards.
