// The piece map of the detail pane (internal/tui/pieces.go): runs of pieces
// in the same state, walked in place and reduced to as many cells as fit.
module Pieces {

  datatype Piece = Piece(known: bool, complete: bool, partial: bool, checking: bool)
  datatype PieceRun = PieceRun(length: nat, piece: Piece)

  // What a cell can show, from best to worst.
  type CellState = n: nat | n < 5 witness 0
  const COMPLETE: CellState := 0
  const CHECKING: CellState := 1
  const PARTIAL: CellState := 2
  const UNKNOWN: CellState := 3
  const MISSING: CellState := 4

  function StateOf(p: Piece): CellState {
    if p.complete then COMPLETE
    else if p.checking then CHECKING
    else if p.partial then PARTIAL
    else if !p.known then UNKNOWN
    else MISSING
  }

  // The pieces one by one: what the runs stand for.
  function Expand(runs: seq<PieceRun>): seq<Piece> {
    if runs == [] then []
    else
      var last := runs[|runs| - 1];
      Expand(runs[..|runs| - 1]) + seq(last.length, _ => last.piece)
  }

  // The pieces a map of this many takes notice of.
  function Shown(runs: seq<PieceRun>, numPieces: nat): seq<Piece> {
    var all := Expand(runs);
    if |all| <= numPieces then all else all[..numPieces]
  }

  // The cell a piece falls into, by proportion.
  function CellOf(p: nat, numPieces: nat, cells: nat): nat
    requires numPieces > 0
  {
    p * cells / numPieces
  }

  // The worst state among the first pieces that fall into cell c.
  function Worst(pieces: seq<Piece>, numPieces: nat, cells: nat, c: nat): CellState
    requires |pieces| <= numPieces
  {
    if pieces == [] then COMPLETE
    else
      var p := |pieces| - 1;
      var rest := Worst(pieces[..p], numPieces, cells, c);
      if CellOf(p, numPieces, cells) == c && StateOf(pieces[p]) > rest then StateOf(pieces[p]) else rest
  }

  lemma CellInRange(p: nat, numPieces: nat, cells: nat)
    requires p < numPieces && cells > 0
    ensures CellOf(p, numPieces, cells) < cells
  {
    var c := CellOf(p, numPieces, cells);
    DivExactly(p * cells, numPieces, c);
    if c >= cells {
      Scale(c, cells, numPieces);
      Scale(numPieces, p + 1, cells);
    }
  }

  lemma Scale(a: nat, b: nat, n: nat)
    requires a >= b
    ensures a * n >= b * n
  {
  }

  // The cells hold the worst of these pieces.
  ghost predicate Holds(out: array<CellState>, pieces: seq<Piece>, numPieces: nat)
    requires |pieces| <= numPieces
    reads out
  {
    forall c | 0 <= c < out.Length :: out[c] == Worst(pieces, numPieces, out.Length, c)
  }

  // One piece more. The clamp to the last cell is written out: the lemma
  // above says it is never taken.
  method Put(out: array<CellState>, st: CellState, piece: nat, numPieces: nat, ghost all: seq<Piece>)
    requires out.Length > 0 && piece < numPieces && piece < |all| && StateOf(all[piece]) == st
    requires Holds(out, all[..piece], numPieces)
    modifies out
    ensures Holds(out, all[..piece + 1], numPieces)
  {
    var cells := out.Length;
    var c := piece * cells / numPieces;
    CellInRange(piece, numPieces, cells);
    if c >= cells {
      c := cells - 1;
    }
    assert all[..piece + 1][..piece] == all[..piece];
    if st > out[c] {
      out[c] := st;
    }
  }

  // The inner loop: one run, as far as the map goes.
  method PutRun(out: array<CellState>, run: PieceRun, start: nat, numPieces: nat, ghost all: seq<Piece>)
    returns (piece: nat)
    requires out.Length > 0 && start <= numPieces && start <= |all|
    requires start < numPieces ==>
               start + run.length <= |all| && forall i | start <= i < start + run.length :: all[i] == run.piece
    requires Holds(out, all[..start], numPieces)
    modifies out
    ensures piece == if start + run.length <= numPieces then start + run.length else numPieces
    ensures piece <= |all| && Holds(out, all[..piece], numPieces)
  {
    var st := StateOf(run.piece);
    var i := 0;
    piece := start;
    while i < run.length && piece < numPieces
      invariant 0 <= i <= run.length && piece == start + i <= numPieces && piece <= |all|
      invariant Holds(out, all[..piece], numPieces)
    {
      assert all[piece] == run.piece;
      Put(out, st, piece, numPieces, all);
      i, piece := i + 1, piece + 1;
    }
  }

  method Walk(out: array<CellState>, runs: seq<PieceRun>, numPieces: nat)
    requires out.Length > 0 && Holds(out, [], numPieces)
    modifies out
    ensures Holds(out, Shown(runs, numPieces), numPieces)
  {
    var piece: nat := 0;
    ghost var all := Expand(runs);
    var r := 0;
    assert runs[..0] == [] && all[..0] == [];
    while r < |runs|
      invariant 0 <= r <= |runs|
      invariant piece == |Shown(runs[..r], numPieces)| <= |all|
      invariant Holds(out, all[..piece], numPieces)
    {
      RunShown(runs, r, numPieces);
      piece := PutRun(out, runs[r], piece, numPieces, all);
      r := r + 1;
    }
    assert runs[..|runs|] == runs && all[..piece] == Shown(runs, numPieces);
  }

  method Downsample(runs: seq<PieceRun>, numPieces: nat, cells: int) returns (out: array<CellState>)
    ensures cells <= 0 ==> out.Length == 0
    ensures cells > 0 ==> out.Length == cells && Holds(out, Shown(runs, numPieces), numPieces)
  {
    if cells <= 0 {
      out := new CellState[0];
      return;
    }
    out := new CellState[cells](_ => COMPLETE);
    Walk(out, runs, numPieces);
  }

  // What the next run adds to the pieces shown.
  lemma RunShown(runs: seq<PieceRun>, r: nat, numPieces: nat)
    requires r < |runs|
    ensures var before := |Shown(runs[..r], numPieces)|;
            var after := Shown(runs[..r + 1], numPieces);
            && before <= |after| <= |Expand(runs)| && after == Expand(runs)[..|after|]
            && |after| == (if before + runs[r].length <= numPieces then before + runs[r].length else numPieces)
            && (before < numPieces ==> before + runs[r].length <= |Expand(runs)|)
            && (before < numPieces ==> forall i | before <= i < before + runs[r].length ::
                  Expand(runs)[i] == runs[r].piece)
  {
    assert runs[..r + 1][..r] == runs[..r];
    ExpandPrefix(runs, r + 1);
  }

  lemma {:induction false} ExpandPrefix(runs: seq<PieceRun>, n: nat)
    requires n <= |runs|
    ensures |Expand(runs[..n])| <= |Expand(runs)| && Expand(runs[..n]) == Expand(runs)[..|Expand(runs[..n])|]
    decreases |runs|
  {
    if n == |runs| {
      assert runs[..n] == runs;
    } else {
      assert runs[..|runs| - 1][..n] == runs[..n];
      ExpandPrefix(runs[..|runs| - 1], n);
    }
  }

  // ------------------------------------------------------------------
  // What a cell shows
  // ------------------------------------------------------------------

  // Each cell is the worst state over exactly the pieces that fall into it.
  lemma {:induction false} WorstIsMax(pieces: seq<Piece>, numPieces: nat, cells: nat, c: nat)
    requires |pieces| <= numPieces
    ensures forall p | 0 <= p < |pieces| && CellOf(p, numPieces, cells) == c ::
              StateOf(pieces[p]) <= Worst(pieces, numPieces, cells, c)
    ensures Worst(pieces, numPieces, cells, c) == COMPLETE
         || exists p :: 0 <= p < |pieces| && CellOf(p, numPieces, cells) == c
             && StateOf(pieces[p]) == Worst(pieces, numPieces, cells, c)
    decreases |pieces|
  {
    if pieces != [] {
      WorstIsMax(pieces[..|pieces| - 1], numPieces, cells, c);
    }
  }

  // So a cell reads complete only if every piece in it is: one missing
  // piece is enough to show.
  lemma CompleteExactly(pieces: seq<Piece>, numPieces: nat, cells: nat, c: nat)
    requires |pieces| <= numPieces
    ensures Worst(pieces, numPieces, cells, c) == COMPLETE <==>
              forall p | 0 <= p < |pieces| && CellOf(p, numPieces, cells) == c :: pieces[p].complete
  {
    WorstIsMax(pieces, numPieces, cells, c);
    forall p | 0 <= p < |pieces|
      ensures StateOf(pieces[p]) == COMPLETE <==> pieces[p].complete
    {
    }
  }

  // Piece p falls into cell c.
  predicate InCell(p: nat, numPieces: nat, cells: nat, c: nat) {
    p < numPieces && CellOf(p, numPieces, cells) == c
  }

  // Nothing of the piece is here, which is known of it or not read back yet.
  predicate Absent(p: Piece) {
    !p.complete && !p.checking && !p.partial
  }

  // What each of the other colours tells, piece by piece: a cell shows
  // missing exactly when some piece in it is known not to be here; unknown
  // when none is and of some nothing has been read back; partial when there
  // is something of every piece and some is partial only; checking when every
  // piece is complete or being checked and some is not complete yet.
  lemma CellShowsExactly(pieces: seq<Piece>, numPieces: nat, cells: nat, c: nat)
    requires |pieces| <= numPieces
    ensures var shown := Worst(pieces, numPieces, cells, c);
            && (shown == MISSING <==>
                exists p :: 0 <= p < |pieces| && InCell(p, numPieces, cells, c) && Absent(pieces[p]) && pieces[p].known)
            && (shown == UNKNOWN <==>
                && (forall p | 0 <= p < |pieces| && InCell(p, numPieces, cells, c) ::
                      !(Absent(pieces[p]) && pieces[p].known))
                && exists p :: 0 <= p < |pieces| && InCell(p, numPieces, cells, c) && Absent(pieces[p]))
            && (shown == PARTIAL <==>
                && (forall p | 0 <= p < |pieces| && InCell(p, numPieces, cells, c) :: !Absent(pieces[p]))
                && exists p :: 0 <= p < |pieces| && InCell(p, numPieces, cells, c)
                            && pieces[p].partial && !pieces[p].complete && !pieces[p].checking)
            && (shown == CHECKING <==>
                && (forall p | 0 <= p < |pieces| && InCell(p, numPieces, cells, c) ::
                      pieces[p].complete || pieces[p].checking)
                && exists p :: 0 <= p < |pieces| && InCell(p, numPieces, cells, c)
                            && pieces[p].checking && !pieces[p].complete)
  {
    WorstIsMax(pieces, numPieces, cells, c);
    if Worst(pieces, numPieces, cells, c) != COMPLETE {
      var w :| 0 <= w < |pieces| && CellOf(w, numPieces, cells) == c
                 && StateOf(pieces[w]) == Worst(pieces, numPieces, cells, c);
      assert InCell(w, numPieces, cells, c);
    }
    forall p | 0 <= p < |pieces| && InCell(p, numPieces, cells, c)
      ensures StateOf(pieces[p]) <= Worst(pieces, numPieces, cells, c)
    {
    }
  }

  // ------------------------------------------------------------------
  // Which pieces a cell stands for
  // ------------------------------------------------------------------

  lemma DivExactly(a: nat, b: nat, c: nat)
    requires b > 0
    ensures a / b == c <==> c * b <= a < (c + 1) * b
  {
    var q := a / b;
    assert q * b <= a < q * b + b;
    if c < q {
      assert (c + 1) * b <= q * b;
    } else if c > q {
      assert c * b >= (q + 1) * b;
    }
  }

  // a / b rounded up.
  function Ceil(a: nat, b: nat): nat
    requires b > 0
  {
    (a + b - 1) / b
  }

  lemma CeilExactly(a: nat, b: nat, p: nat)
    requires b > 0
    ensures Ceil(a, b) <= p <==> a <= p * b
  {
    var q := Ceil(a, b);
    DivExactly(a + b - 1, b, q);
    if q <= p {
      assert q * b <= p * b;
    } else {
      assert (p + 1) * b <= q * b;
    }
  }

  // The first piece of cell c.
  function First(c: nat, numPieces: nat, cells: nat): nat
    requires cells > 0
  {
    Ceil(c * numPieces, cells)
  }

  // The cells cut the pieces into consecutive stretches: a piece falls into
  // cell c exactly when it is between the first of c and the first of the
  // next; the first stretch begins the map and the last ends it.
  lemma CellsAreStretches(p: nat, c: nat, numPieces: nat, cells: nat)
    requires numPieces > 0 && cells > 0
    ensures CellOf(p, numPieces, cells) == c <==> First(c, numPieces, cells) <= p < First(c + 1, numPieces, cells)
    ensures First(0, numPieces, cells) == 0 && First(cells, numPieces, cells) == numPieces
  {
    DivExactly(p * cells, numPieces, c);
    CeilExactly(c * numPieces, cells, p);
    CeilExactly((c + 1) * numPieces, cells, p);
    DivExactly(cells - 1, cells, 0);
    DivExactly(cells * numPieces + cells - 1, cells, numPieces);
  }

  // With no more cells than pieces no cell is empty, and two cells differ
  // by at most one piece.
  lemma CellsAreEven(c: nat, numPieces: nat, cells: nat)
    requires 0 < cells <= numPieces
    ensures var size := First(c + 1, numPieces, cells) - First(c, numPieces, cells);
            1 <= numPieces / cells <= size <= numPieces / cells + 1
  {
    var q, r := numPieces / cells, numPieces % cells;
    assert numPieces == q * cells + r;
    var x := c * numPieces;
    assert (c + 1) * numPieces == x + q * cells + r;
    CeilShift(x + r, q, cells);
    CeilBetween(x, r, cells);
    assert q >= 1 by {
      DivExactly(numPieces, cells, q);
    }
  }

  lemma CeilShift(a: nat, q: nat, b: nat)
    requires b > 0
    ensures Ceil(a + q * b, b) == q + Ceil(a, b)
  {
    var k := Ceil(a, b);
    DivExactly(a + b - 1, b, k);
    assert (q + k) * b == q * b + k * b;
    assert (q + k + 1) * b == q * b + (k + 1) * b;
    DivExactly(a + q * b + b - 1, b, q + k);
  }

  lemma CeilBetween(x: nat, r: nat, b: nat)
    requires r < b
    ensures Ceil(x, b) <= Ceil(x + r, b) <= Ceil(x, b) + 1
  {
    var k := Ceil(x, b);
    CeilExactly(x, b, k);
    CeilExactly(x, b, Ceil(x + r, b));
    CeilExactly(x + r, b, Ceil(x + r, b));
    CeilExactly(x + r, b, k + 1);
    assert (k + 1) * b == k * b + b;
  }

  // When the runs cover every piece, then, each cell has a piece of its own
  // state in it.
  lemma EveryCellIsSomePiece(runs: seq<PieceRun>, numPieces: nat, cells: nat, c: nat)
    requires |Expand(runs)| == numPieces && 0 < cells <= numPieces && c < cells
    ensures var pieces := Expand(runs);
            exists p :: 0 <= p < numPieces && CellOf(p, numPieces, cells) == c
                     && StateOf(pieces[p]) == Worst(pieces, numPieces, cells, c)
  {
    var pieces := Expand(runs);
    WorstIsMax(pieces, numPieces, cells, c);
    var p := First(c, numPieces, cells);
    CellsAreEven(c, numPieces, cells);
    CellsAreStretches(p, c, numPieces, cells);
    CellOrder(c, numPieces, cells);
    assert CellOf(p, numPieces, cells) == c && StateOf(pieces[p]) <= Worst(pieces, numPieces, cells, c);
  }

  lemma CellOrder(c: nat, numPieces: nat, cells: nat)
    requires 0 < cells <= numPieces && c < cells
    ensures First(c, numPieces, cells) < numPieces
  {
    Scale(cells - 1, c, numPieces);
    assert (numPieces - 1) * cells == (cells - 1) * numPieces + (numPieces - cells);
    CeilExactly(c * numPieces, cells, numPieces - 1);
  }

  // ------------------------------------------------------------------
  // The line above the map
  // ------------------------------------------------------------------

  function Count(pieces: seq<Piece>, want: Piece -> bool): nat {
    if pieces == [] then 0 else Count(pieces[..|pieces| - 1], want) + if want(pieces[|pieces| - 1]) then 1 else 0
  }

  lemma {:induction false} CountRun(pieces: seq<Piece>, n: nat, p: Piece, want: Piece -> bool)
    ensures Count(pieces + seq(n, _ => p), want) == Count(pieces, want) + if want(p) then n else 0
    decreases n
  {
    if n == 0 {
      assert pieces + seq(n, _ => p) == pieces;
    } else {
      var more := pieces + seq(n, _ => p);
      assert more[..|more| - 1] == pieces + seq(n - 1, _ => p);
      CountRun(pieces, n - 1, p, want);
    }
  }

  predicate IsVerified(p: Piece) {
    p.complete
  }

  predicate IsUnknown(p: Piece) {
    !p.complete && !p.known
  }

  // How many pieces are verified, and how many have no state yet.
  method Summary(runs: seq<PieceRun>) returns (verified: nat, unknown: nat)
    ensures verified == Count(Expand(runs), IsVerified)
    ensures unknown == Count(Expand(runs), IsUnknown)
  {
    verified, unknown := 0, 0;
    var r := 0;
    while r < |runs|
      invariant 0 <= r <= |runs|
      invariant verified == Count(Expand(runs[..r]), IsVerified) && unknown == Count(Expand(runs[..r]), IsUnknown)
    {
      assert runs[..r + 1][..r] == runs[..r];
      CountRun(Expand(runs[..r]), runs[r].length, runs[r].piece, IsVerified);
      CountRun(Expand(runs[..r]), runs[r].length, runs[r].piece, IsUnknown);
      if runs[r].piece.complete {
        verified := verified + runs[r].length;
      } else if !runs[r].piece.known {
        unknown := unknown + runs[r].length;
      }
      r := r + 1;
    }
    assert runs[..|runs|] == runs;
  }
}
