/**
 * `utils/move_validator.py`: decide whether a move typed by a player is
 * allowed by the movement rules of the piece, answering with a flag and
 * the first reason it is not. Check is not considered.
 *
 * The validator keeps a reference to the board and only reads it; here it
 * is given the board's grid.
 */
module MoveValidation {
  import opened Wrappers
  import opened SquareCodec
  import opened PieceModel
  import opened MoveGen
  import opened MoveGenFacts
  import opened ChessBoard

  /** The source's `(is_valid, error_message)` pair. */
  datatype Verdict = Verdict(valid: bool, message: string)

  const Accept := Verdict(true, "")

  const InvalidFormat := "Invalid position format"
  const NoPiece := "No piece at source position"
  const NotYours := "That's not your piece"
  const SameSquare := "Source and destination are the same"
  const OwnCapture := "Cannot capture your own piece"
  const PawnForward := "Pawn cannot capture forward"
  const PathBlocked := "Path is blocked"
  const InvalidPawn := "Invalid pawn move"
  const PawnDiagonal := "Pawn can only move diagonally to capture"
  const RookShape := "Rook must move horizontally or vertically"
  const KnightShape := "Invalid knight move (must be L-shaped)"
  const BishopShape := "Bishop must move diagonally"
  const QueenShape := "Queen must move horizontally, vertically, or diagonally"
  const KingShape := "King can only move one square"

  function Reject(message: string): Verdict
  {
    Verdict(false, message)
  }

  // ---------------------------------------------------------------- the path between two squares

  /**
   * Every square strictly between two aligned squares is empty; the
   * destination itself does not count.
   */
  predicate PathClear(g: Grid, sr: int, sc: int, dr: int, dc: int)
    requires IsGrid(g) && OnBoard(sr, sc) && OnBoard(dr, dc) && Aligned(sr, sc, (dr, dc))
  {
    (sr, sc) == (dr, dc) ||
    (OnRayIsStep(sr, sc, DirectionTo(sr, sc, (dr, dc)), (dr, dc));
     ClearBetween(g, sr, sc, DirectionTo(sr, sc, (dr, dc)), 1, Distance(sr, sc, (dr, dc))))
  }

  /**
   * Walking from a square towards a different aligned one, the squares up
   * to the destination are on the board, and the destination is reached
   * exactly at its distance.
   */
  lemma PathWalk(sr: int, sc: int, dr: int, dc: int, i: int)
    requires OnBoard(sr, sc) && OnBoard(dr, dc) && Aligned(sr, sc, (dr, dc)) && (sr, sc) != (dr, dc)
    requires 1 <= i <= Distance(sr, sc, (dr, dc))
    ensures var d := DirectionTo(sr, sc, (dr, dc));
      IsStep(d) && OnBoard(Along(sr, d.0, i), Along(sc, d.1, i)) &&
      ((Along(sr, d.0, i), Along(sc, d.1, i)) == (dr, dc) <==> i == Distance(sr, sc, (dr, dc)))
  {
    var d := DirectionTo(sr, sc, (dr, dc));
    OnRayIsStep(sr, sc, d, (dr, dc));
    StepBetween(sr, sc, d, i, Distance(sr, sc, (dr, dc)));
  }

  /** An empty square extends a clear stretch of a ray by one. */
  lemma ClearOneMore(g: Grid, sr: int, sc: int, d: (int, int), i: int)
    requires IsGrid(g) && IsStep(d) && OnBoard(sr, sc) && 1 <= i
    requires OnBoard(Along(sr, d.0, i), Along(sc, d.1, i)) && OnBoard(Along(sr, d.0, i + 1), Along(sc, d.1, i + 1))
    requires ClearBetween(g, sr, sc, d, 1, i) && g[Along(sr, d.0, i)][Along(sc, d.1, i)].None?
    ensures ClearBetween(g, sr, sc, d, 1, i + 1)
  {
  }

  /**
   * `is_path_clear`: step from the square after the source towards the
   * destination, and fail at the first occupied square before it.
   */
  method IsPathClear(g: Grid, sr: int, sc: int, dr: int, dc: int) returns (clear: bool)
    requires IsGrid(g) && OnBoard(sr, sc) && OnBoard(dr, dc) && Aligned(sr, sc, (dr, dc))
    ensures clear == PathClear(g, sr, sc, dr, dc)
  {
    var rowStep := if sr == dr then 0 else (if dr > sr then 1 else -1);
    var colStep := if sc == dc then 0 else (if dc > sc then 1 else -1);
    var currentRow := sr + rowStep;
    var currentCol := sc + colStep;
    ghost var d := DirectionTo(sr, sc, (dr, dc));
    ghost var dist: int := Distance(sr, sc, (dr, dc));
    ghost var i := 1;
    assert d == (rowStep, colStep);
    while currentRow != dr || currentCol != dc
      invariant currentRow == Along(sr, d.0, i) && currentCol == Along(sc, d.1, i)
      invariant (sr, sc) != (dr, dc) ==> 1 <= i <= dist && ClearBetween(g, sr, sc, d, 1, i)
      decreases dist - i
    {
      PathWalk(sr, sc, dr, dc, i);
      if g[currentRow][currentCol].Some? {
        return false;
      }
      PathWalk(sr, sc, dr, dc, i + 1);
      ClearOneMore(g, sr, sc, d, i);
      currentRow := currentRow + rowStep;
      currentCol := currentCol + colStep;
      i := i + 1;
    }
    if (sr, sc) != (dr, dc) {
      PathWalk(sr, sc, dr, dc, i);
    }
    return true;
  }

  // ---------------------------------------------------------------- per kind

  /**
   * `validate_pawn_move`: a straight move needs an empty destination and is
   * one step forward, or two from the starting row over an empty middle
   * square; a diagonal step forward needs a piece to capture.
   */
  function ValidatePawn(g: Grid, sr: int, sc: int, dr: int, dc: int, color: Color, destPiece: Option<Piece>): (v: Verdict)
    requires IsGrid(g) && OnBoard(sr, sc)
    ensures v.valid ==> dr - sr == Direction(color) || (sr == StartingRow(color) && dr - sr == 2 * Direction(color))
  {
    var direction := Direction(color);
    var rowDiff := dr - sr;
    var colDiff := Abs(dc - sc);
    if colDiff == 0 then
      if destPiece.Some? then Reject(PawnForward)
      else if rowDiff == direction then Accept
      else if rowDiff == 2 * direction && sr == StartingRow(color) then
        if g[sr + direction][sc].None? then Accept else Reject(PathBlocked)
      else Reject(InvalidPawn)
    else if colDiff == 1 && rowDiff == direction then
      if destPiece.Some? then Accept else Reject(PawnDiagonal)
    else Reject(InvalidPawn)
  }

  /** `validate_rook_move`: same row or column, then a clear path. */
  function ValidateRook(g: Grid, sr: int, sc: int, dr: int, dc: int): (v: Verdict)
    requires IsGrid(g) && OnBoard(sr, sc) && OnBoard(dr, dc)
    ensures sr != dr && sc != dc ==> v == Reject(RookShape)
    ensures sr == dr || sc == dc ==>
      (v.valid <==> PathClear(g, sr, sc, dr, dc)) && (!v.valid ==> v == Reject(PathBlocked))
  {
    if sr != dr && sc != dc then Reject(RookShape)
    else if !PathClear(g, sr, sc, dr, dc) then Reject(PathBlocked)
    else Accept
  }

  /** `validate_knight_move`: two squares one way and one the other. */
  function ValidateKnight(sr: int, sc: int, dr: int, dc: int): (v: Verdict)
    ensures v.valid <==> Distance(sr, sc, (dr, dc)) == 2 && !Aligned(sr, sc, (dr, dc))
    ensures !v.valid ==> v == Reject(KnightShape)
  {
    var rowDiff := Abs(dr - sr);
    var colDiff := Abs(dc - sc);
    if (rowDiff == 2 && colDiff == 1) || (rowDiff == 1 && colDiff == 2) then Accept
    else Reject(KnightShape)
  }

  /** `validate_bishop_move`: on a diagonal, then a clear path. */
  function ValidateBishop(g: Grid, sr: int, sc: int, dr: int, dc: int): (v: Verdict)
    requires IsGrid(g) && OnBoard(sr, sc) && OnBoard(dr, dc)
    ensures Abs(dr - sr) != Abs(dc - sc) ==> v == Reject(BishopShape)
    ensures Abs(dr - sr) == Abs(dc - sc) ==>
      (v.valid <==> PathClear(g, sr, sc, dr, dc)) && (!v.valid ==> v == Reject(PathBlocked))
  {
    if Abs(dr - sr) != Abs(dc - sc) then Reject(BishopShape)
    else if !PathClear(g, sr, sc, dr, dc) then Reject(PathBlocked)
    else Accept
  }

  /** `validate_queen_move`: along a row, a column or a diagonal, then a clear path. */
  function ValidateQueen(g: Grid, sr: int, sc: int, dr: int, dc: int): (v: Verdict)
    requires IsGrid(g) && OnBoard(sr, sc) && OnBoard(dr, dc)
    ensures !Aligned(sr, sc, (dr, dc)) ==> v == Reject(QueenShape)
    ensures Aligned(sr, sc, (dr, dc)) ==>
      (v.valid <==> PathClear(g, sr, sc, dr, dc)) && (!v.valid ==> v == Reject(PathBlocked))
  {
    var horizontalOrVertical := sr == dr || sc == dc;
    var diagonal := Abs(dr - sr) == Abs(dc - sc);
    if !(horizontalOrVertical || diagonal) then Reject(QueenShape)
    else if !PathClear(g, sr, sc, dr, dc) then Reject(PathBlocked)
    else Accept
  }

  /** `validate_king_move`: at most one square in each direction. */
  function ValidateKing(sr: int, sc: int, dr: int, dc: int): (v: Verdict)
    ensures v.valid <==> Distance(sr, sc, (dr, dc)) <= 1
    ensures !v.valid ==> v == Reject(KingShape)
  {
    if Abs(dr - sr) <= 1 && Abs(dc - sc) <= 1 then Accept
    else Reject(KingShape)
  }

  // ---------------------------------------------------------------- the whole move

  /** Every message a piece's own rule can give, the empty one included. */
  const KindMessages: set<string> := {"", PawnForward, PathBlocked, InvalidPawn, PawnDiagonal, RookShape,
                                      KnightShape, BishopShape, QueenShape, KingShape}

  /** The dispatch on the piece's kind at the end of `is_valid_move`. */
  function KindRule(g: Grid, sr: int, sc: int, dr: int, dc: int, piece: Piece, destPiece: Option<Piece>): (v: Verdict)
    requires IsGrid(g) && OnBoard(sr, sc) && OnBoard(dr, dc)
    ensures v.message in KindMessages
    ensures v.valid <==> v.message == ""
  {
    match piece.kind
    case Pawn => ValidatePawn(g, sr, sc, dr, dc, piece.color, destPiece)
    case Rook => ValidateRook(g, sr, sc, dr, dc)
    case Knight => ValidateKnight(sr, sc, dr, dc)
    case Bishop => ValidateBishop(g, sr, sc, dr, dc)
    case Queen => ValidateQueen(g, sr, sc, dr, dc)
    case King => ValidateKing(sr, sc, dr, dc)
  }

  /**
   * `is_valid_move` once both names have parsed: the source must hold a
   * piece of the player's, the squares must differ and the destination must
   * not hold the player's own piece; then the piece's own rule decides.
   */
  function ValidateSquares(g: Grid, s: Square, d: Square, player: Color): (v: Verdict)
    requires IsGrid(g) && OnBoard(s.0, s.1) && OnBoard(d.0, d.1)
    ensures v.valid ==> g[s.0][s.1].Some? && g[s.0][s.1].value.color == player && s != d
    ensures v.valid ==> g[d.0][d.1].None? || g[d.0][d.1].value.color != player
    ensures v.valid <==> v.message == ""
  {
    GeneralMessagesDistinct();
    var piece := g[s.0][s.1];
    if piece.None? then Reject(NoPiece)
    else if piece.value.color != player then Reject(NotYours)
    else if s.0 == d.0 && s.1 == d.1 then Reject(SameSquare)
    else
      var destPiece := g[d.0][d.1];
      if destPiece.Some? && destPiece.value.color == player then Reject(OwnCapture)
      else KindRule(g, s.0, s.1, d.0, d.1, piece.value, destPiece)
  }

  /** `is_valid_move`: both names must parse before anything else is looked at. */
  function IsValidMove(g: Grid, source: string, destination: string, player: Color): (v: Verdict)
    requires IsGrid(g)
    ensures PositionToIndices(source).None? || PositionToIndices(destination).None? ==> v == Reject(InvalidFormat)
    ensures v.valid ==>
      (PositionToIndices(source).Some? && PositionToIndices(destination).Some? &&
       var s := PositionToIndices(source).value;
       g[s.0][s.1].Some? && g[s.0][s.1].value.color == player && s != PositionToIndices(destination).value)
    ensures v.valid <==> v.message == ""
  {
    var s := PositionToIndices(source);
    var d := PositionToIndices(destination);
    if s.None? || d.None? then Reject(InvalidFormat)
    else ValidateSquares(g, s.value, d.value, player)
  }

  // ---------------------------------------------------------------- properties

  /**
   * The rejections come in a fixed order: a malformed name first, then an
   * empty source, a piece of the other player, the same square twice and a
   * capture of one's own piece; each message appears exactly when every
   * earlier test passed and its own failed.
   */
  lemma RejectionOrder(g: Grid, source: string, destination: string, player: Color)
    requires IsGrid(g)
    ensures var v := IsValidMove(g, source, destination, player);
      var s := PositionToIndices(source);
      var d := PositionToIndices(destination);
      (v.message == InvalidFormat <==> s.None? || d.None?) &&
      (s.Some? && d.Some? ==>
        var piece := g[s.value.0][s.value.1];
        var destPiece := g[d.value.0][d.value.1];
        (v.message == NoPiece <==> piece.None?) &&
        (v.message == NotYours <==> piece.Some? && piece.value.color != player) &&
        (v.message == SameSquare <==> piece.Some? && piece.value.color == player && s == d) &&
        (v.message == OwnCapture <==> piece.Some? && piece.value.color == player && s != d &&
                                      destPiece.Some? && destPiece.value.color == player))
  {
    var s := PositionToIndices(source);
    var d := PositionToIndices(destination);
    if s.Some? && d.Some? {
      SquaresRejectionOrder(g, s.value, d.value, player);
    }
  }

  /** The five general rejections are told apart from each other and from every message of a piece's own rule. */
  lemma GeneralMessagesDistinct()
    ensures InvalidFormat !in KindMessages && NoPiece !in KindMessages && NotYours !in KindMessages
    ensures SameSquare !in KindMessages && OwnCapture !in KindMessages
    ensures |{InvalidFormat, NoPiece, NotYours, SameSquare, OwnCapture}| == 5
  {
    assert |InvalidFormat| == 23 && |NoPiece| == 27 && |NotYours| == 21 && |SameSquare| == 35 && |OwnCapture| == 29;
  }

  /** The order of the rejections once both names have parsed. */
  lemma SquaresRejectionOrder(g: Grid, s: Square, d: Square, player: Color)
    requires IsGrid(g) && OnBoard(s.0, s.1) && OnBoard(d.0, d.1)
    ensures var v := ValidateSquares(g, s, d, player);
      var piece := g[s.0][s.1];
      var destPiece := g[d.0][d.1];
      v.message != InvalidFormat &&
      (v.message == NoPiece <==> piece.None?) &&
      (v.message == NotYours <==> piece.Some? && piece.value.color != player) &&
      (v.message == SameSquare <==> piece.Some? && piece.value.color == player && s == d) &&
      (v.message == OwnCapture <==> piece.Some? && piece.value.color == player && s != d &&
                                    destPiece.Some? && destPiece.value.color == player)
  {
    GeneralMessagesDistinct();
  }

  /** The destination itself never decides whether the path is clear. */
  lemma PathIgnoresDestination(g: Grid, sr: int, sc: int, dr: int, dc: int, v: Option<Piece>)
    requires IsGrid(g) && OnBoard(sr, sc) && OnBoard(dr, dc) && Aligned(sr, sc, (dr, dc))
    ensures PathClear(Put(g, (dr, dc), v), sr, sc, dr, dc) == PathClear(g, sr, sc, dr, dc)
  {
    if (sr, sc) != (dr, dc) {
      var d := DirectionTo(sr, sc, (dr, dc));
      var dist := Distance(sr, sc, (dr, dc));
      var h := Put(g, (dr, dc), v);
      forall j | 1 <= j < dist
        ensures h[Along(sr, d.0, j)][Along(sc, d.1, j)] == g[Along(sr, d.0, j)][Along(sc, d.1, j)]
      {
        PathWalk(sr, sc, dr, dc, j);
      }
      PathWalk(sr, sc, dr, dc, dist);
    }
  }

  /**
   * For every kind but the pawn, a move of the player's piece passes the
   * validator exactly when the piece's generator lists the destination.
   */
  lemma SquaresMatchGenerator(g: Grid, s: Square, d: Square, player: Color)
    requires IsGrid(g) && OnBoard(s.0, s.1) && OnBoard(d.0, d.1)
    requires g[s.0][s.1].Some? && g[s.0][s.1].value.color == player && g[s.0][s.1].value.kind != Pawn
    ensures ValidateSquares(g, s, d, player).valid <==> d in Targets(g, g[s.0][s.1].value, s.0, s.1)
  {
    var p := g[s.0][s.1].value;
    assert p == Piece(p.kind, player);
    match p.kind
    case Rook => RookTargets(g, s.0, s.1, player, d);
    case Knight => KnightTargets(g, s.0, s.1, player, d);
    case Bishop => BishopTargets(g, s.0, s.1, player, d);
    case Queen => QueenTargets(g, s.0, s.1, player, d);
    case King => KingTargets(g, s.0, s.1, player, d);
  }

  /**
   * `is_valid_move` and `get_legal_moves` agree on every kind but the pawn:
   * with a piece of the player's on the source, the move is valid exactly
   * when the destination is among the generated squares.
   */
  lemma ValidExactlyWhenGenerated(g: Grid, source: string, destination: string, player: Color)
    requires IsGrid(g) && PositionToIndices(source).Some? && PositionToIndices(destination).Some?
    requires var s := PositionToIndices(source).value;
      g[s.0][s.1].Some? && g[s.0][s.1].value.color == player && g[s.0][s.1].value.kind != Pawn
    ensures var s := PositionToIndices(source).value;
      IsValidMove(g, source, destination, player).valid <==>
      PositionToIndices(destination).value in Targets(g, g[s.0][s.1].value, s.0, s.1)
  {
    SquaresMatchGenerator(g, PositionToIndices(source).value, PositionToIndices(destination).value, player);
  }

  /**
   * Each way a pawn move can fail has its own message: a straight move onto
   * an occupied square, however far; a double step from the starting row
   * over an occupied middle square; a diagonal step forward onto an empty
   * square. Every other failure is an invalid pawn move.
   */
  lemma PawnMessages(g: Grid, sr: int, sc: int, dr: int, dc: int, color: Color, destPiece: Option<Piece>)
    requires IsGrid(g) && OnBoard(sr, sc)
    ensures var v := ValidatePawn(g, sr, sc, dr, dc, color, destPiece);
      var dir := Direction(color);
      var forwardBlocked := dc == sc && destPiece.Some?;
      var middleBlocked := dc == sc && destPiece.None? && sr == StartingRow(color) && dr - sr == 2 * dir &&
                           g[sr + dir][sc].Some?;
      var nothingToCapture := Abs(dc - sc) == 1 && dr - sr == dir && destPiece.None?;
      (v == Reject(PawnForward) <==> forwardBlocked) &&
      (v == Reject(PathBlocked) <==> middleBlocked) &&
      (v == Reject(PawnDiagonal) <==> nothingToCapture) &&
      (v == Reject(InvalidPawn) <==> !v.valid && !forwardBlocked && !middleBlocked && !nothingToCapture) &&
      (v.valid <==> v == Accept) &&
      (v.valid <==>
        (dc == sc && destPiece.None? &&
         (dr - sr == dir || (sr == StartingRow(color) && dr - sr == 2 * dir && g[sr + dir][sc].None?))) ||
        (Abs(dc - sc) == 1 && dr - sr == dir && destPiece.Some?))
  {
    assert |PawnForward| == 27 && |PathBlocked| == 15 && |InvalidPawn| == 17 && |PawnDiagonal| == 40;
  }

  /**
   * The pawn's rules: one step forward onto an empty square; two from the
   * starting row onto an empty square over an empty middle square; one
   * step diagonally forward onto a piece of the other color. Nothing else.
   */
  lemma PawnRules(g: Grid, s: Square, d: Square, player: Color)
    requires IsGrid(g) && OnBoard(s.0, s.1) && OnBoard(d.0, d.1)
    requires g[s.0][s.1] == Some(Piece(Pawn, player))
    ensures ValidateSquares(g, s, d, player).valid <==>
      var dir := Direction(player);
      var destPiece := g[d.0][d.1];
      (d == (s.0 + dir, s.1) && destPiece.None?) ||
      (s.0 == StartingRow(player) && d == (s.0 + 2 * dir, s.1) && destPiece.None? && g[s.0 + dir][s.1].None?) ||
      (d.0 == s.0 + dir && Abs(d.1 - s.1) == 1 && destPiece.Some? && destPiece.value.color != player)
  {
  }

  /**
   * The validator never accepts a pawn move the generator does not list,
   * and the generator lists exactly one kind of move the validator
   * refuses: the double step over an occupied middle square.
   */
  lemma PawnValidatorIsStricter(g: Grid, s: Square, d: Square, player: Color)
    requires IsGrid(g) && OnBoard(s.0, s.1) && OnBoard(d.0, d.1)
    requires g[s.0][s.1] == Some(Piece(Pawn, player))
    ensures ValidateSquares(g, s, d, player).valid ==>
      CanGenerate(Piece(Pawn, player), s.0) && d in Targets(g, Piece(Pawn, player), s.0, s.1)
    ensures CanGenerate(Piece(Pawn, player), s.0) ==>
      (d in Targets(g, Piece(Pawn, player), s.0, s.1) && !ValidateSquares(g, s, d, player).valid <==>
       s.0 == StartingRow(player) && d == (s.0 + 2 * Direction(player), s.1) &&
       g[d.0][d.1].None? && g[s.0 + Direction(player)][s.1].Some?)
  {
    PawnRules(g, s, d, player);
    if CanGenerate(Piece(Pawn, player), s.0) {
      PawnTargetsMember(g, s.0, s.1, player, d);
    }
  }

  /** The opening position with a black knight put on E3, in front of the white pawn on E2. */
  function BlockedPawnGrid(): (g: Grid)
    ensures IsGrid(g)
    ensures g[1][4] == Some(Piece(Pawn, White)) && g[2][4] == Some(Piece(Knight, Black)) && g[3][4].None?
  {
    Put(InitialGrid(), (2, 4), Some(Piece(Knight, Black)))
  }

  /** On that board the generator offers the pawn on E2 the square E4, jumping the knight. */
  lemma PawnJumpGenerated()
    ensures "E4" in LegalMoves(BlockedPawnGrid(), Piece(Pawn, White), 1, 4)
  {
    var g := BlockedPawnGrid();
    PawnTargetsMember(g, 1, 4, White, (3, 4));
    NameInToUci(Targets(g, Piece(Pawn, White), 1, 4), (3, 4));
    assert SquareName(3, 4) == "E4";
  }

  /** "E2" and "E4" name the squares (1, 4) and (3, 4). */
  lemma PositionsE2E4()
    ensures PositionToIndices("E2") == Some((1, 4)) && PositionToIndices("E4") == Some((3, 4))
  {
    NamedSquare("E2", 1, 4);
    NamedSquare("E4", 3, 4);
    PositionToIndicesAgrees("E2");
    PositionToIndicesAgrees("E4");
  }

  /**
   * On the same board the validator refuses E2 (the square (1, 4), see
   * `PositionsE2E4`) to E4 (the square (3, 4)) because the path is blocked.
   */
  lemma PawnJumpRejected()
    ensures ValidateSquares(BlockedPawnGrid(), (1, 4), (3, 4), White) == Reject(PathBlocked)
  {
  }
}
