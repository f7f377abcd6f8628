/** Board classification for a 3x3 Tic-Tac-Toe board: the catalogue of
    winning lines, the first-match winner search, the draw test and the
    status (win / draw / turn) derived from them. Everything here is pure. */
module GameLogic {

  datatype Option<T> = None | Some(value: T)

  /** A player's token. */
  datatype Mark = X | O

  /** A board cell: empty (null in the source) or holding a mark. */
  datatype Cell = Empty | Filled(mark: Mark)

  /** A flat, row-major board of exactly nine cells. */
  type Board = s: seq<Cell> | |s| == 9
    witness [Empty, Empty, Empty, Empty, Empty, Empty, Empty, Empty, Empty]

  /** A triple of board positions. */
  datatype Line = Line(a: nat, b: nat, c: nat)

  /** What the winner search reports: both parts are None, or both are Some. */
  datatype WinnerInfo = WinnerInfo(winner: Option<Mark>, line: Option<Line>)

  datatype Kind = Turn | Win | Draw

  datatype Status = Status(kind: Kind, text: string, winner: Option<Mark>, line: Option<Line>)

  /** The text a mark is written as in the status messages. */
  function MarkName(m: Mark): (r: string)
    ensures |r| == 1
    ensures m == X <==> r == "X"
    ensures m == O <==> r == "O"
  {
    match m
    case X => "X"
    case O => "O"
  }

  predicate OnBoard(l: Line) {
    l.a < 9 && l.b < 9 && l.c < 9
  }

  /** A row, a column or one of the two diagonals of the 3x3 grid, stated
      arithmetically and independently of the catalogue below. */
  predicate Straight(l: Line) {
    (l.a < 9 && l.a % 3 == 0 && l.b == l.a + 1 && l.c == l.a + 2) ||
    (l.a < 3 && l.b == l.a + 3 && l.c == l.a + 6) ||
    (l.a == 0 && l.b == 4 && l.c == 8) ||
    (l.a == 2 && l.b == 4 && l.c == 6)
  }

  /** The eight winning lines, in the order the search visits them:
      rows, then columns, then the two diagonals. */
  function WinLines(): (lines: seq<Line>)
    ensures |lines| == 8
    ensures forall k :: 0 <= k < |lines| ==> OnBoard(lines[k]) && Straight(lines[k])
    ensures forall l :: Straight(l) ==> l in lines
    ensures forall j, k :: 0 <= j < k < |lines| ==> lines[j] != lines[k]
  {
    [ Line(0, 1, 2), Line(3, 4, 5), Line(6, 7, 8),
      Line(0, 3, 6), Line(1, 4, 7), Line(2, 5, 8),
      Line(0, 4, 8), Line(2, 4, 6) ]
  }

  /** The three cells of `l` hold the same non-empty mark. */
  predicate Completes(sq: Board, l: Line)
    requires OnBoard(l)
  {
    sq[l.a] != Empty && sq[l.a] == sq[l.b] && sq[l.a] == sq[l.c]
  }

  /** Every cell of `l` holds `m`. */
  predicate MarkedBy(sq: Board, l: Line, m: Mark)
    requires OnBoard(l)
  {
    sq[l.a] == Filled(m) && sq[l.b] == Filled(m) && sq[l.c] == Filled(m)
  }

  ghost predicate WonFrom(sq: Board, i: nat) {
    exists k :: i <= k < 8 && Completes(sq, WinLines()[k])
  }

  /** Some line of the catalogue is complete. */
  ghost predicate HasWinningLine(sq: Board) {
    WonFrom(sq, 0)
  }

  /** Line `k` is complete and no earlier line of the catalogue is. */
  ghost predicate FirstWin(sq: Board, i: nat, k: int) {
    i <= k < 8 && Completes(sq, WinLines()[k]) &&
    forall j :: i <= j < k ==> !Completes(sq, WinLines()[j])
  }

  /** No cell is empty. */
  ghost predicate IsFull(sq: Board) {
    Empty !in sq
  }

  /** The winner search of `calculateWinner`, resumed at catalogue index `i`:
      it visits the lines in order and stops at the first complete one. */
  function FindFrom(sq: Board, i: nat): (r: WinnerInfo)
    requires i <= 8
    ensures r.winner.Some? <==> r.line.Some?
    ensures r.line.Some? ==> OnBoard(r.line.value) && MarkedBy(sq, r.line.value, r.winner.value)
    decreases 8 - i
  {
    if i == 8 then WinnerInfo(None, None)
    else
      var l := WinLines()[i];
      if sq[l.a] != Empty && sq[l.a] == sq[l.b] && sq[l.a] == sq[l.c]
      then WinnerInfo(Some(sq[l.a].mark), Some(l))
      else FindFrom(sq, i + 1)
  }

  /** The search from index `i` reports the first complete line at or after
      `i` together with its mark, and reports nothing when there is none. */
  lemma {:induction false} FindFromFindsFirst(sq: Board, i: nat)
    requires i <= 8
    ensures var r := FindFrom(sq, i);
      (r.winner.Some? <==> r.line.Some?) &&
      (r.winner.Some? <==> WonFrom(sq, i)) &&
      (r.line.Some? ==> exists k :: FirstWin(sq, i, k) && r.line.value == WinLines()[k]) &&
      (r.line.Some? ==> OnBoard(r.line.value) && MarkedBy(sq, r.line.value, r.winner.value))
    decreases 8 - i
  {
    if i < 8 {
      FindFromFindsFirst(sq, i + 1);
      if !Completes(sq, WinLines()[i]) {
        var r := FindFrom(sq, i + 1);
        if r.line.Some? {
          var k :| FirstWin(sq, i + 1, k) && r.line.value == WinLines()[k];
          assert FirstWin(sq, i, k);
        }
      } else {
        assert FirstWin(sq, i, i);
      }
    }
  }

  /** `calculateWinner`: the first complete line in catalogue order and its
      mark, or no winner and no line. */
  function CalculateWinner(sq: Board): (r: WinnerInfo)
    ensures r.winner.Some? <==> r.line.Some?
    ensures r.winner.Some? <==> HasWinningLine(sq)
    ensures r.line.Some? ==> OnBoard(r.line.value) && MarkedBy(sq, r.line.value, r.winner.value)
  {
    FindFromFindsFirst(sq, 0);
    FindFrom(sq, 0)
  }

  /** When line `k` is the first complete one, it is the line reported,
      with the mark its cells hold. */
  lemma CalculateWinnerReportsFirst(sq: Board, k: nat)
    requires FirstWin(sq, 0, k)
    ensures CalculateWinner(sq) == WinnerInfo(Some(sq[WinLines()[k].a].mark), Some(WinLines()[k]))
  {
    var r := CalculateWinner(sq);
    assert WonFrom(sq, 0);
    FindFromFindsFirst(sq, 0);
    var k' :| FirstWin(sq, 0, k') && r.line.value == WinLines()[k'];
  }

  /** `squares.every((s) => s !== null)`. */
  function AllFilled(s: seq<Cell>): (r: bool)
    ensures r <==> Empty !in s
  {
    if |s| == 0 then true else s[0] != Empty && AllFilled(s[1..])
  }

  /** `isDraw`: a full board on which no line is complete. */
  function IsDraw(sq: Board): (r: bool)
    ensures r <==> !HasWinningLine(sq) && IsFull(sq)
    ensures HasWinningLine(sq) ==> !r
  {
    var w := CalculateWinner(sq);
    if w.winner.Some? then false else AllFilled(sq)
  }

  /** `getGameStatus`: exactly one of win, draw and turn; only a win carries
      a winner and a line, and only the turn text mentions the next player. */
  function GetGameStatus(sq: Board, nextPlayer: Mark): (r: Status)
    ensures r.kind == Win <==> HasWinningLine(sq)
    ensures r.kind == Draw <==> !HasWinningLine(sq) && IsFull(sq)
    ensures r.kind == Turn <==> !HasWinningLine(sq) && !IsFull(sq)
    ensures r.kind == Win ==>
      r.winner.Some? && r.line.Some? &&
      r.winner == CalculateWinner(sq).winner && r.line == CalculateWinner(sq).line &&
      r.text == MarkName(r.winner.value) + " wins!"
    ensures r.kind != Win ==> r.winner == None && r.line == None
    ensures r.kind == Draw ==> r.text == "It's a draw."
    ensures r.kind == Turn ==> r.text == "Turn: " + MarkName(nextPlayer)
  {
    var w := CalculateWinner(sq);
    if w.winner.Some? then
      Status(Win, MarkName(w.winner.value) + " wins!", w.winner, w.line)
    else if IsDraw(sq) then
      Status(Draw, "It's a draw.", None, None)
    else
      Status(Turn, "Turn: " + MarkName(nextPlayer), None, None)
  }

  /** A sample round: X holds the left column, O holds two cells of the top
      row. The search passes over the three rows and reports the first
      column: X wins on cells 0, 3 and 6. */
  lemma {:induction false} SampleLeftColumnWin(b: Board)
    requires b[0] == Filled(X) && b[1] == Filled(O) && b[2] == Filled(O)
    requires b[3] == Filled(X) && b[4] == Empty && b[6] == Filled(X) && b[7] == Empty
    ensures CalculateWinner(b) == WinnerInfo(Some(X), Some(Line(0, 3, 6)))
    ensures var st := GetGameStatus(b, O);
      st.kind == Win && st.winner == Some(X) && st.line == Some(Line(0, 3, 6))
  {
    assert FindFrom(b, 3) == WinnerInfo(Some(X), Some(Line(0, 3, 6)));
    assert FindFrom(b, 2) == FindFrom(b, 3);
    assert FindFrom(b, 1) == FindFrom(b, 2);
    assert FindFrom(b, 0) == FindFrom(b, 1);
  }

  /** The classification does not depend on the next player; once the round
      is over, neither does the text. */
  lemma StatusIgnoresNextPlayer(sq: Board, p: Mark, q: Mark)
    ensures GetGameStatus(sq, p).kind == GetGameStatus(sq, q).kind
    ensures GetGameStatus(sq, p).winner == GetGameStatus(sq, q).winner
    ensures GetGameStatus(sq, p).line == GetGameStatus(sq, q).line
    ensures GetGameStatus(sq, p).kind != Turn ==> GetGameStatus(sq, p) == GetGameStatus(sq, q)
  {
  }
}
