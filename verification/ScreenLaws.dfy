/** What is on the screen of drivers/char/console.c after a byte or a sequence, cell by cell. */
module ScreenLaws {

  import opened Cells
  import opened Terminal
  import opened Escape
  import opened TerminalLaws
  import opened Typing

  /** The cell in row `r` and column `k`. */
  function CellAt(c: Setup, s: seq<Cell>, r: nat, k: nat): Cell
    requires |s| == Rows(c.lines, c.cols) && r < c.lines && k < c.cols
  {
    RowFits(c, r);
    s[Rows(r, c.cols) + k]
  }

  /** Cells come row after row. */
  lemma {:induction false} CellOrder(c: Setup, r: nat, k: nat, y: nat, x: nat)
    requires k < c.cols && x < c.cols
    ensures Rows(r, c.cols) + k <= Rows(y, c.cols) + x <==> r < y || (r == y && k <= x)
  {
    hide Rows;
    if r < y {
      RowsOrder(r + 1, y, c.cols);
      RowsStep(r, c.cols);
    } else if y < r {
      RowsOrder(y + 1, r, c.cols);
      RowsStep(y, c.cols);
    }
  }

  /** The terminal apart from the screen: only the parser has changed, which is done, and a pending wrap is off. */
  ghost predicate Dried(v: View, w: View) {
    && w.t == v.t.(esc := w.t.esc, cur := v.t.cur.(wrap := false)) && w.t.esc.state == Normal && |w.cells| == |v.cells|
  }

  /** Nothing but the parser has changed, which is done. */
  ghost predicate Idle(v: View, w: View) { w == v.(t := v.t.(esc := w.t.esc)) && w.t.esc.state == Normal }

  // ---- erasing -----------------------------------------------------------------------------

  /** Cell `(r, k)` is erased by `ESC [ p J` with the cursor at `(y, x)`. */
  predicate InDisplay(p: nat, y: nat, x: nat, r: nat, k: nat) {
    || (p == 0 && (r > y || (r == y && k >= x)))
    || (p == 1 && (r < y || (r == y && k <= x)))
    || p == 2
  }

  lemma {:induction false} FilledCell(c: Setup, s: seq<Cell>, from: nat, n: nat, e: Cell, r: nat, k: nat)
    requires |s| == Rows(c.lines, c.cols) && from + n <= |s| && r < c.lines && k < c.cols
    ensures CellAt(c, Fill(s, from, n, e), r, k)
         == if from <= Rows(r, c.cols) + k < from + n then e else CellAt(c, s, r, k)
  {
    RowFits(c, r);
    FillAt(s, from, n, e, Rows(r, c.cols) + k);
    hide Fill, Rows;
  }

  lemma {:induction false} DisplayCell(c: Setup, v: View, p: nat, r: nat, k: nat)
    requires ViewOk(c, v) && p <= 2 && r < c.lines && k < c.cols
    ensures var w := Terminal.EraseDisplay(c, v, p);
      && w.t == v.t.(cur := v.t.cur.(wrap := false)) && |w.cells| == |v.cells|
      && CellAt(c, w.cells, r, k)
         == if InDisplay(p, v.t.cur.y, v.t.cur.x, r, k) then v.t.look.erase else CellAt(c, v.cells, r, k)
  {
    var u := v.t.cur;
    hide ParserOk, LookOk, RenditionOk, Fill, Rows;
    AtFits(c, u);
    RowFits(c, r);
    var n := |v.cells|;
    FilledCell(c, v.cells, At(c, u), n - At(c, u), v.t.look.erase, r, k);
    FilledCell(c, v.cells, 0, At(c, u) + 1, v.t.look.erase, r, k);
    FilledCell(c, v.cells, 0, n, v.t.look.erase, r, k);
    CellOrder(c, r, k, u.y, u.x);
    CellOrder(c, u.y, u.x, r, k);
    hide CellAt;
  }

  lemma {:induction false} NoneErased(c: Setup, v: View, p: nat)
    requires ViewOk(c, v) && p > 2
    ensures Terminal.EraseDisplay(c, v, p) == Terminal.EraseLine(c, v, p) == v
  {
    hide ParserOk, LookOk, RenditionOk, Fill, Rows;
  }

  /** `ESC [ p J`: from the cursor on, up to and with it, or all; anything else nothing. */
  lemma {:induction false} EraseDisplayTyped(c: Setup, v: View, s: string)
    requires Ready(c, v) && AllDigits(s)
    ensures Bytes(Command(s, 'J'))
    ensures var w, p := Written(c, v, Command(s, 'J')), Number(0, s);
      if p > 2 then Idle(v, w)
      else
        && Dried(v, w) && |v.cells| == Rows(c.lines, c.cols)
        && forall r, k :: 0 <= r < c.lines && 0 <= k < c.cols ==>
          CellAt(c, w.cells, r, k)
            == if InDisplay(p, v.t.cur.y, v.t.cur.x, r, k) then v.t.look.erase else CellAt(c, v.cells, r, k)
  {
    hide Put, Written, Number, Command, Ready, ParserOk, LookOk, RenditionOk, CursorOk, Rows, CellAt, InDisplay;
    CommandTyped(c, v, s, 'J');
    Final(c, v, One(s, false), 'J');
    Settled(c, v);
    var p := Number(0, s);
    var n := Typed(v, One(s, false).(state := Normal));
    TypedOk(c, v, One(s, false).(state := Normal));
    hide Terminal.EraseDisplay;
    if p <= 2 {
      DisplayCell(c, n, p, 0, 0);
      forall r, k | 0 <= r < c.lines && 0 <= k < c.cols
        ensures CellAt(c, Terminal.EraseDisplay(c, n, p).cells, r, k)
             == if InDisplay(p, v.t.cur.y, v.t.cur.x, r, k) then v.t.look.erase else CellAt(c, v.cells, r, k)
      {
        DisplayCell(c, n, p, r, k);
      }
    } else {
      NoneErased(c, n, p);
    }
  }

  /** Column `k` of the cursor's row is erased by `ESC [ p K` with the cursor in column `x`. */
  predicate InLine(p: nat, x: nat, k: nat) { (p == 0 && k >= x) || (p == 1 && k <= x) || p == 2 }

  lemma {:induction false} LineCell(c: Setup, v: View, p: nat, r: nat, k: nat)
    requires ViewOk(c, v) && p <= 2 && r < c.lines && k < c.cols
    ensures var w := Terminal.EraseLine(c, v, p);
      && w.t == v.t.(cur := v.t.cur.(wrap := false)) && |w.cells| == |v.cells|
      && CellAt(c, w.cells, r, k)
         == if r == v.t.cur.y && InLine(p, v.t.cur.x, k) then v.t.look.erase else CellAt(c, v.cells, r, k)
  {
    var u := v.t.cur;
    hide ParserOk, LookOk, RenditionOk, Fill, Rows;
    AtFits(c, u);
    RowFits(c, r);
    FilledCell(c, v.cells, At(c, u), c.cols - u.x, v.t.look.erase, r, k);
    FilledCell(c, v.cells, Rows(u.y, c.cols), u.x + 1, v.t.look.erase, r, k);
    FilledCell(c, v.cells, Rows(u.y, c.cols), c.cols, v.t.look.erase, r, k);
    CellOrder(c, r, k, u.y, u.x);
    CellOrder(c, u.y, u.x, r, k);
    CellOrder(c, u.y, 0, r, k);
    CellOrder(c, r, k, u.y, c.cols - 1);
    hide CellAt;
  }

  /** `ESC [ p K`: of the cursor's row, from the cursor on, up to and with it, or all; anything else nothing. */
  lemma {:induction false} EraseLineTyped(c: Setup, v: View, s: string)
    requires Ready(c, v) && AllDigits(s)
    ensures Bytes(Command(s, 'K'))
    ensures var w, p := Written(c, v, Command(s, 'K')), Number(0, s);
      if p > 2 then Idle(v, w)
      else
        && Dried(v, w) && |v.cells| == Rows(c.lines, c.cols)
        && forall r, k :: 0 <= r < c.lines && 0 <= k < c.cols ==>
          CellAt(c, w.cells, r, k)
            == if r == v.t.cur.y && InLine(p, v.t.cur.x, k) then v.t.look.erase else CellAt(c, v.cells, r, k)
  {
    hide Put, Written, Number, Command, Ready, ParserOk, LookOk, RenditionOk, CursorOk, Rows, CellAt, InLine;
    CommandTyped(c, v, s, 'K');
    Final(c, v, One(s, false), 'K');
    Settled(c, v);
    var p := Number(0, s);
    var n := Typed(v, One(s, false).(state := Normal));
    TypedOk(c, v, One(s, false).(state := Normal));
    hide Terminal.EraseLine;
    if p <= 2 {
      LineCell(c, n, p, 0, 0);
      forall r, k | 0 <= r < c.lines && 0 <= k < c.cols
        ensures CellAt(c, Terminal.EraseLine(c, n, p).cells, r, k)
             == if r == v.t.cur.y && InLine(p, v.t.cur.x, k) then v.t.look.erase else CellAt(c, v.cells, r, k)
      {
        LineCell(c, n, p, r, k);
      }
    } else {
      NoneErased(c, n, p);
    }
  }

  // ---- inserting and deleting --------------------------------------------------------------

  /** Row `y` from column `x` on has moved right by `n` columns. */
  ghost predicate CharsIn(c: Setup, s: seq<Cell>, w: seq<Cell>, y: nat, x: nat, n: nat, e: Cell) {
    && |w| == |s| == Rows(c.lines, c.cols)
    && forall r: nat, k: nat {:trigger CellAt(c, w, r, k)} :: r < c.lines && k < c.cols ==>
      CellAt(c, w, r, k)
        == if r == y && k >= x then (if k < x + n then e else CellAt(c, s, r, k - n)) else CellAt(c, s, r, k)
  }

  /** Row `y` from column `x` on has moved left by `n` columns. */
  ghost predicate CharsOut(c: Setup, s: seq<Cell>, w: seq<Cell>, y: nat, x: nat, n: nat, e: Cell) {
    && |w| == |s| == Rows(c.lines, c.cols)
    && forall r: nat, k: nat {:trigger CellAt(c, w, r, k)} :: r < c.lines && k < c.cols ==>
      CellAt(c, w, r, k)
        == if r == y && k >= x then (if k + n < c.cols then CellAt(c, s, r, k + n) else e)
            else CellAt(c, s, r, k)
  }

  /** The rows from `from` to `to` have moved down by `n`. */
  ghost predicate RowsIn(c: Setup, s: seq<Cell>, w: seq<Cell>, from: nat, to: nat, n: nat, e: Cell) {
    && |w| == |s| == Rows(c.lines, c.cols) && to <= c.lines
    && forall r: nat, k: nat {:trigger CellAt(c, w, r, k)} :: r < c.lines && k < c.cols ==>
      CellAt(c, w, r, k)
        == if from <= r < to then (if r < from + n then e else CellAt(c, s, r - n, k)) else CellAt(c, s, r, k)
  }

  /** The rows from `from` to `to` have moved up by `n`. */
  ghost predicate RowsOut(c: Setup, s: seq<Cell>, w: seq<Cell>, from: nat, to: nat, n: nat, e: Cell) {
    && |w| == |s| == Rows(c.lines, c.cols) && to <= c.lines
    && forall r: nat, k: nat {:trigger CellAt(c, w, r, k)} :: r < c.lines && k < c.cols ==>
      CellAt(c, w, r, k)
        == if from <= r < to then (if r + n < to then CellAt(c, s, r + n, k) else e) else CellAt(c, s, r, k)
  }

  lemma {:induction false} InsertedCell(c: Setup, v: View, n: nat, r: nat, k: nat)
    requires ViewOk(c, v) && r < c.lines && k < c.cols
    ensures var w, x := Terminal.InsertChars(c, v, n), v.t.cur.x;
      && w.t == v.t.(cur := v.t.cur.(wrap := false)) && |w.cells| == |v.cells|
      && CellAt(c, w.cells, r, k)
         == if r == v.t.cur.y && k >= x then (if k < x + n then v.t.look.erase else CellAt(c, v.cells, r, k - n))
            else CellAt(c, v.cells, r, k)
  {
    var u := v.t.cur;
    hide ParserOk, LookOk, RenditionOk, Down, Rows;
    AtFits(c, u);
    RowFits(c, r);
    DownAt(v.cells, At(c, u), Rows(u.y + 1, c.cols), n, v.t.look.erase, Rows(r, c.cols) + k);
    CellOrder(c, u.y, u.x, r, k);
    CellOrder(c, r, k, u.y, c.cols - 1);
  }

  lemma {:induction false} DeletedCell(c: Setup, v: View, n: nat, r: nat, k: nat)
    requires ViewOk(c, v) && r < c.lines && k < c.cols
    ensures var w, x := Terminal.DeleteChars(c, v, n), v.t.cur.x;
      && w.t == v.t.(cur := v.t.cur.(wrap := false)) && |w.cells| == |v.cells|
      && CellAt(c, w.cells, r, k)
         == if r == v.t.cur.y && k >= x then (if k + n < c.cols then CellAt(c, v.cells, r, k + n) else v.t.look.erase)
            else CellAt(c, v.cells, r, k)
  {
    var u := v.t.cur;
    hide ParserOk, LookOk, RenditionOk, Up, Rows;
    AtFits(c, u);
    RowFits(c, r);
    UpAt(v.cells, At(c, u), Rows(u.y + 1, c.cols), n, v.t.look.erase, Rows(r, c.cols) + k);
    CellOrder(c, u.y, u.x, r, k);
    CellOrder(c, r, k, u.y, c.cols - 1);
  }

  /** A cell under a scroll up of the rows from `from` to `to`. */
  lemma {:induction false} UpCell(c: Setup, s: seq<Cell>, from: nat, to: nat, n: nat, e: Cell, r: nat, k: nat)
    requires |s| == Rows(c.lines, c.cols) && from < to <= c.lines && r < c.lines && k < c.cols
    ensures CellAt(c, RowsUp(c, s, from, to, n, e), r, k)
         == if from <= r < to then (if r + n < to then CellAt(c, s, r + n, k) else e) else CellAt(c, s, r, k)
  {
    hide Rows, RowsUp;
    ScrolledRow(c, s, from, to, n, e, r);
    RowFits(c, r);
    var u := RowsUp(c, s, from, to, n, e);
    assert CellAt(c, u, r, k) == Row(c, u, r)[k] && CellAt(c, s, r, k) == Row(c, s, r)[k];
    if r + n < to {
      RowFits(c, r + n);
      assert CellAt(c, s, r + n, k) == Row(c, s, r + n)[k];
    }
  }

  /** And under a scroll down. */
  lemma {:induction false} DownCell(c: Setup, s: seq<Cell>, from: nat, to: nat, n: nat, e: Cell, r: nat, k: nat)
    requires |s| == Rows(c.lines, c.cols) && from < to <= c.lines && r < c.lines && k < c.cols
    ensures CellAt(c, RowsDown(c, s, from, to, n, e), r, k)
         == if from <= r < to then (if r < from + n then e else CellAt(c, s, r - n, k)) else CellAt(c, s, r, k)
  {
    hide Rows, Down;
    BandFits(c, from, to);
    RowFits(c, r);
    DownAt(s, Rows(from, c.cols), Rows(to, c.cols), Rows(n, c.cols), e, Rows(r, c.cols) + k);
    RowPlace(c, from, to, 0, r);
    RowsOrder(from, from + n, c.cols);
    RowsAdd(from, n, c.cols);
    if r >= from + n {
      RowsOrder(from + n, r, c.cols);
      RowsAdd(r - n, n, c.cols);
      RowFits(c, r - n);
    } else {
      RowsOrder(r + 1, from + n, c.cols);
      RowsStep(r, c.cols);
    }
  }

  lemma {:induction false} RowsAdd(m: nat, n: nat, cols: nat)
    ensures Rows(m + n, cols) == Rows(m, cols) + Rows(n, cols)
  {
    RowsOrder(m, m + n, cols);
  }

  lemma {:induction false} LinesIn(c: Setup, v: View, n: nat, r: nat, k: nat)
    requires ViewOk(c, v) && r < c.lines && k < c.cols
    ensures var w, y, bottom := Terminal.InsertLines(c, v, n), v.t.cur.y, v.t.cur.bottom;
      && w.t == v.t.(cur := v.t.cur.(wrap := false)) && |w.cells| == |v.cells|
      && CellAt(c, w.cells, r, k)
         == if y <= r < bottom then (if r < y + n then v.t.look.erase else CellAt(c, v.cells, r - n, k))
            else CellAt(c, v.cells, r, k)
  {
    hide ParserOk, LookOk, RenditionOk, Rows, CellAt;
    if v.t.cur.y < v.t.cur.bottom {
      DownCell(c, v.cells, v.t.cur.y, v.t.cur.bottom, n, v.t.look.erase, r, k);
      hide RowsDown;
    }
  }

  lemma {:induction false} LinesOut(c: Setup, v: View, n: nat, r: nat, k: nat)
    requires ViewOk(c, v) && r < c.lines && k < c.cols
    ensures var w, y, bottom := Terminal.DeleteLines(c, v, n), v.t.cur.y, v.t.cur.bottom;
      && w.t == v.t.(cur := v.t.cur.(wrap := false)) && |w.cells| == |v.cells|
      && CellAt(c, w.cells, r, k)
         == if y <= r < bottom then (if r + n < bottom then CellAt(c, v.cells, r + n, k) else v.t.look.erase)
            else CellAt(c, v.cells, r, k)
  {
    hide ParserOk, LookOk, RenditionOk, Rows, CellAt;
    if v.t.cur.y < v.t.cur.bottom {
      UpCell(c, v.cells, v.t.cur.y, v.t.cur.bottom, n, v.t.look.erase, r, k);
      hide RowsUp;
    }
  }

  lemma {:induction false} CharsInAll(c: Setup, v: View, n: nat)
    requires ViewOk(c, v)
    ensures var w := Terminal.InsertChars(c, v, n);
      && w.t == v.t.(cur := v.t.cur.(wrap := false))
      && CharsIn(c, v.cells, w.cells, v.t.cur.y, v.t.cur.x, n, v.t.look.erase)
  {
    hide CellAt, ParserOk, LookOk, RenditionOk, Rows;
    InsertedCell(c, v, n, 0, 0);
    var w := Terminal.InsertChars(c, v, n);
    hide Terminal.InsertChars;
    forall r: nat, k: nat {:trigger CellAt(c, w.cells, r, k)} | r < c.lines && k < c.cols
      ensures CellAt(c, w.cells, r, k)
           == if r == v.t.cur.y && k >= v.t.cur.x
              then (if k < v.t.cur.x + n then v.t.look.erase else CellAt(c, v.cells, r, k - n))
              else CellAt(c, v.cells, r, k)
    {
      InsertedCell(c, v, n, r, k);
    }
  }

  lemma {:induction false} CharsOutAll(c: Setup, v: View, n: nat)
    requires ViewOk(c, v)
    ensures var w := Terminal.DeleteChars(c, v, n);
      && w.t == v.t.(cur := v.t.cur.(wrap := false))
      && CharsOut(c, v.cells, w.cells, v.t.cur.y, v.t.cur.x, n, v.t.look.erase)
  {
    hide CellAt, ParserOk, LookOk, RenditionOk, Rows;
    DeletedCell(c, v, n, 0, 0);
    var w := Terminal.DeleteChars(c, v, n);
    hide Terminal.DeleteChars;
    forall r: nat, k: nat {:trigger CellAt(c, w.cells, r, k)} | r < c.lines && k < c.cols
      ensures CellAt(c, w.cells, r, k)
           == if r == v.t.cur.y && k >= v.t.cur.x
              then (if k + n < c.cols then CellAt(c, v.cells, r, k + n) else v.t.look.erase)
              else CellAt(c, v.cells, r, k)
    {
      DeletedCell(c, v, n, r, k);
    }
  }

  lemma {:induction false} RowsInAll(c: Setup, v: View, n: nat)
    requires ViewOk(c, v)
    ensures var w := Terminal.InsertLines(c, v, n);
      && w.t == v.t.(cur := v.t.cur.(wrap := false))
      && RowsIn(c, v.cells, w.cells, v.t.cur.y, v.t.cur.bottom, n, v.t.look.erase)
  {
    hide CellAt, ParserOk, LookOk, RenditionOk, Rows;
    LinesIn(c, v, n, 0, 0);
    var w := Terminal.InsertLines(c, v, n);
    hide Terminal.InsertLines;
    forall r: nat, k: nat {:trigger CellAt(c, w.cells, r, k)} | r < c.lines && k < c.cols
      ensures CellAt(c, w.cells, r, k)
           == if v.t.cur.y <= r < v.t.cur.bottom
              then (if r < v.t.cur.y + n then v.t.look.erase else CellAt(c, v.cells, r - n, k))
              else CellAt(c, v.cells, r, k)
    {
      LinesIn(c, v, n, r, k);
    }
  }

  lemma {:induction false} RowsOutAll(c: Setup, v: View, n: nat)
    requires ViewOk(c, v)
    ensures var w := Terminal.DeleteLines(c, v, n);
      && w.t == v.t.(cur := v.t.cur.(wrap := false))
      && RowsOut(c, v.cells, w.cells, v.t.cur.y, v.t.cur.bottom, n, v.t.look.erase)
  {
    hide CellAt, ParserOk, LookOk, RenditionOk, Rows;
    LinesOut(c, v, n, 0, 0);
    var w := Terminal.DeleteLines(c, v, n);
    hide Terminal.DeleteLines;
    forall r: nat, k: nat {:trigger CellAt(c, w.cells, r, k)} | r < c.lines && k < c.cols
      ensures CellAt(c, w.cells, r, k)
           == if v.t.cur.y <= r < v.t.cur.bottom
              then (if r + n < v.t.cur.bottom then CellAt(c, v.cells, r + n, k) else v.t.look.erase)
              else CellAt(c, v.cells, r, k)
    {
      LinesOut(c, v, n, r, k);
    }
  }

  /** More than fill the row, or the screen, are as many as fill it. */
  lemma {:induction false} Enough(c: Setup, s: seq<Cell>, w: seq<Cell>, a: nat, b: nat, n: nat, e: Cell)
    ensures n >= 1 && CharsIn(c, s, w, a, b, Times(n, c.cols), e) ==> CharsIn(c, s, w, a, b, n, e)
    ensures n >= 1 && CharsOut(c, s, w, a, b, Times(n, c.cols), e) ==> CharsOut(c, s, w, a, b, n, e)
    ensures n >= 1 && RowsIn(c, s, w, a, b, Times(n, c.lines), e) ==> RowsIn(c, s, w, a, b, n, e)
    ensures n >= 1 && RowsOut(c, s, w, a, b, Times(n, c.lines), e) ==> RowsOut(c, s, w, a, b, n, e)
  {
    hide CellAt, Rows;
  }

  lemma {:induction false} InScreen(c: Setup, v: View)
    requires ViewOk(c, v)
    ensures v.t.cur.x < c.cols && v.t.cur.y < c.lines && v.t.cur.bottom <= c.lines && c.lines >= 1 && c.cols >= 2
    ensures |v.cells| == Rows(c.lines, c.cols)
  {
  }

  /** `ESC [ n @`: n blanks come in at the cursor, and the rest of the row moves right. */
  lemma {:induction false} InsertCharsTyped(c: Setup, v: View, s: string)
    requires Ready(c, v) && AllDigits(s)
    ensures Bytes(Command(s, '@'))
    ensures var w := Written(c, v, Command(s, '@'));
      Dried(v, w) && CharsIn(c, v.cells, w.cells, v.t.cur.y, v.t.cur.x, Count(s), v.t.look.erase)
  {
    hide Put, Written, Number, Command, Ready, ParserOk, LookOk, RenditionOk, CursorOk, Rows, CellAt, CharsIn;
    CommandTyped(c, v, s, '@');
    Final(c, v, One(s, false), '@');
    Settled(c, v);
    InScreen(c, v);
    var u := Typed(v, One(s, false).(state := Normal));
    TypedOk(c, v, One(s, false).(state := Normal));
    hide Terminal.InsertChars;
    var w := Terminal.InsertChars(c, u, Times(Number(0, s), c.cols));
    assert Written(c, v, Command(s, '@')) == w;
    CharsInAll(c, u, Times(Number(0, s), c.cols));
    assert Times(Number(0, s), c.cols) == Times(Count(s), c.cols);
    Enough(c, v.cells, w.cells, v.t.cur.y, v.t.cur.x, Count(s), v.t.look.erase);
  }

  /** `ESC [ n P`: n cells go at the cursor, and the rest of the row moves left. */
  lemma {:induction false} DeleteCharsTyped(c: Setup, v: View, s: string)
    requires Ready(c, v) && AllDigits(s)
    ensures Bytes(Command(s, 'P'))
    ensures var w := Written(c, v, Command(s, 'P'));
      Dried(v, w) && CharsOut(c, v.cells, w.cells, v.t.cur.y, v.t.cur.x, Count(s), v.t.look.erase)
  {
    hide Put, Written, Number, Command, Ready, ParserOk, LookOk, RenditionOk, CursorOk, Rows, CellAt, CharsOut;
    CommandTyped(c, v, s, 'P');
    Final(c, v, One(s, false), 'P');
    Settled(c, v);
    InScreen(c, v);
    var u := Typed(v, One(s, false).(state := Normal));
    TypedOk(c, v, One(s, false).(state := Normal));
    hide Terminal.DeleteChars;
    var w := Terminal.DeleteChars(c, u, Times(Number(0, s), c.cols));
    assert Written(c, v, Command(s, 'P')) == w;
    CharsOutAll(c, u, Times(Number(0, s), c.cols));
    assert Times(Number(0, s), c.cols) == Times(Count(s), c.cols);
    Enough(c, v.cells, w.cells, v.t.cur.y, v.t.cur.x, Count(s), v.t.look.erase);
  }

  /** `ESC [ n L`: n blank rows come in at the cursor, and those down to the bottom margin move down. */
  lemma {:induction false} InsertLinesTyped(c: Setup, v: View, s: string)
    requires Ready(c, v) && AllDigits(s)
    ensures Bytes(Command(s, 'L'))
    ensures var w := Written(c, v, Command(s, 'L'));
      Dried(v, w) && RowsIn(c, v.cells, w.cells, v.t.cur.y, v.t.cur.bottom, Count(s), v.t.look.erase)
  {
    hide Put, Written, Number, Command, Ready, ParserOk, LookOk, RenditionOk, CursorOk, Rows, CellAt, RowsIn;
    CommandTyped(c, v, s, 'L');
    Final(c, v, One(s, false), 'L');
    Settled(c, v);
    InScreen(c, v);
    var u := Typed(v, One(s, false).(state := Normal));
    TypedOk(c, v, One(s, false).(state := Normal));
    hide Terminal.InsertLines;
    var w := Terminal.InsertLines(c, u, Times(Number(0, s), c.lines));
    assert Written(c, v, Command(s, 'L')) == w;
    RowsInAll(c, u, Times(Number(0, s), c.lines));
    assert Times(Number(0, s), c.lines) == Times(Count(s), c.lines);
    Enough(c, v.cells, w.cells, v.t.cur.y, v.t.cur.bottom, Count(s), v.t.look.erase);
  }

  /** `ESC [ n M`: n rows go at the cursor, and those down to the bottom margin move up. */
  lemma {:induction false} DeleteLinesTyped(c: Setup, v: View, s: string)
    requires Ready(c, v) && AllDigits(s)
    ensures Bytes(Command(s, 'M'))
    ensures var w := Written(c, v, Command(s, 'M'));
      Dried(v, w) && RowsOut(c, v.cells, w.cells, v.t.cur.y, v.t.cur.bottom, Count(s), v.t.look.erase)
  {
    hide Put, Written, Number, Command, Ready, ParserOk, LookOk, RenditionOk, CursorOk, Rows, CellAt, RowsOut;
    CommandTyped(c, v, s, 'M');
    Final(c, v, One(s, false), 'M');
    Settled(c, v);
    InScreen(c, v);
    var u := Typed(v, One(s, false).(state := Normal));
    TypedOk(c, v, One(s, false).(state := Normal));
    hide Terminal.DeleteLines;
    var w := Terminal.DeleteLines(c, u, Times(Number(0, s), c.lines));
    assert Written(c, v, Command(s, 'M')) == w;
    RowsOutAll(c, u, Times(Number(0, s), c.lines));
    assert Times(Number(0, s), c.lines) == Times(Count(s), c.lines);
    Enough(c, v.cells, w.cells, v.t.cur.y, v.t.cur.bottom, Count(s), v.t.look.erase);
  }
}
