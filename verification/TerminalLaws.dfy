/** What the terminal of drivers/char/console.c does, said without its code. */
module TerminalLaws {

  import opened Cells
  import opened Terminal
  import opened Escape

  /** Row `r` of a screen. */
  function Row(c: Setup, s: seq<Cell>, r: nat): seq<Cell>
    requires |s| == Rows(c.lines, c.cols) && r < c.lines
  {
    RowsOrder(r + 1, c.lines, c.cols);
    RowsStep(r, c.cols);
    s[Rows(r, c.cols)..Rows(r, c.cols) + c.cols]
  }

  lemma {:induction false} RowFits(c: Setup, r: nat)
    requires r < c.lines
    ensures Rows(r, c.cols) + c.cols <= Rows(c.lines, c.cols)
  {
    RowsOrder(r + 1, c.lines, c.cols);
    RowsStep(r, c.cols);
    hide Rows;
  }

  /** A scroll moves whole rows: those of the band come from `n` rows below, the last `n` are blank,
      and no row outside the band changes. */
  lemma {:induction false} ScrolledRow(c: Setup, s: seq<Cell>, from: nat, to: nat, n: nat, v: Cell, r: nat)
    requires |s| == Rows(c.lines, c.cols) && from < to <= c.lines && r < c.lines
    ensures Row(c, RowsUp(c, s, from, to, n, v), r) ==
      if from <= r < to then (if r + n < to then Row(c, s, r + n) else Blank(c.cols, v)) else Row(c, s, r)
  {
    hide Rows, Up;
    BandFits(c, from, to);
    RowFits(c, r);
    var u := RowsUp(c, s, from, to, n, v);
    var row := Row(c, u, r);
    var want := if from <= r < to then (if r + n < to then Row(c, s, r + n) else Blank(c.cols, v)) else Row(c, s, r);
    RowPlace(c, from, to, n, r);
    if r + n < to {
      RowFits(c, r + n);
    }
    forall k | 0 <= k < c.cols
      ensures row[k] == want[k]
    {
      UpAt(s, Rows(from, c.cols), Rows(to, c.cols), Rows(n, c.cols), v, Rows(r, c.cols) + k);
    }
  }

  /** Where a row's cells are, against the band's ends. */
  lemma {:induction false} RowPlace(c: Setup, from: nat, to: nat, n: nat, r: nat)
    ensures from <= r ==> Rows(from, c.cols) <= Rows(r, c.cols)
    ensures r < from ==> Rows(r, c.cols) + c.cols <= Rows(from, c.cols)
    ensures r < to ==> Rows(r, c.cols) + c.cols <= Rows(to, c.cols)
    ensures to <= r ==> Rows(to, c.cols) <= Rows(r, c.cols)
    ensures r + n < to ==>
      Rows(r + n, c.cols) == Rows(r, c.cols) + Rows(n, c.cols) && Rows(r + n, c.cols) + c.cols <= Rows(to, c.cols)
    ensures to <= r + n ==> Rows(to, c.cols) <= Rows(r, c.cols) + Rows(n, c.cols)
  {
    hide Rows;
    RowsStep(r, c.cols);
    RowsStep(r + n, c.cols);
    RowsOrder(r, r + n, c.cols);
    if from <= r { RowsOrder(from, r, c.cols); } else { RowsOrder(r + 1, from, c.cols); }
    if r < to { RowsOrder(r + 1, to, c.cols); } else { RowsOrder(to, r, c.cols); }
    if r + n < to { RowsOrder(r + n + 1, to, c.cols); } else { RowsOrder(to, r + n, c.cols); }
  }

  /** The row asked for, and the last one the cursor may be on. */
  function Asked(u: Cursor, decom: bool, y: int): int { if decom then y + u.top else y }
  function LastRow(c: Setup, u: Cursor, decom: bool): int { (if decom then u.bottom else c.lines) - 1 }

  /** Of the rows up to `last`, `r` is nearest to `row`. */
  ghost predicate Nearest(row: int, last: int, r: int) {
    0 <= r <= last && forall k :: 0 <= k <= last ==> Distance(r, row) <= Distance(k, row)
  }

  /** The cursor goes to the column asked for or the nearest margin, and to such a row exactly unless
      the row counted from the top margin does not fit in 32 bits. */
  lemma {:induction false} GotoNearest(c: Setup, u: Cursor, decom: bool, x: int, y: int)
    requires SetupOk(c) && CursorOk(c, u) && -0x8000_0000 <= y < 0x8000_0000
    ensures Nearest(x, c.cols - 1, Terminal.Goto(c, u, decom, x, y).x)
    ensures Nearest(Asked(u, decom, y), LastRow(c, u, decom), Terminal.Goto(c, u, decom, x, y).y)
       <==> !(decom && y + u.top >= 0x8000_0000)
  {
    var r, row, last := Terminal.Goto(c, u, decom, x, y), Asked(u, decom, y), LastRow(c, u, decom);
    Clipped(r.x, x, c.cols - 1);
    if decom && y + u.top >= 0x8000_0000 {
      Wrapped(row);
      assert r.y == 0 && Distance(0, row) > Distance(last, row);
    } else {
      assert decom ==> ToInt(row) == row;
      Clipped(r.y, row, last);
    }
  }

  lemma {:induction false} Clipped(r: int, row: int, last: int)
    requires 0 <= last && r == if row < 0 then 0 else if row > last then last else row
    ensures Nearest(row, last, r)
  {
  }

  lemma {:induction false} Wrapped(row: int)
    requires 0x8000_0000 <= row < 0x1_0000_0000
    ensures ToInt(row) == row - 0x1_0000_0000
  {
  }

  /** In origin mode, the region being the third to the tenth row, the row 2147483647 is the first row
      of the screen, and not the last of the region. */
  lemma {:induction false} GotoWraps(c: Setup, u: Cursor)
    requires SetupOk(c) && CursorOk(c, u) && u.top == 2 && u.bottom == 10
    ensures var y := ToInt(Less(2147483647)); Terminal.Goto(c, u, true, 0, y).y == 0 && !Nearest(y + 2, 9, 0)
  {
    GotoNearest(c, u, true, 0, ToInt(Less(2147483647)));
  }

  /** invert_screen as its author wrote it, with `(*p & 0x07) == 1`: an underlined character keeps the
      low bits of its attribute. */
  function InvertMeant(color: bool, w: Cell): Cell {
    var a := (w >> 8) as bv8;
    CellOf(if color then Swapped(a) else if a & 7 == 1 then a ^ 0x70 else a ^ 0x77, (w & 0xff) as bv8)
  }

  /** The code differs from that for the underlined characters of a console without colour. */
  lemma {:induction false} InvertDiffers(color: bool, w: Cell)
    ensures InvertCell(color, w) != InvertMeant(color, w) <==> !color && ((w >> 8) as bv8) & 7 == 1
  {
    var a := (w >> 8) as bv8;
    if !color && a & 7 == 1 {
      AttributesApart(a ^ 0x70, a ^ 0x77, (w & 0xff) as bv8);
    }
  }

  lemma {:induction false} AttributesApart(a: bv8, b: bv8, ch: bv8)
    requires a != b
    ensures CellOf(a, ch) != CellOf(b, ch)
  {
  }

  function Distance(a: int, b: int): nat { if a <= b then b - a else a - b }

  /** Saving and restoring bring back the column and the rendition always, and the row exactly when
      origin mode does not move it: gotoxy counts a restored row from the top margin again. */
  lemma {:induction false} SaveRestore(c: Setup, t: Term, later: Term)
    requires SetupOk(c) && TermOk(c, t) && TermOk(c, later) && later.saved == SaveCursor(t).saved
    ensures var r := RestoreCursor(c, later);
      && r.cur.x == t.cur.x && r.look.r == t.look.r && !r.cur.wrap
      && (r.cur.y == t.cur.y <==>
          !later.m.decom || (later.cur.top == 0 && t.cur.y < later.cur.bottom) || t.cur.y == later.cur.bottom - 1)
  {
    hide LookOk, ParserOk, RenditionOk, Attr, CellOf;
    assert ToInt(t.cur.y + later.cur.top) == t.cur.y + later.cur.top;
  }

  /** A cursor saved on the fifth row, the region being the third to the tenth and origin mode on,
      comes back on the seventh. */
  lemma {:induction false} SavedMoves(c: Setup, t: Term)
    requires SetupOk(c) && TermOk(c, t) && t.m.decom && t.cur.y == 4 && t.cur.top == 2 && t.cur.bottom == 10
    ensures RestoreCursor(c, SaveCursor(t)).cur.y == 6
  {
    hide LookOk, ParserOk, RenditionOk, Attr, CellOf;
    assert ToInt(t.cur.y + t.cur.top) == 6;
  }

  /** The parameters of a mode sequence act one after the other. */
  lemma {:induction false} ModesInParts(c: Setup, v: View, on: bool, a: seq<nat>, b: seq<nat>)
    requires ViewOk(c, v)
    ensures SetModes(c, v, on, a + b) == SetModes(c, SetModes(c, v, on, a), on, b)
    decreases |a|
  {
    hide ViewOk, SetMode;
    if a == [] {
      assert a + b == b;
    } else {
      assert (a + b)[1..] == a[1..] + b;
      ModesInParts(c, SetMode(c, v, on, a[0]), on, a[1..], b);
    }
  }

  /** How the bytes are cut into writes makes no difference. */
  lemma {:induction false} WrittenInParts(c: Setup, v: View, a: string, b: string)
    requires ViewOk(c, v) && (forall i :: 0 <= i < |a| ==> Byte(a[i])) && (forall i :: 0 <= i < |b| ==> Byte(b[i]))
    ensures Written(c, v, a + b) == Written(c, Written(c, v, a), b)
    decreases |b|
  {
    hide Put, ViewOk;
    if b == [] {
      assert a + b == a;
    } else {
      WrittenInParts(c, v, a, b[..|b| - 1]);
      assert (a + b)[..|a + b| - 1] == a + b[..|b| - 1];
    }
  }
}
