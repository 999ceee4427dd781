/** Where the cursor goes on the terminal of drivers/char/console.c, from the bytes that are typed. */
module MotionLaws {

  import opened Cells
  import opened Terminal
  import opened Escape
  import opened TerminalLaws
  import opened Typing

  // ---- numbers of 32 bits ------------------------------------------------------------------

  /** The signed 32-bit number that agrees with `n` in its low 32 bits. */
  lemma {:induction false} ToIntIs(n: int, m: int)
    ensures -0x8000_0000 <= ToInt(n) < 0x8000_0000 && (ToInt(n) - n) % 0x1_0000_0000 == 0
    ensures -0x8000_0000 <= m < 0x8000_0000 && (m - n) % 0x1_0000_0000 == 0 ==> m == ToInt(n)
  {
    var k := n / 0x1_0000_0000;
    assert n == k * 0x1_0000_0000 + n % 0x1_0000_0000;
    if (m - n) % 0x1_0000_0000 == 0 {
      var j := (m - n) / 0x1_0000_0000;
      assert m - n == j * 0x1_0000_0000;
    }
  }

  /** Rows and columns that a number of 32 bits still tells apart from the far end of the screen. */
  predicate Right(row: int, last: int) {
    -0x8000_0000 <= row < 0x8000_0000 || last == 0 || row >= 0x1_0000_0000 + last
  }

  /** The cursor asked for line `row` of those up to `last` is at the nearest one to its number in 32 bits; and at
      the nearest one to `row` exactly if that is right. */
  ghost predicate Lands(row: int, last: int, r: int) {
    Nearest(ToInt(row), last, r) && (Nearest(row, last, r) <==> Right(row, last))
  }

  lemma {:induction false} Landed(row: int, last: int, r: int)
    requires 0 <= last < 0x1000 && -0x1_0000_0000 < row < 0x1_8000_0000
    requires r == var k := ToInt(row); if k < 0 then 0 else if k > last then last else k
    ensures Lands(row, last, r)
  {
    Clipped(r, ToInt(row), last);
    var near := if row < 0 then 0 else if row > last then last else row;
    Clipped(near, row, last);
    OnlyNearest(row, last, r, near);
    hide Nearest;
    SmallInt(row);
  }

  lemma {:induction false} SmallInt(row: int)
    requires -0x1_0000_0000 < row < 0x1_8000_0000
    ensures ToInt(row) == if row < -0x8000_0000 then row + 0x1_0000_0000
                          else if row < 0x8000_0000 then row else row - 0x1_0000_0000
  {
    if row < -0x8000_0000 {
      ToIntIs(row, row + 0x1_0000_0000);
    } else if row < 0x8000_0000 {
      ToIntIs(row, row);
    } else {
      ToIntIs(row, row - 0x1_0000_0000);
    }
  }

  lemma {:induction false} OnlyNearest(row: int, last: int, r: int, near: int)
    requires 0 <= last && near == if row < 0 then 0 else if row > last then last else row
    ensures Nearest(row, last, r) <==> r == near
  {
    Clipped(near, row, last);
    if Nearest(row, last, r) {
      assert Distance(r, row) <= Distance(near, row);
    }
  }

  // ---- gotoxy ------------------------------------------------------------------------------

  /** Only the cursor has moved, and the parser is done. */
  ghost predicate MovesOnly(v: View, w: View) {
    && w == View(v.t.(esc := w.t.esc, cur := v.t.cur.(x := w.t.cur.x, y := w.t.cur.y, wrap := false)), v.cells)
    && w.t.esc.state == Normal
  }

  /** Only the cursor has moved, to column `x` and row `y`. In origin mode rows are counted from the top margin, also
      those that are reckoned from the cursor's own. */
  ghost predicate Arrives(c: Setup, v: View, w: View, x: int, y: int) {
    && MovesOnly(v, w)
    && Lands(x, c.cols - 1, w.t.cur.x)
    && Lands(y + (if v.t.m.decom then v.t.cur.top else 0), (if v.t.m.decom then v.t.cur.bottom else c.lines) - 1,
             w.t.cur.y)
  }

  lemma {:induction false} AddTwice(y: int, top: int)
    ensures ToInt(ToInt(y) + top) == ToInt(y + top)
  {
    ToIntIs(y, 0);
    ToIntIs(y + top, 0);
    hide ToInt;
    var k := (ToInt(y) - y) / 0x1_0000_0000;
    assert ToInt(y) - y == k * 0x1_0000_0000;
    var j := (ToInt(y + top) - (y + top)) / 0x1_0000_0000;
    assert ToInt(y + top) - (ToInt(y) + top) == (j - k) * 0x1_0000_0000;
    assert (ToInt(y + top) - (ToInt(y) + top)) % 0x1_0000_0000 == 0;
    ToIntIs(ToInt(y) + top, ToInt(y + top));
  }

  /** gotoxy with the numbers of 32 bits that stand for `x` and `y`. */
  lemma {:induction false} GotoArrives(c: Setup, v: View, p: Parser, x: int, y: int)
    requires ViewOk(c, v) && ParserOk(p) && p.state == Normal
    requires -0x1_0000_0000 < x < 0x1_4000_0000 && -0x1_0000_0000 < y < 0x1_4000_0000
    ensures Arrives(c, v, Moved(Typed(v, p), Terminal.Goto(c, v.t.cur, v.t.m.decom, ToInt(x), ToInt(y)), v.cells), x, y)
  {
    var u := v.t.cur;
    var r := Terminal.Goto(c, u, v.t.m.decom, ToInt(x), ToInt(y));
    AddTwice(y, u.top);
    hide ToInt, ParserOk, LookOk, RenditionOk;
    Landed(x, c.cols - 1, r.x);
    if v.t.m.decom {
      Landed(y + u.top, u.bottom - 1, r.y);
    } else {
      Landed(y, c.lines - 1, r.y);
    }
    hide Lands;
  }

  /** A line number: the first is 1, and so is none. */
  function Line(s: string): int
    requires AllDigits(s)
  {
    Count(s) - 1
  }

  lemma {:induction false} NumberFits(s: string)
    requires AllDigits(s)
    ensures Number(0, s) < 0x1_0000_0000
  {
    if s == [] {
      NumberNone(0);
    }
  }

  /** A sequence of one parameter that asks for a place. */
  lemma {:induction false} Goes(c: Setup, v: View, s: string, ch: char, x: int, y: int)
    requires Ready(c, v) && AllDigits(s) && Ends(ch)
    requires -0x1_0000_0000 < x < 0x1_4000_0000 && -0x1_0000_0000 < y < 0x1_4000_0000
    requires SetupOk(c) && TermOk(c, Typed(v, One(s, false)).t)
    requires var t := Typed(v, One(s, false)).t;
      OnFinal(c, t, ch) == Decoded(In(t, Normal), Goto(ToInt(x), ToInt(y)))
    ensures Bytes(Command(s, ch)) && Arrives(c, v, Written(c, v, Command(s, ch)), x, y)
  {
    hide ToInt, OnFinal, Put, Written, Number, Terminal.Goto, Arrives, ParserOk;
    CommandTyped(c, v, s, ch);
    Final(c, v, One(s, false), ch);
    GotoArrives(c, v, One(s, false).(state := Normal), x, y);
  }

  lemma {:induction false} Before(c: Setup, v: View, s: string)
    requires Ready(c, v) && AllDigits(s)
    ensures SetupOk(c) && TermOk(c, Typed(v, One(s, false)).t) && c.lines <= 255 && c.cols <= TABS
    ensures v.t.cur.x < c.cols && v.t.cur.y < c.lines && Number(0, s) < 0x1_0000_0000
    ensures ToInt(v.t.cur.x) == v.t.cur.x && ToInt(v.t.cur.y) == v.t.cur.y && ToInt(0) == 0
  {
    NumberFits(s);
    hide Number, Translation;
  }

  /** A place that is on the screen, and in origin mode in the region, is where the cursor goes. */
  lemma {:induction false} Reached(c: Setup, v: View, w: View, x: int, y: int)
    requires ViewOk(c, v) && Arrives(c, v, w, x, y) && 0 <= x < c.cols && 0 <= y
    requires if v.t.m.decom then y + v.t.cur.top < v.t.cur.bottom else y < c.lines
    ensures w.t.cur.x == x && w.t.cur.y == y + if v.t.m.decom then v.t.cur.top else 0
  {
    var row, last := if v.t.m.decom then y + v.t.cur.top else y, (if v.t.m.decom then v.t.cur.bottom else c.lines) - 1;
    SmallInt(x);
    SmallInt(row);
    OnlyNearest(x, c.cols - 1, w.t.cur.x, x);
    OnlyNearest(row, last, w.t.cur.y, row);
    hide Nearest, ParserOk, LookOk, RenditionOk;
  }

  // ---- the sequences -----------------------------------------------------------------------

  /** `ESC [ n A`, up; `ESC [ n F`, up and to the first column. */
  lemma {:induction false} UpTyped(c: Setup, v: View, s: string)
    requires Ready(c, v) && AllDigits(s)
    ensures Bytes(Command(s, 'A')) && Arrives(c, v, Written(c, v, Command(s, 'A')), v.t.cur.x, v.t.cur.y - Count(s))
    ensures Bytes(Command(s, 'F')) && Arrives(c, v, Written(c, v, Command(s, 'F')), 0, v.t.cur.y - Count(s))
  {
    hide Put, Written, Number, Arrives, Command, Ready, TermOk;
    Before(c, v, s);
    hide ToInt;
    Goes(c, v, s, 'A', v.t.cur.x, v.t.cur.y - Count(s));
    Goes(c, v, s, 'F', 0, v.t.cur.y - Count(s));
  }

  /** `ESC [ n B` and `ESC [ n e`, down; `ESC [ n E`, down and to the first column. */
  lemma {:induction false} DownTyped(c: Setup, v: View, s: string)
    requires Ready(c, v) && AllDigits(s)
    ensures Bytes(Command(s, 'B')) && Arrives(c, v, Written(c, v, Command(s, 'B')), v.t.cur.x, v.t.cur.y + Count(s))
    ensures Bytes(Command(s, 'e')) && Arrives(c, v, Written(c, v, Command(s, 'e')), v.t.cur.x, v.t.cur.y + Count(s))
    ensures Bytes(Command(s, 'E')) && Arrives(c, v, Written(c, v, Command(s, 'E')), 0, v.t.cur.y + Count(s))
  {
    hide Put, Written, Number, Arrives, Command, Ready, TermOk;
    Before(c, v, s);
    hide ToInt;
    Goes(c, v, s, 'B', v.t.cur.x, v.t.cur.y + Count(s));
    Goes(c, v, s, 'e', v.t.cur.x, v.t.cur.y + Count(s));
    Goes(c, v, s, 'E', 0, v.t.cur.y + Count(s));
  }

  /** `ESC [ n C` and `ESC [ n a`, right; `ESC [ n D`, left. */
  lemma {:induction false} AcrossTyped(c: Setup, v: View, s: string)
    requires Ready(c, v) && AllDigits(s)
    ensures Bytes(Command(s, 'C')) && Arrives(c, v, Written(c, v, Command(s, 'C')), v.t.cur.x + Count(s), v.t.cur.y)
    ensures Bytes(Command(s, 'a')) && Arrives(c, v, Written(c, v, Command(s, 'a')), v.t.cur.x + Count(s), v.t.cur.y)
    ensures Bytes(Command(s, 'D')) && Arrives(c, v, Written(c, v, Command(s, 'D')), v.t.cur.x - Count(s), v.t.cur.y)
  {
    hide Put, Written, Number, Arrives, Command, Ready, TermOk;
    Before(c, v, s);
    hide ToInt;
    Goes(c, v, s, 'C', v.t.cur.x + Count(s), v.t.cur.y);
    Goes(c, v, s, 'a', v.t.cur.x + Count(s), v.t.cur.y);
    Goes(c, v, s, 'D', v.t.cur.x - Count(s), v.t.cur.y);
  }

  /** `ESC [ n G` and the same with a grave accent, to a column; `ESC [ n d`, to a row. */
  lemma {:induction false} ToTyped(c: Setup, v: View, s: string)
    requires Ready(c, v) && AllDigits(s)
    ensures Bytes(Command(s, 'G')) && Arrives(c, v, Written(c, v, Command(s, 'G')), Line(s), v.t.cur.y)
    ensures Bytes(Command(s, '`')) && Arrives(c, v, Written(c, v, Command(s, '`')), Line(s), v.t.cur.y)
    ensures Bytes(Command(s, 'd')) && Arrives(c, v, Written(c, v, Command(s, 'd')), v.t.cur.x, Line(s))
  {
    hide Put, Written, Number, Arrives, Command, Ready, TermOk;
    Before(c, v, s);
    hide ToInt;
    Goes(c, v, s, 'G', Line(s), v.t.cur.y);
    Goes(c, v, s, '`', Line(s), v.t.cur.y);
    Goes(c, v, s, 'd', v.t.cur.x, Line(s));
  }

  /** `ESC [ n H` and `ESC [ n f`, to a row and the first column. */
  lemma {:induction false} HomeTyped(c: Setup, v: View, s: string)
    requires Ready(c, v) && AllDigits(s)
    ensures Bytes(Command(s, 'H')) && Arrives(c, v, Written(c, v, Command(s, 'H')), 0, Line(s))
    ensures Bytes(Command(s, 'f')) && Arrives(c, v, Written(c, v, Command(s, 'f')), 0, Line(s))
  {
    hide Put, Written, Number, Arrives, Command, Ready, TermOk;
    Before(c, v, s);
    hide ToInt;
    Goes(c, v, s, 'H', 0, Line(s));
    Goes(c, v, s, 'f', 0, Line(s));
  }

  /** `ESC [ m ; n H` and `ESC [ m ; n f`, to a row and a column. */
  lemma {:induction false} CellTyped(c: Setup, v: View, y: string, x: string)
    requires Ready(c, v) && AllDigits(y) && AllDigits(x) && y != [] && x != []
    ensures Bytes(Opening(y, x) + ['H'])
    ensures Arrives(c, v, Written(c, v, Opening(y, x) + ['H']), Line(x), Line(y))
    ensures Bytes(Opening(y, x) + ['f'])
    ensures Arrives(c, v, Written(c, v, Opening(y, x) + ['f']), Line(x), Line(y))
  {
    hide Put, Written, Number, Terminal.Goto, Arrives, ParserOk, Pair, Opening, Ready, ToInt;
    TwoTyped(c, v, y, x, 'H');
    TwoTyped(c, v, y, x, 'f');
    PairIs(y, x);
    NumberFits(y);
    NumberFits(x);
    Final(c, v, Pair(y, x), 'H');
    Final(c, v, Pair(y, x), 'f');
    Settled(c, v);
    GotoArrives(c, v, Pair(y, x).(state := Normal), Line(x), Line(y));
  }

  /** So in origin mode a move along the row leaves it: the cursor stays on its row exactly when the top margin is the
      first row and it is above the bottom margin, or when it is on the last row of the region. */
  lemma {:induction false} RowKept(c: Setup, v: View, w: View, x: int)
    requires ViewOk(c, v) && Arrives(c, v, w, x, v.t.cur.y)
    ensures w.t.cur.y == v.t.cur.y <==>
      !v.t.m.decom || (v.t.cur.top == 0 && v.t.cur.y < v.t.cur.bottom) || v.t.cur.y == v.t.cur.bottom - 1
  {
    var u := v.t.cur;
    var row, last := if v.t.m.decom then u.y + u.top else u.y, (if v.t.m.decom then u.bottom else c.lines) - 1;
    assert Lands(row, last, w.t.cur.y);
    SmallInt(row);
    OnlyNearest(row, last, w.t.cur.y, if row > last then last else row);
    hide Nearest, ParserOk, LookOk, RenditionOk;
  }

  /** A step to the right from the fifth row leads to the seventh, the region being the third to the tenth and origin
      mode on. */
  lemma {:induction false} RowLeft(c: Setup, v: View, s: string)
    requires Ready(c, v) && AllDigits(s)
    requires v.t.m.decom && v.t.cur.y == 4 && v.t.cur.top == 2 && v.t.cur.bottom == 10
    ensures Bytes(Command(s, 'C')) && Written(c, v, Command(s, 'C')).t.cur.y == 6
  {
    hide Written, Number, Nearest, Command;
    AcrossTyped(c, v, s);
    var w := Written(c, v, Command(s, 'C'));
    assert Lands(6, 9, w.t.cur.y);
    SmallInt(6);
    OnlyNearest(6, 9, w.t.cur.y, 6);
  }

  /** A count of 2^32 - 1 up is one row down. */
  lemma {:induction false} CountWraps(c: Setup, v: View, s: string)
    requires Ready(c, v) && AllDigits(s) && Number(0, s) == 4294967295 && !v.t.m.decom && v.t.cur.y + 1 < c.lines
    ensures Bytes(Command(s, 'A')) && Written(c, v, Command(s, 'A')).t.cur.y == v.t.cur.y + 1
  {
    hide Written, Number, Nearest, Command;
    UpTyped(c, v, s);
    Before(c, v, s);
    var w := Written(c, v, Command(s, 'A'));
    var y: int := v.t.cur.y;
    assert Lands(y - 4294967295, c.lines - 1, w.t.cur.y);
    SmallInt(y - 4294967295);
    OnlyNearest(y + 1, c.lines - 1, w.t.cur.y, y + 1);
  }

  // ---- margins, and places kept ------------------------------------------------------------

  /** `ESC [ m ; n r`: margins of two lines at least, on the screen, or nothing. */
  lemma {:induction false} MarginsTyped(c: Setup, v: View, y: string, x: string)
    requires Ready(c, v) && AllDigits(y) && AllDigits(x) && y != [] && x != []
    ensures Bytes(Opening(y, x) + ['r'])
    ensures var w, from, to := Written(c, v, Opening(y, x) + ['r']), Count(y),
                               if Number(0, x) == 0 then c.lines else Number(0, x);
      if from < to <= c.lines then
        && w.t.cur.top == from - 1 && w.t.cur.bottom == to && ViewOk(c, w)
        && Arrives(c, v.(t := v.t.(cur := v.t.cur.(top := from - 1, bottom := to))), w, 0, 0)
      else w == v.(t := v.t.(esc := w.t.esc)) && w.t.esc.state == Normal
  {
    hide Put, Written, Number, Terminal.Goto, Arrives, ParserOk, Pair, Opening, Ready, LookOk, RenditionOk;
    TwoTyped(c, v, y, x, 'r');
    PairIs(y, x);
    Final(c, v, Pair(y, x), 'r');
    Settled(c, v);
    var from, to := Count(y), if Number(0, x) == 0 then c.lines else Number(0, x);
    if from < to <= c.lines {
      var u := v.(t := v.t.(cur := v.t.cur.(top := from - 1, bottom := to)));
      GotoArrives(c, u, Pair(y, x).(state := Normal), 0, 0);
    }
  }

  /** With one parameter the region reaches to the last line. */
  lemma {:induction false} TopTyped(c: Setup, v: View, s: string)
    requires Ready(c, v) && AllDigits(s)
    ensures Bytes(Command(s, 'r'))
    ensures var w, from := Written(c, v, Command(s, 'r')), Count(s);
      if from < c.lines then
        && w.t.cur.top == from - 1 && w.t.cur.bottom == c.lines && ViewOk(c, w)
        && Arrives(c, v.(t := v.t.(cur := v.t.cur.(top := from - 1, bottom := c.lines))), w, 0, 0)
      else w == v.(t := v.t.(esc := w.t.esc)) && w.t.esc.state == Normal
  {
    hide Put, Written, Number, Terminal.Goto, Arrives, ParserOk, Command, Ready, LookOk, RenditionOk;
    CommandTyped(c, v, s, 'r');
    Final(c, v, One(s, false), 'r');
    Settled(c, v);
    if Count(s) < c.lines {
      var u := v.(t := v.t.(cur := v.t.cur.(top := Count(s) - 1, bottom := c.lines)));
      GotoArrives(c, u, One(s, false).(state := Normal), 0, 0);
    }
  }

  /** `ESC [ s` and `ESC 7` keep the place, the rendition and the character sets. */
  lemma {:induction false} SaveTyped(c: Setup, v: View, s: string)
    requires Ready(c, v) && AllDigits(s)
    ensures Bytes(Command(s, 's')) && Saves(v, Written(c, v, Command(s, 's')))
    ensures Bytes([27 as char] + ['7']) && Saves(v, Written(c, v, [27 as char] + ['7']))
  {
    hide Put, Written, Number, Command, Ready, ParserOk, LookOk, RenditionOk, CursorOk;
    CommandTyped(c, v, s, 's');
    Final(c, v, One(s, false), 's');
    EscapeTyped(c, v, '7');
  }

  ghost predicate Saves(v: View, w: View) {
    && w == v.(t := v.t.(esc := w.t.esc, saved := Saved(v.t.cur.x, v.t.cur.y, v.t.look.r)))
    && w.t.esc.state == Normal
  }

  /** `ESC [ u` and `ESC 8` bring them back. */
  lemma {:induction false} RestoreTyped(c: Setup, v: View, s: string)
    requires Ready(c, v) && AllDigits(s)
    ensures Bytes(Command(s, 'u')) && Restores(c, v, Written(c, v, Command(s, 'u')))
    ensures Bytes([27 as char] + ['8']) && Restores(c, v, Written(c, v, [27 as char] + ['8']))
  {
    hide Put, Written, Number, Terminal.Goto, Arrives, Command, Ready, ParserOk, LookOk, RenditionOk, CursorOk;
    CommandTyped(c, v, s, 'u');
    Final(c, v, One(s, false), 'u');
    EscapeTyped(c, v, '8');
    Settled(c, v);
    OldEsc(c, v);
    Restored(c, v, One(s, false).(state := Normal));
    Restored(c, v, v.t.esc.(state := Normal));
  }

  lemma {:induction false} OldEsc(c: Setup, v: View)
    requires ViewOk(c, v)
    ensures ParserOk(v.t.esc.(state := Normal))
  {
  }

  ghost predicate Restores(c: Setup, v: View, w: View) {
    var s := v.t.saved;
    && Arrives(c, v, w.(t := w.t.(look := v.t.look)), s.x, s.y)
    && w.t.look.r == s.r && w.t.look.translate == (if s.r.charset then s.r.g1 else s.r.g0)
    && w.t.look == UpdateAttr(c.color, v.t.look.(r := s.r, translate := w.t.look.translate), v.t.m.decscnm)
  }

  lemma {:induction false} Restored(c: Setup, v: View, p: Parser)
    requires ViewOk(c, v) && ParserOk(p) && p.state == Normal
    ensures TermOk(c, Typed(v, p).t) && Restores(c, v, View(RestoreCursor(c, Typed(v, p).t), v.cells))
  {
    hide Terminal.Goto, Arrives, LookOk, RenditionOk, Attr, CellOf;
    assert ToInt(v.t.saved.x) == v.t.saved.x && ToInt(v.t.saved.y) == v.t.saved.y;
    GotoArrives(c, v, p, v.t.saved.x, v.t.saved.y);
  }
}
