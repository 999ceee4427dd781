/** A console of drivers/char/console.c over video memory, scrolling by moving `origin` when the
    adapter can and by copying when it cannot. Either way it is the terminal of Escape.dfy.
    Addresses are counted in cells.
 */
module Console {

  import opened Cells
  import opened Terminal
  import opened Escape

  class Vc {
    const c: Setup
    /** The adapter is an EGA or VGA, whose origin can move. */
    const egac: bool
    const memStart: nat
    const memEnd: nat
    const vmem: array<Cell>

    var origin: nat
    var scrEnd: nat
    var pos: nat
    var t: Term

    ghost predicate Valid()
      reads this
    {
      && SetupOk(c) && TermOk(c, t)
      && memStart + Rows(c.lines, c.cols) <= memEnd
      && memStart <= origin && scrEnd == origin + Rows(c.lines, c.cols) && scrEnd <= memEnd <= vmem.Length
      && pos == origin + At(c, t.cur)
    }

    ghost function Screen(): seq<Cell>
      requires Valid()
      reads this, vmem
    {
      vmem[origin..scrEnd]
    }

    /** What can be seen and what is remembered. */
    ghost function Shown(): (v: View)
      requires Valid()
      reads this, vmem
      ensures ViewOk(c, v)
    {
      View(t, Screen())
    }

    /** Lines 1474-1480: the screen starts at the start of the console's memory. */
    constructor (c: Setup, egac: bool, vmem: array<Cell>, memStart: nat, memEnd: nat, t: Term)
      requires SetupOk(c) && TermOk(c, t) && memStart + Rows(c.lines, c.cols) <= memEnd <= vmem.Length
      ensures Valid() && this.c == c && this.egac == egac && this.vmem == vmem
      ensures Shown() == View(t, vmem[memStart..memStart + Rows(c.lines, c.cols)])
    {
      this.c, this.egac, this.vmem, this.memStart, this.memEnd, this.t := c, egac, vmem, memStart, memEnd, t;
      origin, scrEnd, pos := memStart, memStart + Rows(c.lines, c.cols), memStart + At(c, t.cur);
    }

    // ---- string instructions ---------------------------------------------------------------

    /** `rep stosw`, upwards. */
    method Stos(at: nat, n: nat, v: Cell)
      requires at + n <= vmem.Length
      modifies vmem
      ensures vmem[..] == Fill(old(vmem[..]), at, n, v)
    {
      hide Fill;
      ghost var m := vmem[..];
      FillNone(m, at, v);
      for i := 0 to n
        invariant vmem[..] == Fill(m, at, i, v)
      {
        FillMore(m, at, i, v);
        vmem[at + i] := v;
      }
    }

    /** `std; rep stosw` from `last` down. */
    method StosDown(last: nat, n: nat, v: Cell)
      requires n <= last + 1 <= vmem.Length
      modifies vmem
      ensures vmem[..] == Fill(old(vmem[..]), last + 1 - n, n, v)
    {
      hide Fill;
      ghost var m := vmem[..];
      FillNone(m, last + 1, v);
      for i := 0 to n
        invariant vmem[..] == Fill(m, last + 1 - i, i, v)
      {
        FillLess(m, last + 1 - i, i, v);
        vmem[last - i] := v;
      }
    }

    /** `rep movsl`, upwards: two cells at a time. */
    method Movs(dst: nat, src: nat, pairs: nat)
      requires dst <= src && src + 2 * pairs <= vmem.Length
      modifies vmem
      ensures vmem[..] == Copied(old(vmem[..]), dst, src, 2 * pairs)
    {
      hide Copied;
      ghost var m := vmem[..];
      CopiedNone(m, dst, src);
      for i := 0 to pairs
        invariant vmem[..] == Copied(m, dst, src, 2 * i)
      {
        CopiedMore(m, dst, src, 2 * i);
        CopiedMore(m, dst, src, 2 * i + 1);
        NextTwo(m, dst, src, 2 * i);
        var low, high := vmem[src + 2 * i], vmem[src + 2 * i + 1];
        vmem[dst + 2 * i] := low;
        vmem[dst + 2 * i + 1] := high;
      }
    }

    /** `std; rep movsl`: two cells at a time, from `dst` and `src` down. */
    method MovsDown(dst: int, src: int, pairs: nat)
      requires 0 <= dst && src <= dst && 0 <= src + 2 && dst + 2 <= vmem.Length && 2 * pairs <= src + 2
      modifies vmem
      ensures vmem[..] == Copied(old(vmem[..]), dst + 2 - 2 * pairs, src + 2 - 2 * pairs, 2 * pairs)
    {
      hide Copied;
      ghost var m := vmem[..];
      CopiedNone(m, dst + 2, src + 2);
      for i := 0 to pairs
        invariant vmem[..] == Copied(m, dst + 2 - 2 * i, src + 2 - 2 * i, 2 * i)
      {
        CopiedLess(m, dst + 2 - 2 * i, src + 2 - 2 * i, 2 * i);
        CopiedLess(m, dst + 1 - 2 * i, src + 1 - 2 * i, 2 * i + 1);
        LastTwo(m, dst + 2 - 2 * i, src + 2 - 2 * i, 2 * i);
        var low, high := vmem[src - 2 * i], vmem[src - 2 * i + 1];
        vmem[dst - 2 * i + 1] := high;
        vmem[dst - 2 * i] := low;
      }
    }

    // ---- scrolling -------------------------------------------------------------------------

    /** What the copy back to the start of the console's memory does to the cells and the pointers. */
    method CopyToStart()
      requires SetupOk(c) && memStart <= origin <= pos && scrEnd == origin + Rows(c.lines, c.cols)
      requires scrEnd <= memEnd <= vmem.Length
      modifies `origin, `scrEnd, `pos, vmem
      ensures origin == memStart && scrEnd == memStart + Rows(c.lines, c.cols)
      ensures pos == memStart + (old(pos) - old(origin))
      ensures c.cols <= Rows(c.lines, c.cols) && memStart + Rows(c.lines, c.cols) <= vmem.Length
      ensures vmem[..] == Fill(Copied(old(vmem[..]), memStart, old(origin) + c.cols, Rows(c.lines, c.cols) - c.cols),
                               memStart + Rows(c.lines, c.cols) - c.cols, c.cols, t.look.erase)
    {
      hide Rows, Fill, Copied, SetupOk;
      OneLine(c);
      Sizes(c, 0, c.lines);
      var cols := c.cols;
      origin := origin + cols;
      pos := pos + cols;
      scrEnd := scrEnd + cols;
      var count := Rows(c.lines - 1, cols) / 2;
      assert 2 * count == Rows(c.lines, cols) - cols;
      Movs(memStart, origin, count);
      Stos(memStart + 2 * count, cols, t.look.erase);
      scrEnd := scrEnd - (origin - memStart);
      pos := pos - (origin - memStart);
      origin := memStart;
    }

    /** Lines 432-447: there is no room for a row after the screen, which is copied to the start. */
    method ScrollBack()
      requires Valid() && scrEnd + c.cols > memEnd
      modifies `origin, `scrEnd, `pos, vmem
      ensures Valid() && Screen() == RowsUp(c, old(Screen()), 0, c.lines, 1, t.look.erase)
      ensures Within(old(vmem[..]), vmem[..], memStart, memEnd)
    {
      hide Rows, Fill, Copied, Up, TermOk, SetupOk, At, RowsUp, Within;
      OneLine(c);
      Sizes(c, 0, c.lines);
      RowsUpIs(c, Screen(), 0, c.lines, t.look.erase);
      ghost var m := vmem[..];
      ghost var o, e, n := origin, scrEnd, Rows(c.lines, c.cols);
      CopyToStart();
      CopyBack(m, memStart, o, e, c.cols, t.look.erase);
      assert vmem[..][memStart..scrEnd] == vmem[memStart..scrEnd];
      CopyFillWithin(m, memStart, o + c.cols, n - c.cols, memStart + n - c.cols, c.cols, t.look.erase,
                     memStart, memEnd);
    }

    /** Lines 448-456: there is room for one more row. */
    method ScrollOn()
      requires Valid() && scrEnd + c.cols <= memEnd
      modifies `origin, `scrEnd, `pos, vmem
      ensures Valid() && Screen() == RowsUp(c, old(Screen()), 0, c.lines, 1, t.look.erase)
      ensures Within(old(vmem[..]), vmem[..], memStart, memEnd)
    {
      hide Rows, Fill, Copied, Up, TermOk, SetupOk, At, RowsUp, Within;
      OneLine(c);
      Sizes(c, 0, c.lines);
      RowsUpIs(c, Screen(), 0, c.lines, t.look.erase);
      var cols, erase := c.cols, t.look.erase;
      ghost var m := vmem[..];
      ghost var o, e := origin, scrEnd;
      origin := origin + cols;
      pos := pos + cols;
      scrEnd := scrEnd + cols;
      Stos(scrEnd - cols, cols, erase);
      MoveOrigin(m, o, e, cols, erase);
      FillWithin(m, e, cols, erase, memStart, memEnd);
    }

    /** Lines 429-458: the origin moves on a row; at the end of memory the screen is copied back. */
    method ScrollByOrigin()
      requires Valid()
      modifies `origin, `scrEnd, `pos, vmem
      ensures Valid() && Screen() == RowsUp(c, old(Screen()), 0, c.lines, 1, t.look.erase)
      ensures Within(old(vmem[..]), vmem[..], memStart, memEnd)
    {
      hide Valid, Screen, RowsUp, Within;
      if scrEnd + c.cols > memEnd {
        ScrollBack();
      } else {
        ScrollOn();
      }
    }

    /** Lines 460-471: the rows below are copied up. */
    method ScrollByCopy(from: nat, to: nat)
      requires Valid() && from < to <= c.lines
      modifies vmem
      ensures Valid() && Screen() == RowsUp(c, old(Screen()), from, to, 1, t.look.erase)
      ensures Within(old(vmem[..]), vmem[..], memStart, memEnd)
    {
      hide Rows, Fill, Copied, Up, TermOk, SetupOk, At, RowsUp, Within;
      Sizes(c, from, to);
      RowsUpIs(c, Screen(), from, to, t.look.erase);
      var cols, erase := c.cols, t.look.erase;
      ghost var m := vmem[..];
      var count := Rows(to - from - 1, cols) / 2;
      var dst := origin + Rows(from, cols);
      Movs(dst, origin + Rows(from + 1, cols), count);
      Stos(dst + 2 * count, cols, erase);
      CopyUp(m, origin, scrEnd, Rows(from, cols), Rows(to, cols), cols, erase);
      CopyFillWithin(m, dst, dst + cols, 2 * count, dst + 2 * count, cols, erase, memStart, memEnd);
    }

    /** scrup (lines 418-473). Both ways of scrolling do the same to the screen. */
    method Scrup(from: nat, to: nat)
      requires Valid()
      modifies `origin, `scrEnd, `pos, vmem
      ensures Valid() && Screen() == RowsUp(c, old(Screen()), from, to, 1, t.look.erase)
      ensures Within(old(vmem[..]), vmem[..], memStart, memEnd)
    {
      hide Rows, TermOk, SetupOk, At, RowsUp, Within;
      var hardscroll := true;
      if to > c.lines || from >= to {
        RowsSame(c, Screen(), from, to, t.look.erase);
        WithinSame(vmem[..], memStart, memEnd);
        return;
      }
      if !egac {
        hardscroll := false;
      } else if from != 0 || to != c.lines {
        hardscroll := false;
      }
      if hardscroll {
        ScrollByOrigin();
      } else {
        ScrollByCopy(from, to);
      }
    }

    /** scrdown (lines 475-493). */
    method Scrdown(from: nat, to: nat)
      requires Valid()
      modifies vmem
      ensures Valid() && Screen() == RowsDown(c, old(Screen()), from, to, 1, t.look.erase)
      ensures Within(old(vmem[..]), vmem[..], memStart, memEnd)
    {
      hide Rows, Fill, Copied, Down, TermOk, SetupOk, At, RowsDown, Within;
      WithinSame(vmem[..], memStart, memEnd);
      if to > c.lines || from >= to {
        RowsSame(c, Screen(), from, to, t.look.erase);
        return;
      }
      Sizes(c, from, to);
      RowsDownIs(c, Screen(), from, to, t.look.erase);
      var cols, erase := c.cols, t.look.erase;
      ghost var m := vmem[..];
      var count := Rows(to - from - 1, cols) / 2;
      var last := origin + Rows(to, cols);
      MovsDown(last - 2, last - cols - 2, count);
      StosDown(last - 2 * count - 1, cols, erase);
      CopyDown(m, origin, scrEnd, Rows(from, cols), Rows(to, cols), cols, erase);
      ghost var dst := origin + Rows(from, cols);
      CopyFillWithin(m, dst + cols, dst, 2 * count, dst, cols, erase, memStart, memEnd);
    }

    // ---- the cursor ------------------------------------------------------------------------

    method Gotoxy(newX: int, newY: int)
      requires Valid()
      modifies `pos, `t
      ensures Valid()
      ensures Shown() == Moved(old(Shown()), Terminal.Goto(c, old(t.cur), t.m.decom, newX, newY), old(Screen()))
    {
      hide Rows, SetupOk, TermOk, CursorOk;
      TermCursor(c, t);
      var u, ny, maxY := t.cur, newY, c.lines;
      if newX < 0 {
        u := u.(x := 0);
      } else if newX >= c.cols {
        u := u.(x := c.cols - 1);
      } else {
        u := u.(x := newX);
      }
      if t.m.decom {
        ny, maxY := ToInt(newY + u.top), u.bottom;
      }
      if ny < 0 {
        u := u.(y := 0);
      } else if ny >= maxY {
        u := u.(y := maxY - 1);
      } else {
        u := u.(y := ny);
      }
      u := u.(wrap := false);
      assert u == Terminal.Goto(c, t.cur, t.m.decom, newX, newY);
      CursorIn(c, t, u);
      pos := origin + Rows(u.y, c.cols) + u.x;
      t := t.(cur := u);
    }

    method Lf()
      requires Valid()
      modifies this, vmem
      ensures Valid() && Shown() == Terminal.Lf(c, old(Shown()))
      ensures Within(old(vmem[..]), vmem[..], memStart, memEnd)
    {
      hide Rows, SetupOk, TermOk, CursorOk, RowsUp, Within;
      LfOk(c, Shown());
      RowsStep(t.cur.y, c.cols);
      if t.cur.y + 1 < t.cur.bottom {
        t := t.(cur := t.cur.(y := t.cur.y + 1));
        pos := pos + c.cols;
        WithinSame(vmem[..], memStart, memEnd);
      } else {
        Scrup(t.cur.top, t.cur.bottom);
        t := t.(cur := t.cur.(wrap := false));
      }
    }

    method Ri()
      requires Valid()
      modifies this, vmem
      ensures Valid() && Shown() == Terminal.Ri(c, old(Shown()))
      ensures Within(old(vmem[..]), vmem[..], memStart, memEnd)
    {
      hide Rows, SetupOk, TermOk, CursorOk, RowsDown, Within;
      LfOk(c, Shown());
      if t.cur.y > t.cur.top {
        RowsStep(t.cur.y - 1, c.cols);
        t := t.(cur := t.cur.(y := t.cur.y - 1));
        pos := pos - c.cols;
        WithinSame(vmem[..], memStart, memEnd);
      } else {
        Scrdown(t.cur.top, t.cur.bottom);
        t := t.(cur := t.cur.(wrap := false));
      }
    }

    method Cr()
      requires Valid()
      modifies `pos, `t
      ensures Valid() && Shown() == Terminal.Cr(c, old(Shown()))
    {
      hide Rows, SetupOk, TermOk, CursorOk;
      LfOk(c, Shown());
      pos := pos - t.cur.x;
      t := t.(cur := t.cur.(x := 0, wrap := false));
    }

    method Bs()
      requires Valid()
      modifies `pos, `t
      ensures Valid() && Shown() == Terminal.Bs(c, old(Shown()))
    {
      hide Rows, SetupOk, TermOk, CursorOk;
      LfOk(c, Shown());
      if t.cur.x > 0 {
        pos := pos - 1;
        t := t.(cur := t.cur.(x := t.cur.x - 1, wrap := false));
      }
    }

    /** Lines 1041-1049. */
    method Tab()
      requires Valid()
      modifies `pos, `t
      ensures Valid() && Shown() == Terminal.Tab(c, old(Shown()))
    {
      hide Rows, SetupOk, TermOk, CursorOk;
      TermCursor(c, t);
      TermTabs(c, t);
      TabIn(c, Shown());
      pos := pos - t.cur.x;
      var x := t.cur.x;
      while x < c.cols - 1
        invariant x < c.cols && NextTab(t.tabs, x, c.cols) == NextTab(t.tabs, t.cur.x, c.cols)
      {
        x := x + 1;
        if t.tabs[x] {
          break;
        }
      }
      t := t.(cur := t.cur.(x := x));
      pos := pos + x;
    }

    // ---- erasing and editing ---------------------------------------------------------------

    /** `n` cells erased from address `start` on; the wrap is no longer pending. */
    method Erase(start: nat, n: nat)
      requires Valid() && origin <= start && start + n <= scrEnd
      modifies `t, vmem
      ensures Valid() && Within(old(vmem[..]), vmem[..], memStart, memEnd)
      ensures Shown() == Moved(old(Shown()), Dry(old(t.cur)), Fill(old(Screen()), start - origin, n, t.look.erase))
    {
      hide Rows, SetupOk, TermOk, Fill, Within;
      TermCursor(c, t);
      CursorIn(c, t, Dry(t.cur));
      ghost var m := vmem[..];
      FillWindow(m, origin, scrEnd, start - origin, n, t.look.erase);
      FillWithin(m, start, n, t.look.erase, memStart, memEnd);
      Stos(start, n, t.look.erase);
      t := t.(cur := t.cur.(wrap := false));
    }

    /** csi_J. */
    method CsiJ(vpar: nat)
      requires Valid()
      modifies `t, vmem
      ensures Valid() && Shown() == Terminal.EraseDisplay(c, old(Shown()), vpar) && t == old(t).(cur := t.cur)
      ensures Within(old(vmem[..]), vmem[..], memStart, memEnd)
    {
      hide Rows, SetupOk, TermOk, Fill, Within, CursorOk, At;
      TermCursor(c, t);
      AtFits(c, t.cur);
      if vpar == 0 {
        Erase(pos, scrEnd - pos);
      } else if vpar == 1 {
        Erase(origin, pos - origin + 1);
      } else if vpar == 2 {
        Erase(origin, Rows(c.lines, c.cols));
      } else {
        WithinSame(vmem[..], memStart, memEnd);
      }
    }

    /** csi_K. */
    method CsiK(vpar: nat)
      requires Valid()
      modifies `t, vmem
      ensures Valid() && Shown() == Terminal.EraseLine(c, old(Shown()), vpar)
      ensures Within(old(vmem[..]), vmem[..], memStart, memEnd)
    {
      hide Rows, SetupOk, TermOk, Fill, Within, CursorOk;
      TermCursor(c, t);
      AtFits(c, t.cur);
      if vpar == 0 {
        Erase(pos, c.cols - t.cur.x);
      } else if vpar == 1 {
        Erase(pos - t.cur.x, t.cur.x + 1);
      } else if vpar == 2 {
        Erase(pos - t.cur.x, c.cols);
      } else {
        WithinSame(vmem[..], memStart, memEnd);
      }
    }

    /** Lines 845-850: `n` cells are carried one place on. */
    method CarryOn(at: nat, n: nat, v: Cell)
      requires at + n <= vmem.Length
      modifies vmem
      ensures vmem[..] == Down(old(vmem[..]), at, at + n, 1, v)
    {
      hide Down;
      ghost var m := vmem[..];
      var carry := v;
      DownNone(m, at, v);
      for j := 0 to n
        invariant vmem[..] == Down(m, at, at + j, 1, v)
        invariant carry == if j == 0 then v else m[at + j - 1]
      {
        DownMore(m, at, j, v);
        var tmp := vmem[at + j];
        vmem[at + j] := carry;
        carry := tmp;
      }
    }

    /** Lines 865-869: `n` cells are pulled one place back. */
    method PullBack(at: nat, n: nat, v: Cell)
      requires at + n < vmem.Length
      modifies vmem
      ensures vmem[..] == Fill(Copied(old(vmem[..]), at, at + 1, n), at + n, 1, v)
    {
      hide Copied, Fill;
      ghost var m := vmem[..];
      CopiedNone(m, at, at + 1);
      for j := 0 to n
        invariant vmem[..] == Copied(m, at, at + 1, j)
      {
        CopiedMore(m, at, at + 1, j);
        vmem[at + j] := vmem[at + j + 1];
      }
      FillOne(vmem[..], at + n, v);
      vmem[at + n] := v;
    }

    /** insert_char. */
    method InsertChar()
      requires Valid()
      modifies `t, vmem
      ensures Valid() && Shown() == Terminal.InsertChars(c, old(Shown()), 1)
      ensures Within(old(vmem[..]), vmem[..], memStart, memEnd)
    {
      hide Rows, SetupOk, TermOk, Within, CursorOk, Down, At;
      TermCursor(c, t);
      CursorDry(c, t.cur);
      CursorIn(c, t, Dry(t.cur));
      AtFits(c, t.cur);
      RowEnd(c, t.cur);
      ghost var m := vmem[..];
      assert m[origin..scrEnd] == Screen();
      var n, v := c.cols - t.cur.x, t.look.erase;
      DownWindow(m, origin, scrEnd, pos - origin, pos - origin + n, 1, v);
      DownWithin(m, pos, pos + n, 1, v, memStart, memEnd);
      CarryOn(pos, n, v);
      t := t.(cur := Dry(t.cur));
      assert Screen() == vmem[..][origin..scrEnd];
    }

    /** delete_char. */
    method DeleteChar()
      requires Valid()
      modifies `t, vmem
      ensures Valid() && Shown() == Terminal.DeleteChars(c, old(Shown()), 1)
      ensures Within(old(vmem[..]), vmem[..], memStart, memEnd)
    {
      hide Rows, SetupOk, TermOk, Within, CursorOk, Up, Fill, Copied, At;
      TermCursor(c, t);
      CursorDry(c, t.cur);
      CursorIn(c, t, Dry(t.cur));
      AtFits(c, t.cur);
      RowEnd(c, t.cur);
      ghost var m := vmem[..];
      assert m[origin..scrEnd] == Screen();
      var n, v := c.cols - t.cur.x - 1, t.look.erase;
      CopyUp(m, origin, scrEnd, pos - origin, pos - origin + n + 1, 1, v);
      CopyFillWithin(m, pos, pos + 1, n, pos + n, 1, v, memStart, memEnd);
      PullBack(pos, n, v);
      t := t.(cur := Dry(t.cur));
      assert Screen() == vmem[..][origin..scrEnd];
    }

    // ---- counts ----------------------------------------------------------------------------

    /** csi_at: characters go in one at a time. */
    method CsiAt(nr: nat)
      requires Valid()
      modifies `t, vmem
      ensures Valid() && Shown() == Terminal.InsertChars(c, old(Shown()), Times(nr, c.cols))
      ensures Within(old(vmem[..]), vmem[..], memStart, memEnd)
    {
      hide Rows, SetupOk, TermOk, Within, CursorOk, At, ViewOk, Times, Terminal.InsertChars;
      ghost var v, m := Shown(), vmem[..];
      var n := Times(nr, c.cols);
      ghost var all: nat := n;
      SomeTimes(c, nr);
      InsertChar();
      n := n - 1;
      ghost var k: nat := 1;
      while n > 0
        invariant 0 <= n && k + n == all && k > 0
        invariant Valid() && Shown() == Terminal.InsertChars(c, v, k) && Within(m, vmem[..], memStart, memEnd)
        decreases n
      {
        InsertedMore(c, v, k);
        ghost var was := vmem[..];
        InsertChar();
        WithinTwice(m, was, vmem[..], memStart, memEnd);
        n, k := n - 1, k + 1;
      }
    }

    method CsiP(nr: nat)
      requires Valid()
      modifies `t, vmem
      ensures Valid() && Shown() == Terminal.DeleteChars(c, old(Shown()), Times(nr, c.cols))
      ensures Within(old(vmem[..]), vmem[..], memStart, memEnd)
    {
      hide Rows, SetupOk, TermOk, Within, CursorOk, At, ViewOk, Times, Terminal.DeleteChars;
      ghost var v, m := Shown(), vmem[..];
      var n := Times(nr, c.cols);
      ghost var all: nat := n;
      SomeTimes(c, nr);
      DeleteChar();
      n := n - 1;
      ghost var k: nat := 1;
      while n > 0
        invariant 0 <= n && k + n == all && k > 0
        invariant Valid() && Shown() == Terminal.DeleteChars(c, v, k) && Within(m, vmem[..], memStart, memEnd)
        decreases n
      {
        DeletedMore(c, v, k);
        ghost var was := vmem[..];
        DeleteChar();
        WithinTwice(m, was, vmem[..], memStart, memEnd);
        n, k := n - 1, k + 1;
      }
    }

    method InsertLine()
      requires Valid()
      modifies `t, vmem
      ensures Valid() && Shown() == Terminal.InsertLines(c, old(Shown()), 1)
      ensures Within(old(vmem[..]), vmem[..], memStart, memEnd)
    {
      hide Rows, SetupOk, TermOk, Within, CursorOk, RowsDown;
      TermCursor(c, t);
      CursorDry(c, t.cur);
      CursorIn(c, t, Dry(t.cur));
      Scrdown(t.cur.y, t.cur.bottom);
      t := t.(cur := t.cur.(wrap := false));
    }

    /** delete_line; on the first line with the whole screen scrolling, the origin may move. */
    method DeleteLine()
      requires Valid()
      modifies this, vmem
      ensures Valid() && Shown() == Terminal.DeleteLines(c, old(Shown()), 1)
      ensures Within(old(vmem[..]), vmem[..], memStart, memEnd)
    {
      hide Rows, SetupOk, TermOk, Within, CursorOk, RowsUp;
      TermCursor(c, t);
      CursorDry(c, t.cur);
      CursorIn(c, t, Dry(t.cur));
      Scrup(t.cur.y, t.cur.bottom);
      t := t.(cur := t.cur.(wrap := false));
    }

    method CsiL(nr: nat)
      requires Valid()
      modifies `t, vmem
      ensures Valid() && Shown() == Terminal.InsertLines(c, old(Shown()), Times(nr, c.lines))
      ensures Within(old(vmem[..]), vmem[..], memStart, memEnd)
    {
      hide Rows, SetupOk, TermOk, Within, CursorOk, At, ViewOk, Times, Terminal.InsertLines;
      ghost var v, m := Shown(), vmem[..];
      var n := Times(nr, c.lines);
      ghost var all: nat := n;
      SomeTimes(c, nr);
      InsertLine();
      n := n - 1;
      ghost var k: nat := 1;
      while n > 0
        invariant 0 <= n && k + n == all && k > 0
        invariant Valid() && Shown() == Terminal.InsertLines(c, v, k) && Within(m, vmem[..], memStart, memEnd)
        decreases n
      {
        LinesMore(c, v, k);
        ghost var was := vmem[..];
        InsertLine();
        WithinTwice(m, was, vmem[..], memStart, memEnd);
        n, k := n - 1, k + 1;
      }
    }

    method CsiM(nr: nat)
      requires Valid()
      modifies this, vmem
      ensures Valid() && Shown() == Terminal.DeleteLines(c, old(Shown()), Times(nr, c.lines))
      ensures Within(old(vmem[..]), vmem[..], memStart, memEnd)
    {
      hide Rows, SetupOk, TermOk, Within, CursorOk, At, ViewOk, Times, Terminal.DeleteLines;
      ghost var v, m := Shown(), vmem[..];
      var n := Times(nr, c.lines);
      ghost var all: nat := n;
      SomeTimes(c, nr);
      DeleteLine();
      n := n - 1;
      ghost var k: nat := 1;
      while n > 0
        invariant 0 <= n && k + n == all && k > 0
        invariant Valid() && Shown() == Terminal.DeleteLines(c, v, k) && Within(m, vmem[..], memStart, memEnd)
        decreases n
      {
        LinesMore(c, v, k);
        ghost var was := vmem[..];
        DeleteLine();
        WithinTwice(m, was, vmem[..], memStart, memEnd);
        n, k := n - 1, k + 1;
      }
    }

    // ---- text, modes and reset -------------------------------------------------------------

    /** Lines 1012-1027. */
    method PrintChar(code: bv8)
      requires Valid()
      modifies this, vmem
      ensures Valid() && Shown() == Terminal.Print(c, old(Shown()), code)
      ensures Within(old(vmem[..]), vmem[..], memStart, memEnd)
    {
      hide Rows, SetupOk, TermOk, Within, At, CellOf, Terminal.Lf, Terminal.Cr, Terminal.InsertChars;
      ghost var m := vmem[..];
      WithinSame(m, memStart, memEnd);
      if t.cur.wrap {
        Cr();
        Lf();
      }
      ghost var m1 := vmem[..];
      if t.m.decim {
        InsertChar();
        WithinTwice(m, m1, vmem[..], memStart, memEnd);
      }
      ghost var m2 := vmem[..];
      StoreCell(CellOf(t.look.attr, code));
      WithinTwice(m, m2, vmem[..], memStart, memEnd);
    }

    method StoreCell(w: Cell)
      requires Valid()
      modifies `t, `pos, vmem
      ensures Valid() && Shown() == Terminal.Store(c, old(Shown()), w)
      ensures Within(old(vmem[..]), vmem[..], memStart, memEnd)
    {
      hide Rows, SetupOk, TermOk;
      TermCursor(c, t);
      AtFits(c, t.cur);
      ghost var m := vmem[..];
      vmem[pos] := w;
      assert vmem[..] == m[pos := w] && m[origin..scrEnd] == old(Screen());
      assert vmem[..][origin..scrEnd] == m[origin..scrEnd][pos - origin := w];
      var u := t.cur;
      if u.x == c.cols - 1 {
        u := u.(wrap := t.m.decawm);
      } else {
        u := u.(x := u.x + 1);
        pos := pos + 1;
      }
      CursorIn(c, t, u);
      t := t.(cur := u);
      assert Screen() == vmem[..][origin..scrEnd];
    }

    method InvertScreen()
      requires Valid()
      modifies vmem
      ensures Valid() && Screen() == Inverted(c.color, old(Screen()))
      ensures Within(old(vmem[..]), vmem[..], memStart, memEnd)
    {
      hide Rows, SetupOk, TermOk, At, InvertCell;
      ghost var m := vmem[..];
      for p := origin to scrEnd
        invariant |m| == vmem.Length
        invariant forall i :: 0 <= i < vmem.Length ==>
          vmem[i] == if origin <= i < p then InvertCell(c.color, m[i]) else m[i]
      {
        vmem[p] := InvertCell(c.color, vmem[p]);
      }
      assert Screen() == Inverted(c.color, m[origin..scrEnd]);
      assert m[origin..scrEnd] == old(Screen());
    }

    /** One parameter of set_mode (lines 763-808). */
    method SetMode(on: bool, p: nat)
      requires Valid()
      modifies `t, `pos, vmem
      ensures Valid() && Shown() == Terminal.SetMode(c, old(Shown()), on, p)
      ensures Within(old(vmem[..]), vmem[..], memStart, memEnd)
    {
      hide Rows, SetupOk, CursorOk, Within, At, UpdateAttr, Terminal.EraseDisplay, Terminal.Goto, Inverted;
      WithinSame(vmem[..], memStart, memEnd);
      UpdatedOk(c.color, t.look, on);
      if t.esc.ques {
        if p == 1 {
          t := t.(m := t.m.(decckm := on));
        } else if p == 3 {
          CsiJ(2);
          Gotoxy(0, 0);
        } else if p == 5 {
          if t.m.decscnm != on {
            t := t.(m := t.m.(decscnm := on));
            InvertScreen();
            t := t.(look := UpdateAttr(c.color, t.look, t.m.decscnm));
          }
        } else if p == 6 {
          t := t.(m := t.m.(decom := on));
          Gotoxy(0, 0);
        } else if p == 7 {
          t := t.(m := t.m.(decawm := on));
        } else if p == 8 {
          t := t.(m := t.m.(decarm := on));
        } else if p == 25 {
          t := t.(m := t.m.(deccm := on));
        }
      } else if p == 4 {
        t := t.(m := t.m.(decim := on));
      } else if p == 20 {
        t := t.(m := t.m.(lnm := on));
      }
    }

    /** set_mode (lines 758-809). */
    method SetModes(on: bool)
      requires Valid()
      modifies `t, `pos, vmem
      ensures Valid() && Shown() == Terminal.SetModes(c, old(Shown()), on, old(t.esc.par[..t.esc.npar + 1]))
      ensures Within(old(vmem[..]), vmem[..], memStart, memEnd)
    {
      hide Rows, SetupOk, TermOk, CursorOk, Within, At, Terminal.SetMode;
      ParsIn(c, t);
      ghost var v, m, esc := Shown(), vmem[..], t.esc;
      ghost var pars := t.esc.par[..t.esc.npar + 1];
      WithinSame(m, memStart, memEnd);
      var i := 0;
      while i <= t.esc.npar
        invariant i <= |pars| && t.esc == esc
        invariant Valid() && Within(m, vmem[..], memStart, memEnd)
        invariant Terminal.SetModes(c, Shown(), on, pars[i..]) == Terminal.SetModes(c, v, on, pars)
        decreases |pars| - i
      {
        ghost var was := vmem[..];
        ModeStays(c, Shown(), on, pars[i]);
        assert pars[i..][1..] == pars[i + 1..];
        SetMode(on, t.esc.par[i]);
        WithinTwice(m, was, vmem[..], memStart, memEnd);
        i := i + 1;
      }
    }

    /** restore_cur. */
    method RestoreCur()
      requires Valid()
      modifies `t, `pos
      ensures Valid() && Shown() == old(Shown()).(t := RestoreCursor(c, old(t)))
    {
      hide Rows, SetupOk, CursorOk, At, UpdateAttr, Terminal.Goto;
      Gotoxy(t.saved.x, t.saved.y);
      var s := t.saved;
      var k := t.look.(r := s.r, translate := if s.r.charset then s.r.g1 else s.r.g0);
      UpdatedOk(c.color, k, t.m.decscnm);
      t := t.(look := UpdateAttr(c.color, k, t.m.decscnm), cur := t.cur.(wrap := false));
    }

    /** reset_terminal. */
    method ResetTerminal()
      requires Valid()
      modifies `t, `pos, vmem
      ensures Valid() && Shown() == Terminal.Reset(c, old(Shown()))
      ensures Within(old(vmem[..]), vmem[..], memStart, memEnd)
    {
      hide Rows, SetupOk, TermOk, CursorOk, Within, At, Terminal.Goto, Terminal.EraseDisplay, ResetTerm;
      ResetStays(c, t);
      t := ResetTerm(c, t);
      Gotoxy(0, 0);
      CsiJ(2);
      SavedOk(c, t);
      t := SaveCursor(t);
    }

    /** Lines 1272-1279. */
    method AlignScreen()
      requires Valid()
      modifies `t, vmem
      ensures Valid() && Shown() == Terminal.Align(c, old(Shown()))
      ensures Within(old(vmem[..]), vmem[..], memStart, memEnd)
    {
      hide Rows, SetupOk, CursorOk, Within, At, Terminal.EraseDisplay;
      t := t.(look := t.look.(erase := (t.look.erase & 0xff00) | 69));
      CsiJ(2);
      t := t.(look := t.look.(erase := (t.look.erase & 0xff00) | 32));
    }

    method Do(a: Action)
      requires Valid()
      modifies this, vmem
      ensures Valid() && Shown() == Perform(c, old(Shown()), a)
      ensures Within(old(vmem[..]), vmem[..], memStart, memEnd)
    {
      hide Rows, SetupOk, TermOk, CursorOk, Within, At, ViewOk, Times, RestoreCursor, Terminal.Goto,
        Terminal.EraseDisplay,
           Terminal.EraseLine, Terminal.InsertChars, Terminal.DeleteChars, Terminal.InsertLines, Terminal.DeleteLines,
           Terminal.Print, Terminal.Lf, Terminal.Cr, Terminal.Ri, Terminal.Bs, Terminal.Tab, Terminal.SetModes,
           Terminal.Reset, Terminal.Align;
      WithinSame(vmem[..], memStart, memEnd);
      match a
      case Nothing =>
      case Print(code) => PrintChar(code);
      case Bs => Bs();
      case Tab => Tab();
      case Cr => Cr();
      case Lf => Lf();
      case Ri => Ri();
      case LfCr =>
        Lf();
        Cr();
      case CrLf =>
        Cr();
        Lf();
      case Goto(x, y) => Gotoxy(x, y);
      case EraseDisplay(p) => CsiJ(p);
      case EraseLine(p) => CsiK(p);
      case InsertLines(n) => CsiL(n);
      case DeleteLines(n) => CsiM(n);
      case InsertChars(n) => CsiAt(n);
      case DeleteChars(n) => CsiP(n);
      case Mode(on) => SetModes(on);
      case Restore => RestoreCur();
      case Reset => ResetTerminal();
      case Align => AlignScreen();
    }

    /** con_write (lines 1011-1310), on the bytes taken from the queue. */
    method ConWrite(s: string)
      requires Valid() && forall i :: 0 <= i < |s| ==> Byte(s[i])
      modifies this, vmem
      ensures Valid() && Shown() == Written(c, old(Shown()), s)
      ensures Within(old(vmem[..]), vmem[..], memStart, memEnd)
    {
      hide Rows, SetupOk, TermOk, CursorOk, Within, At, ViewOk, Perform, Next;
      ghost var v, m := Shown(), vmem[..];
      WithinSame(m, memStart, memEnd);
      for i := 0 to |s|
        invariant Valid() && Shown() == Written(c, v, s[..i]) && Within(m, vmem[..], memStart, memEnd)
      {
        assert s[..i + 1] == s[..i] + [s[i]];
        assert s[..i + 1][..i] == s[..i];
        ghost var was := vmem[..];
        NextOk(c, t, s[i]);
        NextStays(c, t, s[i]);
        var d := Next(c, t, s[i]);
        SameAt(c, t.cur, d.t.cur);
        t := d.t;
        Do(d.a);
        WithinTwice(m, was, vmem[..], memStart, memEnd);
      }
      assert s[..|s|] == s;
    }
  }

  lemma {:induction false} SameAt(c: Setup, u: Cursor, u': Cursor)
    requires u'.x == u.x && u'.y == u.y
    ensures At(c, u') == At(c, u)
  {
  }

  lemma {:induction false} ParsIn(c: Setup, t: Term)
    requires TermOk(c, t)
    ensures |t.esc.par| == NPAR && t.esc.npar < NPAR
  {
  }

  lemma {:induction false} ModeStays(c: Setup, v: View, on: bool, p: nat)
    requires ViewOk(c, v)
    ensures Terminal.SetMode(c, v, on, p).t.esc == v.t.esc
  {
    hide Rows, SetupOk, TermOk, UpdateAttr, Terminal.Goto, Inverted;
  }

  lemma {:induction false} ResetStays(c: Setup, t: Term)
    requires SetupOk(c) && TermOk(c, t)
    ensures var u := ResetTerm(c, t);
      TermOk(c, u) && At(c, u.cur) == At(c, t.cur) && !u.m.decom
  {
    hide Rows, UpdateAttr, TermOk;
  }

  lemma {:induction false} SavedOk(c: Setup, t: Term)
    requires SetupOk(c) && TermOk(c, t)
    ensures TermOk(c, SaveCursor(t)) && SaveCursor(t).cur == t.cur
  {
  }

  lemma {:induction false} UpdatedOk(color: bool, k: Look, decscnm: bool)
    ensures LookOk(k) ==> LookOk(UpdateAttr(color, k, decscnm))
  {
  }

  lemma {:induction false} SomeTimes(c: Setup, n: nat)
    requires SetupOk(c)
    ensures Times(n, c.cols) > 0 && Times(n, c.lines) > 0
  {
  }

  /** One character more. */
  lemma {:induction false} InsertedMore(c: Setup, v: View, k: nat)
    requires ViewOk(c, v)
    ensures Terminal.InsertChars(c, Terminal.InsertChars(c, v, k), 1) == Terminal.InsertChars(c, v, k + 1)
  {
    hide Rows, Up, Down, SetupOk, TermOk, At;
    AtFits(c, v.t.cur) by { TermCursor(c, v.t); }
    SamePlace(c, v.t.cur);
    DownTwice(v.cells, At(c, v.t.cur), Rows(v.t.cur.y + 1, c.cols), k, 1, v.t.look.erase);
  }

  lemma {:induction false} DeletedMore(c: Setup, v: View, k: nat)
    requires ViewOk(c, v)
    ensures Terminal.DeleteChars(c, Terminal.DeleteChars(c, v, k), 1) == Terminal.DeleteChars(c, v, k + 1)
  {
    hide Rows, Up, Down, SetupOk, TermOk, At;
    AtFits(c, v.t.cur) by { TermCursor(c, v.t); }
    SamePlace(c, v.t.cur);
    UpTwice(v.cells, At(c, v.t.cur), Rows(v.t.cur.y + 1, c.cols), k, 1, v.t.look.erase);
  }

  lemma {:induction false} SamePlace(c: Setup, u: Cursor)
    ensures At(c, Dry(u)) == At(c, u)
  {
  }

  /** One line more. */
  lemma {:induction false} LinesMore(c: Setup, v: View, k: nat)
    requires ViewOk(c, v)
    ensures Terminal.InsertLines(c, Terminal.InsertLines(c, v, k), 1) == Terminal.InsertLines(c, v, k + 1)
    ensures Terminal.DeleteLines(c, Terminal.DeleteLines(c, v, k), 1) == Terminal.DeleteLines(c, v, k + 1)
  {
    var u, e := v.t.cur, v.t.look.erase;
    if u.y < u.bottom {
      BandMore(c, v.cells, u.y, u.bottom, k, e) by {
        TermCursor(c, v.t);
      }
    }
    hide Rows, Up, Down, SetupOk, TermOk;
  }

  lemma {:induction false} BandMore(c: Setup, s: seq<Cell>, from: nat, to: nat, k: nat, e: Cell)
    requires |s| == Rows(c.lines, c.cols) && from < to <= c.lines
    ensures RowsDown(c, RowsDown(c, s, from, to, k, e), from, to, 1, e) == RowsDown(c, s, from, to, k + 1, e)
    ensures RowsUp(c, RowsUp(c, s, from, to, k, e), from, to, 1, e) == RowsUp(c, s, from, to, k + 1, e)
  {
    hide Rows, Up, Down;
    BandFits(c, from, to);
    RowsStep(k, c.cols);
    DownTwice(s, Rows(from, c.cols), Rows(to, c.cols), Rows(k, c.cols), c.cols, e);
    UpTwice(s, Rows(from, c.cols), Rows(to, c.cols), Rows(k, c.cols), c.cols, e);
  }

  lemma {:induction false} CursorDry(c: Setup, u: Cursor)
    requires CursorOk(c, u)
    ensures CursorOk(c, Dry(u)) && At(c, Dry(u)) == At(c, u)
  {
  }

  /** The cursor's line ends inside the screen. */
  lemma {:induction false} RowEnd(c: Setup, u: Cursor)
    requires SetupOk(c) && CursorOk(c, u)
    ensures u.x < c.cols && At(c, u) + (c.cols - u.x) == Rows(u.y + 1, c.cols) <= Rows(c.lines, c.cols)
  {
    AtFits(c, u);
    hide Rows;
  }

  lemma {:induction false} DownNone(m: seq<Cell>, at: nat, v: Cell)
    requires at <= |m|
    ensures Down(m, at, at, 1, v) == m
  {
    assert m[..at] + Blank(0, v) + m[at..at] + m[at..] == m;
  }

  lemma {:induction false} FillOne(m: seq<Cell>, at: nat, v: Cell)
    requires at < |m|
    ensures m[at := v] == Fill(m, at, 1, v)
  {
    FillNone(m, at, v);
    FillMore(m, at, 0, v);
    hide Fill;
  }

  lemma {:induction false} TermCursor(c: Setup, t: Term)
    requires SetupOk(c) && TermOk(c, t)
    ensures CursorOk(c, t.cur) && t.cur.x < c.cols <= TABS && t.cur.y < c.lines && t.cur.top < t.cur.bottom <= c.lines
  {
  }

  lemma {:induction false} TermTabs(c: Setup, t: Term)
    requires TermOk(c, t)
    ensures |t.tabs| == TABS
  {
  }

  lemma {:induction false} CursorIn(c: Setup, t: Term, u: Cursor)
    requires TermOk(c, t) && CursorOk(c, u)
    ensures TermOk(c, t.(cur := u))
  {
  }

  /** Where the moves lead is on the screen. */
  lemma {:induction false} LfOk(c: Setup, v: View)
    requires ViewOk(c, v)
    ensures ViewOk(c, Terminal.Lf(c, v)) && ViewOk(c, Terminal.Ri(c, v)) && ViewOk(c, Terminal.Cr(c, v))
    ensures ViewOk(c, Terminal.Bs(c, v))
    ensures v.t.cur.x < c.cols && v.t.cur.y < c.lines
  {
  }

  lemma {:induction false} TabIn(c: Setup, v: View)
    requires ViewOk(c, v)
    ensures ViewOk(c, Terminal.Tab(c, v))
  {
  }

  lemma {:induction false} OneLine(c: Setup)
    requires SetupOk(c)
    ensures c.lines > 0
  {
  }

  lemma {:induction false} RowsSame(c: Setup, s: seq<Cell>, from: nat, to: nat, v: Cell)
    requires |s| == Rows(c.lines, c.cols) && (to > c.lines || from >= to)
    ensures RowsUp(c, s, from, to, 1, v) == s && RowsDown(c, s, from, to, 1, v) == s
  {
  }

  lemma {:induction false} RowsUpIs(c: Setup, s: seq<Cell>, from: nat, to: nat, v: Cell)
    requires |s| == Rows(c.lines, c.cols) && from < to <= c.lines
    ensures Rows(from, c.cols) <= Rows(to, c.cols) <= |s|
    ensures RowsUp(c, s, from, to, 1, v) == Up(s, Rows(from, c.cols), Rows(to, c.cols), c.cols, v)
  {
    BandFits(c, from, to);
    RowsStep(0, c.cols);
    hide Rows, Up;
  }

  lemma {:induction false} RowsDownIs(c: Setup, s: seq<Cell>, from: nat, to: nat, v: Cell)
    requires |s| == Rows(c.lines, c.cols) && from < to <= c.lines
    ensures Rows(from, c.cols) <= Rows(to, c.cols) <= |s|
    ensures RowsDown(c, s, from, to, 1, v) == Down(s, Rows(from, c.cols), Rows(to, c.cols), c.cols, v)
  {
    BandFits(c, from, to);
    RowsStep(0, c.cols);
    hide Rows, Down;
  }

  /** The rows of a band, counted in cells. */
  lemma {:induction false} Sizes(c: Setup, from: nat, to: nat)
    requires SetupOk(c) && from < to <= c.lines
    ensures c.lines > 0 && c.cols >= 2 && c.cols % 2 == 0
    ensures Rows(to - from - 1, c.cols) == Rows(to, c.cols) - Rows(from, c.cols) - c.cols
    ensures Rows(from + 1, c.cols) == Rows(from, c.cols) + c.cols
    ensures Rows(to, c.cols) <= Rows(c.lines, c.cols) && Rows(c.lines - 1, c.cols) == Rows(c.lines, c.cols) - c.cols
    ensures Rows(to - from - 1, c.cols) % 2 == 0 && Rows(c.lines - 1, c.cols) % 2 == 0
    ensures from == 0 ==> Rows(from, c.cols) == 0
  {
    RowsOrder(from + 1, to, c.cols);
    RowsStep(from, c.cols);
    RowsOrder(to, c.lines, c.cols);
    RowsStep(c.lines - 1, c.cols);
    RowsEven(to - from - 1, c.cols);
    RowsEven(c.lines - 1, c.cols);
    RowsStep(0, c.cols);
    hide Rows;
  }

  lemma {:induction false} CopyFillWithin(m: seq<Cell>, dst: nat, src: nat, n: nat, at: nat, k: nat, v: Cell, lo: nat,
                                          hi: nat)
    requires lo <= dst && dst + n <= hi <= |m| && src + n <= |m| && lo <= at && at + k <= hi
    ensures Within(m, Fill(Copied(m, dst, src, n), at, k, v), lo, hi)
  {
    hide Fill, Copied, Within;
    CopiedWithin(m, dst, src, n, lo, hi);
    FillWithin(Copied(m, dst, src, n), at, k, v, lo, hi);
    WithinTwice(m, Copied(m, dst, src, n), Fill(Copied(m, dst, src, n), at, k, v), lo, hi);
  }

  /** What is still to be copied has not been overwritten. */
  lemma {:induction false} NextTwo(m: seq<Cell>, dst: nat, src: nat, n: nat)
    requires dst <= src && src + n + 2 <= |m|
    ensures Copied(m, dst, src, n)[src + n] == m[src + n] && Copied(m, dst, src, n)[src + n + 1] == m[src + n + 1]
  {
    CopiedAt(m, dst, src, n, src + n);
    CopiedAt(m, dst, src, n, src + n + 1);
    hide Copied;
  }

  lemma {:induction false} LastTwo(m: seq<Cell>, dst: nat, src: nat, n: nat)
    requires 2 <= src <= dst && dst + n <= |m|
    ensures Copied(m, dst, src, n)[src - 1] == m[src - 1] && Copied(m, dst, src, n)[src - 2] == m[src - 2]
  {
    CopiedAt(m, dst, src, n, src - 1);
    CopiedAt(m, dst, src, n, src - 2);
    hide Copied;
  }

  /** For all bytes, the console that scrolls by moving its origin shows what the one that copies
      shows. */
  method WriteBoth(moving: Vc, copying: Vc, s: string)
    requires moving.Valid() && copying.Valid() && moving != copying && moving.vmem != copying.vmem
    requires moving.egac && !copying.egac && moving.c == copying.c && moving.Shown() == copying.Shown()
    requires forall i :: 0 <= i < |s| ==> Byte(s[i])
    modifies moving, moving.vmem, copying, copying.vmem
    ensures moving.Valid() && copying.Valid() && moving.Shown() == copying.Shown()
  {
    hide Written;
    moving.ConWrite(s);
    copying.ConWrite(s);
  }
}
