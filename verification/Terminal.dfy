/** The terminal of drivers/char/console.c as a machine on rows of cells: what each byte written to
    it does, with no video memory in sight.
 */
module Terminal {

  import opened Cells

  const NPAR: nat := 16
  const TABS: nat := 160

  /** Screen size, `can_do_color` and the translation tables (Latin-1, graphics, IBM, user). */
  datatype Setup = Setup(lines: nat, cols: nat, color: bool, tables: seq<seq<bv8>>)

  predicate SetupOk(c: Setup) {
    && 1 <= c.lines <= 255 && 2 <= c.cols <= TABS && c.cols % 2 == 0
    && |c.tables| == 4 && forall i :: 0 <= i < 4 ==> |c.tables[i]| == 256
  }

  // The fields of `vc_cons` other than addresses.

  datatype Cursor = Cursor(x: nat, y: nat, top: nat, bottom: nat, wrap: bool)

  datatype Es = Normal | Esc | Square | GetPars | FuncKey | Hash | SetG0 | SetG1

  datatype Parser = Parser(state: Es, npar: nat, par: seq<nat>, ques: bool)

  /** Mode flags, the last four kept with the keyboard. */
  datatype Modes = Modes(decscnm: bool, decom: bool, decawm: bool, deccm: bool, decim: bool,
                         lnm: bool, decckm: bool, decarm: bool, kbdapplic: bool)

  /** What save_cur keeps besides the position. */
  datatype Rendition = Rendition(intensity: nat, underline: bool, blink: bool, reverse: bool, color: bv8,
                                 charset: bool, g0: nat, g1: nat)

  datatype Look = Look(r: Rendition, defColor: bv8, ulColor: bv8, halfColor: bv8, attr: bv8, erase: Cell,
    translate: nat)

  datatype Saved = Saved(x: nat, y: nat, r: Rendition)

  /** `reply` is what has been put in the read queue. */
  datatype Term = Term(cur: Cursor, esc: Parser, m: Modes, look: Look, saved: Saved, tabs: seq<bool>, reply: string)

  datatype View = View(t: Term, cells: seq<Cell>)

  ghost predicate CursorOk(c: Setup, u: Cursor) {
    u.x < c.cols && u.y < c.lines && u.top < u.bottom <= c.lines && (u.wrap ==> u.x == c.cols - 1)
  }

  ghost predicate ParserOk(p: Parser) {
    p.npar < NPAR && |p.par| == NPAR && forall i :: 0 <= i < NPAR ==> p.par[i] < 0x1_0000_0000
  }

  ghost predicate RenditionOk(r: Rendition) { r.g0 < 4 && r.g1 < 4 }

  ghost predicate LookOk(k: Look) { RenditionOk(k.r) && k.translate < 4 }

  ghost predicate TermOk(c: Setup, t: Term) {
    && CursorOk(c, t.cur) && ParserOk(t.esc) && LookOk(t.look)
    && RenditionOk(t.saved.r) && t.saved.x < c.cols && t.saved.y < c.lines && |t.tabs| == TABS
  }

  ghost predicate ViewOk(c: Setup, v: View) {
    SetupOk(c) && TermOk(c, v.t) && |v.cells| == Rows(c.lines, c.cols)
  }

  // ---- attributes --------------------------------------------------------------------------

  function Swapped(a: bv8): bv8 { (a & 0x88) | (((a >> 4) | (a << 4)) & 0x77) }

  // The steps of update_attr.

  function Based(color: bool, k: Look): bv8 {
    if !color then k.r.color else if k.r.underline then (k.r.color & 0xf0) | k.ulColor
    else if k.r.intensity == 0 then (k.r.color & 0xf0) | k.halfColor else k.r.color
  }

  function Flipped(a: bv8, flip: bool): bv8 { if flip then Swapped(a) else a }
  function Blinking(a: bv8, blink: bool): bv8 { if blink then a ^ 0x80 else a }
  function Brightened(a: bv8, bright: bool): bv8 { if bright then a ^ 0x08 else a }

  function Mono(color: bool, k: Look, a: bv8): bv8 {
    if color then a else if k.r.underline then (a & 0xf8) | 0x01
    else if k.r.intensity == 0 then (a & 0xf0) | 0x08 else a
  }

  function Attr(color: bool, k: Look, decscnm: bool): bv8 {
    var a := Blinking(Flipped(Based(color, k), k.r.reverse != decscnm), k.r.blink);
    Mono(color, k, Brightened(a, k.r.intensity == 2))
  }

  function CellOf(a: bv8, ch: bv8): Cell { ((a as bv16) << 8) | (ch as bv16) }

  function UpdateAttr(color: bool, k: Look, decscnm: bool): Look {
    k.(attr := Attr(color, k, decscnm), erase := CellOf(if decscnm then Swapped(k.r.color) else k.r.color, 32))
  }

  function DefaultAttr(k: Look): Look {
    k.(r := k.r.(intensity := 1, underline := false, reverse := false, blink := false, color := k.defColor))
  }

  /** `color_table`. */
  function ColorOf(n: nat): bv8 {
    match n
    case 1 => 4 case 2 => 2 case 3 => 6 case 4 => 1 case 5 => 5 case 6 => 3 case 7 => 7
    case 8 => 8 case 9 => 12 case 10 => 10 case 11 => 14 case 12 => 9 case 13 => 13 case 14 => 11 case 15 => 15
    case _ => 0
  }

  function Foreground(a: bv8, b: bv8): bv8 { (a & 0x0f) | (b & 0xf0) }
  function Raised(a: bv8): bv8 { a << 4 }
  function Background(a: bv8, b: bv8): bv8 { (a & 0xf0) | (b & 0x0f) }

  /** One parameter of csi_m. */
  function Sgr(k: Look, p: nat): (r: Look)
    ensures LookOk(k) ==> LookOk(r)
  {
    var r, d := k.r, k.defColor;
    match p
    case 0 => DefaultAttr(k)
    case 1 => k.(r := r.(intensity := 2))
    case 2 => k.(r := r.(intensity := 0))
    case 4 => k.(r := r.(underline := true))
    case 5 => k.(r := r.(blink := true))
    case 7 => k.(r := r.(reverse := true))
    case 21 => k.(r := r.(intensity := 1))
    case 22 => k.(r := r.(intensity := 1))
    case 24 => k.(r := r.(underline := false))
    case 25 => k.(r := r.(blink := false))
    case 27 => k.(r := r.(reverse := false))
    case 39 => k.(r := r.(color := Foreground(d, r.color)))
    case 49 => k.(r := r.(color := Background(d, r.color)))
    case _ =>
      if 30 <= p <= 37 then k.(r := r.(color := Foreground(ColorOf(p - 30), r.color)))
      else if 40 <= p <= 47 then k.(r := r.(color := Background(Raised(ColorOf(p - 40)), r.color)))
      else k
  }

  function SgrAll(k: Look, pars: seq<nat>): (r: Look)
    ensures LookOk(k) ==> LookOk(r)
    decreases |pars|
  {
    if pars == [] then k else SgrAll(Sgr(k, pars[0]), pars[1..])
  }

  /** setterm_command; the blanking interval is not part of this model. */
  function Setterm(color: bool, k: Look, decscnm: bool, p0: nat, p1: nat): (r: Look)
    ensures LookOk(k) ==> LookOk(r)
  {
    match p0
    case 1 =>
      if !color || p1 >= 16 then k
      else var u := k.(ulColor := ColorOf(p1)); if u.r.underline then UpdateAttr(color, u, decscnm) else u
    case 2 =>
      if !color || p1 >= 16 then k
      else var u := k.(halfColor := ColorOf(p1)); if u.r.intensity == 0 then UpdateAttr(color, u, decscnm) else u
    case 8 => UpdateAttr(color, DefaultAttr(k.(defColor := k.attr)), decscnm)
    case _ => k
  }

  /** One cell under invert_screen; without colour, `*p & 0x07 == 1` reads as `*p & (0x07 == 1)`. */
  function InvertCell(color: bool, w: Cell): Cell {
    var a := (w >> 8) as bv8;
    CellOf(if color then Swapped(a) else a ^ 0x77, (w & 0xff) as bv8)
  }

  function Inverted(color: bool, s: seq<Cell>): (r: seq<Cell>)
    ensures |r| == |s| && forall i :: 0 <= i < |s| ==> r[i] == InvertCell(color, s[i])
  {
    if s == [] then [] else Inverted(color, s[..|s| - 1]) + [InvertCell(color, s[|s| - 1])]
  }

  // ---- cursor and screen -------------------------------------------------------------------

  /** Conversion to a 32-bit signed integer. */
  function ToInt(n: int): int {
    var m := n % 0x1_0000_0000;
    if m < 0x8000_0000 then m else m - 0x1_0000_0000
  }

  /** gotoxy: the place asked for, or the nearest margin. */
  function Goto(c: Setup, u: Cursor, decom: bool, newX: int, newY: int): (r: Cursor)
    requires SetupOk(c) && CursorOk(c, u)
    ensures CursorOk(c, r) && r == Cursor(r.x, r.y, u.top, u.bottom, false)
  {
    var x := if newX < 0 then 0 else if newX >= c.cols then c.cols - 1 else newX;
    var ny := if decom then ToInt(newY + u.top) else newY;
    var maxY := if decom then u.bottom else c.lines;
    var y := if ny < 0 then 0 else if ny >= maxY then maxY - 1 else ny;
    u.(x := x, y := y, wrap := false)
  }

  /** The cursor's cell. */
  function At(c: Setup, u: Cursor): nat { Rows(u.y, c.cols) + u.x }

  lemma {:induction false} AtFits(c: Setup, u: Cursor)
    requires SetupOk(c) && CursorOk(c, u)
    ensures Rows(u.y, c.cols) <= At(c, u) < Rows(u.y + 1, c.cols) <= Rows(c.lines, c.cols)
    ensures Rows(u.y + 1, c.cols) == Rows(u.y, c.cols) + c.cols
  {
    RowsStep(u.y, c.cols);
    RowsOrder(u.y + 1, c.lines, c.cols);
    hide Rows;
  }

  lemma {:induction false} BandFits(c: Setup, from: nat, to: nat)
    requires from <= to <= c.lines
    ensures Rows(from, c.cols) <= Rows(to, c.cols) <= Rows(c.lines, c.cols)
  {
    RowsOrder(from, to, c.cols);
    RowsOrder(to, c.lines, c.cols);
    hide Rows;
  }

  /** Rows `from..to` move by `n` rows. */
  function RowsUp(c: Setup, s: seq<Cell>, from: nat, to: nat, n: nat, v: Cell): (r: seq<Cell>)
    requires |s| == Rows(c.lines, c.cols)
    ensures |r| == |s|
  {
    if to > c.lines || from >= to then s
    else
      BandFits(c, from, to);
      Up(s, Rows(from, c.cols), Rows(to, c.cols), Rows(n, c.cols), v)
  }

  function RowsDown(c: Setup, s: seq<Cell>, from: nat, to: nat, n: nat, v: Cell): (r: seq<Cell>)
    requires |s| == Rows(c.lines, c.cols)
    ensures |r| == |s|
  {
    if to > c.lines || from >= to then s
    else
      BandFits(c, from, to);
      Down(s, Rows(from, c.cols), Rows(to, c.cols), Rows(n, c.cols), v)
  }

  /** The cursor moved, and perhaps the cells. */
  function Moved(v: View, u: Cursor, s: seq<Cell>): View { View(v.t.(cur := u), s) }

  function Dry(u: Cursor): Cursor { u.(wrap := false) }

  function Lf(c: Setup, v: View): (r: View)
    requires ViewOk(c, v)
    ensures ViewOk(c, r)
  {
    var u := v.t.cur;
    if u.y + 1 < u.bottom then Moved(v, u.(y := u.y + 1), v.cells)
    else Moved(v, Dry(u), RowsUp(c, v.cells, u.top, u.bottom, 1, v.t.look.erase))
  }

  function Ri(c: Setup, v: View): (r: View)
    requires ViewOk(c, v)
    ensures ViewOk(c, r)
  {
    var u := v.t.cur;
    if u.y > u.top then Moved(v, u.(y := u.y - 1), v.cells)
    else Moved(v, Dry(u), RowsDown(c, v.cells, u.top, u.bottom, 1, v.t.look.erase))
  }

  function Cr(c: Setup, v: View): (r: View)
    requires ViewOk(c, v)
    ensures ViewOk(c, r)
  {
    Moved(v, v.t.cur.(x := 0, wrap := false), v.cells)
  }

  function Bs(c: Setup, v: View): (r: View)
    requires ViewOk(c, v)
    ensures ViewOk(c, r)
  {
    var u := v.t.cur;
    if u.x > 0 then Moved(v, u.(x := u.x - 1, wrap := false), v.cells) else v
  }

  /** The first tab stop right of `x`, or the last column. */
  function NextTab(tabs: seq<bool>, x: nat, cols: nat): (r: nat)
    requires x < cols <= |tabs|
    ensures r == x == cols - 1 || x < r < cols
    ensures (r < cols - 1 ==> tabs[r]) && forall k :: x < k < r ==> !tabs[k]
    decreases cols - x
  {
    if x == cols - 1 then x
    else if tabs[x + 1] then x + 1
    else NextTab(tabs, x + 1, cols)
  }

  function Tab(c: Setup, v: View): (r: View)
    requires ViewOk(c, v)
    ensures ViewOk(c, r)
  {
    Moved(v, v.t.cur.(x := NextTab(v.t.tabs, v.t.cur.x, c.cols)), v.cells)
  }

  /** csi_J: from the cursor on, up to and with it, or all. */
  function EraseDisplay(c: Setup, v: View, p: nat): (r: View)
    requires ViewOk(c, v)
    ensures ViewOk(c, r)
  {
    AtFits(c, v.t.cur);
    var n, u, e := |v.cells|, v.t.cur, v.t.look.erase;
    match p
    case 0 => Moved(v, Dry(u), Fill(v.cells, At(c, u), n - At(c, u), e))
    case 1 => Moved(v, Dry(u), Fill(v.cells, 0, At(c, u) + 1, e))
    case 2 => Moved(v, Dry(u), Fill(v.cells, 0, n, e))
    case _ => v
  }

  /** csi_K. */
  function EraseLine(c: Setup, v: View, p: nat): (r: View)
    requires ViewOk(c, v)
    ensures ViewOk(c, r)
  {
    AtFits(c, v.t.cur);
    var u, e := v.t.cur, v.t.look.erase;
    match p
    case 0 => Moved(v, Dry(u), Fill(v.cells, At(c, u), c.cols - u.x, e))
    case 1 => Moved(v, Dry(u), Fill(v.cells, Rows(u.y, c.cols), u.x + 1, e))
    case 2 => Moved(v, Dry(u), Fill(v.cells, Rows(u.y, c.cols), c.cols, e))
    case _ => v
  }

  /** A count: none means one, and there is a most. */
  function Times(n: nat, most: nat): nat { if n > most then most else if n == 0 then 1 else n }

  function InsertChars(c: Setup, v: View, n: nat): (r: View)
    requires ViewOk(c, v)
    ensures ViewOk(c, r)
  {
    AtFits(c, v.t.cur);
    Moved(v, Dry(v.t.cur), Down(v.cells, At(c, v.t.cur), Rows(v.t.cur.y + 1, c.cols), n, v.t.look.erase))
  }

  function DeleteChars(c: Setup, v: View, n: nat): (r: View)
    requires ViewOk(c, v)
    ensures ViewOk(c, r)
  {
    AtFits(c, v.t.cur);
    Moved(v, Dry(v.t.cur), Up(v.cells, At(c, v.t.cur), Rows(v.t.cur.y + 1, c.cols), n, v.t.look.erase))
  }

  function InsertLines(c: Setup, v: View, n: nat): (r: View)
    requires ViewOk(c, v)
    ensures ViewOk(c, r)
  {
    Moved(v, Dry(v.t.cur), RowsDown(c, v.cells, v.t.cur.y, v.t.cur.bottom, n, v.t.look.erase))
  }

  function DeleteLines(c: Setup, v: View, n: nat): (r: View)
    requires ViewOk(c, v)
    ensures ViewOk(c, r)
  {
    Moved(v, Dry(v.t.cur), RowsUp(c, v.cells, v.t.cur.y, v.t.cur.bottom, n, v.t.look.erase))
  }

  function Store(c: Setup, v: View, w: Cell): (r: View)
    requires ViewOk(c, v)
    ensures ViewOk(c, r)
  {
    AtFits(c, v.t.cur);
    var u := v.t.cur;
    Moved(v, if u.x == c.cols - 1 then u.(wrap := v.t.m.decawm) else u.(x := u.x + 1), v.cells[At(c, u) := w])
  }

  /** A printable character (lines 1012-1027). */
  function Print(c: Setup, v: View, code: bv8): (r: View)
    requires ViewOk(c, v)
    ensures ViewOk(c, r)
  {
    var v1 := if v.t.cur.wrap then Lf(c, Cr(c, v)) else v;
    var v2 := if v1.t.m.decim then InsertChars(c, v1, 1) else v1;
    Store(c, v2, CellOf(v2.t.look.attr, code))
  }

  // ---- modes, saving, reset ----------------------------------------------------------------

  function SaveCursor(t: Term): Term { t.(saved := Saved(t.cur.x, t.cur.y, t.look.r)) }

  function RestoreCursor(c: Setup, t: Term): (r: Term)
    requires SetupOk(c) && TermOk(c, t)
    ensures TermOk(c, r)
  {
    var s := t.saved;
    var k := t.look.(r := s.r, translate := if s.r.charset then s.r.g1 else s.r.g0);
    t.(cur := Goto(c, t.cur, t.m.decom, s.x, s.y), look := UpdateAttr(c.color, k, t.m.decscnm))
  }

  /** A DEC private mode set or reset. */
  function PrivateMode(c: Setup, v: View, on: bool, p: nat): (r: View)
    requires ViewOk(c, v)
    ensures ViewOk(c, r)
  {
    var t := v.t;
    match p
    case 1 => v.(t := t.(m := t.m.(decckm := on)))
    case 3 => var u := EraseDisplay(c, v, 2); Moved(u, Goto(c, u.t.cur, t.m.decom, 0, 0), u.cells)
    case 5 =>
      if t.m.decscnm == on then v
      else View(t.(m := t.m.(decscnm := on), look := UpdateAttr(c.color, t.look, on)), Inverted(c.color, v.cells))
    case 6 => v.(t := t.(m := t.m.(decom := on), cur := Goto(c, t.cur, on, 0, 0)))
    case 7 => v.(t := t.(m := t.m.(decawm := on)))
    case 8 => v.(t := t.(m := t.m.(decarm := on)))
    case 25 => v.(t := t.(m := t.m.(deccm := on)))
    case _ => v
  }

  /** One parameter of set_mode. */
  function SetMode(c: Setup, v: View, on: bool, p: nat): (r: View)
    requires ViewOk(c, v)
    ensures ViewOk(c, r)
  {
    var t := v.t;
    if t.esc.ques then PrivateMode(c, v, on, p)
    else if p == 4 then v.(t := t.(m := t.m.(decim := on)))
    else if p == 20 then v.(t := t.(m := t.m.(lnm := on)))
    else v
  }

  function SetModes(c: Setup, v: View, on: bool, pars: seq<nat>): (r: View)
    requires ViewOk(c, v)
    ensures ViewOk(c, r)
    decreases |pars|
  {
    if pars == [] then v else SetModes(c, SetMode(c, v, on, pars[0]), on, pars[1..])
  }

  function ResetTerm(c: Setup, t: Term): (r: Term)
    requires SetupOk(c) && TermOk(c, t)
    ensures TermOk(c, r)
  {
    var k := t.look.(r := t.look.r.(g0 := 0, g1 := 1, charset := false), translate := 0);
    t.(cur := Cursor(t.cur.x, t.cur.y, 0, c.lines, false),
       esc := t.esc.(state := Normal, ques := false),
       m := Modes(decscnm := false, decom := false, decawm := true, deccm := true, decim := false,
                  lnm := false, decckm := false, decarm := true, kbdapplic := false),
       look := UpdateAttr(c.color, DefaultAttr(k), false),
       tabs := seq(TABS, i => i > 0 && i % 8 == 0))
  }

  /** reset_terminal with the screen cleared. */
  function Reset(c: Setup, v: View): (r: View)
    requires ViewOk(c, v)
    ensures ViewOk(c, r)
  {
    var t := ResetTerm(c, v.t);
    var u := EraseDisplay(c, View(t.(cur := Goto(c, t.cur, false, 0, 0)), v.cells), 2);
    u.(t := SaveCursor(u.t))
  }

  /** ESC # 8: the screen is filled with E. */
  function Align(c: Setup, v: View): (r: View)
    requires ViewOk(c, v)
    ensures ViewOk(c, r)
  {
    var e := v.t.look.erase;
    var u := EraseDisplay(c, v.(t := v.t.(look := v.t.look.(erase := (e & 0xff00) | 69))), 2);
    u.(t := u.t.(look := u.t.look.(erase := (u.t.look.erase & 0xff00) | 32)))
  }
}
