/** The escape-sequence automaton of con_write: what a byte makes of the parser and the modes, and
    what it asks of the screen.
 */
module Escape {

  import opened Cells
  import opened Terminal

  /** What a byte asks of the cursor and the cells. */
  datatype Action =
    | Nothing
    | Print(code: bv8)
    | Bs | Tab | Cr | Lf | Ri
    | LfCr | CrLf
    | Goto(x: int, y: int)
    | EraseDisplay(p: nat) | EraseLine(p: nat)
    | InsertLines(n: nat) | DeleteLines(n: nat) | InsertChars(n: nat) | DeleteChars(n: nat)
    | Mode(on: bool)
    | Restore | Reset | Align

  datatype Decoded = Decoded(t: Term, a: Action)

  predicate Byte(ch: char) { ch as int < 256 }

  /** The translation of a byte; 0 for one that does not print. */
  function Translation(c: Setup, k: Look, ch: char): bv8
    requires SetupOk(c) && LookOk(k) && Byte(ch)
  {
    c.tables[k.translate][ch as int]
  }

  function Shifted(k: Look, g1: bool): (r: Look)
    requires LookOk(k)
    ensures LookOk(r)
  {
    k.(r := k.r.(charset := g1), translate := if g1 then k.r.g1 else k.r.g0)
  }

  function In(t: Term, s: Es): Term { t.(esc := t.esc.(state := s)) }

  function Tabbed(t: Term, on: bool): (r: Term)
    requires t.cur.x < |t.tabs|
    ensures |r.tabs| == |t.tabs|
  {
    t.(tabs := t.tabs[t.cur.x := on])
  }

  /** Characters that act in any state (lines 1034-1077). */
  predicate Control(ch: char) {
    var n := ch as int;
    7 <= n <= 15 || n == 24 || n == 26 || n == 27 || n == 127 || n == 155
  }

  function OnControl(t: Term, ch: char): (d: Decoded)
    requires LookOk(t.look) && Control(ch)
  {
    match ch as int
    case 8 => Decoded(t, Bs)
    case 9 => Decoded(t, Tab)
    case 10 => Decoded(t, if t.m.lnm then LfCr else Lf)
    case 11 => Decoded(t, if t.m.lnm then LfCr else Lf)
    case 12 => Decoded(t, if t.m.lnm then LfCr else Lf)
    case 13 => Decoded(t, Cr)
    case 14 => Decoded(t.(look := Shifted(t.look, true)), Nothing)
    case 15 => Decoded(t.(look := Shifted(t.look, false)), Nothing)
    case 24 => Decoded(In(t, Normal), Nothing)
    case 26 => Decoded(In(t, Normal), Nothing)
    case 27 => Decoded(In(t, Esc), Nothing)
    case 155 => Decoded(In(t, Square), Nothing)
    case _ => Decoded(t, Nothing)
  }

  /** After ESC (lines 1079-1126). */
  function OnEsc(c: Setup, t: Term, ch: char): (d: Decoded)
    requires SetupOk(c) && TermOk(c, t)
  {
    var n := In(t, Normal);
    match ch
    case '[' => Decoded(In(t, Square), Nothing)
    case 'E' => Decoded(n, CrLf)
    case 'M' => Decoded(n, Ri)
    case 'D' => Decoded(n, Lf)
    case 'H' => Decoded(Tabbed(n, true), Nothing)
    case 'Z' => Decoded(n.(reply := n.reply + VT102ID), Nothing)
    case '7' => Decoded(SaveCursor(n), Nothing)
    case '8' => Decoded(n, Restore)
    case '(' => Decoded(In(t, SetG0), Nothing)
    case ')' => Decoded(In(t, SetG1), Nothing)
    case '#' => Decoded(In(t, Hash), Nothing)
    case 'c' => Decoded(n, Reset)
    case '>' => Decoded(n.(m := n.m.(kbdapplic := false)), Nothing)
    case '=' => Decoded(n.(m := n.m.(kbdapplic := true)), Nothing)
    case _ => Decoded(n, Nothing)
  }

  const VT102ID: string := [27 as char] + "[?6c"

  function DigitOf(k: nat): (ch: char)
    requires k < 10
    ensures Digit(ch) && ch as int - '0' as int == k
  {
    ['0', '1', '2', '3', '4', '5', '6', '7', '8', '9'][k]
  }

  /** respond_num: at most three digits, the last ones. */
  function Digits(n: nat): string {
    if n < 10 then [DigitOf(n)]
    else if n < 100 then [DigitOf(n / 10), DigitOf(n % 10)]
    else [DigitOf(n / 100 % 10), DigitOf(n / 10 % 10), DigitOf(n % 10)]
  }

  function CursorReport(t: Term): string {
    [27 as char, '['] + Digits(t.cur.y + if t.m.decom then t.cur.top + 1 else 1) + [';'] + Digits(t.cur.x + 1) + ['R']
  }

  predicate Digit(ch: char) { '0' <= ch <= '9' }

  /** One digit or separator of the parameters (lines 1140-1146). */
  function OnParameter(p: Parser, ch: char): (r: Parser)
    requires ParserOk(p) && (Digit(ch) || (ch == ';' && p.npar < NPAR - 1))
    ensures ParserOk(r)
  {
    if ch == ';' then p.(npar := p.npar + 1)
    else p.(par := p.par[p.npar := (p.par[p.npar] * 10 + (ch as int - '0' as int)) % 0x1_0000_0000])
  }

  /** After ESC [ (lines 1128-1138): `Some` when the character ends there. */
  function Cleared(p: Parser, ch: char): (r: Parser)
    ensures ParserOk(r) && r.npar == 0 && r.state == if ch == '[' then FuncKey else GetPars
  {
    var q := Parser(GetPars, 0, seq(NPAR, i => 0), p.ques);
    if ch == '[' then q.(state := FuncKey) else q.(ques := ch == '?')
  }

  /** `par[0] ? par[0] - 1 : 0`, and `par[0] ? par[0] : 1`. */
  function Less(p: nat): nat { if p > 0 then p - 1 else 0 }
  function Least(p: nat): nat { if p > 0 then p else 1 }

  /** The final character of a control sequence (lines 1148-1266). */
  function OnFinal(c: Setup, t: Term, ch: char): (d: Decoded)
    requires SetupOk(c) && TermOk(c, t)
  {
    var n := In(t, Normal);
    var p0, p1, x, y := n.esc.par[0], n.esc.par[1], n.cur.x, n.cur.y;
    if ch == 'h' then Decoded(n, Mode(true))
    else if ch == 'l' then Decoded(n, Mode(false))
    else if ch == 'n' then
      Decoded(if n.esc.ques then n
              else if p0 == 5 then n.(reply := n.reply + [27 as char] + "[0n")
              else if p0 == 6 then n.(reply := n.reply + CursorReport(n))
              else n, Nothing)
    else if n.esc.ques then Decoded(n.(esc := n.esc.(ques := false)), Nothing)
    else OnPlain(c, n, ch, p0, p1, x, y)
  }

  function OnPlain(c: Setup, n: Term, ch: char, p0: nat, p1: nat, x: nat, y: nat): (d: Decoded)
    requires SetupOk(c) && TermOk(c, n)
  {
    match ch
    case 'G' => Decoded(n, Goto(ToInt(Less(p0)), y))
    case '`' => Decoded(n, Goto(ToInt(Less(p0)), y))
    case 'A' => Decoded(n, Goto(x, ToInt(y - Least(p0))))
    case 'B' => Decoded(n, Goto(x, ToInt(y + Least(p0))))
    case 'e' => Decoded(n, Goto(x, ToInt(y + Least(p0))))
    case 'C' => Decoded(n, Goto(ToInt(x + Least(p0)), y))
    case 'a' => Decoded(n, Goto(ToInt(x + Least(p0)), y))
    case 'D' => Decoded(n, Goto(ToInt(x - Least(p0)), y))
    case 'E' => Decoded(n, Goto(0, ToInt(y + Least(p0))))
    case 'F' => Decoded(n, Goto(0, ToInt(y - Least(p0))))
    case 'd' => Decoded(n, Goto(x, ToInt(Less(p0))))
    case 'H' => Decoded(n, Goto(ToInt(Less(p1)), ToInt(Less(p0))))
    case 'f' => Decoded(n, Goto(ToInt(Less(p1)), ToInt(Less(p0))))
    case 'J' => Decoded(n, EraseDisplay(p0))
    case 'K' => Decoded(n, EraseLine(p0))
    case 'L' => Decoded(n, InsertLines(p0))
    case 'M' => Decoded(n, DeleteLines(p0))
    case 'P' => Decoded(n, DeleteChars(p0))
    case '@' => Decoded(n, InsertChars(p0))
    case 'c' => Decoded(if p0 == 0 then n.(reply := n.reply + VT102ID) else n, Nothing)
    case 'g' =>
      Decoded(if p0 == 0 then Tabbed(n, false)
              else if p0 == 3 then n.(tabs := seq(TABS, i => false)) else n, Nothing)
    case 'm' =>
      var look := SgrAll(n.look, n.esc.par[..n.esc.npar + 1]);
      Decoded(n.(look := UpdateAttr(c.color, look, n.m.decscnm)), Nothing)
    case 'r' => Region(c, n, Least(p0), if p1 == 0 then c.lines else p1)
    case 's' => Decoded(SaveCursor(n), Nothing)
    case 'u' => Decoded(n, Restore)
    case ']' => Decoded(n.(look := Setterm(c.color, n.look, n.m.decscnm, p0, p1)), Nothing)
    case _ => Decoded(n, Nothing)
  }

  /** The scrolling region, of at least two lines. */
  function Region(c: Setup, n: Term, p0: nat, p1: nat): (d: Decoded)
    requires SetupOk(c) && TermOk(c, n) && p0 > 0
    ensures TermOk(c, d.t)
    ensures
      if p0 < p1 <= c.lines then d.a == Goto(0, 0) && d.t.cur.top + 2 <= d.t.cur.bottom
      else d == Decoded(n, Nothing)
  {
    if p0 < p1 <= c.lines then Decoded(n.(cur := n.cur.(top := p0 - 1, bottom := p1)), Goto(0, 0))
    else Decoded(n, Nothing)
  }

  function CharsetOf(ch: char, otherwise: nat): nat {
    match ch case '0' => 1 case 'B' => 0 case 'U' => 2 case 'K' => 3 case _ => otherwise
  }

  function Charset(t: Term, g1: bool, ch: char): (r: Term)
    requires LookOk(t.look)
    ensures LookOk(r.look) && r == In(t, Normal).(look := r.look)
  {
    var r := if g1 then t.look.r.(g1 := CharsetOf(ch, t.look.r.g1)) else t.look.r.(g0 := CharsetOf(ch, t.look.r.g0));
    var translate := if t.look.r.charset != g1 then t.look.translate else if g1 then r.g1 else r.g0;
    In(t, Normal).(look := t.look.(r := r, translate := translate))
  }

  /** A byte that is not printed and is no control character, by the state of the parser. */
  function OnState(c: Setup, t: Term, ch: char): (d: Decoded)
    requires SetupOk(c) && TermOk(c, t)
  {
    match t.esc.state
    case Normal => Decoded(t, Nothing)
    case Esc => OnEsc(c, t, ch)
    case Square =>
      var q := Cleared(t.esc, ch);
      if ch == '[' || ch == '?' then Decoded(t.(esc := q), Nothing)
      else OnPars(c, t.(esc := q), ch)
    case GetPars => OnPars(c, t, ch)
    case FuncKey => Decoded(In(t, Normal), Nothing)
    case Hash => Decoded(In(t, Normal), if ch == '8' then Align else Nothing)
    case SetG0 => Decoded(Charset(t, false, ch), Nothing)
    case SetG1 => Decoded(Charset(t, true, ch), Nothing)
  }

  function OnPars(c: Setup, t: Term, ch: char): (d: Decoded)
    requires SetupOk(c) && TermOk(c, t)
  {
    if Digit(ch) || (ch == ';' && t.esc.npar < NPAR - 1) then Decoded(t.(esc := OnParameter(t.esc, ch)), Nothing)
    else OnFinal(c, t, ch)
  }

  /** What byte `ch` does to everything but the cursor and the cells, and what it asks of them. */
  function Next(c: Setup, t: Term, ch: char): (d: Decoded)
    requires SetupOk(c) && TermOk(c, t) && Byte(ch)
  {
    if t.esc.state == Normal && Translation(c, t.look, ch) != 0 then Decoded(t, Print(Translation(c, t.look, ch)))
    else if Control(ch) then OnControl(t, ch)
    else OnState(c, t, ch)
  }

  // ---- the parser keeps the terminal in order ----------------------------------------------

  lemma {:induction false} PlainOk(c: Setup, n: Term, ch: char, p0: nat, p1: nat, x: nat, y: nat)
    requires SetupOk(c) && TermOk(c, n)
    ensures TermOk(c, OnPlain(c, n, ch, p0, p1, x, y).t)
  {
    hide ToInt, Less, Least, Region, UpdateAttr, Setterm, SgrAll, SetupOk;
    SetupSmall(c);
    if ch == 'm' {
      UpdateOk(c.color, SgrAll(n.look, n.esc.par[..n.esc.npar + 1]), n.m.decscnm);
    }
  }

  lemma {:induction false} SetupSmall(c: Setup)
    requires SetupOk(c)
    ensures c.cols <= TABS
  {
  }

  lemma {:induction false} UpdateOk(color: bool, k: Look, decscnm: bool)
    requires LookOk(k)
    ensures LookOk(UpdateAttr(color, k, decscnm))
  {
  }

  /** For every byte, from every state. */
  lemma {:induction false} NextOk(c: Setup, t: Term, ch: char)
    requires SetupOk(c) && TermOk(c, t) && Byte(ch)
    ensures TermOk(c, Next(c, t, ch).t)
  {
    if t.esc.state == Normal && Translation(c, t.look, ch) != 0 {
    } else if Control(ch) {
      hide ParserOk, CursorOk, RenditionOk;
    } else {
      StateOk(c, t, ch);
    }
  }

  lemma {:induction false} EscOk(c: Setup, t: Term, ch: char)
    requires SetupOk(c) && TermOk(c, t)
    ensures TermOk(c, OnEsc(c, t, ch).t)
  {
    hide RenditionOk;
  }

  lemma {:induction false} ParsOk(c: Setup, t: Term, ch: char)
    requires SetupOk(c) && TermOk(c, t)
    ensures TermOk(c, OnPars(c, t, ch).t)
  {
    if !(Digit(ch) || (ch == ';' && t.esc.npar < NPAR - 1)) {
      PlainOk(c, In(t, Normal), ch, t.esc.par[0], t.esc.par[1], t.cur.x, t.cur.y);
    }
    hide OnPlain, CursorReport, CursorOk, RenditionOk;
  }

  lemma {:induction false} StateOk(c: Setup, t: Term, ch: char)
    requires SetupOk(c) && TermOk(c, t)
    ensures TermOk(c, OnState(c, t, ch).t)
  {
    match t.esc.state
    case Esc => EscOk(c, t, ch);
    case Square => ParsOk(c, t.(esc := Cleared(t.esc, ch)), ch);
    case GetPars => ParsOk(c, t, ch);
    case _ =>
  }

  /** The parser never moves the cursor itself. */
  lemma {:induction false} NextStays(c: Setup, t: Term, ch: char)
    requires SetupOk(c) && TermOk(c, t) && Byte(ch)
    ensures Next(c, t, ch).t.cur == t.cur.(top := Next(c, t, ch).t.cur.top, bottom := Next(c, t, ch).t.cur.bottom)
  {
    hide ParserOk, RenditionOk, CursorOk, UpdateAttr, Setterm, SgrAll, ToInt, CursorReport, Charset;
    if t.esc.state == Normal && Translation(c, t.look, ch) != 0 {
    } else if Control(ch) {
    } else if t.esc.state == Esc {
    } else {
      ParsStay(c, t, ch);
    }
  }

  lemma {:induction false} ParsStay(c: Setup, t: Term, ch: char)
    requires SetupOk(c) && TermOk(c, t) && t.esc.state != Esc
    ensures var u := OnState(c, t, ch).t.cur; u == t.cur.(top := u.top, bottom := u.bottom)
  {
    hide LookOk, ParserOk, RenditionOk, CursorOk, UpdateAttr, Setterm, SgrAll, ToInt, CursorReport;
  }

  // ---- the whole terminal ------------------------------------------------------------------

  function Perform(c: Setup, v: View, a: Action): (r: View)
    requires ViewOk(c, v)
    ensures ViewOk(c, r)
  {
    match a
    case Nothing => v
    case Print(code) => Terminal.Print(c, v, code)
    case Bs => Terminal.Bs(c, v)
    case Tab => Terminal.Tab(c, v)
    case Cr => Terminal.Cr(c, v)
    case Lf => Terminal.Lf(c, v)
    case Ri => Terminal.Ri(c, v)
    case LfCr => Terminal.Cr(c, Terminal.Lf(c, v))
    case CrLf => Terminal.Lf(c, Terminal.Cr(c, v))
    case Goto(x, y) => Moved(v, Terminal.Goto(c, v.t.cur, v.t.m.decom, x, y), v.cells)
    case EraseDisplay(p) => Terminal.EraseDisplay(c, v, p)
    case EraseLine(p) => Terminal.EraseLine(c, v, p)
    case InsertLines(n) => Terminal.InsertLines(c, v, Times(n, c.lines))
    case DeleteLines(n) => Terminal.DeleteLines(c, v, Times(n, c.lines))
    case InsertChars(n) => Terminal.InsertChars(c, v, Times(n, c.cols))
    case DeleteChars(n) => Terminal.DeleteChars(c, v, Times(n, c.cols))
    case Mode(on) => SetModes(c, v, on, v.t.esc.par[..v.t.esc.npar + 1])
    case Restore => v.(t := RestoreCursor(c, v.t))
    case Reset => Terminal.Reset(c, v)
    case Align => Terminal.Align(c, v)
  }

  /** One byte. */
  function Put(c: Setup, v: View, ch: char): (r: View)
    requires ViewOk(c, v) && Byte(ch)
    ensures ViewOk(c, r)
  {
    NextOk(c, v.t, ch);
    var d := Next(c, v.t, ch);
    Perform(c, View(d.t, v.cells), d.a)
  }

  /** Any bytes, one after the other. */
  function Written(c: Setup, v: View, s: string): (r: View)
    requires ViewOk(c, v) && forall i :: 0 <= i < |s| ==> Byte(s[i])
    ensures ViewOk(c, r)
  {
    if s == [] then v else Put(c, Written(c, v, s[..|s| - 1]), s[|s| - 1])
  }
}
