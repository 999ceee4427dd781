/** What the sequences of drivers/char/console.c make of the rendition, the modes and the tab stops, and what they
    answer.
 */
module ModeLaws {

  import opened Cells
  import opened Terminal
  import opened Escape
  import opened TerminalLaws
  import opened Typing
  import opened MotionLaws
  import opened ControlLaws
  import opened ScreenLaws
  import CursorReports

  // ---- attributes --------------------------------------------------------------------------

  /** Three bits of a colour: red, green and blue. */
  predicate Rgb(w: bv8, red: bool, green: bool, blue: bool) {
    (w & 4 != 0 <==> red) && (w & 2 != 0 <==> green) && (w & 1 != 0 <==> blue)
  }

  /** The colours of ANSI numbers: red is bit 0 there, green bit 1, blue bit 2, and bit 3 makes it bright. */
  lemma {:induction false} ColorIs(n: nat)
    requires n < 16
    ensures Rgb(ColorOf(n), n % 2 == 1, n / 2 % 2 == 1, n / 4 % 2 == 1)
    ensures ColorOf(n) & 0xf0 == 0 && (ColorOf(n) & 8 != 0 <==> n >= 8)
  {
    assert n == 0 || n == 1 || n == 2 || n == 3 || n == 4 || n == 5 || n == 6 || n == 7 || n == 8 || n == 9 || n == 10
        || n == 11 || n == 12 || n == 13 || n == 14 || n == 15;
  }

  /** The parts of an attribute: bit 7, which makes it blink; the background; bit 3, which makes it bright; and the
      foreground. */
  predicate Blinks(a: bv8) { a & 0x80 != 0 }
  function Ground(a: bv8): bv8 { (a >> 4) & 7 }
  predicate Bright(a: bv8) { a & 8 != 0 }
  function Colour(a: bv8): bv8 { a & 7 }

  lemma {:induction false} SwappedIs(a: bv8)
    ensures Blinks(Swapped(a)) == Blinks(a) && Bright(Swapped(a)) == Bright(a)
    ensures Colour(Swapped(a)) == Ground(a) && Ground(Swapped(a)) == Colour(a)
  {
  }

  /** The colours that characters are shown in, before reversal, blinking and brightness: on a console with colour an
      underlined character has its own foreground, and one of half intensity that is not underlined. */
  predicate Plain(color: bool, k: Look, base: bv8) {
    if color && k.r.underline then base == (k.r.color & 0xf0) | k.ulColor
    else if color && k.r.intensity == 0 then base == (k.r.color & 0xf0) | k.halfColor
    else base == k.r.color
  }

  /** The attribute: colours change places in reverse or on an inverted screen, but not in both; blinking and brightness
      turn their bits over. Without colour an underlined character has colour 1, and one of half intensity that is not
      underlined is bright and has colour 0. */
  predicate Looks(color: bool, k: Look, decscnm: bool, base: bv8, a: bv8) {
    var flip, dim := k.r.reverse != decscnm, !color && !k.r.underline && k.r.intensity == 0;
    && (Blinks(a) <==> Blinks(base) != k.r.blink)
    && Ground(a) == (if flip then Colour(base) else Ground(base))
    && (Bright(a) <==> dim || Bright(base) != (k.r.intensity == 2))
    && Colour(a) == if !color && k.r.underline then 1 else if dim then 0
                    else if flip then Ground(base) else Colour(base)
  }

  lemma {:induction false} FlippedIs(a: bv8, flip: bool)
    ensures Blinks(Flipped(a, flip)) == Blinks(a) && Bright(Flipped(a, flip)) == Bright(a)
    ensures Colour(Flipped(a, flip)) == (if flip then Ground(a) else Colour(a))
    ensures Ground(Flipped(a, flip)) == (if flip then Colour(a) else Ground(a))
  {
    SwappedIs(a);
    hide Blinks, Bright, Ground, Colour, Swapped;
  }

  lemma {:induction false} BlinkingIs(a: bv8, blink: bool)
    ensures (Blinks(Blinking(a, blink)) <==> Blinks(a) != blink) && Bright(Blinking(a, blink)) == Bright(a)
    ensures Colour(Blinking(a, blink)) == Colour(a) && Ground(Blinking(a, blink)) == Ground(a)
  {
  }

  lemma {:induction false} BrightenedIs(a: bv8, bright: bool)
    ensures Blinks(Brightened(a, bright)) == Blinks(a) && (Bright(Brightened(a, bright)) <==> Bright(a) != bright)
    ensures Colour(Brightened(a, bright)) == Colour(a) && Ground(Brightened(a, bright)) == Ground(a)
  {
  }

  lemma {:induction false} MonoIs(color: bool, k: Look, a: bv8)
    ensures var m, dim := Mono(color, k, a), !color && !k.r.underline && k.r.intensity == 0;
      && Blinks(m) == Blinks(a) && Ground(m) == Ground(a) && (Bright(m) <==> dim || Bright(a))
      && Colour(m) == if !color && k.r.underline then 1 else if dim then 0 else Colour(a)
  {
  }

  lemma {:induction false} BasedIs(color: bool, k: Look)
    ensures Plain(color, k, Based(color, k))
  {
  }

  lemma {:induction false} AttrIs(color: bool, k: Look, decscnm: bool) returns (base: bv8)
    ensures Plain(color, k, base) && Looks(color, k, decscnm, base, Attr(color, k, decscnm))
  {
    hide Plain, Blinks, Bright, Ground, Colour, Based, Flipped, Blinking, Brightened, Mono;
    base := Based(color, k);
    BasedIs(color, k);
    var a2 := Flipped(base, k.r.reverse != decscnm);
    var a3 := Blinking(a2, k.r.blink);
    FlippedIs(base, k.r.reverse != decscnm);
    BlinkingIs(a2, k.r.blink);
    BrightenedIs(a3, k.r.intensity == 2);
    MonoIs(color, k, Brightened(a3, k.r.intensity == 2));
  }

  /** What blank cells are: spaces in the plain colours, which change places on an inverted screen. */
  lemma {:induction false} EraseIs(color: bool, k: Look, decscnm: bool)
    ensures var u := UpdateAttr(color, k, decscnm);
      && u == k.(attr := Attr(color, k, decscnm), erase := u.erase)
      && (u.erase >> 8) as bv8 == (if decscnm then Swapped(k.r.color) else k.r.color) && (u.erase & 0xff) as bv8 == 32
  {
    hide Attr, Swapped;
  }

  // ---- the rendition -----------------------------------------------------------------------

  /** What parameter `p` of `ESC [ m` makes of rendition `k.r`. */
  predicate SgrDoes(k: Look, p: nat, r: Rendition) {
    && r.intensity == (if p == 1 then 2 else if p == 2 then 0 else if p == 0 || p == 21 || p == 22 then 1
                       else k.r.intensity)
    && r.underline == (p == 4 || (p != 0 && p != 24 && k.r.underline))
    && r.blink == (p == 5 || (p != 0 && p != 25 && k.r.blink))
    && r.reverse == (p == 7 || (p != 0 && p != 27 && k.r.reverse))
    && r.charset == k.r.charset && r.g0 == k.r.g0 && r.g1 == k.r.g1
    && SgrColours(k, p, r.color)
  }

  /** From 30 the foreground and from 40 the background take the eight colours, dark ones; 39 and 49 bring back the
      default ones, and 0 both. */
  predicate SgrColours(k: Look, p: nat, a: bv8) {
    if 30 <= p <= 37 then
      && Rgb(Colour(a), (p - 30) % 2 == 1, (p - 30) / 2 % 2 == 1, (p - 30) / 4 % 2 == 1)
      && !Bright(a) && Ground(a) == Ground(k.r.color) && Blinks(a) == Blinks(k.r.color)
    else if 40 <= p <= 47 then
      && Rgb(Ground(a), (p - 40) % 2 == 1, (p - 40) / 2 % 2 == 1, (p - 40) / 4 % 2 == 1)
      && !Blinks(a) && Colour(a) == Colour(k.r.color) && Bright(a) == Bright(k.r.color)
    else if p == 39 then
      && Colour(a) == Colour(k.defColor) && Bright(a) == Bright(k.defColor)
      && Ground(a) == Ground(k.r.color) && Blinks(a) == Blinks(k.r.color)
    else if p == 49 then
      && Ground(a) == Ground(k.defColor) && Blinks(a) == Blinks(k.defColor)
      && Colour(a) == Colour(k.r.color) && Bright(a) == Bright(k.r.color)
    else a == if p == 0 then k.defColor else k.r.color
  }

  lemma {:induction false} ForegroundIs(a: bv8, b: bv8)
    ensures var f := Foreground(a, b);
      Colour(f) == Colour(a) && Bright(f) == Bright(a) && Ground(f) == Ground(b) && Blinks(f) == Blinks(b)
  {
  }

  lemma {:induction false} BackgroundIs(a: bv8, b: bv8)
    ensures var f := Background(a, b);
      Colour(f) == Colour(b) && Bright(f) == Bright(b) && Ground(f) == Ground(a) && Blinks(f) == Blinks(a)
  {
  }

  lemma {:induction false} DarkColour(n: nat)
    requires n < 8
    ensures var a := ColorOf(n);
      && Rgb(Colour(a), n % 2 == 1, n / 2 % 2 == 1, n / 4 % 2 == 1) && !Bright(a)
      && Ground(Raised(a)) == Colour(a) && !Blinks(Raised(a))
  {
    assert n == 0 || n == 1 || n == 2 || n == 3 || n == 4 || n == 5 || n == 6 || n == 7;
  }

  /** The colour is chosen by the parameters that name one. */
  lemma {:induction false} ColourFrom(k: Look, p: nat)
    ensures Sgr(k, p).r.color
         == if 30 <= p <= 37 then Foreground(ColorOf(p - 30), k.r.color)
            else if 40 <= p <= 47 then Background(Raised(ColorOf(p - 40)), k.r.color)
            else if p == 39 then Foreground(k.defColor, k.r.color)
            else if p == 49 then Background(k.defColor, k.r.color)
            else if p == 0 then k.defColor else k.r.color
  {
    hide Foreground, Background, ColorOf, Raised, LookOk, RenditionOk;
    match p
    case 0 => case 1 => case 2 => case 4 => case 5 => case 7 => case 21 => case 22 => case 24 => case 25 => case 27 =>
    case 39 => case 49 => case _ =>
  }

  lemma {:induction false} ColoursAre(k: Look, p: nat)
    ensures SgrColours(k, p, Sgr(k, p).r.color)
  {
    hide Sgr, Blinks, Bright, Ground, Colour, Foreground, Background, ColorOf, Raised, Rgb;
    ColourFrom(k, p);
    if 30 <= p <= 37 {
      DarkColour(p - 30);
      ForegroundIs(ColorOf(p - 30), k.r.color);
    } else if 40 <= p <= 47 {
      DarkColour(p - 40);
      BackgroundIs(Raised(ColorOf(p - 40)), k.r.color);
    } else {
      ForegroundIs(k.defColor, k.r.color);
      BackgroundIs(k.defColor, k.r.color);
    }
  }

  lemma {:induction false} IntensityFrom(k: Look, p: nat)
    ensures Sgr(k, p).r.intensity
         == if p == 1 then 2 else if p == 2 then 0 else if p == 0 || p == 21 || p == 22 then 1 else k.r.intensity
  {
    hide Foreground, Background, ColorOf, Raised, LookOk, RenditionOk;
    match p
    case 0 => case 1 => case 2 => case 4 => case 5 => case 7 => case 21 => case 22 => case 24 => case 25 => case 27 =>
    case 39 => case 49 => case _ =>
  }

  lemma {:induction false} FlagsFrom(k: Look, p: nat)
    ensures var r := Sgr(k, p).r;
      && r.underline == (p == 4 || (p != 0 && p != 24 && k.r.underline))
      && r.blink == (p == 5 || (p != 0 && p != 25 && k.r.blink))
      && r.reverse == (p == 7 || (p != 0 && p != 27 && k.r.reverse))
  {
    hide Foreground, Background, ColorOf, Raised, LookOk, RenditionOk;
    match p
    case 0 => case 1 => case 2 => case 4 => case 5 => case 7 => case 21 => case 22 => case 24 => case 25 => case 27 =>
    case 39 => case 49 => case _ =>
  }

  lemma {:induction false} OthersStay(k: Look, p: nat)
    ensures var l, r := Sgr(k, p), Sgr(k, p).r;
      l == k.(r := r) && r.charset == k.r.charset && r.g0 == k.r.g0 && r.g1 == k.r.g1
  {
    hide Foreground, Background, ColorOf, Raised, LookOk, RenditionOk;
    match p
    case 0 => case 1 => case 2 => case 4 => case 5 => case 7 => case 21 => case 22 => case 24 => case 25 => case 27 =>
    case 39 => case 49 => case _ =>
  }

  lemma {:induction false} SgrIs(k: Look, p: nat)
    ensures var l := Sgr(k, p); l == k.(r := l.r) && SgrDoes(k, p, l.r)
  {
    hide SgrColours, Sgr;
    IntensityFrom(k, p);
    FlagsFrom(k, p);
    OthersStay(k, p);
    ColoursAre(k, p);
  }

  /** `ESC [ p m`. */
  lemma {:induction false} RenditionTyped(c: Setup, v: View, s: string)
    requires Ready(c, v) && AllDigits(s)
    ensures Bytes(Command(s, 'm'))
    ensures var w, k, l := Written(c, v, Command(s, 'm')), v.t.look, Written(c, v, Command(s, 'm')).t.look;
      && w == v.(t := v.t.(esc := w.t.esc, look := l)) && w.t.esc.state == Normal
      && l == UpdateAttr(c.color, k.(r := l.r), v.t.m.decscnm) && SgrDoes(k, Number(0, s), l.r)
  {
    hide Put, Written, Number, Command, Ready, ParserOk, LookOk, RenditionOk, CursorOk, Sgr, SgrDoes, Attr, CellOf;
    CommandTyped(c, v, s, 'm');
    Final(c, v, One(s, false), 'm');
    var p := One(s, false);
    assert p.par[..1] == [Number(0, s)];
    OneSgr(v.t.look, Number(0, s));
    SgrIs(v.t.look, Number(0, s));
  }

  lemma {:induction false} OneSgr(k: Look, p: nat)
    ensures SgrAll(k, [p]) == Sgr(k, p)
  {
    hide Sgr;
  }

  /** `ESC [ p ; q m`: one after the other. */
  lemma {:induction false} RenditionsTyped(c: Setup, v: View, y: string, x: string) returns (r: Rendition)
    requires Ready(c, v) && AllDigits(y) && AllDigits(x) && y != [] && x != []
    ensures Bytes(Opening(y, x) + ['m'])
    ensures var w, k := Written(c, v, Opening(y, x) + ['m']), v.t.look;
      var l := w.t.look;
      && w == v.(t := v.t.(esc := w.t.esc, look := l)) && w.t.esc.state == Normal
      && l == UpdateAttr(c.color, k.(r := l.r), v.t.m.decscnm)
      && SgrDoes(k, Number(0, y), r) && SgrDoes(k.(r := r), Number(0, x), l.r)
  {
    hide Put, Written, Number, Opening, Ready, ParserOk, LookOk, RenditionOk, CursorOk, Pair;
    hide Sgr, SgrDoes, Attr, CellOf;
    TwoTyped(c, v, y, x, 'm');
    TwoParameters(y, x);
    Final(c, v, Pair(y, x), 'm');
    var k, p, q := v.t.look, Number(0, y), Number(0, x);
    TwoSgr(k, p, q);
    SgrIs(k, p);
    SgrIs(Sgr(k, p), q);
    r := Sgr(k, p).r;
  }

  lemma {:induction false} TwoParameters(y: string, x: string)
    requires AllDigits(y) && AllDigits(x) && y != [] && x != []
    ensures var p := Pair(y, x); p.npar == 1 && |p.par| == NPAR && p.par[..2] == [Number(0, y), Number(0, x)]
    ensures Pair(y, x).state == GetPars && !Pair(y, x).ques
  {
    PairIs(y, x);
    hide Number;
  }

  lemma {:induction false} TwoSgr(k: Look, p: nat, q: nat)
    ensures SgrAll(k, [p, q]) == Sgr(Sgr(k, p), q)
  {
    hide Sgr;
    assert [p, q][1..] == [q];
    OneSgr(Sgr(k, p), q);
  }

  // ---- modes -------------------------------------------------------------------------------

  lemma {:induction false} OneMode(c: Setup, v: View, on: bool, p: nat)
    requires ViewOk(c, v)
    ensures SetModes(c, v, on, [p]) == SetMode(c, v, on, p)
  {
    hide ViewOk, SetMode;
  }

  /** `ESC [ p h` sets a mode and `ESC [ p l` resets it: 4 is insert mode and 20 new-line mode, anything else does
      nothing. */
  lemma {:induction false} ModeTyped(c: Setup, v: View, s: string, on: bool)
    requires Ready(c, v) && AllDigits(s)
    ensures var ch, p := if on then 'h' else 'l', Number(0, s);
      var w := Written(c, v, Command(s, ch));
      && Bytes(Command(s, ch)) && w.t.esc.state == Normal
      && w == v.(t := v.t.(esc := w.t.esc, m := if p == 4 then v.t.m.(decim := on)
                                                else if p == 20 then v.t.m.(lnm := on) else v.t.m))
  {
    hide Put, Written, Number, Command, Ready, TermOk;
    var ch := if on then 'h' else 'l';
    CommandTyped(c, v, s, ch);
    Final(c, v, One(s, false), ch);
    Settled(c, v);
    var p := One(s, false).(state := Normal);
    TypedOk(c, v, p);
    assert p.par[..1] == [Number(0, s)];
    OneMode(c, Typed(v, p), on, Number(0, s));
    hide SetModes, ViewOk;
  }

  /** What private mode `p` does when it is set or reset. The cursor keys' mode is 1, the inverted screen 5, origin mode
      6, autowrap 7, autorepeat 8 and the visible cursor 25; 3 only clears the screen; anything else does nothing. Modes
      3 and 6 send the cursor home. */
  ghost predicate PrivateDoes(c: Setup, v: View, p: nat, on: bool, w: View) {
    var m := v.t.m;
    && w.t.esc.state == Normal
    && if p == 3 then
         && Arrives(c, v.(cells := w.cells), w, 0, 0)
         && |w.cells| == |v.cells| && forall i :: 0 <= i < |w.cells| ==> w.cells[i] == v.t.look.erase
       else if p == 5 then
         && w.t == v.t.(esc := w.t.esc, m := m.(decscnm := on), look := w.t.look)
         && w.t.look == (if m.decscnm == on then v.t.look else UpdateAttr(c.color, v.t.look, on))
         && |w.cells| == |v.cells|
         && forall i :: 0 <= i < |w.cells| ==>
              w.cells[i] == if m.decscnm == on then v.cells[i] else InvertCell(c.color, v.cells[i])
       else if p == 6 then Arrives(c, v.(t := v.t.(m := m.(decom := on))), w, 0, 0)
       else
         w == v.(t := v.t.(esc := w.t.esc, m := if p == 1 then m.(decckm := on) else if p == 7 then m.(decawm := on)
                                                else if p == 8 then m.(decarm := on)
                                                else if p == 25 then m.(deccm := on) else m))
  }

  lemma {:induction false} DryHome(c: Setup, u: Cursor, decom: bool)
    requires SetupOk(c) && CursorOk(c, u)
    ensures CursorOk(c, u.(wrap := false))
    ensures Terminal.Goto(c, u.(wrap := false), decom, 0, 0) == Terminal.Goto(c, u, decom, 0, 0)
  {
  }

  lemma {:induction false} ClearIs(c: Setup, v: View, q: Parser, on: bool)
    requires ViewOk(c, v) && ParserOk(q) && q.state == Normal && q.ques
    ensures ViewOk(c, Typed(v, q)) && PrivateDoes(c, v, 3, on, SetMode(c, Typed(v, q), on, 3))
  {
    TypedOk(c, v, q);
    var n := Typed(v, q);
    assert ToInt(0) == 0;
    InOrder(c, v);
    hide Arrives, Terminal.Goto, Terminal.EraseDisplay, Terminal.ViewOk, UpdateAttr, Inverted, InvertCell;
    hide ParserOk, LookOk, RenditionOk, SetupOk, CursorOk, ToInt;
    AllErased(c, n);
    var u := Terminal.EraseDisplay(c, n, 2);
    SameSize(c, v, u.cells);
    GotoArrives(c, v.(cells := u.cells), q, 0, 0);
    DryHome(c, v.t.cur, v.t.m.decom);
    Arrived(c, v.(cells := u.cells), Moved(u, Terminal.Goto(c, u.t.cur, v.t.m.decom, 0, 0), u.cells), 0, 0);
  }

  lemma {:induction false} SameSize(c: Setup, v: View, s: seq<Cell>)
    requires ViewOk(c, v) && |s| == |v.cells|
    ensures ViewOk(c, v.(cells := s))
  {
  }

  lemma {:induction false} Arrived(c: Setup, v: View, w: View, x: int, y: int)
    requires Arrives(c, v, w, x, y)
    ensures w.t.esc.state == Normal
  {
  }

  lemma {:induction false} OriginIs(c: Setup, v: View, q: Parser, on: bool)
    requires ViewOk(c, v) && ParserOk(q) && q.state == Normal && q.ques
    ensures ViewOk(c, Typed(v, q)) && PrivateDoes(c, v, 6, on, SetMode(c, Typed(v, q), on, 6))
  {
    TypedOk(c, v, q);
    var u := v.(t := v.t.(m := v.t.m.(decom := on)));
    assert ToInt(0) == 0;
    assert ViewOk(c, u);
    InOrder(c, v);
    hide Arrives, Terminal.Goto, Terminal.EraseDisplay, Terminal.ViewOk, UpdateAttr, Inverted, InvertCell;
    hide ParserOk, LookOk, RenditionOk, SetupOk, CursorOk, ToInt, TermOk;
    GotoArrives(c, u, q, 0, 0);
    Arrived(c, u, SetMode(c, Typed(v, q), on, 6), 0, 0);
  }

  lemma {:induction false} PrivateIs(c: Setup, v: View, q: Parser, on: bool, p: nat)
    requires ViewOk(c, v) && ParserOk(q) && q.state == Normal && q.ques
    ensures ViewOk(c, Typed(v, q)) && PrivateDoes(c, v, p, on, SetMode(c, Typed(v, q), on, p))
  {
    TypedOk(c, v, q);
    InOrder(c, v);
    hide Arrives, Terminal.Goto, Terminal.EraseDisplay, Terminal.ViewOk, UpdateAttr, InvertCell;
    hide ParserOk, LookOk, RenditionOk, SetupOk, CursorOk, ToInt, TermOk;
    if p == 3 {
      ClearIs(c, v, q, on);
    } else if p == 6 {
      OriginIs(c, v, q, on);
    }
  }

  /** `ESC [ ? p h` and `ESC [ ? p l`. */
  lemma {:induction false} PrivateModeTyped(c: Setup, v: View, s: string, on: bool)
    requires Ready(c, v) && AllDigits(s)
    ensures var ch := if on then 'h' else 'l';
      Bytes(Private(s, ch)) && PrivateDoes(c, v, Number(0, s), on, Written(c, v, Private(s, ch)))
  {
    hide Put, Written, Number, Private, Ready, TermOk, PrivateDoes;
    var ch := if on then 'h' else 'l';
    PrivateTyped(c, v, s, ch);
    Final(c, v, One(s, true), ch);
    Settled(c, v);
    var p := One(s, true).(state := Normal);
    TypedOk(c, v, p);
    assert p.par[..1] == [Number(0, s)];
    OneMode(c, Typed(v, p), on, Number(0, s));
    PrivateIs(c, v, p, on, Number(0, s));
    hide SetModes, SetMode, ViewOk;
  }

  /** An inverted cell shows its character in the exchanged colours, or without colour with the six bits of the colours
      turned over. */
  lemma {:induction false} InvertIs(color: bool, w: Cell)
    ensures var a := (w >> 8) as bv8;
      Shows(InvertCell(color, w), if color then Swapped(a) else a ^ 0x77, (w & 0xff) as bv8)
  {
    hide Swapped;
    CellShows(if color then Swapped((w >> 8) as bv8) else (w >> 8) as bv8 ^ 0x77, (w & 0xff) as bv8);
  }

  /** The modes of one sequence act one after the other. */
  lemma {:induction false} ModesTyped(c: Setup, v: View, y: string, x: string, on: bool)
    requires Ready(c, v) && AllDigits(y) && AllDigits(x) && y != [] && x != []
    ensures var ch := if on then 'h' else 'l';
      var n := Typed(v, Pair(y, x).(state := Normal));
      && Bytes(Opening(y, x) + [ch]) && ViewOk(c, n)
      && Written(c, v, Opening(y, x) + [ch]) == SetMode(c, SetMode(c, n, on, Number(0, y)), on, Number(0, x))
  {
    hide Put, Written, Number, Opening, Ready, TermOk, Pair;
    var ch := if on then 'h' else 'l';
    TwoTyped(c, v, y, x, ch);
    TwoParameters(y, x);
    Final(c, v, Pair(y, x), ch);
    Settled(c, v);
    var n := Typed(v, Pair(y, x).(state := Normal));
    var p, q := Number(0, y), Number(0, x);
    TypedOk(c, v, Pair(y, x).(state := Normal));
    ModesInParts(c, n, on, [p], [q]);
    assert [p] + [q] == [p, q];
    OneMode(c, n, on, p);
    OneMode(c, SetMode(c, n, on, p), on, q);
    hide SetModes, SetMode, ViewOk;
  }

  // ---- tab stops and answers ---------------------------------------------------------------

  /** `ESC [ g` clears the tab stop of the cursor's column and `ESC [ 3 g` all of them. */
  lemma {:induction false} TabsTyped(c: Setup, v: View, s: string)
    requires Ready(c, v) && AllDigits(s)
    ensures Bytes(Command(s, 'g')) && v.t.cur.x < |v.t.tabs| == 160
    ensures var w, p := Written(c, v, Command(s, 'g')), Number(0, s);
      && w == v.(t := v.t.(esc := w.t.esc, tabs := w.t.tabs)) && w.t.esc.state == Normal && |w.t.tabs| == 160
      && forall i :: 0 <= i < 160 ==>
        (w.t.tabs[i] <==> v.t.tabs[i] && ((p == 0 && i != v.t.cur.x) || (p != 0 && p != 3)))
  {
    hide Put, Written, Number, Command, Ready, ParserOk, LookOk, RenditionOk;
    CommandTyped(c, v, s, 'g');
    Final(c, v, One(s, false), 'g');
    Settled(c, v);
  }

  /** `ESC [ 5 n` is answered that all is well and `ESC [ 6 n` where the cursor is: the row from 1, in origin mode with
      the number of rows above the region added again, and the column from 1, in decimal digits. */
  lemma {:induction false} ReportTyped(c: Setup, v: View, s: string)
    requires Ready(c, v) && AllDigits(s)
    ensures Bytes(Command(s, 'n'))
    ensures var w, p := Written(c, v, Command(s, 'n')), Number(0, s);
      && w == v.(t := v.t.(esc := w.t.esc, reply := w.t.reply)) && w.t.esc.state == Normal
      && if p == 5 then w.t.reply == v.t.reply + [27 as char] + ['[', '0', 'n']
         else if p == 6 then
           var row := v.t.cur.y + 1 + if v.t.m.decom then v.t.cur.top else 0;
           && w.t.reply == v.t.reply + [27 as char, '['] + Escape.Digits(row) + [';'] + Escape.Digits(v.t.cur.x + 1)
                           + ['R']
           && AllDigits(Escape.Digits(row)) && Number(0, Escape.Digits(row)) == row
           && AllDigits(Escape.Digits(v.t.cur.x + 1)) && Number(0, Escape.Digits(v.t.cur.x + 1)) == v.t.cur.x + 1
         else w.t.reply == v.t.reply
  {
    hide Put, Written, Number, Command, Ready, ParserOk, LookOk, RenditionOk, Escape.Digits;
    CommandTyped(c, v, s, 'n');
    Final(c, v, One(s, false), 'n');
    Settled(c, v);
    var row := v.t.cur.y + 1 + if v.t.m.decom then v.t.cur.top else 0;
    CursorReports.NumberBack(row);
    CursorReports.NumberBack(v.t.cur.x + 1);
    Joined(v.t.reply, Escape.Digits(row), Escape.Digits(v.t.cur.x + 1));
    assert "[0n" == ['[', '0', 'n'];
  }

  lemma {:induction false} Joined(a: string, row: string, col: string)
    ensures a + ([27 as char, '['] + row + [';'] + col + ['R']) == a + [27 as char, '['] + row + [';'] + col + ['R']
  {
  }

  /** `ESC [ c` is answered with the terminal's name. */
  lemma {:induction false} NameTyped(c: Setup, v: View, s: string)
    requires Ready(c, v) && AllDigits(s)
    ensures Bytes(Command(s, 'c'))
    ensures var w := Written(c, v, Command(s, 'c'));
      && w == v.(t := v.t.(esc := w.t.esc, reply := w.t.reply)) && w.t.esc.state == Normal
      && w.t.reply == v.t.reply + if Number(0, s) == 0 then [27 as char, '[', '?', '6', 'c'] else []
  {
    hide Put, Written, Number, Command, Ready, ParserOk, LookOk, RenditionOk;
    CommandTyped(c, v, s, 'c');
    Final(c, v, One(s, false), 'c');
    assert VT102ID == [27 as char, '[', '?', '6', 'c'];
  }

  // ---- what does nothing, and the rest -----------------------------------------------------

  /** Other final characters do nothing, and after `ESC [ ?` only h, l do anything. */
  lemma {:induction false} UnknownTyped(c: Setup, v: View, s: string, ch: char)
    requires Ready(c, v) && AllDigits(s) && Ends(ch)
    ensures ch !in "GABCDEFHJKLMPRfghlmnrsuade`@c]" ==>
      Bytes(Command(s, ch)) && Idle(v, Written(c, v, Command(s, ch)))
    ensures ch != 'h' && ch != 'l' ==> Bytes(Private(s, ch)) && Idle(v, Written(c, v, Private(s, ch)))
  {
    hide Put, Written, Number, Command, Private, Ready, ParserOk, LookOk, RenditionOk, CursorOk;
    CommandTyped(c, v, s, ch);
    Final(c, v, One(s, false), ch);
    PrivateTyped(c, v, s, ch);
    Final(c, v, One(s, true), ch);
    assert ch !in "GABCDEFHJKLMPRfghlmnrsuade`@c]" ==>
      ch !in {'G', 'A', 'B', 'C', 'D', 'E', 'F', 'H', 'J', 'K', 'L', 'M', 'P', 'f', 'g', 'h', 'l', 'm', 'n', 'r', 's',
              'u', 'a', 'd', 'e', '`', '@', 'c', ']'};
  }

  /** A sequence of setterm: 1 and 2 choose the colour for underlining and for half intensity, on a console with colour
      and from sixteen, and what is in force follows at once; 8 makes the attribute in force the default. */
  ghost predicate SettermDoes(color: bool, k: Look, decscnm: bool, p: nat, q: nat, l: Look) {
    if p == 1 && color && q < 16 then
      && Sixteen(q, l.ulColor)
      && l == if k.r.underline then UpdateAttr(color, k.(ulColor := l.ulColor), decscnm) else k.(ulColor := l.ulColor)
    else if p == 2 && color && q < 16 then
      && Sixteen(q, l.halfColor)
      && l == if k.r.intensity == 0 then UpdateAttr(color, k.(halfColor := l.halfColor), decscnm)
              else k.(halfColor := l.halfColor)
    else if p == 8 then
      && l == UpdateAttr(color, k.(defColor := k.attr, r := l.r), decscnm)
      && l.r == Rendition(1, false, false, false, k.attr, k.r.charset, k.r.g0, k.r.g1)
    else l == k
  }

  /** A dark or a bright colour. */
  predicate Sixteen(n: nat, a: bv8) {
    && Rgb(a, n % 2 == 1, n / 2 % 2 == 1, n / 4 % 2 == 1) && a & 0xf0 == 0 && (a & 8 != 0 <==> n >= 8)
  }

  lemma {:induction false} SettermIs(color: bool, k: Look, decscnm: bool, p: nat, q: nat)
    ensures SettermDoes(color, k, decscnm, p, q, Setterm(color, k, decscnm, p, q))
  {
    hide Attr, CellOf, ColorOf, LookOk, RenditionOk;
    if q < 16 {
      ColorIs(q);
    }
    hide Rgb;
  }

  /** `ESC [ p ; q ]`, and with one parameter alone. */
  lemma {:induction false} SettermTyped(c: Setup, v: View, y: string, x: string)
    requires Ready(c, v) && AllDigits(y) && AllDigits(x) && y != [] && x != []
    ensures Bytes(Opening(y, x) + [']']) && Bytes(Command(y, ']'))
    ensures var w := Written(c, v, Opening(y, x) + [']']);
      && w == v.(t := v.t.(esc := w.t.esc, look := w.t.look)) && w.t.esc.state == Normal
      && SettermDoes(c.color, v.t.look, v.t.m.decscnm, Number(0, y), Number(0, x), w.t.look)
    ensures var w := Written(c, v, Command(y, ']'));
      && w == v.(t := v.t.(esc := w.t.esc, look := w.t.look)) && w.t.esc.state == Normal
      && SettermDoes(c.color, v.t.look, v.t.m.decscnm, Number(0, y), 0, w.t.look)
  {
    hide Put, Written, Number, Opening, Command, Ready, ParserOk, LookOk, RenditionOk, CursorOk, Pair;
    hide Setterm, SettermDoes;
    CommandTyped(c, v, y, ']');
    Final(c, v, One(y, false), ']');
    TwoTyped(c, v, y, x, ']');
    PairIs(y, x);
    Final(c, v, Pair(y, x), ']');
    SettermIs(c.color, v.t.look, v.t.m.decscnm, Number(0, y), 0);
    SettermIs(c.color, v.t.look, v.t.m.decscnm, Number(0, y), Number(0, x));
  }

  /** `ESC [ [` and one more byte, as function keys send it, do nothing. */
  lemma {:induction false} FunctionKeyTyped(c: Setup, v: View, ch: char)
    requires Ready(c, v) && Byte(ch) && !Control(ch)
    ensures Bytes([27 as char] + (['['] + (['['] + [ch])))
    ensures Idle(v, Written(c, v, [27 as char] + (['['] + (['['] + [ch]))))
  {
    hide Put, Written, Ready, ViewOk, Translation;
    Settled(c, v);
    Begin(c, v, ['['] + [ch]);
    var v2 := Typed(v, v.t.esc.(state := Square));
    SecondBracket(c, v2);
    WrittenFirst(c, v2, '[', [ch]);
    var v3 := Put(c, v2, '[');
    WrittenOne(c, v3, ch);
    KeyDone(c, v3, ch);
  }

  lemma {:induction false} SecondBracket(c: Setup, v: View)
    requires ViewOk(c, v) && v.t.esc.state == Square
    ensures Put(c, v, '[') == Typed(v, Put(c, v, '[').t.esc) && Put(c, v, '[').t.esc.state == FuncKey
  {
    InOrder(c, v);
    hide ViewOk, TermOk;
  }

  lemma {:induction false} KeyDone(c: Setup, v: View, ch: char)
    requires ViewOk(c, v) && v.t.esc.state == FuncKey && Byte(ch) && !Control(ch)
    ensures Put(c, v, ch) == Typed(v, v.t.esc.(state := Normal))
  {
    InOrder(c, v);
    hide ViewOk, TermOk;
  }
}
