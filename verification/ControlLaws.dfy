/** What single bytes do on the terminal of drivers/char/console.c: printed characters, control characters, and those
    after ESC.
 */
module ControlLaws {

  import opened Cells
  import opened Terminal
  import opened Escape
  import opened TerminalLaws
  import opened Typing
  import opened ScreenLaws

  /** The byte is printed. */
  predicate Prints(c: Setup, v: View, ch: char)
    requires SetupOk(c) && LookOk(v.t.look) && Byte(ch)
  {
    v.t.esc.state == Normal && Translation(c, v.t.look, ch) != 0
  }

  lemma {:induction false} PutControl(c: Setup, v: View, ch: char)
    requires ViewOk(c, v) && Byte(ch) && Control(ch) && !Prints(c, v, ch)
    ensures Bytes([ch]) && SetupOk(c) && TermOk(c, v.t)
    ensures var d := OnControl(v.t, ch);
      ViewOk(c, View(d.t, v.cells)) && Written(c, v, [ch]) == Perform(c, View(d.t, v.cells), d.a)
  {
    InOrder(c, v);
    NextOk(c, v.t, ch);
    WrittenOne(c, v, ch);
    hide OnControl, Perform, TermOk;
  }

  // ---- the cursor --------------------------------------------------------------------------

  /** One row down; at the bottom margin, and below the last row, the region scrolls up instead. A pending wrap is
      forgotten only in that case. */
  ghost predicate LineFeeds(c: Setup, v: View, w: View) {
    var u := v.t.cur;
    if u.y + 1 < u.bottom then w == v.(t := v.t.(cur := u.(y := u.y + 1)))
    else w.t == v.t.(cur := u.(wrap := false)) && RowsOut(c, v.cells, w.cells, u.top, u.bottom, 1, v.t.look.erase)
  }

  /** One row up; at the top margin, and above it, the region scrolls down instead. */
  ghost predicate ReverseFeeds(c: Setup, v: View, w: View) {
    var u := v.t.cur;
    if u.y > u.top then w == v.(t := v.t.(cur := u.(y := u.y - 1)))
    else w.t == v.t.(cur := u.(wrap := false)) && RowsIn(c, v.cells, w.cells, u.top, u.bottom, 1, v.t.look.erase)
  }

  /** To the first column. */
  function FirstColumn(v: View): View { v.(t := v.t.(cur := v.t.cur.(x := 0, wrap := false))) }

  lemma {:induction false} LfIs(c: Setup, v: View)
    requires ViewOk(c, v)
    ensures LineFeeds(c, v, Terminal.Lf(c, v))
  {
    hide CellAt, ParserOk, LookOk, RenditionOk, Rows;
    var u := v.t.cur;
    var w := RowsUp(c, v.cells, u.top, u.bottom, 1, v.t.look.erase);
    hide RowsUp;
    forall r: nat, k: nat {:trigger CellAt(c, w, r, k)} | r < c.lines && k < c.cols
      ensures CellAt(c, w, r, k)
           == if u.top <= r < u.bottom then (if r + 1 < u.bottom then CellAt(c, v.cells, r + 1, k) else v.t.look.erase)
              else CellAt(c, v.cells, r, k)
    {
      UpCell(c, v.cells, u.top, u.bottom, 1, v.t.look.erase, r, k);
    }
  }

  lemma {:induction false} RiIs(c: Setup, v: View)
    requires ViewOk(c, v)
    ensures ReverseFeeds(c, v, Terminal.Ri(c, v))
  {
    hide CellAt, ParserOk, LookOk, RenditionOk, Rows;
    var u := v.t.cur;
    var w := RowsDown(c, v.cells, u.top, u.bottom, 1, v.t.look.erase);
    hide RowsDown;
    forall r: nat, k: nat {:trigger CellAt(c, w, r, k)} | r < c.lines && k < c.cols
      ensures CellAt(c, w, r, k)
           == if u.top <= r < u.bottom then (if r < u.top + 1 then v.t.look.erase else CellAt(c, v.cells, r - 1, k))
              else CellAt(c, v.cells, r, k)
    {
      DownCell(c, v.cells, u.top, u.bottom, 1, v.t.look.erase, r, k);
    }
  }

  /** Bytes 10, 11 and 12 feed a line, and in new-line mode also return to the first column. */
  lemma {:induction false} LineFeedTyped(c: Setup, v: View, b: nat) returns (w: View)
    requires ViewOk(c, v) && 10 <= b <= 12 && !Prints(c, v, b as char)
    ensures Bytes([b as char]) && LineFeeds(c, v, w)
    ensures Written(c, v, [b as char]) == if v.t.m.lnm then FirstColumn(w) else w
  {
    hide Written, LineFeeds, Translation;
    PutControl(c, v, b as char);
    w := Terminal.Lf(c, v);
    LfIs(c, v);
    hide Terminal.Lf, ViewOk;
  }

  /** Byte 13 returns to the first column. */
  lemma {:induction false} ReturnTyped(c: Setup, v: View)
    requires ViewOk(c, v) && !Prints(c, v, 13 as char)
    ensures Bytes([13 as char]) && Written(c, v, [13 as char]) == FirstColumn(v)
  {
    hide Written, Translation;
    PutControl(c, v, 13 as char);
    hide ViewOk;
  }

  /** Byte 8 goes one column back, unless in the first. */
  lemma {:induction false} BackspaceTyped(c: Setup, v: View)
    requires ViewOk(c, v) && !Prints(c, v, 8 as char)
    ensures Bytes([8 as char])
    ensures Written(c, v, [8 as char])
         == if v.t.cur.x == 0 then v else v.(t := v.t.(cur := v.t.cur.(x := v.t.cur.x - 1, wrap := false)))
  {
    hide Written, Translation;
    PutControl(c, v, 8 as char);
    hide ViewOk;
  }

  /** Byte 9 goes to the next tab stop on the right, or to the last column. */
  lemma {:induction false} TabTyped(c: Setup, v: View)
    requires ViewOk(c, v) && !Prints(c, v, 9 as char)
    ensures Bytes([9 as char]) && v.t.cur.x < c.cols <= |v.t.tabs|
    ensures var w, x := Written(c, v, [9 as char]), v.t.cur.x;
      && w == v.(t := v.t.(cur := v.t.cur.(x := w.t.cur.x)))
      && w.t.cur.x < c.cols && (x < c.cols - 1 ==> x < w.t.cur.x) && (x == c.cols - 1 ==> w.t.cur.x == x)
      && (w.t.cur.x < c.cols - 1 ==> v.t.tabs[w.t.cur.x])
      && forall k :: x < k < w.t.cur.x ==> !v.t.tabs[k]
  {
    hide Written, Translation;
    PutControl(c, v, 9 as char);
    hide NextTab, ParserOk, LookOk, RenditionOk;
  }

  // ---- the parser and the character sets ---------------------------------------------------

  /** Bytes 14 and 15 choose the character set, G1 and G0. */
  lemma {:induction false} ShiftTyped(c: Setup, v: View)
    requires ViewOk(c, v)
    ensures !Prints(c, v, 14 as char) ==>
      && Bytes([14 as char])
      && Written(c, v, [14 as char])
         == v.(t := v.t.(look := v.t.look.(r := v.t.look.r.(charset := true), translate := v.t.look.r.g1)))
    ensures !Prints(c, v, 15 as char) ==>
      && Bytes([15 as char])
      && Written(c, v, [15 as char])
         == v.(t := v.t.(look := v.t.look.(r := v.t.look.r.(charset := false), translate := v.t.look.r.g0)))
  {
    hide Written, Translation, Put;
    if !Prints(c, v, 14 as char) {
      PutControl(c, v, 14 as char);
    }
    if !Prints(c, v, 15 as char) {
      PutControl(c, v, 15 as char);
    }
    hide ParserOk, RenditionOk, CursorOk;
  }

  /** Bytes 24 and 26 break a sequence off, 27 begins one and 155 is the same as ESC [. Bytes 7 and 127 do nothing here.
      These act also in the middle of a sequence. */
  lemma {:induction false} BreakTyped(c: Setup, v: View, b: nat)
    requires ViewOk(c, v) && b in {7, 24, 26, 27, 127, 155} && !Prints(c, v, b as char)
    ensures Bytes([b as char])
    ensures var esc := v.t.esc;
      Written(c, v, [b as char])
        == if b == 24 || b == 26 then v.(t := v.t.(esc := esc.(state := Normal)))
           else if b == 27 then v.(t := v.t.(esc := esc.(state := Esc)))
           else if b == 155 then v.(t := v.t.(esc := esc.(state := Square)))
           else v
  {
    hide Written, Translation, Put;
    PutControl(c, v, b as char);
    hide ViewOk;
  }

  // ---- printing ----------------------------------------------------------------------------

  /** The cell has the attribute in its high byte and the character in its low one. */
  predicate Shows(w: Cell, attr: bv8, ch: bv8) { (w >> 8) as bv8 == attr && (w & 0xff) as bv8 == ch }

  lemma {:induction false} CellShows(attr: bv8, ch: bv8)
    ensures Shows(CellOf(attr, ch), attr, ch)
  {
  }

  lemma {:induction false} StoredCell(c: Setup, v: View, e: Cell, r: nat, k: nat)
    requires ViewOk(c, v) && r < c.lines && k < c.cols
    ensures var w := Terminal.Store(c, v, e);
      && |w.cells| == |v.cells|
      && CellAt(c, w.cells, r, k) == if r == v.t.cur.y && k == v.t.cur.x then e else CellAt(c, v.cells, r, k)
  {
    hide ParserOk, LookOk, RenditionOk, Rows;
    AtFits(c, v.t.cur);
    RowFits(c, r);
    CellOrder(c, r, k, v.t.cur.y, v.t.cur.x);
    CellOrder(c, v.t.cur.y, v.t.cur.x, r, k);
  }

  /** Every cell but the one at `(y, x)` is as it was. */
  ghost predicate Elsewhere(c: Setup, s: seq<Cell>, w: seq<Cell>, y: nat, x: nat) {
    && |w| == |s| == Rows(c.lines, c.cols)
    && forall r: nat, k: nat {:trigger CellAt(c, w, r, k)} ::
      r < c.lines && k < c.cols && !(r == y && k == x) ==> CellAt(c, w, r, k) == CellAt(c, s, r, k)
  }

  lemma {:induction false} StoreIs(c: Setup, v: View, e: Cell)
    requires ViewOk(c, v)
    ensures var w, u := Terminal.Store(c, v, e), v.t.cur;
      && u.y < c.lines && u.x < c.cols && Elsewhere(c, v.cells, w.cells, u.y, u.x) && CellAt(c, w.cells, u.y, u.x) == e
      && w.t == v.t.(cur := if u.x == c.cols - 1 then u.(wrap := v.t.m.decawm) else u.(x := u.x + 1))
  {
    InScreen(c, v);
    var w, u := Terminal.Store(c, v, e), v.t.cur;
    assert w.t == v.t.(cur := if u.x == c.cols - 1 then u.(wrap := v.t.m.decawm) else u.(x := u.x + 1));
    StoredCell(c, v, e, u.y, u.x);
    hide ViewOk, Rows, CellAt, Terminal.Store;
    forall r: nat, k: nat {:trigger CellAt(c, w.cells, r, k)} | r < c.lines && k < c.cols && !(r == u.y && k == u.x)
      ensures CellAt(c, w.cells, r, k) == CellAt(c, v.cells, r, k)
    {
      StoredCell(c, v, e, r, k);
    }
  }

  /** A printed character. If a wrap is pending the cursor first goes to the beginning of the next line, as by a return
      and a line feed: `v1`. In insert mode the rest of the row then moves right: `v2`. The character's translation is
      stored with the attribute in force, and the cursor moves on, or in the last column a wrap is pending if that mode
      is set. */
  lemma {:induction false} PrintTyped(c: Setup, v: View, ch: char) returns (v1: View, v2: View)
    requires ViewOk(c, v) && Byte(ch) && Prints(c, v, ch)
    ensures Bytes([ch]) && if v.t.cur.wrap then LineFeeds(c, FirstColumn(v), v1) else v1 == v
    ensures if v.t.m.decim then CharsIn(c, v1.cells, v2.cells, v1.t.cur.y, v1.t.cur.x, 1, v.t.look.erase)
            else v2.cells == v1.cells
    ensures v1.t == v.t.(cur := v1.t.cur) && v2.t == v1.t.(cur := v1.t.cur.(wrap := v1.t.cur.wrap && !v.t.m.decim))
    ensures var w, u := Written(c, v, [ch]), v1.t.cur;
      && u.y < c.lines && u.x < c.cols && Elsewhere(c, v2.cells, w.cells, u.y, u.x)
      && Shows(CellAt(c, w.cells, u.y, u.x), v.t.look.attr, Translation(c, v.t.look, ch))
      && w.t == v2.t.(cur := if u.x == c.cols - 1 then v2.t.cur.(wrap := v.t.m.decawm) else v2.t.cur.(x := u.x + 1))
  {
    InOrder(c, v);
    WrittenOne(c, v, ch);
    hide Written, LineFeeds, Translation, CellOf, CellAt, Elsewhere, CharsIn, RowsOut;
    var code := Translation(c, v.t.look, ch);
    assert Put(c, v, ch) == Terminal.Print(c, v, code);
    v1 := if v.t.cur.wrap then Terminal.Lf(c, Terminal.Cr(c, v)) else v;
    if v.t.cur.wrap {
      LfIs(c, Terminal.Cr(c, v));
    }
    LookKept(c, v, v1);
    v2 := if v1.t.m.decim then Terminal.InsertChars(c, v1, 1) else v1;
    CharsInAll(c, v1, 1);
    StoreIs(c, v2, CellOf(v2.t.look.attr, code));
    CellShows(v2.t.look.attr, code);
    hide Terminal.Store, Terminal.InsertChars, Terminal.Lf, ViewOk, Shows;
  }

  lemma {:induction false} LookKept(c: Setup, v: View, v1: View)
    requires v1 == v || LineFeeds(c, FirstColumn(v), v1)
    ensures v1.t == v.t.(cur := v1.t.cur)
  {
    hide RowsOut;
  }

  // ---- after ESC ---------------------------------------------------------------------------

  /** `ESC` and a letter, from a terminal between two sequences. */
  lemma {:induction false} AfterEscape(c: Setup, v: View, ch: char)
    requires Ready(c, v) && Byte(ch) && !Control(ch)
    ensures Bytes([27 as char] + [ch]) && SetupOk(c) && TermOk(c, In(v.t, Esc)) && In(In(v.t, Esc), Normal) == v.t
    ensures var d := OnEsc(c, In(v.t, Esc), ch);
      ViewOk(c, View(d.t, v.cells)) && Written(c, v, [27 as char] + [ch]) == Perform(c, View(d.t, v.cells), d.a)
  {
    EscapeTyped(c, v, ch);
    hide ViewOk, Translation, OnEsc, Perform;
  }

  lemma {:induction false} IndexDone(c: Setup, v: View)
    requires ViewOk(c, v) && SetupOk(c) && TermOk(c, In(v.t, Esc)) && In(In(v.t, Esc), Normal) == v.t
    ensures Perform(c, View(OnEsc(c, In(v.t, Esc), 'D').t, v.cells), OnEsc(c, In(v.t, Esc), 'D').a) == Terminal.Lf(c, v)
    ensures Perform(c, View(OnEsc(c, In(v.t, Esc), 'E').t, v.cells), OnEsc(c, In(v.t, Esc), 'E').a)
         == Terminal.Lf(c, Terminal.Cr(c, v))
    ensures Perform(c, View(OnEsc(c, In(v.t, Esc), 'M').t, v.cells), OnEsc(c, In(v.t, Esc), 'M').a) == Terminal.Ri(c, v)
  {
    hide ViewOk, TermOk, Terminal.Lf, Terminal.Cr, Terminal.Ri;
  }

  lemma {:induction false} CrFirst(c: Setup, v: View)
    requires ViewOk(c, v)
    ensures Terminal.Cr(c, v) == FirstColumn(v) && ViewOk(c, FirstColumn(v))
  {
    hide ViewOk;
  }

  /** `ESC D` feeds a line, `ESC E` a line from the first column, and `ESC M` a line back. */
  lemma {:induction false} IndexTyped(c: Setup, v: View)
    requires Ready(c, v)
    ensures Bytes([27 as char] + ['D']) && LineFeeds(c, v, Written(c, v, [27 as char] + ['D']))
    ensures Bytes([27 as char] + ['E']) && LineFeeds(c, FirstColumn(v), Written(c, v, [27 as char] + ['E']))
    ensures Bytes([27 as char] + ['M']) && ReverseFeeds(c, v, Written(c, v, [27 as char] + ['M']))
  {
    hide ViewOk, TermOk, Written, Perform, OnEsc, Ready, LineFeeds, ReverseFeeds, Terminal.Lf, Terminal.Cr, Terminal.Ri;
    Settled(c, v);
    AfterEscape(c, v, 'D');
    AfterEscape(c, v, 'E');
    AfterEscape(c, v, 'M');
    IndexDone(c, v);
    LfIs(c, v);
    CrFirst(c, v);
    LfIs(c, Terminal.Cr(c, v));
    RiIs(c, v);
  }

  /** `ESC H` sets a tab stop, `ESC Z` asks for the terminal's name, `ESC >` and `ESC =` choose the keypad; what is not
      known does nothing. */
  lemma {:induction false} EscTyped(c: Setup, v: View, ch: char)
    requires Ready(c, v) && Byte(ch) && !Control(ch) && ch !in {'[', 'D', 'E', 'M', '7', '8', '(', ')', '#', 'c'}
    ensures Bytes([27 as char] + [ch]) && v.t.cur.x < |v.t.tabs|
    ensures Written(c, v, [27 as char] + [ch])
         == if ch == 'H' then v.(t := v.t.(tabs := v.t.tabs[v.t.cur.x := true]))
            else if ch == 'Z' then v.(t := v.t.(reply := v.t.reply + [27 as char, '[', '?', '6', 'c']))
            else if ch == '>' then v.(t := v.t.(m := v.t.m.(kbdapplic := false)))
            else if ch == '=' then v.(t := v.t.(m := v.t.m.(kbdapplic := true)))
            else v
  {
    AfterEscape(c, v, ch);
    hide Written, Put, Translation, ParserOk, LookOk, RenditionOk;
    assert VT102ID == [27 as char, '[', '?', '6', 'c'];
  }

  lemma {:induction false} PutHere(c: Setup, w: View, ch: char)
    requires ViewOk(c, w) && Byte(ch) && !Control(ch) && w.t.esc.state != Normal
    ensures SetupOk(c) && TermOk(c, w.t)
    ensures var d := OnState(c, w.t, ch);
      ViewOk(c, View(d.t, w.cells)) && Put(c, w, ch) == Perform(c, View(d.t, w.cells), d.a)
  {
    NextOk(c, w.t, ch);
    hide OnState, Perform, TermOk;
  }

  lemma {:induction false} Intermediate(c: Setup, v: View, a: char) returns (w: View)
    requires Ready(c, v) && a in {'(', ')', '#'}
    ensures w == View(In(v.t, if a == '(' then SetG0 else if a == ')' then SetG1 else Hash), v.cells)
    ensures Bytes([27 as char] + [a]) && ViewOk(c, w) && Written(c, v, [27 as char] + [a]) == w
    ensures w.t.esc.state != Normal
  {
    AfterEscape(c, v, a);
    hide Written, Translation, Put, ViewOk, TermOk;
    w := Written(c, v, [27 as char] + [a]);
  }

  /** `ESC`, an intermediate character and a final one. */
  lemma {:induction false} ThreeTyped(c: Setup, v: View, a: char, ch: char)
    requires Ready(c, v) && a in {'(', ')', '#'} && Byte(ch) && !Control(ch)
    ensures Bytes([27 as char] + ([a] + [ch])) && SetupOk(c) && TermOk(c, v.t)
    ensures var t := In(v.t, if a == '(' then SetG0 else if a == ')' then SetG1 else Hash);
      && TermOk(c, t) && ViewOk(c, View(OnState(c, t, ch).t, v.cells))
      && Written(c, v, [27 as char] + ([a] + [ch]))
         == Perform(c, View(OnState(c, t, ch).t, v.cells), OnState(c, t, ch).a)
  {
    hide ViewOk, TermOk, Written, Perform, OnState, Translation, Put, Ready;
    Settled(c, v);
    var w := Intermediate(c, v, a);
    InOrder(c, w);
    WrittenOne(c, w, ch);
    WrittenInParts(c, v, [27 as char] + [a], [ch]);
    assert [27 as char] + [a] + [ch] == [27 as char] + ([a] + [ch]);
    PutHere(c, w, ch);
  }

  /** `ESC (` and `ESC )` choose what G0 and G1 are: Latin-1 by B, graphics by 0, IBM by U, the user's by K. The one in
      use is translated by at once. */
  lemma {:induction false} CharsetTyped(c: Setup, v: View, ch: char)
    requires Ready(c, v) && Byte(ch) && !Control(ch)
    ensures Bytes([27 as char] + (['('] + [ch]))
    ensures var k, w := v.t.look, Written(c, v, [27 as char] + (['('] + [ch]));
      && w == v.(t := v.t.(look := k.(r := k.r.(g0 := w.t.look.r.g0), translate := w.t.look.translate)))
      && Chosen(ch, k.r.g0, w.t.look.r.g0)
      && w.t.look.translate == if k.r.charset then k.translate else w.t.look.r.g0
    ensures Bytes([27 as char] + ([')'] + [ch]))
    ensures var k, w := v.t.look, Written(c, v, [27 as char] + ([')'] + [ch]));
      && w == v.(t := v.t.(look := k.(r := k.r.(g1 := w.t.look.r.g1), translate := w.t.look.translate)))
      && Chosen(ch, k.r.g1, w.t.look.r.g1)
      && w.t.look.translate == if k.r.charset then w.t.look.r.g1 else k.translate
  {
    hide *;
    ThreeTyped(c, v, '(', ch);
    ThreeTyped(c, v, ')', ch);
    CharsetDone(c, v, false, ch);
    CharsetDone(c, v, true, ch);
  }

  lemma {:induction false} CharsetDone(c: Setup, v: View, g1: bool, ch: char)
    requires Ready(c, v) && SetupOk(c) && TermOk(c, v.t)
    requires TermOk(c, In(v.t, if g1 then SetG1 else SetG0))
    ensures var d := OnState(c, In(v.t, if g1 then SetG1 else SetG0), ch);
      && Perform(c, View(d.t, v.cells), d.a) == View(d.t, v.cells)
      && var k, l := v.t.look, d.t.look;
         && d.t == v.t.(look := l)
         && if g1 then
              && l == k.(r := k.r.(g1 := l.r.g1), translate := l.translate) && Chosen(ch, k.r.g1, l.r.g1)
              && l.translate == (if k.r.charset then l.r.g1 else k.translate)
            else
              && l == k.(r := k.r.(g0 := l.r.g0), translate := l.translate) && Chosen(ch, k.r.g0, l.r.g0)
              && l.translate == (if k.r.charset then k.translate else l.r.g0)
  {
    hide Translation, ParserOk, CursorOk, SetupOk;
  }

  predicate Chosen(ch: char, was: nat, now: nat) {
    && (ch == 'B' ==> now == 0) && (ch == '0' ==> now == 1) && (ch == 'U' ==> now == 2) && (ch == 'K' ==> now == 3)
    && (ch !in {'B', '0', 'U', 'K'} ==> now == was)
  }

  lemma {:induction false} AllErased(c: Setup, v: View)
    requires ViewOk(c, v)
    ensures var w := Terminal.EraseDisplay(c, v, 2);
      && w.t == v.t.(cur := v.t.cur.(wrap := false)) && |w.cells| == |v.cells|
      && forall i :: 0 <= i < |w.cells| ==> w.cells[i] == v.t.look.erase
  {
    hide ParserOk, LookOk, RenditionOk;
    AtFits(c, v.t.cur);
  }

  lemma {:induction false} HashDone(c: Setup, v: View, ch: char)
    requires Ready(c, v) && SetupOk(c) && TermOk(c, v.t) && TermOk(c, In(v.t, Hash))
    ensures var d := OnState(c, In(v.t, Hash), ch);
      d.t == v.t && Perform(c, v, d.a) == if ch == '8' then Terminal.Align(c, v) else v
  {
    hide Translation, ParserOk, CursorOk, Terminal.Align;
  }

  lemma {:induction false} AlignIs(c: Setup, v: View)
    requires ViewOk(c, v)
    ensures var w := Terminal.Align(c, v);
      && w.t == v.t.(cur := v.t.cur.(wrap := false), look := v.t.look.(erase := w.t.look.erase))
      && Shows(w.t.look.erase, (v.t.look.erase >> 8) as bv8, 32)
      && |w.cells| == |v.cells|
      && forall i :: 0 <= i < |w.cells| ==> Shows(w.cells[i], (v.t.look.erase >> 8) as bv8, 69)
  {
    hide Shows, Terminal.EraseDisplay, CursorOk, ParserOk, RenditionOk;
    var e := v.t.look.erase;
    SameHigh(e, 69);
    SameHigh((e & 0xff00) | 69, 32);
    AllErased(c, v.(t := v.t.(look := v.t.look.(erase := (e & 0xff00) | 69))));
  }

  /** `ESC # 8` fills the screen with E. */
  lemma {:induction false} AlignTyped(c: Setup, v: View, ch: char)
    requires Ready(c, v) && Byte(ch) && !Control(ch)
    ensures Bytes([27 as char] + (['#'] + [ch]))
    ensures var w := Written(c, v, [27 as char] + (['#'] + [ch]));
      if ch != '8' then w == v
      else
        && w.t == v.t.(cur := v.t.cur.(wrap := false), look := v.t.look.(erase := w.t.look.erase))
        && Shows(w.t.look.erase, (v.t.look.erase >> 8) as bv8, 32)
        && |w.cells| == |v.cells|
        && forall i :: 0 <= i < |w.cells| ==> Shows(w.cells[i], (v.t.look.erase >> 8) as bv8, 69)
  {
    hide *;
    ThreeTyped(c, v, '#', ch);
    HashDone(c, v, ch);
    Settled(c, v);
    AlignIs(c, v);
  }

  lemma {:induction false} SameHigh(e: Cell, ch: bv8)
    ensures Shows((e & 0xff00) | (ch as bv16), (e >> 8) as bv8, ch)
    ensures ((((e & 0xff00) | (ch as bv16)) >> 8) as bv8) == (e >> 8) as bv8
  {
  }

  /** Everything in its first state: the margins and the tab stops, the modes and the rendition, the character sets, and
      the screen, which is blank. */
  ghost predicate AsNew(c: Setup, v: View, w: View) {
    && w.t.cur == Cursor(0, 0, 0, c.lines, false) && w.t.esc.state == Normal && !w.t.esc.ques
    && !w.t.m.decscnm && !w.t.m.decom && w.t.m.decawm && w.t.m.deccm && !w.t.m.decim
    && !w.t.m.lnm && !w.t.m.decckm && w.t.m.decarm && !w.t.m.kbdapplic
    && w.t.look.r == Rendition(1, false, false, false, v.t.look.defColor, false, 0, 1) && w.t.look.translate == 0
    && w.t.look == UpdateAttr(c.color, v.t.look.(r := w.t.look.r, translate := 0), false)
    && w.t.saved == Saved(0, 0, w.t.look.r) && w.t.reply == v.t.reply
    && |w.t.tabs| == 160 && (forall i :: 0 <= i < 160 ==> (w.t.tabs[i] <==> i > 0 && i % 8 == 0))
    && |w.cells| == |v.cells| && forall i :: 0 <= i < |w.cells| ==> w.cells[i] == w.t.look.erase
  }

  lemma {:induction false} ResetIs(c: Setup, v: View)
    requires ViewOk(c, v)
    ensures AsNew(c, v, Terminal.Reset(c, v))
  {
    hide Terminal.EraseDisplay, ParserOk, RenditionOk, Attr, CellOf;
    var t := ResetTerm(c, v.t);
    AllErased(c, View(t.(cur := Terminal.Goto(c, t.cur, false, 0, 0)), v.cells));
  }

  /** `ESC c`. */
  lemma {:induction false} ResetTyped(c: Setup, v: View)
    requires Ready(c, v)
    ensures Bytes([27 as char] + ['c']) && AsNew(c, v, Written(c, v, [27 as char] + ['c']))
  {
    hide Written, Put, Translation, Terminal.Reset, TermOk, AsNew;
    AfterEscape(c, v, 'c');
    Settled(c, v);
    ResetIs(c, v);
  }
}
