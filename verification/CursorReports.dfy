/** What drivers/char/console.c tells a program about the cursor, sent back to it: `ESC [ 6 n` is
    answered by `ESC [ y ; x R`, and `ESC [ y ; x H` goes to a place.
 */
module CursorReports {

  import opened Cells
  import opened Terminal
  import opened Escape
  import opened TerminalLaws
  import opened Typing

  // ---- numbers -----------------------------------------------------------------------------

  /** A number below a thousand is read back from the digits it is reported with. */
  lemma {:induction false} NumberBack(n: nat)
    requires n < 1000
    ensures AllDigits(Escape.Digits(n)) && Number(0, Escape.Digits(n)) == n && |Escape.Digits(n)| > 0
  {
    hide Number, DigitOf;
    if n < 10 {
      OneDigit(n);
    } else if n < 100 {
      TwoDigits(n / 10, n % 10);
    } else {
      Decimal(n);
      ThreeDigits(n / 100 % 10, n / 10 % 10, n % 10);
    }
  }

  lemma {:induction false} Decimal(n: nat)
    requires n < 1000
    ensures n / 100 < 10 && n == 100 * (n / 100) + 10 * (n / 10 % 10) + n % 10
  {
    assert n / 10 / 10 == n / 100;
  }

  lemma {:induction false} OneDigit(x: nat)
    requires x < 10
    ensures AllDigits([DigitOf(x)]) && Number(0, [DigitOf(x)]) == x
  {
    hide DigitOf;
    NumberNone(0);
    NumberSnoc(0, [], DigitOf(x));
    assert [] + [DigitOf(x)] == [DigitOf(x)];
  }

  lemma {:induction false} TwoDigits(x: nat, y: nat)
    requires x < 10 && y < 10
    ensures AllDigits([DigitOf(x), DigitOf(y)]) && Number(0, [DigitOf(x), DigitOf(y)]) == 10 * x + y
  {
    hide Number, DigitOf;
    OneDigit(x);
    NumberSnoc(0, [DigitOf(x)], DigitOf(y));
    assert [DigitOf(x)] + [DigitOf(y)] == [DigitOf(x), DigitOf(y)];
  }

  lemma {:induction false} ThreeDigits(x: nat, y: nat, z: nat)
    requires x < 10 && y < 10 && z < 10
    ensures var d := [DigitOf(x), DigitOf(y), DigitOf(z)]; AllDigits(d) && Number(0, d) == 100 * x + 10 * y + z
  {
    hide Number, DigitOf;
    TwoDigits(x, y);
    NumberSnoc(0, [DigitOf(x), DigitOf(y)], DigitOf(z));
    assert [DigitOf(x), DigitOf(y)] + [DigitOf(z)] == [DigitOf(x), DigitOf(y), DigitOf(z)];
  }

  /** The final `H`. */
  lemma {:induction false} PutH(c: Setup, v: View)
    requires ViewOk(c, v) && v.t.esc.state == GetPars && !v.t.esc.ques
    ensures var u := Put(c, v, 'H');
      && u.cells == v.cells
      && u.t.cur == Terminal.Goto(c, v.t.cur, v.t.m.decom, ToInt(Less(v.t.esc.par[1])), ToInt(Less(v.t.esc.par[0])))
  {
    hide ViewOk, Terminal.Goto, ToInt, Less;
    InOrder(c, v);
  }

  /** `ESC [ y ; x H`. */
  function Sequence(y: string, x: string): string { Opening(y, x) + ['H'] }

  /** It goes to the place of these numbers. */
  lemma {:induction false} PlaceTyped(c: Setup, v: View, y: string, x: string)
    requires ViewOk(c, v) && v.t.esc.state == Normal && Translation(c, v.t.look, 27 as char) == 0
    requires AllDigits(y) && AllDigits(x) && y != [] && x != []
    ensures var s := Sequence(y, x);
      && (forall i :: 0 <= i < |s| ==> Byte(s[i]))
      && Written(c, v, s).cells == v.cells
      && Written(c, v, s).t.cur ==
         Terminal.Goto(c, v.t.cur, v.t.m.decom, ToInt(Less(Number(0, x))), ToInt(Less(Number(0, y))))
  {
    hide Put, Terminal.Goto, ToInt, Less, ViewOk, Translation, Number, Written, Pair;
    InOrder(c, v);
    PairTyped(c, v, y, x);
    PairIs(y, x);
    PutH(c, Typed(v, Pair(y, x)));
    WrittenOne(c, Typed(v, Pair(y, x)), 'H');
    WrittenInParts(c, v, Opening(y, x), ['H']);
  }

  /** A cursor report, its last letter made an `H`. */
  function SentBack(report: string): string
    requires report != []
  {
    report[..|report| - 1] + ['H']
  }

  /** Where a report sends the cursor when it is written to the terminal: the same column, and the
      same row exactly when origin mode is off or does not shift it. The report counts the row from
      above the margin, and gotoxy adds the margin again. */
  lemma {:induction false} ReportReturns(c: Setup, v: View)
    requires ViewOk(c, v) && v.t.esc.state == Normal && Translation(c, v.t.look, 27 as char) == 0
    ensures var s, u := SentBack(CursorReport(v.t)), v.t.cur;
      && (forall i :: 0 <= i < |s| ==> Byte(s[i]))
      && Written(c, v, s).cells == v.cells && Written(c, v, s).t.cur.x == u.x && !Written(c, v, s).t.cur.wrap
      && (Written(c, v, s).t.cur.y == u.y <==>
          !v.t.m.decom || (u.top == 0 && u.y < u.bottom) || u.y == u.bottom - 1)
  {
    hide Put, ViewOk, Translation, Number, Written, Escape.Digits;
    InOrder(c, v);
    var u := v.t.cur;
    var row := u.y + if v.t.m.decom then u.top + 1 else 1;
    var y, x := Escape.Digits(row), Escape.Digits(u.x + 1);
    NumberBack(row);
    NumberBack(u.x + 1);
    assert SentBack(CursorReport(v.t)) == Sequence(y, x);
    PlaceTyped(c, v, y, x);
    BackAgain(c, u, v.t.m.decom);
  }

  lemma {:induction false} Small(n: nat)
    requires n < 0x8000_0000
    ensures ToInt(n) == n
  {
  }

  /** gotoxy of a report's numbers. */
  lemma {:induction false} BackAgain(c: Setup, u: Cursor, decom: bool)
    requires SetupOk(c) && CursorOk(c, u)
    ensures
      var row := u.y + if decom then u.top + 1 else 1;
      var r := Terminal.Goto(c, u, decom, ToInt(Less(u.x + 1)), ToInt(Less(row)));
      && r.x == u.x && !r.wrap
      && (r.y == u.y <==> !decom || (u.top == 0 && u.y < u.bottom) || u.y == u.bottom - 1)
  {
    hide ToInt;
    Small(u.x);
    Small(u.y + if decom then u.top else 0);
    Small(u.y + u.top + u.top);
  }

  /** Reported on the fifth row, the region being the third to the tenth and origin mode on, a cursor
      comes back on the ninth. */
  lemma {:induction false} ReportMoves(c: Setup, v: View)
    requires ViewOk(c, v) && v.t.esc.state == Normal && Translation(c, v.t.look, 27 as char) == 0
    requires v.t.m.decom && v.t.cur.y == 4 && v.t.cur.top == 2 && v.t.cur.bottom == 10
    ensures var s := SentBack(CursorReport(v.t));
      (forall i :: 0 <= i < |s| ==> Byte(s[i])) && Written(c, v, s).t.cur.y == 8
  {
    hide Put, ViewOk, Translation, Number, Written, Escape.Digits;
    InOrder(c, v);
    var y, x := Escape.Digits(7), Escape.Digits(v.t.cur.x + 1);
    NumberBack(7);
    NumberBack(v.t.cur.x + 1);
    assert SentBack(CursorReport(v.t)) == Sequence(y, x);
    PlaceTyped(c, v, y, x);
    assert ToInt(Less(7)) == 6 && ToInt(8) == 8;
  }

  // ---- a row that does not fit in 32 bits --------------------------------------------------

  /** The final `r`: margins of at least two lines, and the cursor in the first place. */
  lemma {:induction false} PutRegion(c: Setup, v: View)
    requires ViewOk(c, v) && v.t.esc.state == GetPars && !v.t.esc.ques && 0 < v.t.esc.par[0] < v.t.esc.par[1] <= c.lines
    ensures var t := Put(c, v, 'r').t;
      && t.esc.state == Normal && t.look == v.t.look && t.m == v.t.m
      && t.cur.top == v.t.esc.par[0] - 1 && t.cur.bottom == v.t.esc.par[1]
  {
    hide ViewOk, Terminal.Goto, LookOk, ParserOk, RenditionOk;
    InOrder(c, v);
  }

  /** `ESC [ y ; x r`. */
  lemma {:induction false} RegionTyped(c: Setup, v: View, y: string, x: string)
    requires ViewOk(c, v) && v.t.esc.state == Normal && Translation(c, v.t.look, 27 as char) == 0
    requires AllDigits(y) && AllDigits(x) && y != [] && x != [] && 0 < Number(0, y) < Number(0, x) <= c.lines
    ensures forall i :: 0 <= i < |Opening(y, x) + ['r']| ==> Byte((Opening(y, x) + ['r'])[i])
    ensures var t := Written(c, v, Opening(y, x) + ['r']).t;
      && t.esc.state == Normal && t.look == v.t.look && t.m == v.t.m
      && t.cur.top == Number(0, y) - 1 && t.cur.bottom == Number(0, x)
  {
    hide Put, ViewOk, Translation, Number, Written, Pair;
    PairTyped(c, v, y, x);
    PairIs(y, x);
    PutRegion(c, Typed(v, Pair(y, x)));
    WrittenOne(c, Typed(v, Pair(y, x)), 'r');
    WrittenInParts(c, v, Opening(y, x), ['r']);
  }

  /** The parser after `ESC [ ? 6`. */
  function Asking(): (p: Parser)
    ensures ParserOk(p)
  {
    Opened().(ques := true, par := seq(NPAR, i => if i == 0 then 6 else 0))
  }

  /** The final `h` of `ESC [ ? 6 h`: origin mode. */
  lemma {:induction false} PutOrigin(c: Setup, v: View)
    requires ViewOk(c, v) && v.t.esc == Asking()
    ensures var t := Put(c, v, 'h').t;
      && t.esc.state == Normal && t.look == v.t.look && t.m.decom
      && t.cur.top == v.t.cur.top && t.cur.bottom == v.t.cur.bottom
  {
    hide ViewOk, Terminal.Goto, LookOk, RenditionOk;
    InOrder(c, v);
    var p := Asking().(state := Normal);
    assert p.par[..1] == [6];
    TypedOk(c, v, p);
    ModeOne(c, Typed(v, p), 6);
  }

  lemma {:induction false} ModeOne(c: Setup, v: View, p: nat)
    requires ViewOk(c, v)
    ensures SetModes(c, v, true, [p]) == SetMode(c, v, true, p)
  {
    hide ViewOk, SetMode;
  }

  const ORIGIN: string := [27 as char] + (['['] + (['?'] + (['6'] + ['h'])))

  lemma {:induction false} OriginTyped(c: Setup, v: View)
    requires ViewOk(c, v) && v.t.esc.state == Normal && Translation(c, v.t.look, 27 as char) == 0
    ensures forall i :: 0 <= i < |ORIGIN| ==> Byte(ORIGIN[i])
    ensures var t := Written(c, v, ORIGIN).t;
      && t.esc.state == Normal && t.look == v.t.look && t.m.decom
      && t.cur.top == v.t.cur.top && t.cur.bottom == v.t.cur.bottom
  {
    hide Put, ViewOk, Translation, Written, OnParameter;
    InOrder(c, v);
    var e := v.t.esc;
    var v1, v2, v3 := Typed(v, e.(state := Esc)), Typed(v, e.(state := Square)), Typed(v, Opened().(ques := true));
    PutEscape(c, v);
    PutBracket(c, v1);
    PutQuestion(c, v2);
    TypedOk(c, v, Opened().(ques := true));
    PutDigit(c, v3, '6');
    SixTyped();
    var v4 := Typed(v, Asking());
    TypedOk(c, v, Asking());
    PutOrigin(c, v4);
    WrittenOne(c, v4, 'h');
    WrittenFirst(c, v3, '6', ['h']);
    WrittenFirst(c, v2, '?', ['6'] + ['h']);
    WrittenFirst(c, v1, '[', ['?'] + (['6'] + ['h']));
    WrittenFirst(c, v, 27 as char, ['['] + (['?'] + (['6'] + ['h'])));
  }

  lemma {:induction false} SixTyped()
    ensures ParserOk(Opened().(ques := true)) && OnParameter(Opened().(ques := true), '6') == Asking()
  {
    assert OnParameter(Opened().(ques := true), '6').par == Asking().par;
  }

  /** The largest row there is. */
  const MOST: string := "2147483647"

  lemma {:induction false} MostIs()
    ensures AllDigits(MOST) && Number(0, MOST) == 0x7fff_ffff
  {
    hide Number;
    NumberNone(0);
    assert MOST[..0] == [];
    for i := 0 to 10
      invariant AllDigits(MOST[..i])
      invariant Number(0, MOST[..i])
             == [0, 2, 21, 214, 2147, 21474, 214748, 2147483, 21474836, 214748364, 0x7fff_ffff][i]
    {
      NumberSnoc(0, MOST[..i], MOST[i]);
      assert MOST[..i + 1] == MOST[..i] + [MOST[i]];
    }
    assert MOST[..10] == MOST;
  }

  /** `ESC [ 3 ; 10 r`, `ESC [ ? 6 h` and `ESC [ 2147483647 ; 1 H` send the cursor of any terminal of ten
      lines or more to the first row, which is not even in the region. */
  lemma {:induction false} RowWraps(c: Setup, v: View)
    requires ViewOk(c, v) && v.t.esc.state == Normal && Translation(c, v.t.look, 27 as char) == 0 && c.lines >= 10
    ensures AllDigits("3") && AllDigits("10") && AllDigits("1") && AllDigits(MOST)
    ensures forall i :: 0 <= i < |ORIGIN| ==> Byte(ORIGIN[i])
    ensures var t := Written(c, v, Opening("3", "10") + ['r'] + ORIGIN + Sequence(MOST, "1")).t;
      t.cur.top == 2 && t.cur.bottom == 10 && t.cur.y == 0
  {
    hide Put, ViewOk, Translation, Number, Written, Opening;
    InOrder(c, v);
    OneDigit(3);
    TwoDigits(1, 0);
    OneDigit(1);
    assert [DigitOf(3)] == "3" && [DigitOf(1), DigitOf(0)] == "10" && [DigitOf(1)] == "1";
    MostIs();
    RegionTyped(c, v, "3", "10");
    var r := Opening("3", "10") + ['r'];
    var v1 := Written(c, v, r);
    OriginTyped(c, v1);
    var v2 := Written(c, v1, ORIGIN);
    PlaceTyped(c, v2, MOST, "1");
    InOrder(c, v2);
    GotoWraps(c, v2.t.cur);
    WrittenInParts(c, v, r, ORIGIN);
    WrittenInParts(c, v, r + ORIGIN, Sequence(MOST, "1"));
  }
}
