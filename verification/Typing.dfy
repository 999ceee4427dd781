/** Typing a control sequence on the terminal of drivers/char/console.c: from the bytes to the parameters that the
    final character finds.
 */
module Typing {

  import opened Cells
  import opened Terminal
  import opened Escape
  import opened TerminalLaws

  // ---- numbers -----------------------------------------------------------------------------

  ghost predicate AllDigits(s: string) { forall i :: 0 <= i < |s| ==> Digit(s[i]) }

  /** What digits typed after `a` make of it, in 32 bits. */
  function Number(a: nat, s: string): nat
    requires AllDigits(s)
  {
    if s == [] then a else (Number(a, s[..|s| - 1]) * 10 + (s[|s| - 1] as int - '0' as int)) % 0x1_0000_0000
  }

  lemma {:induction false} NumberNone(a: nat)
    ensures Number(a, []) == a
  {
  }

  lemma {:induction false} NumberSnoc(a: nat, s: string, ch: char)
    requires AllDigits(s) && Digit(ch)
    ensures AllDigits(s + [ch]) && Number(a, s + [ch]) == (Number(a, s) * 10 + (ch as int - '0' as int)) % 0x1_0000_0000
  {
    assert (s + [ch])[..|s + [ch]| - 1] == s;
  }

  // ---- what a byte does to the parser alone ------------------------------------------------

  function Typed(v: View, p: Parser): View { v.(t := v.t.(esc := p)) }

  /** A byte for which nothing is asked of the screen. */
  lemma {:induction false} PutQuiet(c: Setup, v: View, ch: char)
    requires ViewOk(c, v) && Byte(ch) && Next(c, v.t, ch).a == Nothing
    ensures Put(c, v, ch) == v.(t := Next(c, v.t, ch).t)
  {
    hide Next;
  }

  /** A digit of a parameter. */
  lemma {:induction false} PutDigit(c: Setup, v: View, ch: char)
    requires ViewOk(c, v) && v.t.esc.state == GetPars && Digit(ch)
    ensures Put(c, v, ch) == Typed(v, OnParameter(v.t.esc, ch))
  {
    hide ViewOk;
    InOrder(c, v);
    PutQuiet(c, v, ch);
  }

  lemma {:induction false} InOrder(c: Setup, v: View)
    requires ViewOk(c, v)
    ensures SetupOk(c) && TermOk(c, v.t) && |v.cells| == Rows(c.lines, c.cols)
  {
  }

  lemma {:induction false} ViewIs(c: Setup, v: View)
    requires SetupOk(c) && TermOk(c, v.t) && |v.cells| == Rows(c.lines, c.cols)
    ensures ViewOk(c, v)
  {
  }

  lemma {:induction false} TypedOk(c: Setup, v: View, p: Parser)
    requires ViewOk(c, v) && ParserOk(p)
    ensures ViewOk(c, Typed(v, p))
  {
  }

  /** The parser after some digits. */
  function Entered(p: Parser, s: string): (r: Parser)
    requires ParserOk(p) && AllDigits(s)
    ensures ParserOk(r)
  {
    p.(par := p.par[p.npar := if s == [] then p.par[p.npar] else Number(p.par[p.npar], s)])
  }

  /** Digits typed into a parameter are a decimal number, in 32 bits. */
  lemma {:induction false} PutDigits(c: Setup, v: View, s: string)
    requires ViewOk(c, v) && v.t.esc.state == GetPars && AllDigits(s)
    ensures Written(c, v, s) == Typed(v, Entered(v.t.esc, s))
    decreases |s|
  {
    hide Put, OnParameter;
    InOrder(c, v);
    if s != [] {
      var a := s[..|s| - 1];
      PutDigits(c, v, a);
      var w := Written(c, v, a);
      TypedOk(c, v, Entered(v.t.esc, a));
      PutDigit(c, w, s[|s| - 1]);
      OneMore(v.t.esc, s);
    } else {
      assert v.t.esc.par[v.t.esc.npar := v.t.esc.par[v.t.esc.npar]] == v.t.esc.par;
    }
  }

  lemma {:induction false} OneMore(p: Parser, s: string)
    requires ParserOk(p) && AllDigits(s) && s != []
    ensures OnParameter(Entered(p, s[..|s| - 1]), s[|s| - 1]) == Entered(p, s)
  {
    hide Number;
    var a, x := s[..|s| - 1], p.par[p.npar];
    NumberNone(x);
    NumberSnoc(x, a, s[|s| - 1]);
    assert s == a + [s[|s| - 1]];
    var q := Entered(p, a);
    assert q.par[p.npar] == Number(x, a);
    assert p.par[p.npar := Number(x, a)][p.npar := Number(x, s)] == p.par[p.npar := Number(x, s)];
  }

  /** A final character of a control sequence. */
  predicate Ends(ch: char) { '@' <= ch <= '~' && ch != '[' }

  /** `ESC [` and the first digit of the first parameter, or the final character: the parser starts afresh. */
  function Opened(): Parser { Parser(GetPars, 0, seq(NPAR, i => 0), false) }

  lemma {:induction false} PutOpening(c: Setup, v: View, ch: char)
    requires ViewOk(c, v) && v.t.esc.state == Square && (Digit(ch) || Ends(ch))
    ensures ViewOk(c, Typed(v, Opened())) && Put(c, v, ch) == Put(c, Typed(v, Opened()), ch)
  {
    InOrder(c, v);
    TypedOk(c, v, Opened());
    hide ViewOk, OnPars, Perform;
    assert Cleared(v.t.esc, ch) == Opened();
    assert Next(c, v.t, ch) == Next(c, Typed(v, Opened()).t, ch);
  }

  lemma {:induction false} OpeningDigits(c: Setup, v: View, s: string)
    requires ViewOk(c, v) && v.t.esc.state == Square && AllDigits(s) && s != []
    ensures ParserOk(Opened()) && Written(c, v, s) == Typed(v, Entered(Opened(), s))
  {
    hide Put, ViewOk, Entered;
    var w := Typed(v, Opened());
    PutOpening(c, v, s[0]);
    WrittenOne(c, v, s[0]);
    WrittenOne(c, w, s[0]);
    assert s == [s[0]] + s[1..];
    WrittenInParts(c, v, [s[0]], s[1..]);
    WrittenInParts(c, w, [s[0]], s[1..]);
    PutDigits(c, w, s);
  }

  lemma {:induction false} WrittenOne(c: Setup, v: View, ch: char)
    requires ViewOk(c, v) && Byte(ch)
    ensures Written(c, v, [ch]) == Put(c, v, ch)
  {
    hide Put, ViewOk;
    assert [ch][..0] == [];
  }

  /** A separator: the next parameter, which is 0 so far. */
  lemma {:induction false} PutSeparator(c: Setup, v: View)
    requires ViewOk(c, v) && v.t.esc.state == GetPars && v.t.esc.npar < NPAR - 1
    ensures Put(c, v, ';') == Typed(v, v.t.esc.(npar := v.t.esc.npar + 1))
  {
    hide ViewOk;
    InOrder(c, v);
    PutQuiet(c, v, ';');
  }

  /** The start of a control sequence. The terminal is not to print the escape character. */
  lemma {:induction false} PutEscape(c: Setup, v: View)
    requires ViewOk(c, v) && v.t.esc.state == Normal && Translation(c, v.t.look, 27 as char) == 0
    ensures Put(c, v, 27 as char) == Typed(v, v.t.esc.(state := Esc))
  {
    hide ViewOk;
    InOrder(c, v);
    PutQuiet(c, v, 27 as char);
  }

  lemma {:induction false} PutBracket(c: Setup, v: View)
    requires ViewOk(c, v) && v.t.esc.state == Esc
    ensures Put(c, v, '[') == Typed(v, v.t.esc.(state := Square))
  {
    hide ViewOk;
    InOrder(c, v);
    PutQuiet(c, v, '[');
  }

  lemma {:induction false} PutQuestion(c: Setup, v: View)
    requires ViewOk(c, v) && v.t.esc.state == Square
    ensures ParserOk(Opened().(ques := true)) && Put(c, v, '?') == Typed(v, Opened().(ques := true))
  {
    hide ViewOk;
    InOrder(c, v);
    PutQuiet(c, v, '?');
  }

  /** Bytes of which the first is written before the others. */
  lemma {:induction false} WrittenFirst(c: Setup, v: View, ch: char, s: string)
    requires ViewOk(c, v) && Byte(ch) && forall i :: 0 <= i < |s| ==> Byte(s[i])
    ensures Written(c, v, [ch] + s) == Written(c, Put(c, v, ch), s)
  {
    hide Put, ViewOk;
    WrittenOne(c, v, ch);
    WrittenInParts(c, v, [ch], s);
  }

  /** `ESC [ y ; x` and a final character. */
  function Opening(y: string, x: string): string { [27 as char] + (['['] + (y + ([';'] + x))) }

  /** The parser after `y ; x`. */
  function Pair(y: string, x: string): (p: Parser)
    requires AllDigits(y) && AllDigits(x)
    ensures ParserOk(p)
  {
    Entered(Entered(Opened(), y).(npar := 1), x)
  }

  /** Two parameters leave everything but the parser as it was. */
  lemma {:induction false} PairTyped(c: Setup, v: View, y: string, x: string)
    requires ViewOk(c, v) && v.t.esc.state == Normal && Translation(c, v.t.look, 27 as char) == 0
    requires AllDigits(y) && AllDigits(x) && y != [] && x != []
    ensures Written(c, v, Opening(y, x)) == Typed(v, Pair(y, x)) && ViewOk(c, Typed(v, Pair(y, x)))
  {
    hide Put, ViewOk, Translation, Number, Written;
    InOrder(c, v);
    var e := v.t.esc;
    var v1, v2 := Typed(v, e.(state := Esc)), Typed(v, e.(state := Square));
    PutEscape(c, v);
    PutBracket(c, v1);
    var p3 := Entered(Opened(), y);
    OpeningDigits(c, v2, y);
    PutSeparator(c, Typed(v, p3));
    PutDigits(c, Typed(v, p3.(npar := 1)), x);
    WrittenFirst(c, Typed(v, p3), ';', x);
    WrittenInParts(c, v2, y, [';'] + x);
    WrittenFirst(c, v1, '[', y + ([';'] + x));
    WrittenFirst(c, v, 27 as char, ['['] + (y + ([';'] + x)));
    TypedOk(c, v, Pair(y, x));
  }

  lemma {:induction false} PairIs(y: string, x: string)
    requires AllDigits(y) && AllDigits(x) && y != [] && x != []
    ensures var p := Pair(y, x);
      p.state == GetPars && !p.ques && p.par[0] == Number(0, y) && p.par[1] == Number(0, x)
  {
    hide Number;
  }

  // ---- whole sequences ---------------------------------------------------------------------

  /** Between two sequences, on a terminal that does not print the escape character. */
  ghost predicate Ready(c: Setup, v: View) {
    ViewOk(c, v) && v.t.esc.state == Normal && Translation(c, v.t.look, 27 as char) == 0
  }

  /** `ESC [`, a parameter or none, and the final character. */
  function Command(s: string, ch: char): string { [27 as char] + (['['] + (s + [ch])) }

  /** `ESC [ ?`, a parameter or none, and the final character. */
  function Private(s: string, ch: char): string { [27 as char] + (['['] + (['?'] + (s + [ch]))) }

  predicate Bytes(s: string) { forall i :: 0 <= i < |s| ==> Byte(s[i]) }

  /** The parser before the final character: one parameter, 0 if it is not there. */
  function One(s: string, ques: bool): (p: Parser)
    requires AllDigits(s)
    ensures ParserOk(p) && p.state == GetPars && p.npar == 0 && p.ques == ques
    ensures p.par[0] == Number(0, s) && p.par[1] == 0
  {
    hide Number;
    NumberNone(0);
    Entered(Opened().(ques := ques), s)
  }

  /** A count: none, and zero, mean one. */
  function Count(s: string): nat
    requires AllDigits(s)
  {
    if Number(0, s) == 0 then 1 else Number(0, s)
  }

  /** The first two bytes. */
  lemma {:induction false} Begin(c: Setup, v: View, s: string)
    requires Ready(c, v) && Bytes(s)
    ensures ViewOk(c, Typed(v, v.t.esc.(state := Square)))
    ensures Written(c, v, [27 as char] + (['['] + s)) == Written(c, Typed(v, v.t.esc.(state := Square)), s)
  {
    hide Put, ViewOk, Translation, Written;
    InOrder(c, v);
    var v1 := Typed(v, v.t.esc.(state := Esc));
    PutEscape(c, v);
    PutBracket(c, v1);
    WrittenFirst(c, v1, '[', s);
    WrittenFirst(c, v, 27 as char, ['['] + s);
  }

  lemma {:induction false} CommandTyped(c: Setup, v: View, s: string, ch: char)
    requires Ready(c, v) && AllDigits(s) && Ends(ch)
    ensures Bytes(Command(s, ch)) && ViewOk(c, Typed(v, One(s, false)))
    ensures Written(c, v, Command(s, ch)) == Put(c, Typed(v, One(s, false)), ch)
  {
    hide Put, ViewOk, Written, Number, Ready;
    Settled(c, v);
    Begin(c, v, s + [ch]);
    var v2 := Typed(v, v.t.esc.(state := Square));
    TypedOk(c, v, One(s, false));
    if s == [] {
      PutOpening(c, v2, ch);
      assert s + [ch] == [ch];
      WrittenOne(c, v2, ch);
      NothingEntered(Opened());
    } else {
      OpeningDigits(c, v2, s);
      WrittenInParts(c, v2, s, [ch]);
      WrittenOne(c, Typed(v, One(s, false)), ch);
    }
  }

  lemma {:induction false} Settled(c: Setup, v: View)
    requires Ready(c, v)
    ensures ViewOk(c, v) && SetupOk(c) && TermOk(c, v.t)
  {
  }

  lemma {:induction false} NothingEntered(p: Parser)
    requires ParserOk(p)
    ensures Entered(p, []) == p
  {
    assert p.par[p.npar := p.par[p.npar]] == p.par;
  }

  lemma {:induction false} PrivateTyped(c: Setup, v: View, s: string, ch: char)
    requires Ready(c, v) && AllDigits(s) && Ends(ch)
    ensures Bytes(Private(s, ch)) && ViewOk(c, Typed(v, One(s, true)))
    ensures Written(c, v, Private(s, ch)) == Put(c, Typed(v, One(s, true)), ch)
  {
    hide Put, ViewOk, Written, Number, Ready;
    Settled(c, v);
    var p := Opened().(ques := true);
    Begin(c, v, ['?'] + (s + [ch]));
    var v2, v3 := Typed(v, v.t.esc.(state := Square)), Typed(v, p);
    TypedOk(c, v, p);
    TypedOk(c, v, One(s, true));
    PutQuestion(c, v2);
    WrittenFirst(c, v2, '?', s + [ch]);
    PutDigits(c, v3, s);
    WrittenInParts(c, v3, s, [ch]);
    WrittenOne(c, Typed(v, One(s, true)), ch);
  }

  lemma {:induction false} TwoTyped(c: Setup, v: View, y: string, x: string, ch: char)
    requires Ready(c, v) && AllDigits(y) && AllDigits(x) && y != [] && x != [] && Ends(ch)
    ensures Bytes(Opening(y, x) + [ch]) && ViewOk(c, Typed(v, Pair(y, x)))
    ensures Written(c, v, Opening(y, x) + [ch]) == Put(c, Typed(v, Pair(y, x)), ch)
  {
    hide Put, ViewOk, Translation, Number, Written, Pair;
    PairTyped(c, v, y, x);
    WrittenOne(c, Typed(v, Pair(y, x)), ch);
    WrittenInParts(c, v, Opening(y, x), [ch]);
  }

  /** The final character acts on the parameters, and the parser is done. */
  lemma {:induction false} Final(c: Setup, v: View, p: Parser, ch: char)
    requires ViewOk(c, Typed(v, p)) && p.state == GetPars && Ends(ch)
    ensures SetupOk(c) && TermOk(c, Typed(v, p).t)
    ensures var d := OnFinal(c, Typed(v, p).t, ch);
      ViewOk(c, View(d.t, v.cells)) && Put(c, Typed(v, p), ch) == Perform(c, View(d.t, v.cells), d.a)
  {
    InOrder(c, Typed(v, p));
    NextOk(c, Typed(v, p).t, ch);
    hide OnFinal, Perform, TermOk;
  }

  /** `ESC` and one more byte. */
  lemma {:induction false} EscapeTyped(c: Setup, v: View, ch: char)
    requires Ready(c, v) && Byte(ch) && !Control(ch)
    ensures Bytes([27 as char] + [ch]) && SetupOk(c) && TermOk(c, In(v.t, Esc))
    ensures var d := OnEsc(c, In(v.t, Esc), ch);
      && ViewOk(c, View(d.t, v.cells))
      && Written(c, v, [27 as char] + [ch]) == Perform(c, View(d.t, v.cells), d.a)
  {
    InOrder(c, v);
    hide ViewOk, Written, Translation, OnEsc, Perform;
    var v1 := Typed(v, v.t.esc.(state := Esc));
    PutEscape(c, v);
    TypedOk(c, v, v.t.esc.(state := Esc));
    WrittenFirst(c, v, 27 as char, [ch]);
    WrittenOne(c, v1, ch);
    NextOk(c, v1.t, ch);
    ViewIs(c, View(OnEsc(c, v1.t, ch).t, v.cells));
  }
}
