/** Character cells of a text screen, row after row, and the moves drivers/char/console.c makes on
    them: one shift either way of a window of cells serves scrolling, line and character edits.
 */
module Cells {

  type Cell = bv16

  /** `n` rows of `cols` cells. */
  function Rows(n: nat, cols: nat): nat { n * cols }

  lemma {:induction false} RowsStep(n: nat, cols: nat)
    ensures Rows(n + 1, cols) == Rows(n, cols) + cols && Rows(0, cols) == 0 && Rows(1, cols) == cols
  {
  }

  lemma {:induction false} RowsOrder(m: nat, n: nat, cols: nat)
    requires m <= n
    ensures Rows(m, cols) <= Rows(n, cols) && Rows(n - m, cols) == Rows(n, cols) - Rows(m, cols)
  {
    assert n * cols == m * cols + (n - m) * cols;
  }

  lemma {:induction false} RowsEven(n: nat, cols: nat)
    requires cols % 2 == 0
    ensures Rows(n, cols) % 2 == 0
  {
    hide Rows;
    if n == 0 {
      RowsStep(0, cols);
    } else {
      RowsEven(n - 1, cols);
      RowsStep(n - 1, cols);
    }
  }

  function Blank(n: nat, v: Cell): (s: seq<Cell>)
    ensures |s| == n && forall i :: 0 <= i < n ==> s[i] == v
  {
    if n == 0 then [] else Blank(n - 1, v) + [v]
  }

  function Min(a: nat, b: nat): nat { if a <= b then a else b }

  // ---- moves inside a screen ---------------------------------------------------------------

  /** `n` cells from `from` on become `v`. */
  function Fill(s: seq<Cell>, from: nat, n: nat, v: Cell): (r: seq<Cell>)
    requires from + n <= |s|
    ensures |r| == |s|
  {
    s[..from] + Blank(n, v) + s[from + n..]
  }

  /** The window from `from` to `to` loses its first `n` cells; `v` comes in at its end. */
  function Up(s: seq<Cell>, from: nat, to: nat, n: nat, v: Cell): (r: seq<Cell>)
    requires from <= to <= |s|
    ensures |r| == |s|
  {
    var k := Min(n, to - from);
    s[..from] + s[from + k..to] + Blank(k, v) + s[to..]
  }

  /** The window loses its last `n` cells; `v` comes in at its start. */
  function Down(s: seq<Cell>, from: nat, to: nat, n: nat, v: Cell): (r: seq<Cell>)
    requires from <= to <= |s|
    ensures |r| == |s|
  {
    var k := Min(n, to - from);
    s[..from] + Blank(k, v) + s[from..to - k] + s[to..]
  }

  /** What each cell is after a shift. */
  lemma {:induction false} UpAt(s: seq<Cell>, from: nat, to: nat, n: nat, v: Cell, i: nat)
    requires from <= to <= |s| && i < |s|
    ensures Up(s, from, to, n, v)[i] == if from <= i < to then (if i + n < to then s[i + n] else v) else s[i]
  {
  }

  lemma {:induction false} DownAt(s: seq<Cell>, from: nat, to: nat, n: nat, v: Cell, i: nat)
    requires from <= to <= |s| && i < |s|
    ensures Down(s, from, to, n, v)[i] == if from <= i < to then (if i < from + n then v else s[i - n]) else s[i]
  {
  }

  lemma {:induction false} FillAt(s: seq<Cell>, from: nat, n: nat, v: Cell, i: nat)
    requires from + n <= |s| && i < |s|
    ensures Fill(s, from, n, v)[i] == if from <= i < from + n then v else s[i]
  {
  }

  /** Two shifts are one. */
  lemma {:induction false} UpTwice(s: seq<Cell>, from: nat, to: nat, m: nat, n: nat, v: Cell)
    requires from <= to <= |s|
    ensures Up(Up(s, from, to, m, v), from, to, n, v) == Up(s, from, to, m + n, v)
  {
    hide Up;
    var once := Up(s, from, to, m, v);
    var twice := Up(once, from, to, n, v);
    var whole := Up(s, from, to, m + n, v);
    forall i | 0 <= i < |s|
      ensures twice[i] == whole[i]
    {
      UpAt(once, from, to, n, v, i);
      UpAt(s, from, to, m + n, v, i);
      if from <= i && i + n < to {
        UpAt(s, from, to, m, v, i + n);
      } else {
        UpAt(s, from, to, m, v, i);
      }
    }
  }

  lemma {:induction false} DownTwice(s: seq<Cell>, from: nat, to: nat, m: nat, n: nat, v: Cell)
    requires from <= to <= |s|
    ensures Down(Down(s, from, to, m, v), from, to, n, v) == Down(s, from, to, m + n, v)
  {
    hide Down;
    var once := Down(s, from, to, m, v);
    var twice := Down(once, from, to, n, v);
    var whole := Down(s, from, to, m + n, v);
    forall i | 0 <= i < |s|
      ensures twice[i] == whole[i]
    {
      DownAt(once, from, to, n, v, i);
      DownAt(s, from, to, m + n, v, i);
      if from + n <= i < to {
        DownAt(s, from, to, m, v, i - n);
      } else {
        DownAt(s, from, to, m, v, i);
      }
    }
  }

  /** A line scrolled away by the one is the only thing the other does not bring back. */
  lemma {:induction false} UpDown(s: seq<Cell>, from: nat, to: nat, n: nat, v: Cell)
    requires from <= to <= |s| && n <= to - from
    ensures Down(Up(s, from, to, n, v), from, to, n, v) == Fill(s, from, n, v)
  {
    hide Up, Down, Fill;
    var up := Up(s, from, to, n, v);
    forall i | 0 <= i < |s|
      ensures Down(up, from, to, n, v)[i] == Fill(s, from, n, v)[i]
    {
      DownAt(up, from, to, n, v, i);
      FillAt(s, from, n, v, i);
      if from + n <= i < to {
        UpAt(s, from, to, n, v, i - n);
      } else {
        UpAt(s, from, to, n, v, i);
      }
    }
  }

  // ---- string moves in video memory --------------------------------------------------------

  /** `n` cells copied from `src` to `dst`. */
  function Copied(m: seq<Cell>, dst: nat, src: nat, n: nat): (r: seq<Cell>)
    requires dst + n <= |m| && src + n <= |m|
    ensures |r| == |m|
  {
    m[..dst] + m[src..src + n] + m[dst + n..]
  }

  lemma {:induction false} CopiedAt(m: seq<Cell>, dst: nat, src: nat, n: nat, i: nat)
    requires dst + n <= |m| && src + n <= |m| && i < |m|
    ensures Copied(m, dst, src, n)[i] == if dst <= i < dst + n then m[src + (i - dst)] else m[i]
  {
  }

  /** Scrolling by copying: `o` is the screen's first cell in memory `m`, and the rest of the window
      moves up by `c` cells. */
  lemma {:induction false} CopyUp(m: seq<Cell>, o: nat, e: nat, from: nat, to: nat, c: nat, v: Cell)
    requires o <= e <= |m| && from <= to <= e - o && c <= to - from
    ensures Fill(Copied(m, o + from, o + from + c, to - from - c), o + to - c, c, v)[o..e]
      == Up(m[o..e], from, to, c, v)
  {
    hide Fill, Copied, Up;
    var d := Copied(m, o + from, o + from + c, to - from - c);
    var r := Fill(d, o + to - c, c, v);
    forall i | 0 <= i < e - o
      ensures r[o + i] == Up(m[o..e], from, to, c, v)[i]
    {
      FillAt(d, o + to - c, c, v, o + i);
      CopiedAt(m, o + from, o + from + c, to - from - c, o + i);
      UpAt(m[o..e], from, to, c, v, i);
    }
  }

  lemma {:induction false} CopyDown(m: seq<Cell>, o: nat, e: nat, from: nat, to: nat, c: nat, v: Cell)
    requires o <= e <= |m| && from <= to <= e - o && c <= to - from
    ensures Fill(Copied(m, o + from + c, o + from, to - from - c), o + from, c, v)[o..e]
      == Down(m[o..e], from, to, c, v)
  {
    hide Fill, Copied, Down;
    var d := Copied(m, o + from + c, o + from, to - from - c);
    var r := Fill(d, o + from, c, v);
    forall i | 0 <= i < e - o
      ensures r[o + i] == Down(m[o..e], from, to, c, v)[i]
    {
      FillAt(d, o + from, c, v, o + i);
      CopiedAt(m, o + from + c, o + from, to - from - c, o + i);
      DownAt(m[o..e], from, to, c, v, i);
    }
  }

  /** Scrolling by moving the origin: the screen is `c` cells further on, and its end is erased. */
  lemma {:induction false} MoveOrigin(m: seq<Cell>, o: nat, e: nat, c: nat, v: Cell)
    requires o <= e && e + c <= |m| && c <= e - o
    ensures Fill(m, e, c, v)[o + c..e + c] == Up(m[o..e], 0, e - o, c, v)
  {
    hide Fill, Up;
    var r := Fill(m, e, c, v)[o + c..e + c];
    forall i | 0 <= i < e - o
      ensures r[i] == Up(m[o..e], 0, e - o, c, v)[i]
    {
      FillAt(m, e, c, v, o + c + i);
      UpAt(m[o..e], 0, e - o, c, v, i);
    }
  }

  /** Scrolling by copying the screen back to the start of memory. */
  lemma {:induction false} CopyBack(m: seq<Cell>, start: nat, o: nat, e: nat, c: nat, v: Cell)
    requires start <= o <= e <= |m| && c <= e - o
    ensures Fill(Copied(m, start, o + c, e - o - c), start + (e - o) - c, c, v)[start..start + (e - o)]
      == Up(m[o..e], 0, e - o, c, v)
  {
    hide Fill, Copied, Up;
    var n := e - o;
    var d := Copied(m, start, o + c, n - c);
    var r := Fill(d, start + n - c, c, v);
    forall i | 0 <= i < n
      ensures r[start + i] == Up(m[o..e], 0, n, c, v)[i]
    {
      FillAt(d, start + n - c, c, v, start + i);
      CopiedAt(m, start, o + c, n - c, start + i);
      UpAt(m[o..e], 0, n, c, v, i);
    }
  }

  lemma {:induction false} FillWindow(m: seq<Cell>, o: nat, e: nat, from: nat, n: nat, v: Cell)
    requires o <= e <= |m| && from + n <= e - o
    ensures Fill(m, o + from, n, v)[o..e] == Fill(m[o..e], from, n, v)
  {
    hide Fill;
    forall i | 0 <= i < e - o
      ensures Fill(m, o + from, n, v)[o + i] == Fill(m[o..e], from, n, v)[i]
    {
      FillAt(m, o + from, n, v, o + i);
      FillAt(m[o..e], from, n, v, i);
    }
  }

  /** Nothing outside `lo..hi` differs. */
  ghost predicate Within(m: seq<Cell>, m': seq<Cell>, lo: nat, hi: nat) {
    |m| == |m'| && forall i :: 0 <= i < |m| && !(lo <= i < hi) ==> m'[i] == m[i]
  }

  lemma {:induction false} FillWithin(m: seq<Cell>, from: nat, n: nat, v: Cell, lo: nat, hi: nat)
    requires lo <= from && from + n <= hi <= |m|
    ensures Within(m, Fill(m, from, n, v), lo, hi)
  {
    forall i | 0 <= i < |m| && !(lo <= i < hi)
      ensures Fill(m, from, n, v)[i] == m[i]
    {
      FillAt(m, from, n, v, i);
    }
  }

  lemma {:induction false} CopiedWithin(m: seq<Cell>, dst: nat, src: nat, n: nat, lo: nat, hi: nat)
    requires lo <= dst && dst + n <= hi <= |m| && src + n <= |m|
    ensures Within(m, Copied(m, dst, src, n), lo, hi)
  {
    forall i | 0 <= i < |m| && !(lo <= i < hi)
      ensures Copied(m, dst, src, n)[i] == m[i]
    {
      CopiedAt(m, dst, src, n, i);
    }
  }

  lemma {:induction false} WithinTwice(m: seq<Cell>, m': seq<Cell>, m'': seq<Cell>, lo: nat, hi: nat)
    requires Within(m, m', lo, hi) && Within(m', m'', lo, hi)
    ensures Within(m, m'', lo, hi)
  {
  }

  lemma {:induction false} WithinSame(m: seq<Cell>, lo: nat, hi: nat)
    ensures Within(m, m, lo, hi)
  {
  }

  // ---- one cell more -----------------------------------------------------------------------

  lemma {:induction false} FillMore(m: seq<Cell>, at: nat, n: nat, v: Cell)
    requires at + n < |m|
    ensures Fill(m, at, n, v)[at + n := v] == Fill(m, at, n + 1, v)
  {
    hide Fill;
    var r, q := Fill(m, at, n, v)[at + n := v], Fill(m, at, n + 1, v);
    forall i | 0 <= i < |m|
      ensures r[i] == q[i]
    {
      FillAt(m, at, n, v, i);
      FillAt(m, at, n + 1, v, i);
    }
  }

  /** The same from the other end. */
  lemma {:induction false} FillLess(m: seq<Cell>, at: nat, n: nat, v: Cell)
    requires 0 < at && at + n <= |m|
    ensures Fill(m, at, n, v)[at - 1 := v] == Fill(m, at - 1, n + 1, v)
  {
    hide Fill;
    var r, q := Fill(m, at, n, v)[at - 1 := v], Fill(m, at - 1, n + 1, v);
    forall i | 0 <= i < |m|
      ensures r[i] == q[i]
    {
      FillAt(m, at, n, v, i);
      FillAt(m, at - 1, n + 1, v, i);
    }
  }

  lemma {:induction false} FillNone(m: seq<Cell>, at: nat, v: Cell)
    requires at <= |m|
    ensures Fill(m, at, 0, v) == m
  {
    assert m[..at] + Blank(0, v) + m[at..] == m;
  }

  lemma {:induction false} CopiedNone(m: seq<Cell>, dst: nat, src: nat)
    requires dst <= |m| && src <= |m|
    ensures Copied(m, dst, src, 0) == m
  {
    assert m[..dst] + m[src..src] + m[dst..] == m;
  }

  /** One cell more at the end of a copy towards lower addresses. */
  lemma {:induction false} CopiedMore(m: seq<Cell>, dst: nat, src: nat, n: nat)
    requires dst <= src && src + n < |m|
    ensures Copied(m, dst, src, n)[src + n] == m[src + n]
    ensures Copied(m, dst, src, n)[dst + n := m[src + n]] == Copied(m, dst, src, n + 1)
  {
    hide Copied;
    var r, q := Copied(m, dst, src, n)[dst + n := m[src + n]], Copied(m, dst, src, n + 1);
    CopiedAt(m, dst, src, n, src + n);
    forall i | 0 <= i < |m|
      ensures r[i] == q[i]
    {
      CopiedAt(m, dst, src, n, i);
      CopiedAt(m, dst, src, n + 1, i);
    }
  }

  /** One cell more at the start of a copy towards higher addresses. */
  lemma {:induction false} CopiedLess(m: seq<Cell>, dst: nat, src: nat, n: nat)
    requires 0 < src <= dst && dst + n <= |m|
    ensures Copied(m, dst, src, n)[src - 1] == m[src - 1]
    ensures Copied(m, dst, src, n)[dst - 1 := m[src - 1]] == Copied(m, dst - 1, src - 1, n + 1)
  {
    hide Copied;
    var r, q := Copied(m, dst, src, n)[dst - 1 := m[src - 1]], Copied(m, dst - 1, src - 1, n + 1);
    CopiedAt(m, dst, src, n, src - 1);
    forall i | 0 <= i < |m|
      ensures r[i] == q[i]
    {
      CopiedAt(m, dst, src, n, i);
      CopiedAt(m, dst - 1, src - 1, n + 1, i);
    }
  }

  /** Carrying cells along: the window grows by one. */
  lemma {:induction false} DownMore(m: seq<Cell>, from: nat, n: nat, v: Cell)
    requires from + n < |m|
    ensures Down(m, from, from + n, 1, v)[from + n] == m[from + n]
    ensures Down(m, from, from + n, 1, v)[from + n := if n == 0 then v else m[from + n - 1]]
      == Down(m, from, from + n + 1, 1, v)
  {
    hide Down;
    var r := Down(m, from, from + n, 1, v)[from + n := if n == 0 then v else m[from + n - 1]];
    var q := Down(m, from, from + n + 1, 1, v);
    DownAt(m, from, from + n, 1, v, from + n);
    forall i | 0 <= i < |m|
      ensures r[i] == q[i]
    {
      DownAt(m, from, from + n, 1, v, i);
      DownAt(m, from, from + n + 1, 1, v, i);
    }
  }

  lemma {:induction false} DownWindow(m: seq<Cell>, o: nat, e: nat, from: nat, to: nat, n: nat, v: Cell)
    requires o <= e <= |m| && from <= to <= e - o
    ensures Down(m, o + from, o + to, n, v)[o..e] == Down(m[o..e], from, to, n, v)
  {
    hide Down;
    var r := Down(m, o + from, o + to, n, v)[o..e];
    forall i | 0 <= i < e - o
      ensures r[i] == Down(m[o..e], from, to, n, v)[i]
    {
      DownAt(m, o + from, o + to, n, v, o + i);
      DownAt(m[o..e], from, to, n, v, i);
    }
  }

  lemma {:induction false} DownWithin(m: seq<Cell>, from: nat, to: nat, n: nat, v: Cell, lo: nat, hi: nat)
    requires lo <= from <= to <= hi <= |m|
    ensures Within(m, Down(m, from, to, n, v), lo, hi)
  {
    hide Down;
    forall i | 0 <= i < |m| && !(lo <= i < hi)
      ensures Down(m, from, to, n, v)[i] == m[i]
    {
      DownAt(m, from, to, n, v, i);
    }
  }

  // ---- cells moved two at a time -----------------------------------------------------------

  /** The copy that `rep movsl` makes of `n` cells, `n >> 1` times two, with the erased cells from
      where it stopped. */
  function ByPairs(s: seq<Cell>, n: nat, c: nat, v: Cell): seq<Cell>
    requires n + c <= |s|
  {
    Fill(Copied(s, 0, c, n / 2 * 2), n / 2 * 2, c, v)
  }

  lemma {:induction false} EvenPairs(s: seq<Cell>, n: nat, c: nat, v: Cell)
    requires n % 2 == 0 && |s| == n + c
    ensures ByPairs(s, n, c, v) == Up(s, 0, n + c, c, v)
  {
    hide Fill, Copied, Up;
    assert s[0..n + c] == s && n / 2 * 2 == n;
    CopyUp(s, 0, n + c, 0, n + c, c, v);
    var r := Fill(Copied(s, 0, c, n), n, c, v);
    assert r[0..n + c] == r;
  }

  /** The last cell, when it has no partner. */
  lemma {:induction false} OddPairs(n: nat, c: nat, v: Cell, w: Cell)
    requires n % 2 == 1 && c > 0 && v != w
    ensures ByPairs(Blank(n + c, w), n, c, v) != Up(Blank(n + c, w), 0, n + c, c, v)
  {
    hide Fill, Copied, Up;
    var s := Blank(n + c, w);
    var i := n + c - 1;
    FillAt(Copied(s, 0, c, n - 1), n - 1, c, v, i);
    CopiedAt(s, 0, c, n - 1, i);
    UpAt(s, 0, n + c, c, v, i);
    assert n / 2 * 2 == n - 1;
    assert ByPairs(s, n, c, v)[i] == w && Up(s, 0, n + c, c, v)[i] == v;
  }

  /** Moving a whole number of pairs is what makes a copied scroll right: for every `n` and `c`, it
      shifts every screen correctly exactly when `n` is even. */
  lemma {:induction false} PairsExact(n: nat, c: nat, v: Cell, w: Cell)
    requires c > 0 && v != w
    ensures (forall s: seq<Cell> | |s| == n + c :: ByPairs(s, n, c, v) == Up(s, 0, n + c, c, v)) <==> n % 2 == 0
  {
    hide Fill, Copied, Up, ByPairs;
    if n % 2 == 0 {
      forall s: seq<Cell> | |s| == n + c
        ensures ByPairs(s, n, c, v) == Up(s, 0, n + c, c, v)
      {
        EvenPairs(s, n, c, v);
      }
    } else {
      OddPairs(n, c, v, w);
      assert |Blank(n + c, w)| == n + c;
    }
  }
}
