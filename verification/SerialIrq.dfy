/** The interrupt routine of drivers/char/serial.c: receive_chars and the loop of rs_interrupt, for
    every sequence of values that the chips' registers may have.
 */
module SerialIrq {

  import opened SerialPorts

  const TTY_BUF_SIZE: nat := 1024

  const LSR_DR: bv8 := 0x01
  const LSR_OE: bv8 := 0x02
  const LSR_PE: bv8 := 0x04
  const LSR_FE: bv8 := 0x08
  const LSR_BI: bv8 := 0x10
  const MSR_CTS: bv8 := 0x10
  const IIR_NO_INT: bv8 := 0x01

  const TTY_BREAK: bv8 := 1
  const TTY_FRAME: bv8 := 2
  const TTY_PARITY: bv8 := 3
  const TTY_OVERRUN: bv8 := 4

  predicate On(status: bv8, bits: bv8) { status & bits != 0 }

  /** The registers as they are read: any values, one after the other. */
  class Wire {
    const value: nat -> bv8
    var clock: nat

    constructor (value: nat -> bv8)
    {
      this.value, clock := value, 0;
    }

    method Inp() returns (v: bv8)
      modifies `clock
      ensures v == value(old(clock)) && clock == old(clock) + 1
    {
      v, clock := value(clock), clock + 1;
    }
  }

  // ---- the receive queue -------------------------------------------------------------------

  /** `n` characters of a ring from `tail` on. */
  function Ring(buf: seq<bv8>, tail: nat, n: nat): (s: seq<bv8>)
    requires |buf| == TTY_BUF_SIZE
    ensures |s| == n
  {
    seq(n, i requires 0 <= i < n => buf[(tail + i) % TTY_BUF_SIZE])
  }

  /** A character put after the last one changes none of the others. */
  lemma {:induction false} RingMore(buf: seq<bv8>, tail: nat, n: nat, c: bv8)
    requires |buf| == TTY_BUF_SIZE && n < TTY_BUF_SIZE
    ensures Ring(buf[(tail + n) % TTY_BUF_SIZE := c], tail, n + 1) == Ring(buf, tail, n) + [c]
  {
    var b := buf[(tail + n) % TTY_BUF_SIZE := c];
    forall i | 0 <= i < n
      ensures Ring(b, tail, n + 1)[i] == Ring(buf, tail, n)[i]
    {
      Apart1024(tail, i, n);
    }
  }

  lemma {:induction false} Apart1024(tail: nat, i: nat, n: nat)
    requires i < n < TTY_BUF_SIZE
    ensures (tail + i) % TTY_BUF_SIZE != (tail + n) % TTY_BUF_SIZE
  {
  }

  /** `(tail - head - 1) & (TTY_BUF_SIZE - 1)`. */
  function Vleft(head: nat, tail: nat): nat { (tail - head - 1) % TTY_BUF_SIZE }

  /** How many places of the ring come after `tail` and before `head`. */
  function Between(head: nat, tail: nat): nat
    requires head < TTY_BUF_SIZE && tail < TTY_BUF_SIZE
  {
    if head >= tail then head - tail else head + TTY_BUF_SIZE - tail
  }

  lemma {:induction false} CountIs(head: nat, tail: nat)
    requires head < TTY_BUF_SIZE && tail < TTY_BUF_SIZE
    ensures var n := Between(head, tail);
      n < TTY_BUF_SIZE && Vleft(head, tail) == TTY_BUF_SIZE - 1 - n && head == (tail + n) % TTY_BUF_SIZE
  {
    if head >= tail {
      OneTurn(tail - head - 1 + TTY_BUF_SIZE, -1);
    } else {
      OneTurn(tail - head - 1, 0);
      OneTurn(head, 1);
    }
  }

  /** A place of the ring, some turns on. */
  lemma {:induction false} OneTurn(i: nat, turns: int)
    requires i < TTY_BUF_SIZE
    ensures (i + turns * TTY_BUF_SIZE) % TTY_BUF_SIZE == i
  {
  }

  class Queue {
    var buf: seq<bv8>
    var head: nat
    var tail: nat

    ghost predicate Valid()
      reads this
    {
      |buf| == TTY_BUF_SIZE && head < TTY_BUF_SIZE && tail < TTY_BUF_SIZE
    }

    function Count(): (n: nat)
      requires Valid()
      reads this
      ensures n < TTY_BUF_SIZE && Vleft(head, tail) == TTY_BUF_SIZE - 1 - n && head == (tail + n) % TTY_BUF_SIZE
    {
      CountIs(head, tail);
      Between(head, tail)
    }

    constructor ()
      ensures Valid() && Unread() == []
    {
      buf := seq(TTY_BUF_SIZE, _ => 0);
      head, tail := 0, 0;
    }

    /** The characters received and not read. */
    ghost function Unread(): seq<bv8>
      requires Valid()
      reads this
    {
      Ring(buf, tail, Count())
    }
  }

  // ---- receive_chars -----------------------------------------------------------------------

  /** What goes in the queue before a character that arrives with this status. */
  function Marks(status: bv8, mask: bv8): (s: seq<bv8>)
    ensures |s| <= 1
  {
    if !On(status, mask) then []
    else if On(status, LSR_BI) then [TTY_BREAK]
    else if On(status, LSR_PE) then [TTY_PARITY]
    else if On(status, LSR_FE) then [TTY_FRAME]
    else if On(status, LSR_OE) then [TTY_OVERRUN]
    else []
  }

  /** A break is marked 1, a parity error 3, a frame error 2 and an overrun 4, the first of these that the status shows;
      a status without any bit of the mask marks nothing. */
  lemma {:induction false} MarkOf(status: bv8, mask: bv8)
    ensures status & mask == 0 ==> Marks(status, mask) == []
    ensures status & mask != 0 && status & 0x10 != 0 ==> Marks(status, mask) == [1]
    ensures status & mask != 0 && status & 0x14 == 0x04 ==> Marks(status, mask) == [3]
    ensures status & mask != 0 && status & 0x1c == 0x08 ==> Marks(status, mask) == [2]
    ensures status & mask != 0 && status & 0x1e == 0x02 ==> Marks(status, mask) == [4]
    ensures status & 0x1e == 0 ==> Marks(status, mask) == []
  {
  }

  /** All that a call of receive_chars accepts with `left` places free: characters until the chip has
      no more or fewer than two places are left. The last reading is number `clock`. */
  datatype Arrived = Arrived(chars: seq<bv8>, clock: nat, status: bv8)

  function Arrivals(value: nat -> bv8, clock: nat, status: bv8, mask: bv8, left: nat): Arrived
    decreases left
  {
    if left < 2 then Arrived([], clock + 1, status)
    else
      var got := Marks(status, mask) + [value(clock)];
      var next := value(clock + 1);
      if !On(next, LSR_DR) then Arrived(got, clock + 2, next)
      else
        var rest := Arrivals(value, clock + 2, next, mask, left - |got|);
        Arrived(got + rest.chars, rest.clock, rest.status)
  }

  /** `chars` are readings `clock`, `clock + 2` and so on, and the status read after each but the last says that
      there is one more. */
  ghost predicate EverySecond(value: nat -> bv8, clock: nat, chars: seq<bv8>) {
    && (forall j :: 0 <= j < |chars| ==> chars[j] == value(clock + 2 * j))
    && (forall j :: 1 <= j < |chars| ==> value(clock + 2 * j - 1) & 0x01 != 0)
  }

  lemma {:induction false} OneBefore(value: nat -> bv8, clock: nat, chars: seq<bv8>)
    requires EverySecond(value, clock + 2, chars) && value(clock + 1) & 0x01 != 0
    ensures EverySecond(value, clock, [value(clock)] + chars)
  {
    var all := [value(clock)] + chars;
    forall j | 1 <= j < |all|
      ensures all[j] == value(clock + 2 * j) && value(clock + 2 * j - 1) & 0x01 != 0
    {
      assert all[j] == chars[j - 1];
      assert clock + 2 + 2 * (j - 1) == clock + 2 * j;
      assert j > 1 ==> value(clock + 2 + 2 * (j - 1) - 1) & 0x01 != 0;
    }
  }

  /** With no condition marked, every second reading is a character. They are accepted until the status read after
      one says that there is no more, or until one place is left; the character read then is lost. */
  lemma {:induction false} ArrivalsPlain(value: nat -> bv8, clock: nat, status: bv8, left: nat)
    requires left >= 1
    ensures var got := Arrivals(value, clock, status, 0, left);
      |got.chars| <= left - 1 && EverySecond(value, clock, got.chars) && EndsAt(value, clock, left, got)
    decreases left
  {
    hide EverySecond, EndsAt, Marks, Arrivals;
    PlainStep(value, clock, status, left);
    var next := value(clock + 1);
    if left >= 2 && next & 0x01 != 0 {
      ArrivalsPlain(value, clock + 2, next, left - 1);
      OneBefore(value, clock, Arrivals(value, clock + 2, next, 0, left - 1).chars);
      EndsLater(value, clock, left, Arrivals(value, clock + 2, next, 0, left - 1));
    }
  }

  /** The last reading was a status that says no more, or a character for which there was no room. */
  predicate EndsAt(value: nat -> bv8, clock: nat, left: nat, got: Arrived) {
    || (got.chars != [] && got.clock == clock + 2 * |got.chars| && value((got.clock - 1) as nat) & 0x01 == 0)
    || (|got.chars| + 1 == left && got.clock == clock + 2 * |got.chars| + 1)
  }

  lemma {:induction false} EndsLater(value: nat -> bv8, clock: nat, left: nat, rest: Arrived)
    requires left >= 1 && EndsAt(value, clock + 2, left - 1, rest)
    ensures EndsAt(value, clock, left, Arrived([value(clock)] + rest.chars, rest.clock, rest.status))
  {
  }

  /** With nothing marked, one character at most comes in before the rest. */
  lemma {:induction false} PlainStep(value: nat -> bv8, clock: nat, status: bv8, left: nat)
    requires left >= 1
    ensures var next, got := value(clock + 1), Arrivals(value, clock, status, 0, left);
      if left >= 2 && next & 0x01 != 0 then
        var rest := Arrivals(value, clock + 2, next, 0, left - 1);
        got == Arrived([value(clock)] + rest.chars, rest.clock, rest.status)
      else |got.chars| <= left - 1 && EverySecond(value, clock, got.chars) && EndsAt(value, clock, left, got)
  {
    MarkOf(status, 0);
    hide Marks;
    assert [] + [value(clock)] == [value(clock)];
  }

  method Insert(q: Queue, c: bv8)
    requires q.Valid() && Vleft(q.head, q.tail) >= 1
    modifies q`head, q`buf
    ensures q.Valid() && q.Unread() == old(q.Unread()) + [c]
    ensures Vleft(q.head, q.tail) == Vleft(old(q.head), q.tail) - 1
  {
    hide Ring;
    RingMore(q.buf, q.tail, q.Count(), c);
    ghost var b, n := q.buf, q.Count();
    q.buf := q.buf[q.head := c];
    q.head := (q.head + 1) % TTY_BUF_SIZE;
    CountMore(q.tail, n);
    assert q.buf == b[(q.tail + n) % TTY_BUF_SIZE := c];
  }

  lemma {:induction false} CountMore(tail: nat, n: nat)
    requires tail < TTY_BUF_SIZE && n + 1 < TTY_BUF_SIZE
    ensures ((tail + n) % TTY_BUF_SIZE + 1) % TTY_BUF_SIZE == (tail + n + 1) % TTY_BUF_SIZE
    ensures Between((tail + n + 1) % TTY_BUF_SIZE, tail) == n + 1
  {
    var h := if tail + n < TTY_BUF_SIZE then tail + n else tail + n - TTY_BUF_SIZE;
    OneTurn(h, if tail + n < TTY_BUF_SIZE then 0 else 1);
    var i := if tail + n + 1 < TTY_BUF_SIZE then tail + n + 1 else tail + n + 1 - TTY_BUF_SIZE;
    OneTurn(i, if tail + n + 1 < TTY_BUF_SIZE then 0 else 1);
    OneTurn(i, if h + 1 < TTY_BUF_SIZE then 0 else 1);
  }

  /** Lines 354-368: a character and what its status puts before it. */
  method Accept(q: Queue, status: bv8, mask: bv8, ch: bv8)
    requires q.Valid() && Vleft(q.head, q.tail) >= 2
    modifies q`head, q`buf
    ensures q.Valid() && q.Unread() == old(q.Unread()) + (Marks(status, mask) + [ch])
    ensures Vleft(q.head, q.tail) == Vleft(old(q.head), q.tail) - |Marks(status, mask) + [ch]|
  {
    hide On, Ring, Marks, Vleft, q.Unread;
    MarksAre(status, mask);
    if On(status, mask) {
      if On(status, LSR_BI) {
        Insert(q, TTY_BREAK);
      } else if On(status, LSR_PE) {
        Insert(q, TTY_PARITY);
      } else if On(status, LSR_FE) {
        Insert(q, TTY_FRAME);
      } else if On(status, LSR_OE) {
        Insert(q, TTY_OVERRUN);
      }
    }
    Insert(q, ch);
  }

  lemma {:induction false} MarksAre(status: bv8, mask: bv8)
    ensures Marks(status, mask) ==
      if !On(status, mask) then []
      else if On(status, LSR_BI) then [TTY_BREAK]
      else if On(status, LSR_PE) then [TTY_PARITY]
      else if On(status, LSR_FE) then [TTY_FRAME]
      else if On(status, LSR_OE) then [TTY_OVERRUN]
      else []
  {
    hide On;
  }

  /** What a call accepts after it has accepted `got`. */
  ghost predicate Continues(all: Arrived, got: seq<bv8>, value: nat -> bv8, clock: nat, status: bv8, mask: bv8,
                            left: nat) {
    var rest := Arrivals(value, clock, status, mask, left);
    all == Arrived(got + rest.chars, rest.clock, rest.status)
  }

  lemma {:induction false} ArrivalsStart(value: nat -> bv8, clock: nat, status: bv8, mask: bv8, left: nat)
    ensures Continues(Arrivals(value, clock, status, mask, left), [], value, clock, status, mask, left)
  {
    hide Arrivals;
    var all := Arrivals(value, clock, status, mask, left);
    assert [] + all.chars == all.chars;
  }

  lemma {:induction false} ArrivalsStep(all: Arrived, got: seq<bv8>, value: nat -> bv8, clock: nat, status: bv8,
                                        mask: bv8, left: nat)
    requires Continues(all, got, value, clock, status, mask, left)
    ensures left < 2 ==> all == Arrived(got, clock + 1, status)
    ensures left >= 2 ==>
      var more, next := Marks(status, mask) + [value(clock)], value(clock + 1);
      if On(next, LSR_DR) then Continues(all, got + more, value, clock + 2, next, mask, left - |more|)
      else all == Arrived(got + more, clock + 2, next)
  {
    hide On, Marks;
    if left < 2 {
      assert got + [] == got;
    } else if On(value(clock + 1), LSR_DR) {
      var more := Marks(status, mask) + [value(clock)];
      var rest := Arrivals(value, clock + 2, value(clock + 1), mask, left - |more|);
      assert got + (more + rest.chars) == got + more + rest.chars;
    }
  }

  /** receive_chars (lines 331-378): whatever the chip says, what was unread stays, and what is
      accepted follows it. */
  method ReceiveChars(q: Queue, w: Wire, status0: bv8, mask: bv8) returns (status: bv8)
    requires q.Valid()
    modifies q`head, q`buf, w`clock
    ensures q.Valid()
    ensures var got := Arrivals(w.value, old(w.clock), status0, mask, Vleft(old(q.head), q.tail));
      q.Unread() == old(q.Unread()) + got.chars && w.clock == got.clock && status == got.status
  {
    hide On, Ring, Marks, Arrivals, q.Unread, Continues, Vleft;
    status := status0;
    ghost var unread, all := q.Unread(), Arrivals(w.value, w.clock, status0, mask, Vleft(q.head, q.tail));
    ghost var got: seq<bv8> := [];
    ArrivalsStart(w.value, w.clock, status0, mask, Vleft(q.head, q.tail));
    while true
      invariant q.Valid() && q.Unread() == unread + got
      invariant Continues(all, got, w.value, w.clock, status, mask, Vleft(q.head, q.tail))
      decreases Vleft(q.head, q.tail)
    {
      ArrivalsStep(all, got, w.value, w.clock, status, mask, Vleft(q.head, q.tail));
      var ch := w.Inp();
      if Vleft(q.head, q.tail) < 2 {
        return;
      }
      Accept(q, status, mask, ch);
      got := got + (Marks(status, mask) + [ch]);
      status := w.Inp();
      if !On(status, LSR_DR) {
        return;
      }
    }
  }

  // ---- rs_interrupt ------------------------------------------------------------------------

  /** What the interrupt routine looks at in a port: `active` says it has a terminal, and the rest
      are that terminal's. */
  class Line {
    const q: Queue
    const active: bool
    const mask: bv8
    const crtscts: bool
    const closing: bool
    var hwStopped: bool

    constructor (q: Queue, active: bool, mask: bv8, crtscts: bool, closing: bool)
      ensures this.q == q && this.active == active && !hwStopped
    {
      this.q, this.active, this.mask, this.crtscts, this.closing, hwStopped := q, active, mask, crtscts, closing, false;
    }
  }

  /** Each port has its own queue. */
  ghost predicate QueuesOk(lines: seq<Line>)
    reads Queues(lines)
  {
    && (forall p :: 0 <= p < |lines| ==> lines[p].q.Valid())
    && (forall p, r :: 0 <= p < r < |lines| ==> lines[p] != lines[r] && lines[p].q != lines[r].q)
  }

  ghost function Queues(lines: seq<Line>): set<Queue> { set l: Line | l in lines :: l.q }

  /** check_modem_status (lines 419-461): with hardware flow control the transmitter is stopped as
      long as the other end is not clear to receive, and another look at it is asked for exactly when
      it has just been let go on. */
  method CheckModemStatus(l: Line, w: Wire) returns (again: bool)
    modifies l`hwStopped, w`clock
    ensures w.clock == old(w.clock) + 1
    ensures again <==> old(l.hwStopped) && !l.hwStopped
    ensures l.hwStopped == if l.crtscts && !l.closing then !On(w.value(old(w.clock)), MSR_CTS) else old(l.hwStopped)
  {
    var status := w.Inp();
    if l.crtscts && !l.closing {
      if l.hwStopped {
        if On(status, MSR_CTS) {
          l.hwStopped := false;
          return true;
        }
      } else if !On(status, MSR_CTS) {
        l.hwStopped := true;
      }
    }
    return false;
  }

  /** What a served port receives when reading number `at` is its line status: the characters that follow if
      data is ready, and nothing otherwise. */
  function Received(value: nat -> bv8, at: nat, mask: bv8, left: nat): Arrived {
    if value(at) & 0x01 != 0 then Arrivals(value, at + 1, value(at), mask, left) else Arrived([], at + 1, value(at))
  }

  /** Lines 502-518: one port served from reading number `at` to before number `ended`. The characters received
      are `chars`; the transmitter was stopped or not, `was`, and is `now`. The modem status is read once, or
      twice when the first look lets a stopped transmitter go on. */
  ghost predicate Turn(l: Line, value: nat -> bv8, at: nat, left: nat, was: bool, chars: seq<bv8>, ended: nat,
                       now: bool) {
    var got, flow := Received(value, at, l.mask, left), l.crtscts && !l.closing;
    && chars == got.chars
    && ended == got.clock + (if flow && was && value(got.clock) & 0x10 != 0 then 2 else 1)
    && now == if flow then value((ended - 1) as nat) & 0x10 == 0 else was
  }

  method Serve(l: Line, w: Wire) returns (looks: nat)
    requires l.q.Valid()
    modifies l`hwStopped, l.q`head, l.q`buf, w`clock
    ensures l.q.Valid()
    ensures var got := Received(w.value, old(w.clock), l.mask, TTY_BUF_SIZE - 1 - |old(l.q.Unread())|);
      && l.q.Unread() == old(l.q.Unread()) + got.chars
      && w.clock == got.clock + looks
      && looks == if l.crtscts && !l.closing && old(l.hwStopped) && w.value(got.clock) & 0x10 != 0 then 2 else 1
    ensures l.hwStopped == if l.crtscts && !l.closing then w.value(w.clock - 1) & 0x10 == 0 else old(l.hwStopped)
  {
    hide l.q.Unread, Arrivals, Vleft;
    UnreadSize(l.q);
    ghost var unread := l.q.Unread();
    ghost var got := Received(w.value, w.clock, l.mask, TTY_BUF_SIZE - 1 - |unread|);
    var status := w.Inp();
    if On(status, LSR_DR) {
      status := ReceiveChars(l.q, w, status, l.mask);
    }
    assert w.clock == got.clock;
    assert l.q.Unread() == unread + got.chars;
    hide Received;
    var recheckCount := 0;
    looks := 1;
    var again := CheckModemStatus(l, w);
    while again && recheckCount <= 64
      invariant recheckCount == looks - 1 && w.clock == got.clock + looks
      invariant again ==> recheckCount == 0 && old(l.hwStopped) && !l.hwStopped
      invariant l.hwStopped == if l.crtscts && !l.closing then !On(w.value(w.clock - 1), MSR_CTS) else old(l.hwStopped)
      invariant looks == if again || !(l.crtscts && !l.closing && old(l.hwStopped) && On(w.value(got.clock), MSR_CTS))
                         then 1 else 2
      modifies l`hwStopped, w`clock
      decreases 65 - recheckCount
    {
      recheckCount := recheckCount + 1;
      looks := looks + 1;
      again := CheckModemStatus(l, w);
    }
  }

  lemma {:induction false} UnreadSize(q: Queue)
    requires q.Valid()
    ensures |q.Unread()| < TTY_BUF_SIZE && Vleft(q.head, q.tail) == TTY_BUF_SIZE - 1 - |q.Unread()|
  {
  }

  // ---- what an interrupt comes to ----------------------------------------------------------

  /** One port looked at: in which pass, at which place of the chain, from which reading to which, whether it
      was served, what it received and whether its transmitter was stopped then. */
  datatype Visit = Visit(pass: nat, at: nat, port: nat, began: nat, served: bool, chars: seq<bv8>, ended: nat,
                         stopped: bool)

  ghost predicate SomeServed(trace: seq<Visit>, pass: nat) {
    exists v :: v in trace && v.pass == pass && v.served
  }

  /** The place after `before`: the chain is gone through in order, and again as long as somebody was served,
      66 times at most. */
  ghost predicate Next(before: seq<Visit>, n: nat, pass: nat, at: nat) {
    at < n &&
    if before == [] then pass == 0 && at == 0
    else
      var u := before[|before| - 1];
      if u.at + 1 < n then pass == u.pass && at == u.at + 1
      else at == 0 && pass == u.pass + 1 <= 65 && SomeServed(before, u.pass)
  }

  ghost predicate Finished(trace: seq<Visit>, n: nat) {
    if trace == [] then n == 0
    else
      var u := trace[|trace| - 1];
      u.at + 1 == n && (u.pass == 65 || !SomeServed(trace, u.pass))
  }

  /** All that port `p` received. */
  function CharsOf(trace: seq<Visit>, p: nat): seq<bv8> {
    if trace == [] then []
    else
      var v := trace[|trace| - 1];
      CharsOf(trace[..|trace| - 1], p) + if v.port == p then v.chars else []
  }

  /** Whether the transmitter of port `p` is stopped, if it was `was` at first. */
  function StoppedOf(trace: seq<Visit>, p: nat, was: bool): bool {
    if trace == [] then was
    else
      var v := trace[|trace| - 1];
      if v.port == p then v.stopped else StoppedOf(trace[..|trace| - 1], p, was)
  }

  function Clock(trace: seq<Visit>, clock: nat): nat { if trace == [] then clock else trace[|trace| - 1].ended }

  /** How things are when the interrupt comes: the chain of its ports, the next reading, what is unread and which
      transmitters are stopped. */
  datatype Scene = Scene(value: nat -> bv8, chain: seq<int>, clock: nat, unread: seq<seq<bv8>>, stopped: seq<bool>)

  /** An active port is served in the first pass, and in a later one exactly when its interrupt register, read
      first, says that something is pending. */
  ghost predicate VisitOk(ports: seq<Line>, s: Scene, before: seq<Visit>, v: Visit) {
    && Next(before, |s.chain|, v.pass, v.at) && v.port == s.chain[v.at]
    && v.port < |ports| == |s.unread| == |s.stopped| && v.began == Clock(before, s.clock)
    && var l, was := ports[v.port], StoppedOf(before, v.port, s.stopped[v.port]);
    var unread := s.unread[v.port] + CharsOf(before, v.port);
    var at := if l.active && v.pass > 0 then v.began + 1 else v.began;
    && (v.served <==> l.active && (v.pass == 0 || s.value(v.began) & 0x01 == 0))
    && if v.served then |unread| < TTY_BUF_SIZE && Turn(l, s.value, at, TTY_BUF_SIZE - 1 - |unread|, was, v.chars,
                                                        v.ended, v.stopped)
       else v.chars == [] && v.ended == at && v.stopped == was
  }

  ghost predicate History(ports: seq<Line>, s: Scene, trace: seq<Visit>) {
    forall i :: 0 <= i < |trace| ==> VisitOk(ports, s, trace[..i], trace[i])
  }

  /** One port looked at by the loop. */
  method VisitPort(l: Line, w: Wire, passNumber: nat) returns (served: bool)
    requires l.q.Valid()
    modifies l`hwStopped, l.q`head, l.q`buf, w`clock
    ensures l.q.Valid() && old(l.q.Unread()) <= l.q.Unread()
    ensures served <==> l.active && (passNumber == 0 || w.value(old(w.clock)) & 0x01 == 0)
    ensures var at := if l.active && passNumber > 0 then old(w.clock) + 1 else old(w.clock);
      if served then Turn(l, w.value, at, TTY_BUF_SIZE - 1 - |old(l.q.Unread())|, old(l.hwStopped),
                          l.q.Unread()[|old(l.q.Unread())|..], w.clock, l.hwStopped)
      else l.q.Unread() == old(l.q.Unread()) && w.clock == at && l.hwStopped == old(l.hwStopped)
  {
    hide l.q.Unread, Received;
    served := false;
    if l.active {
      var wanted := passNumber == 0;
      if !wanted {
        var iir := w.Inp();
        wanted := !On(iir, IIR_NO_INT);
      }
      if wanted {
        served := true;
        var _ := Serve(l, w);
      }
    }
  }

  lemma {:induction false} Extend(ports: seq<Line>, s: Scene, trace: seq<Visit>, v: Visit)
    requires History(ports, s, trace) && VisitOk(ports, s, trace, v)
    ensures History(ports, s, trace + [v]) && Clock(trace + [v], s.clock) == v.ended
    ensures forall p :: CharsOf(trace + [v], p) == CharsOf(trace, p) + if v.port == p then v.chars else []
    ensures forall p, was ::
      StoppedOf(trace + [v], p, was) == if v.port == p then v.stopped else StoppedOf(trace, p, was)
  {
    hide VisitOk;
    var all := trace + [v];
    assert all[..|all| - 1] == trace;
    forall i | 0 <= i < |all|
      ensures VisitOk(ports, s, all[..i], all[i])
    {
      if i < |trace| {
        assert all[..i] == trace[..i];
      }
    }
  }

  lemma {:induction false} ServedNow(trace: seq<Visit>, v: Visit, pass: nat)
    ensures SomeServed(trace + [v], pass) <==> SomeServed(trace, pass) || (v.pass == pass && v.served)
  {
    var all := trace + [v];
    assert v == all[|trace|];
    assert forall u :: u in trace ==> u in all;
  }

  lemma {:induction false} Onward(before: seq<Visit>, v: Visit, n: nat)
    requires Next(before, n, v.pass, v.at) && v.pass <= 65
    ensures v.at < n
    ensures v.at + 1 < n ==> Next(before + [v], n, v.pass, v.at + 1)
    ensures v.at + 1 == n && v.pass < 65 && SomeServed(before + [v], v.pass) ==> Next(before + [v], n, v.pass + 1, 0)
    ensures v.at + 1 == n && !(v.pass < 65 && SomeServed(before + [v], v.pass)) ==> Finished(before + [v], n)
  {
    hide SomeServed;
  }

  lemma {:induction false} NothingYet(ports: seq<Line>, s: Scene, trace: seq<Visit>)
    requires trace == []
    ensures History(ports, s, trace) && Clock(trace, s.clock) == s.clock && forall pass :: !SomeServed(trace, pass)
    ensures if |s.chain| > 0 then Next(trace, |s.chain|, 0, 0) else Finished(trace, |s.chain|)
    ensures forall p, unread: seq<bv8> :: unread + CharsOf(trace, p) == unread
    ensures forall p, was :: StoppedOf(trace, p, was) == was
  {
  }

  /** How the interrupt finds things. */
  ghost function Found(d: Driver, ports: seq<Line>, w: Wire, irq: nat): (s: Scene)
    requires d.Valid() && irq < |d.lists| && QueuesOk(ports)
    reads d, d.rsTable, d.irqPorts, w, ports, Queues(ports)
    ensures s.value == w.value && s.chain == d.lists[irq] && s.clock == w.clock
    ensures |s.unread| == |s.stopped| == |ports|
    ensures forall p :: 0 <= p < |ports| ==>
      s.unread[p] == ports[p].q.Unread() && s.stopped[p] == ports[p].hwStopped
  {
    Scene(w.value, d.lists[irq], w.clock,
          seq(|ports|, p requires 0 <= p < |ports| && ports[p].q.Valid() reads Queues(ports) => ports[p].q.Unread()),
          seq(|ports|, p requires 0 <= p < |ports| reads ports => ports[p].hwStopped))
  }

  /** The ports are as the visits of `trace` leave them. */
  ghost predicate Reached(ports: seq<Line>, w: Wire, s: Scene, trace: seq<Visit>)
    requires QueuesOk(ports)
    reads w, ports, Queues(ports)
  {
    && s.value == w.value && w.clock == Clock(trace, s.clock) && |s.unread| == |s.stopped| == |ports|
    && forall p :: 0 <= p < |ports| ==>
      && ports[p].q.Unread() == s.unread[p] + CharsOf(trace, p)
      && ports[p].hwStopped == StoppedOf(trace, p, s.stopped[p])
  }

  lemma {:induction false} AtFirst(ports: seq<Line>, w: Wire, s: Scene, trace: seq<Visit>)
    requires QueuesOk(ports) && trace == []
    requires s.value == w.value && s.clock == w.clock && |s.unread| == |s.stopped| == |ports|
    requires forall p :: 0 <= p < |ports| ==>
      s.unread[p] == ports[p].q.Unread() && s.stopped[p] == ports[p].hwStopped
    ensures History(ports, s, trace) && Reached(ports, w, s, trace) && !SomeServed(trace, 0)
    ensures if |s.chain| > 0 then Next(trace, |s.chain|, 0, 0) else Finished(trace, |s.chain|)
  {
    hide ports[0].q.Unread;
    NothingYet(ports, s, trace);
  }

  /** One port of the loop, and the visit it makes. */
  method VisitNext(ports: seq<Line>, w: Wire, p: nat, passNumber: nat, ghost i: nat, ghost s: Scene,
                   ghost before: seq<Visit>) returns (served: bool, ghost v: Visit)
    requires QueuesOk(ports) && p < |ports| && i < |s.chain| && s.chain[i] == p
    requires History(ports, s, before) && Reached(ports, w, s, before) && Next(before, |s.chain|, passNumber, i)
    modifies w`clock, ports, Queues(ports)
    ensures QueuesOk(ports) && v.pass == passNumber && v.at == i && (served <==> v.served)
    ensures History(ports, s, before + [v]) && Reached(ports, w, s, before + [v])
  {
    hide ports[0].q.Unread, History, Turn, CharsOf, StoppedOf, Next, Clock;
    ghost var clock, unread := w.clock, ports[p].q.Unread();
    UnreadSize(ports[p].q);
    served := VisitPort(ports[p], w, passNumber);
    v := Visit(passNumber, i, p, clock, served, ports[p].q.Unread()[|unread|..], w.clock, ports[p].hwStopped);
    assert ports[p].q.Unread() == unread + v.chars;
    assert VisitOk(ports, s, before, v);
    hide VisitOk;
    Extend(ports, s, before, v);
  }

  /** The main loop of rs_interrupt (lines 493-536): `trace` tells all that it does, on the ports as they are found,
      `s`. It ends whatever the registers say. */
  method RsInterrupt(d: Driver, ports: seq<Line>, w: Wire, irq: nat)
    returns (passes: nat, ghost s: Scene, ghost trace: seq<Visit>)
    requires d.Valid() && irq < IRQS && |ports| == d.rsTable.Length && QueuesOk(ports)
    modifies w`clock, ports, Queues(ports)
    ensures QueuesOk(ports) && |d.lists| == IRQS && s == old(Found(d, ports, w, irq))
    ensures History(ports, s, trace) && Finished(trace, |d.lists[irq]|) && w.clock == Clock(trace, old(w.clock))
    ensures passes == if trace == [] then 0 else trace[|trace| - 1].pass + 1
    ensures forall p :: 0 <= p < |ports| ==>
      && ports[p].q.Unread() == old(ports[p].q.Unread()) + CharsOf(trace, p)
      && ports[p].hwStopped == StoppedOf(trace, p, old(ports[p].hwStopped))
  {
    hide Chains, ports[0].q.Unread, History, VisitOk, Turn, CharsOf, StoppedOf, SomeServed, Next, Finished, Clock;
    hide QueuesOk, Queues, Found;
    ghost var t, heads, lists := d.rsTable[..], d.irqPorts[..], d.lists;
    IrqHead(t, heads, lists, irq);
    ghost var i: nat := 0;
    s := Found(d, ports, w, irq);
    trace := [];
    FoundIs(d, ports, w, irq);
    AtFirst(ports, w, s, trace);
    hide Reached;
    var info := d.irqPorts[irq];
    var done, passNumber := true, 0;
    passes := 0;
    while info != NULL
      invariant i <= |s.chain| && info == (if i < |s.chain| then s.chain[i] else NULL)
      invariant QueuesOk(ports) && d.rsTable[..] == t && d.irqPorts[irq] == heads[irq]
      invariant History(ports, s, trace) && Reached(ports, w, s, trace)
      invariant passNumber <= 65 && (done <==> !SomeServed(trace, passNumber))
      invariant forall v :: v in trace ==> v.pass <= passNumber
      invariant passes == if trace == [] then 0 else trace[|trace| - 1].pass + 1
      invariant if info != NULL then Next(trace, |s.chain|, passNumber, i) else Finished(trace, |s.chain|)
      decreases 66 - passNumber, |s.chain| - i
    {
      InChain(t, heads, lists, irq, i);
      ghost var was := trace;
      var served;
      ghost var v;
      served, v := VisitNext(ports, w, info, passNumber, i, s, was);
      Onward(was, v, |s.chain|);
      ServedNow(was, v, passNumber);
      NotServedYet(was, v, passNumber + 1);
      trace := was + [v];
      if served {
        done := false;
      }
      passes := passNumber + 1;
      info := d.rsTable[info].next;
      i := i + 1;
      if i < |s.chain| {
        InChain(t, heads, lists, irq, i);
      }
      if info == NULL && !done {
        info := d.irqPorts[irq];
        i := 0;
        done := true;
        passNumber := passNumber + 1;
        if passNumber > 65 {
          break;
        }
      }
    }
    ReachedIs(ports, w, s, trace);
  }

  lemma {:induction false} ReachedIs(ports: seq<Line>, w: Wire, s: Scene, trace: seq<Visit>)
    requires QueuesOk(ports) && Reached(ports, w, s, trace)
    ensures w.clock == Clock(trace, s.clock) && |s.unread| == |s.stopped| == |ports|
    ensures forall p :: 0 <= p < |ports| ==>
      && ports[p].q.Unread() == s.unread[p] + CharsOf(trace, p)
      && ports[p].hwStopped == StoppedOf(trace, p, s.stopped[p])
  {
    hide Clock, CharsOf, StoppedOf, ports[0].q.Unread;
  }

  lemma {:induction false} FoundIs(d: Driver, ports: seq<Line>, w: Wire, irq: nat)
    requires d.Valid() && irq < |d.lists| && QueuesOk(ports)
    ensures var s := Found(d, ports, w, irq);
      && s.value == w.value && s.chain == d.lists[irq] && s.clock == w.clock && |s.unread| == |s.stopped| == |ports|
      && forall p :: 0 <= p < |ports| ==>
        ports[p].q.Valid() && s.unread[p] == ports[p].q.Unread() && s.stopped[p] == ports[p].hwStopped
  {
    hide Chains;
  }

  lemma {:induction false} NotServedYet(trace: seq<Visit>, v: Visit, pass: nat)
    requires v.pass < pass && forall u :: u in trace ==> u.pass < pass
    ensures !SomeServed(trace + [v], pass)
  {
  }

  // ---- what every interrupt does -----------------------------------------------------------

  lemma {:induction false} Step(ports: seq<Line>, s: Scene, trace: seq<Visit>, j: nat)
    requires History(ports, s, trace) && j < |trace|
    ensures VisitOk(ports, s, trace[..j], trace[j])
  {
    hide VisitOk;
  }

  lemma {:induction false} StepPlace(ports: seq<Line>, s: Scene, trace: seq<Visit>, j: nat)
    requires History(ports, s, trace) && j < |trace|
    ensures Next(trace[..j], |s.chain|, trace[j].pass, trace[j].at) && trace[j].port == s.chain[trace[j].at]
  {
    Step(ports, s, trace, j);
    hide History, Turn, Next;
  }

  lemma {:induction false} PlaceAfter(before: seq<Visit>, n: nat, u: Visit, pass: nat, at: nat)
    requires Next(before, n, pass, at) && before != [] && u == before[|before| - 1]
    requires u.at < n && u.pass <= 65 && |before| == Visits(n, u.pass) + u.at + 1
    ensures at < n && pass <= 65 && |before| == Visits(n, pass) + at
  {
    hide SomeServed, Visits;
    NextPass(n, u.pass);
  }

  lemma {:induction false} PlaceFirst(before: seq<Visit>, n: nat, pass: nat, at: nat)
    requires Next(before, n, pass, at) && before == []
    ensures at == 0 < n && pass == 0 && Visits(n, pass) == 0
  {
    NextPass(n, 0);
    hide SomeServed, Visits;
  }

  /** Pass `k` comes to place `q` of the chain with visit number `n * k + q`. */
  lemma {:induction false} PlaceOf(ports: seq<Line>, s: Scene, trace: seq<Visit>, j: nat)
    requires History(ports, s, trace) && j < |trace|
    ensures trace[j].at < |s.chain| && trace[j].pass <= 65 && j == Visits(|s.chain|, trace[j].pass) + trace[j].at
    ensures trace[j].port == s.chain[trace[j].at]
  {
    hide History, Visits, Next;
    StepPlace(ports, s, trace, j);
    if j > 0 {
      PlaceOf(ports, s, trace, j - 1);
      PlaceAfter(trace[..j], |s.chain|, trace[j - 1], trace[j].pass, trace[j].at);
    } else {
      PlaceFirst(trace[..j], |s.chain|, trace[j].pass, trace[j].at);
    }
  }

  /** So many visits are made in `passes` passes over `n` ports. */
  function Visits(n: nat, passes: nat): nat { n * passes }

  lemma {:induction false} NextPass(n: nat, pass: nat)
    ensures Visits(n, pass + 1) == Visits(n, pass) + n && Visits(n, 0) == 0
    ensures pass > 0 ==> Visits(n, pass) >= n
  {
    if pass > 0 {
      NextPass(n, pass - 1);
    }
  }

  /** Every port of the chain that has a terminal is served in the first pass, and whole passes are made, one at
      least and 66 at most. */
  lemma {:induction false} FirstPass(ports: seq<Line>, s: Scene, trace: seq<Visit>, q: nat)
    requires History(ports, s, trace) && Finished(trace, |s.chain|) && q < |s.chain|
    ensures trace != [] && trace[|trace| - 1].pass <= 65
    ensures |trace| == Visits(|s.chain|, trace[|trace| - 1].pass + 1) && q < |trace|
    ensures trace[q].pass == 0 && trace[q].at == q && trace[q].port == s.chain[q] && trace[q].port < |ports|
    ensures trace[q].served <==> ports[trace[q].port].active
  {
    hide History, SomeServed, VisitOk;
    var n, last := |s.chain|, trace[|trace| - 1];
    PlaceOf(ports, s, trace, |trace| - 1);
    NextPass(n, last.pass);
    PlaceOf(ports, s, trace, q);
    NextPass(n, trace[q].pass);
    Step(ports, s, trace, q);
    ServedFirst(ports, s, trace[..q], trace[q]);
  }

  lemma {:induction false} ServedFirst(ports: seq<Line>, s: Scene, before: seq<Visit>, v: Visit)
    requires VisitOk(ports, s, before, v) && v.pass == 0
    ensures v.port < |ports| && (v.served <==> ports[v.port].active)
  {
    hide Turn;
  }

  /** The readings decide all that an interrupt does. */
  lemma {:induction false} TraceOnce(ports: seq<Line>, s: Scene, a: seq<Visit>, b: seq<Visit>)
    requires History(ports, s, a) && Finished(a, |s.chain|) && History(ports, s, b) && Finished(b, |s.chain|)
    ensures a == b
  {
    hide History, VisitOk, Finished, Next;
    if |a| <= |b| {
      SameVisits(ports, s, a, b, |a|);
      assert a[..|a|] == a;
      Ends(ports, s, a, b);
    } else {
      SameVisits(ports, s, b, a, |b|);
      assert b[..|b|] == b;
      Ends(ports, s, b, a);
    }
  }

  lemma {:induction false} SameVisits(ports: seq<Line>, s: Scene, a: seq<Visit>, b: seq<Visit>, k: nat)
    requires History(ports, s, a) && History(ports, s, b) && k <= |a| && k <= |b|
    ensures a[..k] == b[..k]
  {
    hide History, VisitOk;
    if k > 0 {
      SameVisits(ports, s, a, b, k - 1);
      Step(ports, s, a, k - 1);
      Step(ports, s, b, k - 1);
      OneVisit(ports, s, a[..k - 1], a[k - 1], b[k - 1]);
      assert a[..k] == a[..k - 1] + [a[k - 1]] && b[..k] == b[..k - 1] + [b[k - 1]];
    }
  }

  lemma {:induction false} OneVisit(ports: seq<Line>, s: Scene, before: seq<Visit>, v: Visit, u: Visit)
    requires VisitOk(ports, s, before, v) && VisitOk(ports, s, before, u)
    ensures v == u
  {
    hide Received, SomeServed, CharsOf, StoppedOf;
  }

  lemma {:induction false} NoMore(trace: seq<Visit>, n: nat)
    requires Finished(trace, n)
    ensures forall pass, at :: !Next(trace, n, pass, at)
  {
    hide SomeServed;
  }

  lemma {:induction false} Ends(ports: seq<Line>, s: Scene, a: seq<Visit>, b: seq<Visit>)
    requires Finished(a, |s.chain|) && History(ports, s, b) && |a| <= |b| && a == b[..|a|]
    ensures a == b
  {
    hide History, Next, Finished;
    if |a| < |b| {
      StepPlace(ports, s, b, |a|);
      NoMore(a, |s.chain|);
      assert false;
    }
  }

  lemma {:induction false} IrqHead(t: seq<Port>, heads: seq<int>, lists: seq<seq<int>>, q: nat)
    requires Chains(t, heads, lists) && q < IRQS
    ensures |heads| == IRQS && |lists| == IRQS && heads[q] == First(lists[q])
    ensures heads[q] == NULL <==> lists[q] == []
  {
    hide Listed;
    if lists[q] != [] {
      InChain(t, heads, lists, q, 0);
    }
  }

  lemma {:induction false} InChain(t: seq<Port>, heads: seq<int>, lists: seq<seq<int>>, q: nat, i: nat)
    requires Chains(t, heads, lists) && q < IRQS && |lists| == IRQS && i < |lists[q]|
    ensures 0 <= lists[q][i] < |t| && t[lists[q][i]].next == After(lists[q], i)
  {
    hide Listed;
  }
}
