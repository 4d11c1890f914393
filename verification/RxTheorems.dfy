/** What the receive path promises about whole messages: batched program
    message units arrive one by one, and a `DATA:WRITE` block written by the
    host (host/rust/src/session.rs) arrives intact. */
module RxTheorems {
  import opened Ascii
  import opened Common
  import opened Decimal
  import opened BlockCodec
  import opened RxEngine
  import S = Separator

  predicate Idle(s: Rx) {
    s.mode == Mode.Text && s.line == "" && !s.started && s.status == Ok
  }

  /* ---- program message units ---- */

  /** A unit the engine must keep whole: every `;` in it is inside a string or
      an inline block, it is complete, it opens no DATA:WRITE block, holds
      nothing text mode drops, and fits the line buffer with its terminator. */
  predicate Balanced(u: string) {
    && S.Ends(S.Lex(S.Plain, u))
    && forall i :: 0 <= i < |u| && u[i] == ';' ==> !S.Ends(S.Lex(S.Plain, u[..i]))
  }

  predicate PlainText(u: string) {
    forall i :: 0 <= i < |u| ==>
      && u[i] !in {'\r', '\n', '\0'}
      && (u[i] == '#' ==> !IsWritePrefix(u[..i]))
  }

  predicate Unit(cfg: Config, u: string) {
    Balanced(u) && PlainText(u) && |u| < cfg.lineBufLen
  }

  function Joined(units: seq<string>): string
    requires units != []
  {
    if |units| == 1 then units[0] else units[0] + ";" + Joined(units[1..])
  }

  function Lines(units: seq<string>): seq<Event> {
    seq(|units|, i requires 0 <= i < |units| => Line(units[i] + "\n"))
  }

  lemma {:induction false} UnitIsAssembled(cfg: Config, s: Rx, u: string, k: nat)
    requires Idle(s) && Unit(cfg, u) && k <= |u|
    ensures Run(cfg, s, u[..k]) == s.(line := u[..k])
  {
    if k == 0 {
      assert u[..k] == "";
    } else {
      UnitIsAssembled(cfg, s, u, k - 1);
      assert u[..k] == u[..k - 1] + [u[k - 1]];
      RunAppend(cfg, s, u[..k - 1], [u[k - 1]]);
      assert [u[k - 1]][1..] == [];
    }
  }

  lemma UnitEnds(cfg: Config, s: Rx, u: string, mark: char)
    requires Idle(s) && Unit(cfg, u) && (mark == ';' || mark == '\n')
    ensures Run(cfg, s, u + [mark]) == s.(log := s.log + [Line(u + "\n")])
  {
    UnitIsAssembled(cfg, s, u, |u|);
    assert u[..|u|] == u;
    RunAppend(cfg, s, u, [mark]);
    assert [mark][1..] == [];
  }

  /** Units joined by `;` and ended by a newline reach the parser exactly as
      they were, in order. */
  lemma {:induction false} UnitsArriveWhole(cfg: Config, s: Rx, units: seq<string>)
    requires Idle(s) && units != [] && forall u :: u in units ==> Unit(cfg, u)
    ensures Run(cfg, s, Joined(units) + "\n") == s.(log := s.log + Lines(units))
    decreases |units|
  {
    hide Run, Unit;
    if |units| == 1 {
      UnitEnds(cfg, s, units[0], '\n');
      assert Lines(units) == [Line(units[0] + "\n")];
    } else {
      var head, rest := units[0] + ";", Joined(units[1..]) + "\n";
      UnitEnds(cfg, s, units[0], ';');
      assert Joined(units) + "\n" == head + rest;
      RunAppend(cfg, s, head, rest);
      var s' := s.(log := s.log + [Line(units[0] + "\n")]);
      UnitsArriveWhole(cfg, s', units[1..]);
      assert Lines(units) == [Line(units[0] + "\n")] + Lines(units[1..]);
    }
  }

  /** The same, however the message is cut into receive calls. */
  lemma BatchedUnits(cfg: Config, s: Rx, units: seq<string>, chunks: seq<string>, eom: bool)
    requires Idle(s) && Inv(cfg, s) && DataAccepted(cfg.cb)
    requires units != [] && forall u :: u in units ==> Unit(cfg, u)
    requires chunks != [] && Flat(chunks) == Joined(units) + "\n"
    ensures Calls(cfg, s, chunks, eom) == s.(log := s.log + Lines(units))
  {
    Fragmentation(cfg, s, chunks, eom);
    UnitsArriveWhole(cfg, s, units);
    assert s.(status := Ok) == s;
  }

  // Messages that no newline ends

  function Last(units: seq<string>): string
    requires units != []
  {
    units[|units| - 1]
  }

  /** All units but the last are fed, the last is kept. */
  lemma {:induction false} UnitsPend(cfg: Config, s: Rx, units: seq<string>)
    requires Idle(s) && units != [] && forall u :: u in units ==> Unit(cfg, u)
    ensures Run(cfg, s, Joined(units)) == s.(line := Last(units), log := s.log + Lines(units[..|units| - 1]))
    decreases |units|
  {
    hide Run, Unit;
    if |units| == 1 {
      UnitIsAssembled(cfg, s, units[0], |units[0]|);
      assert units[0][..|units[0]|] == units[0];
      assert Lines(units[..0]) == [];
    } else {
      var head, rest := units[0] + ";", Joined(units[1..]);
      UnitEnds(cfg, s, units[0], ';');
      assert Joined(units) == head + rest;
      RunAppend(cfg, s, head, rest);
      var s' := s.(log := s.log + [Line(units[0] + "\n")]);
      UnitsPend(cfg, s', units[1..]);
      assert units[..|units| - 1] == [units[0]] + units[1..][..|units| - 2];
      assert Lines(units[..|units| - 1]) == [Line(units[0] + "\n")] + Lines(units[1..][..|units| - 2]);
    }
  }

  lemma LinesSnoc(units: seq<string>)
    requires units != []
    ensures Lines(units) == Lines(units[..|units| - 1]) + [Line(Last(units) + "\n")]
  {
  }

  /** What the end of a call does to a line that is pending. */
  lemma PendingSettles(s: Rx, line: string, log: seq<Event>, eom: bool)
    requires Idle(s)
    ensures Settle(s.(line := line, log := log), eom) ==
      if eom && line != "" then s.(log := log + [Line(line + "\n")]) else s.(line := line, log := log)
  {
  }

  /** The transport's end-of-message mark executes the last unit, unless it is
      empty; without the mark it waits for more. For any cut of the message. */
  lemma MarkEndsMessage(cfg: Config, s: Rx, units: seq<string>, chunks: seq<string>, eom: bool)
    requires Idle(s) && Inv(cfg, s) && DataAccepted(cfg.cb)
    requires units != [] && forall u :: u in units ==> Unit(cfg, u)
    requires chunks != [] && Flat(chunks) == Joined(units)
    ensures Calls(cfg, s, chunks, eom) ==
      if eom && Last(units) != "" then s.(log := s.log + Lines(units))
      else s.(line := Last(units), log := s.log + Lines(units[..|units| - 1]))
  {
    assert s.(status := Ok) == s;
    hide Run, Unit, Calls, Joined, Settle, Lines, Inv, DataAccepted, Idle;
    Fragmentation(cfg, s, chunks, eom);
    UnitsPend(cfg, s, units);
    LinesSnoc(units);
    var log := s.log + Lines(units[..|units| - 1]);
    PendingSettles(s, Last(units), log, eom);
    Assoc(s.log, Lines(units[..|units| - 1]), [Line(Last(units) + "\n")]);
  }

  /** After a fault the engine is idle again, and takes the next call as such. */
  lemma {:induction false} FaultResets(cfg: Config, s: Rx, chunks: seq<string>, eom: bool)
    requires chunks != []
    ensures var t := Calls(cfg, s, chunks, eom); t.status != Ok ==> Idle(t.(status := Ok))
    decreases |chunks|
  {
    hide RunChunked;
    if |chunks| > 1 {
      var t := OnRxChunked(cfg, s, chunks[0], false);
      if t.status == Ok { FaultResets(cfg, t, chunks[1..], eom); }
    }
  }

  /* ---- units as IEEE 488.2 writes them ---- */

  datatype Piece =
    | Char(c: char)
    | Mark(c: char)                          // a `#` that opens nothing
    | Quoted(quote: char, body: string)
    | Block(payload: string)

  predicate WellFormed(p: Piece) {
    match p
    case Char(c) => c !in {';', '#', '\'', '"'}
    case Mark(c) => c !in {';', '#', '\'', '"'} && !('1' <= c <= '9')
    case Quoted(q, body) => (q == '\'' || q == '"') && q !in body
    case Block(payload) => |payload| < Pow10(9)
  }

  function PieceText(p: Piece): string
    requires WellFormed(p)
  {
    match p
    case Char(c) => [c]
    case Mark(c) => ['#', c]
    case Quoted(q, body) => [q] + body + [q]
    case Block(payload) => Encoded(payload)
  }

  function Written(ps: seq<Piece>): string
    requires forall p :: p in ps ==> WellFormed(p)
  {
    if ps == [] then "" else PieceText(ps[0]) + Written(ps[1..])
  }

  /** Inside a piece no `;` ends a unit, and after it the reader is outside
      strings and blocks again. */
  predicate KeptWhole(t: string) {
    && S.Lex(S.Plain, t) == S.Plain
    && forall i :: 0 <= i < |t| && t[i] == ';' ==> !S.Ends(S.Lex(S.Plain, t[..i]))
  }

  lemma {:induction false} QuoteRuns(q: char, body: string)
    requires q !in body
    ensures S.Lex(S.Quote(q), body) == S.Quote(q)
  {
    if body != "" { QuoteRuns(q, body[1..]); }
  }

  lemma QuotedKeptWhole(q: char, body: string)
    requires WellFormed(Quoted(q, body))
    ensures KeptWhole([q] + body + [q])
  {
    var t := [q] + body + [q];
    forall i | 1 <= i <= |t| - 1 ensures S.Lex(S.Plain, t[..i]) == S.Quote(q) {
      assert t[..i] == [q] + body[..i - 1];
      assert ([q] + body[..i - 1])[1..] == body[..i - 1];
      QuoteRuns(q, body[..i - 1]);
    }
    assert t == t[..|t| - 1] + [q];
    S.LexSnoc(S.Plain, t[..|t| - 1], q);
  }

  lemma BlockKeptWhole(payload: string)
    requires |payload| < Pow10(9)
    ensures KeptWhole(Encoded(payload))
  {
    var t := Encoded(payload);
    EncodedParts(payload);
    hide Encoded, Digits, Dec, Value, Pow10, S.Lex;
    forall i | 0 <= i < |t| && t[i] == ';' ensures !S.Ends(S.Lex(S.Plain, t[..i])) {
      BlockPrefix(payload, i);
    }
    BlockPrefix(payload, |t|);
    assert t[..|t|] == t;
  }

  /** What the reader knows after the first i bytes of a block. */
  lemma BlockPrefix(payload: string, i: nat)
    requires |payload| < Pow10(9) && 1 <= i <= |Encoded(payload)|
    ensures var l := S.Lex(S.Plain, Encoded(payload)[..i]);
      if i == |Encoded(payload)| then l == S.Plain
      else i >= 2 ==> !S.Ends(l)
  {
    EncodedParts(payload);
    hide Encoded, Digits, Dec, Pow10, Value, S.Lex;
    var e, n, nd := Encoded(payload), |payload|, Digits(|payload|);
    var p := e[..i];
    if i >= 2 {
      S.HeaderRead(p);
      if i >= 2 + nd {
        assert p[2..2 + nd] == e[2..2 + nd];
        var rest := p[2 + nd..];
        if n > 0 { S.LexSkip(n, rest); }
        if |rest| == n { SkipsToPlain(n, rest); }
      }
    }
  }

  lemma SkipsToPlain(n: nat, s: string)
    requires |s| == n
    ensures S.Lex(S.Plain, s[n..]) == S.Plain && (n == 0 ==> S.Lex(S.Plain, s) == S.Plain)
  {
  }

  lemma PieceKeptWhole(p: Piece)
    requires WellFormed(p)
    ensures KeptWhole(PieceText(p))
  {
    match p
    case Char(c) => assert [c][1..] == [];
    case Mark(c) =>
      assert ['#', c][1..] == [c] && [c][1..] == [];
      assert S.Lex(S.Hash, [c]) == S.Plain;
    case Quoted(q, body) => QuotedKeptWhole(q, body);
    case Block(payload) => BlockKeptWhole(payload);
  }

  lemma KeptWholeAppend(a: string, b: string)
    requires KeptWhole(a) && KeptWhole(b)
    ensures KeptWhole(a + b)
  {
    S.LexAppend(S.Plain, a, b);
    forall i | 0 <= i < |a + b| && (a + b)[i] == ';'
      ensures !S.Ends(S.Lex(S.Plain, (a + b)[..i]))
    {
      if i < |a| {
        assert (a + b)[..i] == a[..i];
      } else {
        assert (a + b)[..i] == a + b[..i - |a|];
        S.LexAppend(S.Plain, a, b[..i - |a|]);
      }
    }
  }

  /** Text built from characters, strings (a doubled quote is two strings side
      by side) and complete blocks is a balanced unit. */
  lemma {:induction false} WrittenIsBalanced(ps: seq<Piece>)
    requires forall p :: p in ps ==> WellFormed(p)
    ensures KeptWhole(Written(ps)) && Balanced(Written(ps))
  {
    if ps != [] {
      PieceKeptWhole(ps[0]);
      WrittenIsBalanced(ps[1..]);
      KeptWholeAppend(PieceText(ps[0]), Written(ps[1..]));
    }
  }

  /* ---- DATA:WRITE ---- */

  /** The message the host sends for a block write: prefix, one blank unless
      the prefix is empty, the block and a newline. */
  method WriteBlock(prefix: string, payload: string) returns (msg: string)
    requires |payload| < Pow10(9)
    ensures prefix == "DATA:WRITE" ==> msg == Message(payload)
    ensures prefix != "" ==> msg == prefix + (" " + Encoded(payload) + "\n")
    ensures prefix == "" ==> msg == Encoded(payload) + "\n"
  {
    hide Encoded, Pow10;
    msg := prefix;
    if prefix != "" { msg := msg + " "; }
    var b := EncodeBlock(payload);
    msg := msg + b + "\n";
    assert "DATA:WRITE" + " " == "DATA:WRITE ";
  }

  function Message(payload: string): string
    requires |payload| < Pow10(9)
  {
    "DATA:WRITE " + Encoded(payload) + "\n"
  }

  lemma PrefixText()
    ensures forall i :: 0 <= i < |WRITE_PREFIX| ==> WRITE_PREFIX[i] in {'D', 'A', 'T', ':', 'W', 'R', 'I', 'E', ' '}
    ensures IsWritePrefix(WRITE_PREFIX)
  {
    assert StripLeft(WRITE_PREFIX) == WRITE_PREFIX;
    assert Uppercase(WRITE_PREFIX) == WRITE_PREFIX;
  }

  lemma PlainIsAssembled(cfg: Config, s: Rx, u: string)
    requires Idle(s) && |u| < cfg.lineBufLen
    requires forall i :: 0 <= i < |u| ==> u[i] !in {';', '#', '\'', '"', '\r', '\n', '\0'}
    ensures Run(cfg, s, u) == s.(line := u)
  {
    PlainRuns(u);
    UnitIsAssembled(cfg, s, u, |u|);
    assert u[..|u|] == u;
  }

  lemma {:induction false} PlainRuns(u: string)
    requires forall i :: 0 <= i < |u| ==> u[i] != '#' && !S.IsQuote(u[i])
    ensures S.Lex(S.Plain, u) == S.Plain
  {
    if u != "" { PlainRuns(u[1..]); }
  }

  /** The state inside a length field after the digits in `field`. */
  lemma {:induction false} LengthRuns(cfg: Config, s: Rx, field: string)
    requires s.mode == BlockLen && s.status == Ok && s.got == 0 && s.blockLen == 0
    requires AllDigits(field) && |field| < s.ndigits
    ensures Run(cfg, s, field) == s.(blockLen := Value(field), got := |field|)
  {
    if field != "" {
      var k := |field| - 1;
      LengthRuns(cfg, s, field[..k]);
      assert field == field[..k] + [field[k]];
      RunAppend(cfg, s, field[..k], [field[k]]);
      assert [field[k]][1..] == [];
    }
  }

  predicate EndsAccepted(cfg: Config, log: seq<Event>, payload: string) {
    var n := |payload|;
    && cfg.cb.begin(log, n)
    && cfg.cb.end(log + [Begin(n)] + DataEvents(payload), n)
  }

  /** The prefix, the `#` and the digit count. */
  lemma CountRuns(cfg: Config, s: Rx, nd: nat)
    requires Idle(s) && cfg.lineBufLen >= 16 && 1 <= nd <= 9
    ensures Run(cfg, s, WRITE_PREFIX + ['#', DigitChar(nd)]) == Rx(BlockLen, "", 0, 0, nd, 0, false, s.log, Ok)
  {
    PrefixText();
    PlainIsAssembled(cfg, s, WRITE_PREFIX);
    var s1 := s.(line := WRITE_PREFIX);
    var s2 := s.(mode := BlockDigits);
    HashThenCount(cfg, s, nd);
    hide Byte, Run;
    RunAppend(cfg, s, WRITE_PREFIX, ['#', DigitChar(nd)]);
    RunOne(cfg, s1, '#');
    RunOne(cfg, s2, DigitChar(nd));
    RunAppend(cfg, s1, ['#'], [DigitChar(nd)]);
    assert ['#'] + [DigitChar(nd)] == ['#', DigitChar(nd)];
  }

  lemma HashThenCount(cfg: Config, s: Rx, nd: nat)
    requires Idle(s) && cfg.lineBufLen >= 16 && 1 <= nd <= 9
    ensures Byte(cfg, s.(line := WRITE_PREFIX), '#') == s.(mode := BlockDigits)
    ensures Byte(cfg, s.(mode := BlockDigits), DigitChar(nd)) == Rx(BlockLen, "", 0, 0, nd, 0, false, s.log, Ok)
  {
    PrefixText();
  }

  lemma RunOne(cfg: Config, s: Rx, c: char)
    requires s.status == Ok
    ensures Run(cfg, s, [c]) == Byte(cfg, s, c)
  {
    assert [c][1..] == [];
  }

  /** Everything up to the last digit of the length field. */
  lemma HeaderRuns(cfg: Config, s: Rx, n: nat)
    requires Idle(s) && cfg.lineBufLen >= 16 && n < Pow10(9)
    ensures Digits(n) <= 9
    ensures var nd, d := Digits(n), Dec(n);
            Run(cfg, s, WRITE_PREFIX + ['#', DigitChar(nd)] + d[..nd - 1]) ==
            Rx(BlockLen, "", Value(d[..nd - 1]), 0, nd, nd - 1, false, s.log, Ok)
  {
    DigitsPow10(n, 9);
    var nd, d := Digits(n), Dec(n);
    CountRuns(cfg, s, nd);
    var s1 := Rx(BlockLen, "", 0, 0, nd, 0, false, s.log, Ok);
    LengthRuns(cfg, s1, d[..nd - 1]);
    RunAppend(cfg, s, WRITE_PREFIX + ['#', DigitChar(nd)], d[..nd - 1]);
  }

  /** The whole header: its last digit decides what opens. */
  lemma HeaderOpens(cfg: Config, s: Rx, n: nat)
    requires Idle(s) && cfg.lineBufLen >= 16 && n < Pow10(9)
    ensures var nd := Digits(n);
            nd <= 9 &&
            Run(cfg, s, WRITE_PREFIX + Header(n)) == AfterHeader(cfg, s, n, nd)
  {
    HeaderRuns(cfg, s, n);
    var nd, d := Digits(n), Dec(n);
    LastDigit(n);
    var front := WRITE_PREFIX + ['#', DigitChar(nd)] + d[..nd - 1];
    assert WRITE_PREFIX + Header(n) == front + [d[nd - 1]];
    LastDigitRuns(cfg, s, front, Value(d[..nd - 1]), nd, d[nd - 1]);
  }

  lemma LastDigit(n: nat)
    ensures var d := Dec(n);
            Value(d[..|d| - 1]) * 10 + DigitValue(d[|d| - 1]) == n
  {
    ValueOfDecimal(n);
  }

  lemma LastDigitRuns(cfg: Config, s: Rx, front: string, v: nat, nd: nat, c: char)
    requires nd >= 1 && IsDigit(c)
    requires Run(cfg, s, front) == Rx(BlockLen, "", v, 0, nd, nd - 1, false, s.log, Ok)
    ensures Run(cfg, s, front + [c]) == AfterHeader(cfg, s, v * 10 + DigitValue(c), nd)
  {
    RunAppend(cfg, s, front, [c]);
    RunOne(cfg, Run(cfg, s, front), c);
  }

  function AfterHeader(cfg: Config, s: Rx, n: nat, nd: nat): Rx {
    var s1 := Rx(BlockLen, "", n, 0, nd, nd, false, s.log, Ok);
    var s2 := BlockBegin(cfg, s1).(mode := BlockPayload);
    if n == 0 && s2.status == Ok then BlockFinish(cfg, s2) else s2
  }

  /** The trace of an accepted block write: the block's opening, its payload,
      its closing, and the empty line the terminating newline then feeds. */
  function WriteTrace(payload: string): seq<Event> {
    [Begin(|payload|)] + DataEvents(payload) + [End(|payload|), Line("\n")]
  }

  lemma PayloadRuns(cfg: Config, s: Rx, payload: string)
    requires Inv(cfg, s) && DataAccepted(cfg.cb) && s.status == Ok
    requires s.mode == BlockPayload && s.received == 0 && s.blockLen == |payload| > 0
    requires cfg.cb.end(s.log + DataEvents(payload), |payload|)
    ensures Run(cfg, s, payload) == Rx(Mode.Text, "", 0, 0, 0, 0, false, s.log + DataEvents(payload) + [End(|payload|)], Ok)
  {
    ChunkIsItsBytes(cfg, s, payload);
  }

  /** A block written by the host, in any fragmentation, opens, carries and
      closes one block with exactly its payload and leaves the engine idle. */
  lemma BlockWriteRoundTrip(cfg: Config, s: Rx, payload: string, chunks: seq<string>, eom: bool)
    requires Idle(s) && Inv(cfg, s) && cfg.lineBufLen >= 16 && DataAccepted(cfg.cb)
    requires |payload| < Pow10(9) && (cfg.maxBlockLen == 0 || |payload| <= cfg.maxBlockLen)
    requires EndsAccepted(cfg, s.log, payload)
    requires chunks != [] && Flat(chunks) == Message(payload)
    ensures Calls(cfg, s, chunks, eom)
            == Rx(Mode.Text, "", 0, 0, 0, 0, false, s.log + WriteTrace(payload), Ok)
  {
    Fragmentation(cfg, s, chunks, eom);
    assert s.(status := Ok) == s;
    BlockWriteRuns(cfg, s, payload);
  }

  function Closed(s: Rx, payload: string): Rx {
    Rx(Mode.Text, "", 0, 0, 0, 0, false, s.log + [Begin(|payload|)] + DataEvents(payload) + [End(|payload|)], Ok)
  }

  lemma BlockRuns(cfg: Config, s: Rx, payload: string)
    requires Idle(s) && cfg.lineBufLen >= 16 && DataAccepted(cfg.cb)
    requires |payload| < Pow10(9) && (cfg.maxBlockLen == 0 || |payload| <= cfg.maxBlockLen)
    requires EndsAccepted(cfg, s.log, payload)
    ensures Run(cfg, s, WRITE_PREFIX + Header(|payload|) + payload) == Closed(s, payload)
  {
    var n := |payload|;
    var nd := Digits(n);
    var head := WRITE_PREFIX + Header(n);
    HeaderOpens(cfg, s, n);
    RunAppend(cfg, s, head, payload);
    if n == 0 {
      assert payload == "" && DataEvents(payload) == [];
      assert s.log + [Begin(n)] + DataEvents(payload) == s.log + [Begin(n)];
    } else {
      Pow10Table();
      PayloadRuns(cfg, Rx(BlockPayload, "", n, 0, nd, nd, true, s.log + [Begin(n)], Ok), payload);
    }
  }

  lemma BlockWriteRuns(cfg: Config, s: Rx, payload: string)
    requires Idle(s) && cfg.lineBufLen >= 16 && DataAccepted(cfg.cb)
    requires |payload| < Pow10(9) && (cfg.maxBlockLen == 0 || |payload| <= cfg.maxBlockLen)
    requires EndsAccepted(cfg, s.log, payload)
    ensures Run(cfg, s, Message(payload))
            == Rx(Mode.Text, "", 0, 0, 0, 0, false, s.log + WriteTrace(payload), Ok)
  {
    var body := WRITE_PREFIX + Header(|payload|) + payload;
    var closed := Closed(s, payload);
    BlockRuns(cfg, s, payload);
    NewlineAfterBlock(cfg, s, payload);
    hide Byte, Run, Header, WriteTrace;
    RunAppend(cfg, s, body, "\n");
    RunOne(cfg, closed, '\n');
    assert Message(payload) == body + "\n";
  }

  lemma NewlineAfterBlock(cfg: Config, s: Rx, payload: string)
    requires Idle(s) && cfg.lineBufLen >= 16 && |payload| < Pow10(9)
    ensures Byte(cfg, Closed(s, payload), '\n')
            == Rx(Mode.Text, "", 0, 0, 0, 0, false, s.log + WriteTrace(payload), Ok)
  {
    assert "" + "\n" == "\n";
    assert Closed(s, payload).log + [Line("\n")] == s.log + WriteTrace(payload);
  }
}
