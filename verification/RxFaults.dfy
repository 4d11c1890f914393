/** What the receive path (src/usbscpi.c) does with what it is not glad to get:
    stray bytes, lines that are too long, and blocks that are malformed, too large
    or refused by the application. */
module RxFaults {
  import opened Ascii
  import opened Common
  import opened Decimal
  import opened BlockCodec
  import opened RxEngine
  import opened RxTheorems
  import S = Separator

  // Stray bytes

  /** A text without carriage returns and NULs. */
  function Cleaned(t: string): string {
    if t == "" then ""
    else Cleaned(t[..|t| - 1]) + (if t[|t| - 1] == '\r' || t[|t| - 1] == '\0' then "" else [t[|t| - 1]])
  }

  predicate UnitSoFar(cfg: Config, u: string) {
    && |u| < cfg.lineBufLen && PlainText(u)
    && forall i :: 0 <= i < |u| && u[i] == ';' ==> !S.Ends(S.Lex(S.Plain, u[..i]))
  }

  lemma UnitFront(cfg: Config, u: string, k: nat)
    requires UnitSoFar(cfg, u) && k <= |u|
    ensures UnitSoFar(cfg, u[..k])
  {
    forall i | 0 <= i < k ensures u[..k][i] == u[i] && u[..k][..i] == u[..i] {
    }
  }

  /** Carriage returns and NULs, wherever they stand in a unit, are not kept. */
  lemma {:induction false} StrayBytes(cfg: Config, s: Rx, t: string)
    requires Idle(s) && UnitSoFar(cfg, Cleaned(t))
    ensures Run(cfg, s, t) == s.(line := Cleaned(t))
    decreases |t|
  {
    if t != "" {
      var front, c := t[..|t| - 1], t[|t| - 1];
      var u := Cleaned(t);
      assert t == front + [c];
      RunAppend(cfg, s, front, [c]);
      if c == '\r' || c == '\0' {
        assert u == Cleaned(front);
        StrayBytes(cfg, s, front);
        StrayIsDropped(cfg, s.(line := u), c);
      } else {
        assert u == Cleaned(front) + [c] && u[..|u| - 1] == Cleaned(front);
        UnitFront(cfg, u, |u| - 1);
        StrayBytes(cfg, s, front);
        KeptByte(cfg, s, u);
      }
    }
  }

  lemma StrayIsDropped(cfg: Config, s: Rx, c: char)
    requires s.mode == Mode.Text && s.status == Ok && (c == '\r' || c == '\0')
    ensures Run(cfg, s, [c]) == s
  {
    RunOne(cfg, s, c);
  }

  lemma KeptByte(cfg: Config, s: Rx, u: string)
    requires Idle(s) && u != "" && UnitSoFar(cfg, u)
    ensures Run(cfg, s.(line := u[..|u| - 1]), [u[|u| - 1]]) == s.(line := u)
  {
    RunOne(cfg, s.(line := u[..|u| - 1]), u[|u| - 1]);
    assert u == u[..|u| - 1] + [u[|u| - 1]];
  }

  // Lines that are too long

  /** The byte that would leave no room for the newline is refused, and the line
      with it: an execution error, and nothing is fed. */
  lemma LineTooLong(cfg: Config, s: Rx, u: string, c: char)
    requires Idle(s) && UnitSoFar(cfg, u) && |u| + 1 == cfg.lineBufLen
    requires c !in {'\r', '\0', '\n', ';', '#'}
    ensures Run(cfg, s, u + [c]) == s.(log := s.log + [Error(ExecutionError)], status := Overflow)
  {
    CleanStays(u);
    StrayBytes(cfg, s, u);
    RunAppend(cfg, s, u, [c]);
    RunOne(cfg, s.(line := u), c);
  }

  lemma {:induction false} CleanStays(u: string)
    requires PlainText(u)
    ensures Cleaned(u) == u
  {
    if u != "" {
      var front := u[..|u| - 1];
      assert u == front + [u[|u| - 1]];
      forall i | 0 <= i < |front| ensures front[i] == u[i] && front[..i] == u[..i] {
      }
      CleanStays(front);
    }
  }

  // Blocks that are malformed

  /** After the prefix and the hash must stand a digit from 1 to 9. */
  lemma BadDigitCount(cfg: Config, s: Rx, c: char)
    requires Idle(s) && cfg.lineBufLen >= 16 && !('1' <= c <= '9')
    ensures var t := Run(cfg, s, WRITE_PREFIX + ['#', c]);
      t.status == Protocol && t.log == s.log + [Error(InvalidBlockData)]
  {
    HashOpens(cfg, s);
    assert WRITE_PREFIX + ['#', c] == WRITE_PREFIX + ['#'] + [c];
    RunAppend(cfg, s, WRITE_PREFIX + ['#'], [c]);
    RunOne(cfg, s.(mode := BlockDigits), c);
  }

  lemma HashOpens(cfg: Config, s: Rx)
    requires Idle(s) && cfg.lineBufLen >= 16
    ensures Run(cfg, s, WRITE_PREFIX + ['#']) == s.(mode := BlockDigits)
  {
    PrefixText();
    PlainIsAssembled(cfg, s, WRITE_PREFIX);
    HashThenCount(cfg, s, 1);
    hide Byte;
    RunAppend(cfg, s, WRITE_PREFIX, ['#']);
    RunOne(cfg, s.(line := WRITE_PREFIX), '#');
  }

  /** And then as many digits as that says. */
  lemma BadLength(cfg: Config, s: Rx, nd: nat, field: string, c: char)
    requires Idle(s) && cfg.lineBufLen >= 16 && 1 <= nd <= 9
    requires AllDigits(field) && |field| < nd && !IsDigit(c)
    ensures var t := Run(cfg, s, WRITE_PREFIX + ['#', DigitChar(nd)] + field + [c]);
      t.status == Protocol && t.log == s.log + [Error(InvalidBlockData)]
  {
    CountRuns(cfg, s, nd);
    var s1 := Rx(BlockLen, "", 0, 0, nd, 0, false, s.log, Ok);
    LengthRuns(cfg, s1, field);
    var head := WRITE_PREFIX + ['#', DigitChar(nd)];
    hide Run, Value;
    RunAppend(cfg, s, head, field);
    RunAppend(cfg, s, head + field, [c]);
    RunOne(cfg, s1.(blockLen := Value(field), got := |field|), c);
  }

  // Blocks that are refused

  /** How a block write ends: as one, or at the first that objects. */
  function Outcome(cfg: Config, log: seq<Event>, payload: string): (seq<Event>, Status) {
    var n := |payload|;
    var begun := log + [Begin(n)];
    var ended := begun + DataEvents(payload) + [End(n)];
    if cfg.maxBlockLen != 0 && n > cfg.maxBlockLen then (log + [Error(TooMuchData)], Overflow)
    else if !cfg.cb.begin(log, n) then (begun + [Error(ExecutionError)], Callback)
    else if !cfg.cb.end(begun + DataEvents(payload), n) then (ended + [Error(ExecutionError)], Callback)
    else (ended + [Line("\n")], Ok)
  }

  /** Every block write ends in one of four ways: too large, and the application is
      never asked; refused at its beginning; refused at its end, all its data handed
      over; or accepted. In any cut, and after each of the first three the engine is
      idle again. */
  lemma BlockOutcome(cfg: Config, s: Rx, payload: string, chunks: seq<string>, eom: bool)
    requires Idle(s) && Inv(cfg, s) && cfg.lineBufLen >= 16 && DataAccepted(cfg.cb)
    requires |payload| < Pow10(9) && chunks != [] && Flat(chunks) == Message(payload)
    ensures var t := Calls(cfg, s, chunks, eom); (t.log, t.status) == Outcome(cfg, s.log, payload)
    ensures Idle(Calls(cfg, s, chunks, eom).(status := Ok))
  {
    if (cfg.maxBlockLen == 0 || |payload| <= cfg.maxBlockLen) && EndsAccepted(cfg, s.log, payload) {
      BlockWriteRoundTrip(cfg, s, payload, chunks, eom);
      TraceIsOutcome(s.log, payload);
    } else {
      Fragmentation(cfg, s, chunks, eom);
      assert s.(status := Ok) == s;
      RefusedRuns(cfg, s, payload);
      hide Run, Calls, Message;
      FaultResets(cfg, s, chunks, eom);
    }
  }

  lemma TraceIsOutcome(log: seq<Event>, payload: string)
    ensures log + WriteTrace(payload) == log + [Begin(|payload|)] + DataEvents(payload) + [End(|payload|)] + [Line("\n")]
  {
  }

  lemma RefusedRuns(cfg: Config, s: Rx, payload: string)
    requires Idle(s) && cfg.lineBufLen >= 16 && DataAccepted(cfg.cb) && |payload| < Pow10(9)
    requires (cfg.maxBlockLen != 0 && |payload| > cfg.maxBlockLen) || !EndsAccepted(cfg, s.log, payload)
    ensures var t := Run(cfg, s, Message(payload)); t.status != Ok && (t.log, t.status) == Outcome(cfg, s.log, payload)
  {
    var n, head := |payload|, WRITE_PREFIX + Header(|payload|);
    HeaderOpens(cfg, s, n);
    var s1 := AfterHeader(cfg, s, n, Digits(n));
    assert Message(payload) == head + (payload + "\n");
    hide Header;
    RunAppend(cfg, s, head, payload + "\n");
    if s1.status == Ok {
      hide AfterHeader;
      OpenedIs(cfg, s, payload, Digits(n));
      PayloadRefused(cfg, s1, payload, s.log);
      Stuck(cfg, s1, payload);
    } else {
      HeaderRefused(cfg, s, payload, Digits(n));
    }
  }

  lemma Stuck(cfg: Config, s: Rx, payload: string)
    requires Run(cfg, s, payload).status != Ok
    ensures Run(cfg, s, payload + "\n") == Run(cfg, s, payload)
  {
    RunAppend(cfg, s, payload, "\n");
  }

  lemma HeaderRefused(cfg: Config, s: Rx, payload: string, nd: nat)
    requires Idle(s) && AfterHeader(cfg, s, |payload|, nd).status != Ok
    ensures var t := AfterHeader(cfg, s, |payload|, nd); (t.log, t.status) == Outcome(cfg, s.log, payload)
  {
    if payload == "" { NoData(s.log); }
    hide DataEvents;
  }

  lemma NoData(log: seq<Event>)
    ensures DataEvents("") == [] && log + [Begin(0)] + [] == log + [Begin(0)]
  {
  }

  lemma OpenedIs(cfg: Config, s: Rx, payload: string, nd: nat)
    requires Idle(s) && AfterHeader(cfg, s, |payload|, nd).status == Ok
    requires (cfg.maxBlockLen != 0 && |payload| > cfg.maxBlockLen) || !EndsAccepted(cfg, s.log, payload)
    ensures var n := |payload|;
      && AfterHeader(cfg, s, n, nd) == Rx(BlockPayload, "", n, 0, nd, nd, true, s.log + [Begin(n)], Ok)
      && n > 0 && !(cfg.maxBlockLen != 0 && n > cfg.maxBlockLen) && cfg.cb.begin(s.log, n)
      && !cfg.cb.end(s.log + [Begin(n)] + DataEvents(payload), n)
  {
    if payload == "" { NoData(s.log); }
    hide DataEvents;
  }

  lemma PayloadRefused(cfg: Config, s: Rx, payload: string, log: seq<Event>)
    requires DataAccepted(cfg.cb) && 0 < |payload| < Pow10(9)
    requires s == Rx(BlockPayload, "", |payload|, 0, s.ndigits, s.got, true, log + [Begin(|payload|)], Ok)
    requires cfg.lineBufLen >= 16 && !cfg.cb.end(s.log + DataEvents(payload), |payload|)
    ensures var t := Run(cfg, s, payload);
      t.status == Callback && t.log == s.log + DataEvents(payload) + [End(|payload|)] + [Error(ExecutionError)]
  {
    ChunkIsItsBytes(cfg, s, payload);
  }

  /** Data the application refuses ends the block: an error, and no end. */
  lemma DataRefused(cfg: Config, s: Rx, chunk: string, eom: bool)
    requires s.mode == BlockPayload && s.status == Ok && s.received < s.blockLen
    requires chunk != [] && !cfg.cb.data(s.log, chunk[..Min(s.blockLen - s.received, |chunk|)])
    ensures var t := OnRxChunked(cfg, s, chunk, eom);
      t.status == Callback && t.log == s.log + [Error(ExecutionError)] && Idle(t.(status := Ok))
  {
    assert s.(status := Ok) == s;
    var n := Min(s.blockLen - s.received, |chunk|);
    var s1 := PayloadChunk(cfg, s, chunk[..n]);
    assert s1.status == Callback;
    StoppedStays(cfg, s1, chunk[n..]);
  }

  lemma StoppedStays(cfg: Config, s: Rx, bytes: string)
    requires s.status != Ok
    ensures RunChunked(cfg, s, bytes) == s
  {
  }
}
