/** The checked command end to end: the message the host writes
    (host/rust/src/session.rs), the lines the receive engine makes of it
    (src/usbscpi.c), the instrument's error queue
    (third_party/libscpi/src/error.c), and what the host reports. */
module CheckedCommand {
  import opened Ascii
  import opened Common
  import opened Decimal
  import opened LineText
  import opened Session
  import Rx = RxEngine
  import RxTheorems
  import Separator
  import Replies = SessionTheorems

  // What the message makes the instrument execute

  const CLEAR := "*CLS"
  const QUERY := ":SYSTem:ERRor?"

  lemma JoinedFront(front: string, units: seq<string>)
    requires units != []
    ensures RxTheorems.Joined([front] + units) == front + (";" + RxTheorems.Joined(units))
  {
    assert ([front] + units)[1..] == units;
    Assoc(front, ";", RxTheorems.Joined(units));
  }

  lemma {:induction false} JoinedBack(units: seq<string>, back: string)
    requires units != []
    ensures RxTheorems.Joined(units + [back]) == RxTheorems.Joined(units) + (";" + back)
    decreases |units|
  {
    if |units| == 1 {
      JoinedFront(units[0], [back]);
      assert units + [back] == [units[0]] + [back];
    } else {
      JoinedBack(units[1..], back);
      JoinedFront(units[0], units[1..] + [back]);
      JoinedFront(units[0], units[1..]);
      assert units == [units[0]] + units[1..];
      assert units + [back] == [units[0]] + (units[1..] + [back]);
      hide RxTheorems.Joined;
      var more, tail := RxTheorems.Joined(units[1..]), ";" + back;
      Assoc(units[0], ";" + more, tail);
      Assoc(";", more, tail);
    }
  }

  lemma MessageIsUnits(units: seq<string>)
    requires units != []
    ensures CheckedMessage(RxTheorems.Joined(units)) == RxTheorems.Joined([CLEAR] + (units + [QUERY])) + "\n"
  {
    hide RxTheorems.Joined;
    JoinedFront(CLEAR, units + [QUERY]);
    JoinedBack(units, QUERY);
    var cmd := RxTheorems.Joined(units);
    assert "*CLS;" == CLEAR + ";" && ";:SYSTem:ERRor?" == ";" + QUERY;
    assert CLEAR + (";" + (cmd + (";" + QUERY))) == "*CLS;" + cmd + ";:SYSTem:ERRor?";
  }

  lemma OwnUnits(cfg: Rx.Config)
    requires cfg.lineBufLen >= 16
    ensures RxTheorems.Unit(cfg, CLEAR) && RxTheorems.Unit(cfg, QUERY)
  {
    PlainUnit(cfg, CLEAR);
    PlainUnit(cfg, QUERY);
  }

  lemma PlainUnit(cfg: Rx.Config, u: string)
    requires |u| < cfg.lineBufLen
    requires forall i :: 0 <= i < |u| ==> u[i] !in {';', '#', '\'', '"', '\r', '\n', '\0'}
    ensures RxTheorems.Unit(cfg, u)
  {
    RxTheorems.PlainRuns(u);
  }

  lemma UnitsAreExecuted(cfg: Rx.Config, s: Rx.Rx, units: seq<string>, chunks: seq<string>, eom: bool)
    requires RxTheorems.Idle(s) && Rx.Inv(cfg, s) && Rx.DataAccepted(cfg.cb) && cfg.lineBufLen >= 16
    requires units != [] && forall u :: u in units ==> RxTheorems.Unit(cfg, u)
    requires chunks != [] && Flat(chunks) == CheckedMessage(RxTheorems.Joined(units))
    ensures Rx.Calls(cfg, s, chunks, eom) == s.(log := s.log + RxTheorems.Lines([CLEAR] + (units + [QUERY])))
  {
    hide *;
    MessageIsUnits(units);
    OwnUnits(cfg);
    var all := [CLEAR] + (units + [QUERY]);
    forall u | u in all ensures RxTheorems.Unit(cfg, u) {
      assert u == CLEAR || u in units || u == QUERY;
    }
    RxTheorems.BatchedUnits(cfg, s, all, chunks, eom);
  }

  /** The message of a checked command, cut into receive calls in any way, makes an
      idle engine execute exactly three things: the clearing of the error queue, the
      units of the command, and the error query. */
  lemma MessageIsExecuted(cfg: Rx.Config, s: Rx.Rx, units: seq<string>, chunks: seq<string>, eom: bool)
    requires RxTheorems.Idle(s) && Rx.Inv(cfg, s) && Rx.DataAccepted(cfg.cb) && cfg.lineBufLen >= 16
    requires units != [] && forall u :: u in units ==> RxTheorems.Unit(cfg, u)
    requires chunks != [] && Flat(chunks) == CheckedMessage(RxTheorems.Joined(units))
    ensures Rx.Calls(cfg, s, chunks, eom) == s.(log := s.log + RxTheorems.Lines(["*CLS"] + (units + [":SYSTem:ERRor?"])))
  {
    hide CheckedMessage, RxTheorems.Unit, RxTheorems.Lines, RxTheorems.Joined, Rx.Calls, Rx.Inv, Flat;
    UnitsAreExecuted(cfg, s, units, chunks, eom);
  }

  // The error queue

  const QUEUE_LEN: nat := 8
  const QUEUE_OVERFLOW := ScpiError(-350, "Queue overflow")

  /** A full queue keeps its oldest errors; the last becomes the overflow. */
  function Pushed(queue: seq<ScpiError>, e: ScpiError): seq<ScpiError> {
    if |queue| < QUEUE_LEN then queue + [e] else queue[..QUEUE_LEN - 1] + [QUEUE_OVERFLOW]
  }

  function PushedAll(queue: seq<ScpiError>, errors: seq<ScpiError>): seq<ScpiError>
    decreases |errors|
  {
    if errors == [] then queue else PushedAll(Pushed(queue, errors[0]), errors[1..])
  }

  lemma {:induction false} PushedBound(queue: seq<ScpiError>, errors: seq<ScpiError>)
    requires |queue| <= QUEUE_LEN
    ensures |queue| <= |PushedAll(queue, errors)| <= QUEUE_LEN
    decreases |errors|
  {
    if errors != [] { PushedBound(Pushed(queue, errors[0]), errors[1..]); }
  }

  /** What a query of the queue answers: its oldest error, or that there is none. */
  function Answer(queue: seq<ScpiError>): string {
    if queue == [] then Replies.NO_ERROR else Replies.EntryText(queue[0]) + "\n"
  }

  function Rest(queue: seq<ScpiError>): seq<ScpiError> {
    if queue == [] then [] else queue[1..]
  }

  // The instrument

  /** What the commands do: the errors each queues and what it puts out. */
  datatype Handlers = Handlers(errors: string -> seq<ScpiError>, output: string -> seq<Replies.Item>)

  datatype Device = Device(queue: seq<ScpiError>, out: string)

  function Output(h: Handlers, line: string): string {
    var items := h.output(line);
    if Replies.AllWellFormed(items) then Flat(Replies.Wires(items)) else ""
  }

  function Executed(d: Device, line: string, h: Handlers): Device {
    if line == "*CLS\n" then Device([], d.out)
    else if line == ":SYSTem:ERRor?\n" || line == "SYSTem:ERRor?\n" then Device(Rest(d.queue), d.out + Answer(d.queue))
    else Device(PushedAll(d.queue, h.errors(line)), d.out + Output(h, line))
  }

  /** Everything that was fed, in order. */
  function ExecutedAll(d: Device, log: seq<Rx.Event>, h: Handlers): Device
    decreases |log|
  {
    if log == [] then d
    else ExecutedAll(if log[0].Line? then Executed(d, log[0].text, h) else d, log[1..], h)
  }

  lemma {:induction false} ExecutedInTurn(d: Device, a: seq<Rx.Event>, b: seq<Rx.Event>, h: Handlers)
    ensures ExecutedAll(d, a + b, h) == ExecutedAll(ExecutedAll(d, a, h), b, h)
    decreases |a|
  {
    hide Executed;
    if a == [] {
      assert a + b == b;
    } else {
      assert (a + b)[1..] == a[1..] + b;
      ExecutedInTurn(if a[0].Line? then Executed(d, a[0].text, h) else d, a[1..], b, h);
    }
  }

  lemma ExecutedOne(d: Device, line: string, h: Handlers)
    ensures ExecutedAll(d, [Rx.Line(line)], h) == Executed(d, line, h)
  {
    hide Executed;
    assert [Rx.Line(line)][1..] == [];
  }

  lemma LinesAround(units: seq<string>)
    ensures RxTheorems.Lines([CLEAR] + (units + [QUERY]))
            == [Rx.Line("*CLS\n")] + (RxTheorems.Lines(units) + [Rx.Line(":SYSTem:ERRor?\n")])
  {
    assert CLEAR + "\n" == "*CLS\n" && QUERY + "\n" == ":SYSTem:ERRor?\n";
  }

  lemma OwnLines(d: Device, h: Handlers)
    ensures Executed(d, "*CLS\n", h) == Device([], d.out)
    ensures Executed(d, ":SYSTem:ERRor?\n", h) == Device(Rest(d.queue), d.out + Answer(d.queue))
  {
    assert "*CLS\n"[0] != ":SYSTem:ERRor?\n"[0];
  }

  lemma QueryIsFed(cfg: Rx.Config, s: Rx.Rx, chunks: seq<string>, eom: bool)
    requires RxTheorems.Idle(s) && Rx.Inv(cfg, s) && Rx.DataAccepted(cfg.cb)
    requires RxTheorems.Unit(cfg, "SYSTem:ERRor?") && chunks != [] && Flat(chunks) == ERROR_QUERY
    ensures Rx.Calls(cfg, s, chunks, eom) == s.(log := s.log + [Rx.Line("SYSTem:ERRor?\n")])
  {
    hide *;
    QueryLine();
    RxTheorems.BatchedUnits(cfg, s, ["SYSTem:ERRor?"], chunks, eom);
  }

  /** The query with which the host fetches a further error takes the oldest. */
  lemma QueryIsExecuted(cfg: Rx.Config, s: Rx.Rx, chunks: seq<string>, eom: bool, d: Device, h: Handlers)
    requires RxTheorems.Idle(s) && Rx.Inv(cfg, s) && Rx.DataAccepted(cfg.cb) && cfg.lineBufLen >= 16
    requires chunks != [] && Flat(chunks) == ERROR_QUERY
    ensures var line := Rx.Line("SYSTem:ERRor?\n");
      && Rx.Calls(cfg, s, chunks, eom) == s.(log := s.log + [line])
      && ExecutedAll(d, [line], h) == Device(Rest(d.queue), d.out + Answer(d.queue))
  {
    PlainUnit(cfg, "SYSTem:ERRor?");
    ExecutedOne(d, "SYSTem:ERRor?\n", h);
    assert "*CLS\n"[0] != "SYSTem:ERRor?\n"[0];
    hide *;
    QueryIsFed(cfg, s, chunks, eom);
  }

  lemma QueryLine()
    ensures RxTheorems.Joined(["SYSTem:ERRor?"]) + "\n" == ERROR_QUERY
    ensures RxTheorems.Lines(["SYSTem:ERRor?"]) == [Rx.Line("SYSTem:ERRor?\n")]
  {
    assert "SYSTem:ERRor?" + "\n" == "SYSTem:ERRor?\n";
  }

  /** Whatever was queued before, what the instrument answers to the three and what
      it then has queued is what the command alone makes of an empty queue. */
  lemma OldErrorsPlayNoPart(before: seq<ScpiError>, units: seq<string>, h: Handlers)
    ensures var own := ExecutedAll(Device([], ""), RxTheorems.Lines(units), h);
      ExecutedAll(Device(before, ""), RxTheorems.Lines(["*CLS"] + (units + [":SYSTem:ERRor?"])), h)
      == Device(Rest(own.queue), own.out + Answer(own.queue))
  {
    var lines := RxTheorems.Lines(units);
    LinesAround(units);
    hide Executed, ExecutedAll, Answer, Rest, RxTheorems.Lines;
    ExecutedInTurn(Device(before, ""), [Rx.Line("*CLS\n")], lines + [Rx.Line(":SYSTem:ERRor?\n")], h);
    ExecutedOne(Device(before, ""), "*CLS\n", h);
    OwnLines(Device(before, ""), h);
    ExecutedInTurn(Device([], ""), lines, [Rx.Line(":SYSTem:ERRor?\n")], h);
    var own := ExecutedAll(Device([], ""), lines, h);
    ExecutedOne(own, ":SYSTem:ERRor?\n", h);
    OwnLines(own, h);
  }

  // What the host reports

  function ErrorsOf(h: Handlers, units: seq<string>): seq<ScpiError> {
    if units == [] then [] else h.errors(units[0] + "\n") + ErrorsOf(h, units[1..])
  }

  function OutputOfAll(h: Handlers, units: seq<string>): seq<Replies.Item> {
    if units == [] then [] else h.output(units[0] + "\n") + OutputOfAll(h, units[1..])
  }

  /** A command of its own: neither the clearing nor the query, and what it puts
      out is lines and blocks. */
  predicate Ordinary(h: Handlers, unit: string) {
    var line := unit + "\n";
    && line != "*CLS\n" && line != ":SYSTem:ERRor?\n" && line != "SYSTem:ERRor?\n"
    && Replies.AllWellFormed(h.output(line))
  }

  lemma {:induction false} PushedInTurn(queue: seq<ScpiError>, a: seq<ScpiError>, b: seq<ScpiError>)
    ensures PushedAll(queue, a + b) == PushedAll(PushedAll(queue, a), b)
    decreases |a|
  {
    hide Pushed;
    if a == [] {
      assert a + b == b;
    } else {
      assert (a + b)[1..] == a[1..] + b;
      PushedInTurn(Pushed(queue, a[0]), a[1..], b);
    }
  }

  lemma WiresInTurn(a: seq<Replies.Item>, b: seq<Replies.Item>)
    requires Replies.AllWellFormed(a) && Replies.AllWellFormed(b)
    ensures Replies.AllWellFormed(a + b) && Replies.Wires(a + b) == Replies.Wires(a) + Replies.Wires(b)
    ensures Flat(Replies.Wires(a + b)) == Flat(Replies.Wires(a)) + Flat(Replies.Wires(b))
  {
    assert forall i :: 0 <= i < |a + b| ==> (a + b)[i] == if i < |a| then a[i] else b[i - |a|];
    assert Replies.Wires(a + b) == Replies.Wires(a) + Replies.Wires(b);
    FlatAppend(Replies.Wires(a), Replies.Wires(b));
  }

  lemma {:induction false} UnitsExecuted(d: Device, units: seq<string>, h: Handlers)
    requires forall i :: 0 <= i < |units| ==> Ordinary(h, units[i])
    ensures Replies.AllWellFormed(OutputOfAll(h, units))
    ensures ExecutedAll(d, RxTheorems.Lines(units), h)
            == Device(PushedAll(d.queue, ErrorsOf(h, units)), d.out + Flat(Replies.Wires(OutputOfAll(h, units))))
    decreases |units|
  {
    if units == [] {
      assert RxTheorems.Lines(units) == [] && Replies.Wires([]) == [];
      assert d.out + "" == d.out;
    } else {
      var line, more := units[0] + "\n", units[1..];
      assert Ordinary(h, units[0]);
      assert RxTheorems.Lines(units) == [Rx.Line(line)] + RxTheorems.Lines(more);
      var d1 := Executed(d, line, h);
      assert d1 == Device(PushedAll(d.queue, h.errors(line)), d.out + Flat(Replies.Wires(h.output(line))));
      hide Executed, PushedAll, RxTheorems.Lines, Replies.Wires, Flat;
      ExecutedInTurn(d, [Rx.Line(line)], RxTheorems.Lines(more), h);
      ExecutedOne(d, line, h);
      UnitsExecuted(d1, more, h);
      PushedInTurn(d.queue, h.errors(line), ErrorsOf(h, more));
      WiresInTurn(h.output(line), OutputOfAll(h, more));
      Assoc(d.out, Flat(Replies.Wires(h.output(line))), Flat(Replies.Wires(OutputOfAll(h, more))));
    }
  }

  /** An entry that can be told from the output and read as what it is. */
  predicate Readable(e: ScpiError, utf8: string -> bool) {
    && -0x8000_0000 <= e.code <= 0x7FFF_FFFF && '\n' !in e.message
    && utf8(Replies.EntryText(e)) && utf8(Replies.EntryText(e) + "\n")
  }

  const NONE := ScpiError(0, "No error")

  /** What the replies to further queries are. */
  function Answers(queue: seq<ScpiError>, n: nat): seq<Read> {
    if n == 0 then [] else [Msg(Answer(queue))] + Answers(Rest(queue), n - 1)
  }

  lemma {:induction false} AnswersAreEntries(queue: seq<ScpiError>)
    ensures Answers(queue, |queue| + 1) == Replies.EntryMsgs(queue) + [Msg(Replies.NO_ERROR)]
    decreases |queue|
  {
    hide Replies.EntryText;
    if queue == [] {
      assert Answers(Rest(queue), 0) == [];
    } else {
      AnswersAreEntries(queue[1..]);
      assert Replies.EntryMsgs(queue) == [Msg(Answer(queue))] + Replies.EntryMsgs(queue[1..]);
      Assoc([Msg(Answer(queue))], Replies.EntryMsgs(queue[1..]), [Msg(Replies.NO_ERROR)]);
    }
  }

  lemma EntryIsLine(e: ScpiError, utf8: string -> bool)
    requires Readable(e, utf8)
    ensures Replies.WellFormed(Replies.Line(Replies.EntryText(e)))
    ensures ParseEntry(Replies.EntryText(e) + "\n", utf8) == Some(e)
  {
    Replies.SignedHead(e.code);
    NoNewlineInNumber(e.code);
    hide Replies.SignedDec, ParseEntry;
    var d := Replies.SignedDec(e.code);
    assert "\"" + "\n" == "\"\n";
    Assoc(d + ",\"" + e.message, "\"", "\n");
    Replies.EntryRoundTrip(e.code, e.message, utf8);
  }

  lemma NoNewlineInNumber(n: int)
    ensures '\n' !in Replies.SignedDec(n)
  {
    var d := Dec(if n < 0 then -n else n);
    assert forall i :: 0 <= i < |d| ==> IsDigit(d[i]);
  }

  lemma AllUnits(cfg: Rx.Config, h: Handlers, units: seq<string>)
    requires forall i :: 0 <= i < |units| ==> RxTheorems.Unit(cfg, units[i]) && Ordinary(h, units[i])
    ensures forall u :: u in units ==> RxTheorems.Unit(cfg, u)
    ensures forall i :: 0 <= i < |units| ==> Ordinary(h, units[i])
  {
    hide *;
  }

  lemma NewLog(s: Rx.Rx, lines: seq<Rx.Event>)
    ensures s.log <= s.log + lines && (s.log + lines)[|s.log|..] == lines
  {
  }

  lemma OutputIgnoresEntry(body: seq<string>, first: ScpiError, maxBlockLen: nat, utf8: string -> bool)
    requires OutputOf(body, NONE, maxBlockLen, utf8).Answered?
    ensures OutputOf(body, first, maxBlockLen, utf8)
            == Answered(OutputOf(body, NONE, maxBlockLen, utf8).output, first)
  {
    hide TrimEol, Flat;
  }

  /** The reply is the output and then the entry of the first error. */
  lemma ReplyBytesAre(items: seq<Replies.Item>, errors: seq<ScpiError>)
    requires Replies.AllWellFormed(items)
    ensures "" + Flat(Replies.Wires(items)) + Answer(errors)
            == Replies.ReplyBytes(items, Replies.EntryText(if errors == [] then NONE else errors[0]))
  {
    NoErrorEntry();
    hide Flat, Replies.Wires, Replies.EntryText;
    var text := Flat(Replies.Wires(items));
    assert "" + text == text;
  }

  lemma ReplyEnds(items: seq<Replies.Item>, first: ScpiError, utf8: string -> bool)
    requires Replies.AllWellFormed(items) && Readable(first, utf8)
    ensures var reply := Replies.ReplyBytes(items, Replies.EntryText(first));
      Body(reply) == Replies.Wires(items) && Ending(reply, utf8) == Some(first)
  {
    hide *;
    EntryIsLine(first, utf8);
    Replies.ReplyEnds(items, Replies.EntryText(first), first, utf8);
  }

  lemma Limits(errors: seq<ScpiError>, utf8: string -> bool)
    requires forall e :: e in errors ==> Replies.Reportable(e, utf8)
    ensures QUEUE_LEN <= DRAIN_LIMIT && NONE.code == 0 && Answers([], 0) == []
    ensures errors != [] ==> errors[0].code != 0 && Rest(errors) == errors[1..]
    ensures errors == [] ==> Rest(errors) == []
    ensures forall i :: 1 <= i < |errors| ==> Replies.Reportable(errors[i], utf8)
  {
    assert errors != [] ==> Replies.Reportable(errors[0], utf8);
  }

  lemma ReadableText(e: ScpiError, utf8: string -> bool)
    requires Readable(e, utf8)
    ensures utf8(Replies.EntryText(e))
  {
  }

  lemma HostReturns(items: seq<Replies.Item>, errors: seq<ScpiError>, got: seq<string>,
                    maxBlockLen: nat, utf8: string -> bool)
    requires Replies.AllWellFormed(items) && Replies.NoEntry(Replies.Wires(items), utf8)
    requires forall e :: e in errors + [NONE] ==> Readable(e, utf8)
    requires forall e :: e in errors ==> Replies.Reportable(e, utf8)
    requires |errors| <= QUEUE_LEN
    requires Flat(got) == "" + Flat(Replies.Wires(items)) + Answer(errors)
    requires |got| <= READ_LIMIT && forall i :: 0 <= i < |got| ==> got[i] != ""
    requires OutputOf(Replies.Wires(items), NONE, maxBlockLen, utf8).Answered?
    ensures var output := OutputOf(Replies.Wires(items), NONE, maxBlockLen, utf8).output;
      Exchange(Replies.Msgs(got) + Answers(Rest(errors), |errors|), maxBlockLen, utf8)
      == (Checked(output, errors), [], |errors|)
  {
    hide *;
    var first := if errors == [] then NONE else errors[0];
    var reply := Replies.ReplyBytes(items, Replies.EntryText(first));
    assert first in errors + [NONE] && NONE in errors + [NONE];
    ReplyBytesAre(items, errors);
    ReplyEnds(items, first, utf8);
    ReadableText(NONE, utf8);
    NoErrorEntry();
    OutputIgnoresEntry(Replies.Wires(items), first, maxBlockLen, utf8);
    Limits(errors, utf8);
    if errors == [] {
      Replies.AllErrorsReturned(reply, got, [NONE], maxBlockLen, utf8);
      assert Replies.Msgs(got) + [] == Replies.Msgs(got);
    } else {
      Replies.AllErrorsReturned(reply, got, errors, maxBlockLen, utf8);
      AnswersAreEntries(errors[1..]);
    }
  }

  lemma NoErrorEntry()
    ensures Replies.EntryText(NONE) == "0,\"No error\"" && Replies.EntryText(NONE) + "\n" == Replies.NO_ERROR
  {
    assert Replies.SignedDec(0) == "0";
  }

  /** End to end. The host writes a checked command; cut into receive calls in any
      way, it reaches an idle instrument whose queue holds anything at all; the
      reply, in any reads that carry something, and the answers to the queries that
      follow, make the host return what this command put out and exactly the errors
      this command queued. */
  lemma ReportsItsOwn(cfg: Rx.Config, s: Rx.Rx, units: seq<string>, sent: seq<string>, eom: bool,
                      before: seq<ScpiError>, h: Handlers, got: seq<string>, maxBlockLen: nat, utf8: string -> bool)
    requires RxTheorems.Idle(s) && Rx.Inv(cfg, s) && Rx.DataAccepted(cfg.cb) && cfg.lineBufLen >= 16
    requires units != [] && forall i :: 0 <= i < |units| ==> RxTheorems.Unit(cfg, units[i]) && Ordinary(h, units[i])
    requires sent != [] && Flat(sent) == CheckedMessage(RxTheorems.Joined(units))
    requires Replies.AllWellFormed(OutputOfAll(h, units))
    requires Replies.NoEntry(Replies.Wires(OutputOfAll(h, units)), utf8)
    requires forall e :: e in PushedAll([], ErrorsOf(h, units)) + [NONE] ==> Readable(e, utf8)
    requires forall e :: e in PushedAll([], ErrorsOf(h, units)) ==> Replies.Reportable(e, utf8)
    requires var log := Rx.Calls(cfg, s, sent, eom).log;
      s.log <= log && Flat(got) == ExecutedAll(Device(before, ""), log[|s.log|..], h).out
    requires |got| <= READ_LIMIT && forall i :: 0 <= i < |got| ==> got[i] != ""
    requires OutputOf(Replies.Wires(OutputOfAll(h, units)), NONE, maxBlockLen, utf8).Answered?
    ensures var queue := ExecutedAll(Device(before, ""), Rx.Calls(cfg, s, sent, eom).log[|s.log|..], h).queue;
      var output := OutputOf(Replies.Wires(OutputOfAll(h, units)), NONE, maxBlockLen, utf8).output;
      var errors := PushedAll([], ErrorsOf(h, units));
      Exchange(Replies.Msgs(got) + Answers(queue, |errors|), maxBlockLen, utf8)
      == (Checked(output, errors), [], |errors|)
  {
    var items, errors := OutputOfAll(h, units), PushedAll([], ErrorsOf(h, units));
    AllUnits(cfg, h, units);
    MessageIsExecuted(cfg, s, units, sent, eom);
    NewLog(s, RxTheorems.Lines(["*CLS"] + (units + [":SYSTem:ERRor?"])));
    OldErrorsPlayNoPart(before, units, h);
    UnitsExecuted(Device([], ""), units, h);
    PushedBound([], ErrorsOf(h, units));
    hide *;
    HostReturns(items, errors, got, maxBlockLen, utf8);
  }
}
