/** The device's receive path (src/usbscpi.c): a byte state machine that
    assembles command lines, splits them at `;`, and streams the payload of
    `DATA:WRITE` blocks to callbacks. */
module RxEngine {
  import opened Ascii
  import opened Common
  import opened Decimal
  import opened BlockCodec
  import Separator

  datatype Mode = Text | BlockDigits | BlockLen | BlockPayload

  datatype Status = Ok | Overflow | Protocol | Callback

  datatype ScpiError = ExecutionError | TooMuchData | InvalidBlockData

  /** What the engine did to the outside world, payload byte by payload byte. */
  datatype Event =
    | Line(text: string)       // a line handed to the SCPI parser
    | Begin(len: nat)
    | Data(byte: char)
    | End(len: nat)
    | Error(error: ScpiError)  // pushed onto the error queue
    | ErrorsCleared            // the error queue emptied

  /** The application's block callbacks: each may accept or refuse as it likes,
      given everything that happened before. */
  datatype Callbacks = Callbacks(
    begin: (seq<Event>, nat) -> bool,
    data: (seq<Event>, string) -> bool,
    end: (seq<Event>, nat) -> bool)

  datatype Config = Config(lineBufLen: nat, maxBlockLen: nat, cb: Callbacks)

  datatype Rx = Rx(
    mode: Mode, line: string, blockLen: nat, received: nat, ndigits: nat, got: nat, started: bool,
    log: seq<Event>, status: Status)

  predicate IsSpace(c: char) {
    c == ' ' || '\t' <= c <= '\r'
  }

  function StripLeft(s: string): string {
    if s != [] && IsSpace(s[0]) then StripLeft(s[1..]) else s
  }

  const WRITE_PREFIX := "DATA:WRITE "

  /** After leading blanks, the line is `DATA:WRITE ` in any case, with or
      without a leading colon. */
  predicate IsWritePrefix(line: string) {
    var s := Uppercase(StripLeft(line));
    s == WRITE_PREFIX || s == ":" + WRITE_PREFIX
  }

  method LineIsDataWritePrefix(line: string) returns (r: bool)
    ensures r == IsWritePrefix(line)
  {
    hide StripLeft, Uppercase;
    var i := 0;
    assert line[0..] == line;
    while i < |line| && IsSpace(line[i])
      invariant i <= |line| && StripLeft(line) == StripLeft(line[i..])
    {
      StripOne(line[i..]);
      DropDrop(line, i, 1);
      i := i + 1;
    }
    var s := line[i..];
    NothingToStrip(s);
    var prefix1 := ":" + WRITE_PREFIX;
    if |s| != |prefix1| && |s| != |WRITE_PREFIX| { return false; }
    var prefix := if |s| == |prefix1| then prefix1 else WRITE_PREFIX;
    r := MatchesUpper(s, prefix);
  }

  lemma StripOne(s: string)
    requires s != [] && IsSpace(s[0])
    ensures StripLeft(s) == StripLeft(s[1..])
  {
  }

  lemma NothingToStrip(s: string)
    requires s == [] || !IsSpace(s[0])
    ensures StripLeft(s) == s
  {
  }

  method MatchesUpper(s: string, prefix: string) returns (r: bool)
    requires |s| == |prefix|
    ensures r == (Uppercase(s) == prefix)
  {
    var k := 0;
    while k < |s|
      invariant k <= |s| && forall j :: 0 <= j < k ==> Upper(s[j]) == prefix[j]
    {
      if Upper(s[k]) != prefix[k] {
        assert Uppercase(s)[k] != prefix[k];
        return false;
      }
      k := k + 1;
    }
    assert Uppercase(s) == prefix;
    return true;
  }

  /* ---- one byte at a time ---- */

  function Fail(s: Rx, e: ScpiError, status: Status): Rx {
    s.(log := s.log + [Error(e)], status := status)
  }

  function FeedLine(s: Rx): Rx {
    s.(line := "", log := s.log + [Line(s.line + "\n")])
  }

  function BlockBegin(cfg: Config, s: Rx): Rx {
    if s.started then s
    else if cfg.maxBlockLen != 0 && s.blockLen > cfg.maxBlockLen then Fail(s, TooMuchData, Overflow)
    else
      var s' := s.(started := true, log := s.log + [Begin(s.blockLen)]);
      if cfg.cb.begin(s.log, s.blockLen) then s' else Fail(s', ExecutionError, Callback)
  }

  function BlockFinish(cfg: Config, s: Rx): Rx {
    var s' := s.(log := s.log + [End(s.blockLen)]);
    if cfg.cb.end(s.log, s.blockLen) then
      s'.(mode := Text, line := "", blockLen := 0, received := 0, ndigits := 0, got := 0, started := false)
    else Fail(s', ExecutionError, Callback)
  }

  function TextByte(cfg: Config, s: Rx, c: char): Rx {
    if c == '#' && IsWritePrefix(s.line) then s.(mode := BlockDigits, line := "")
    else if c == '\r' || c == '\0' then s
    else if c == '\n' || (c == ';' && Separator.Ends(Separator.Lex(Separator.Plain, s.line))) then FeedLine(s)
    else if |s.line| + 1 >= cfg.lineBufLen then Fail(s.(line := ""), ExecutionError, Overflow)
    else s.(line := s.line + [c])
  }

  function LengthByte(cfg: Config, s: Rx, c: char): Rx {
    if !IsDigit(c) then Fail(s, InvalidBlockData, Protocol)
    else
      var s1 := s.(blockLen := s.blockLen * 10 + DigitValue(c), got := s.got + 1);
      if s1.got != s1.ndigits then s1
      else
        var s2 := BlockBegin(cfg, s1).(mode := BlockPayload);
        if s2.blockLen == 0 && s2.status == Ok then BlockFinish(cfg, s2) else s2
  }

  /** The effect of one received byte when the data callback accepts. */
  function Byte(cfg: Config, s: Rx, c: char): Rx {
    match s.mode
    case Text => TextByte(cfg, s, c)
    case BlockDigits =>
      if !('1' <= c <= '9') then Fail(s, InvalidBlockData, Protocol)
      else s.(ndigits := DigitValue(c), got := 0, blockLen := 0, received := 0, mode := BlockLen)
    case BlockLen => LengthByte(cfg, s, c)
    case BlockPayload =>
      var s' := s.(received := s.received + 1, log := s.log + [Data(c)]);
      if s'.received == s'.blockLen then BlockFinish(cfg, s') else s'
  }

  /** Bytes up to and including the first faulting one. */
  function Run(cfg: Config, s: Rx, bytes: string): Rx
    decreases |bytes|
  {
    if bytes == [] || s.status != Ok then s else Run(cfg, Byte(cfg, s, bytes[0]), bytes[1..])
  }

  /** The end of one receive call: `eom` executes a pending line, a fault
      returns the machine to text mode. */
  function Settle(s: Rx, eom: bool): Rx {
    var s' := if s.status == Ok && eom && s.mode == Text && s.line != "" then FeedLine(s) else s;
    if s'.status != Ok then s'.(mode := Text, line := "", started := false) else s'
  }

  function OnRxSpec(cfg: Config, s: Rx, bytes: string, eom: bool): Rx {
    Settle(Run(cfg, s.(status := Ok), bytes), eom)
  }

  /* ---- as the code does it: payload in chunks ---- */

  function PayloadChunk(cfg: Config, s: Rx, chunk: string): Rx
    requires chunk != []
  {
    if !cfg.cb.data(s.log, chunk) then Fail(s, ExecutionError, Callback)
    else
      var s' := s.(received := s.received + |chunk|, log := s.log + DataEvents(chunk));
      if s'.received == s'.blockLen then BlockFinish(cfg, s') else s'
  }

  function DataEvents(chunk: string): seq<Event> {
    seq(|chunk|, i requires 0 <= i < |chunk| => Data(chunk[i]))
  }

  /** Payload bytes are handed over as many at a time as the call holds. */
  function RunChunked(cfg: Config, s: Rx, bytes: string): Rx
    decreases |bytes|, s.mode == BlockPayload
  {
    if bytes == [] || s.status != Ok then s
    else if s.mode == BlockPayload && s.received >= s.blockLen then
      var s' := BlockFinish(cfg, s);
      if s'.status != Ok then s' else RunChunked(cfg, s', bytes)
    else if s.mode == BlockPayload then
      var n := Min(s.blockLen - s.received, |bytes|);
      RunChunked(cfg, PayloadChunk(cfg, s, bytes[..n]), bytes[n..])
    else RunChunked(cfg, Byte(cfg, s, bytes[0]), bytes[1..])
  }

  /** What holds between two bytes of any run. */
  predicate Inv(cfg: Config, s: Rx) {
    && |s.line| < cfg.lineBufLen
    && (s.status == Ok ==>
          match s.mode
          case Text => !s.started
          case BlockDigits => !s.started && s.line == ""
          case BlockLen =>
            && !s.started && s.line == "" && s.received == 0
            && 1 <= s.ndigits <= 9 && s.got < s.ndigits && s.blockLen < Pow10(s.got)
          case BlockPayload => s.started && s.line == "" && s.received < s.blockLen < Pow10(9))
  }

  lemma LengthKeepsInv(cfg: Config, s: Rx, c: char)
    requires Inv(cfg, s) && s.status == Ok && s.mode == BlockLen
    ensures Inv(cfg, LengthByte(cfg, s, c))
  {
    if IsDigit(c) {
      assert s.blockLen * 10 + DigitValue(c) < Pow10(s.got + 1);
      if s.got + 1 == s.ndigits { Pow10Table(); }
    }
  }

  lemma ByteKeepsInv(cfg: Config, s: Rx, c: char)
    requires Inv(cfg, s) && s.status == Ok
    ensures Inv(cfg, Byte(cfg, s, c))
  {
    hide LengthByte, Pow10;
    match s.mode
    case BlockLen => LengthKeepsInv(cfg, s, c);
    case _ =>
      assert Pow10(0) == 1 by { PowZero(); }
  }

  lemma PowZero()
    ensures Pow10(0) == 1
  {
  }

  lemma ChunkKeepsInv(cfg: Config, s: Rx, chunk: string)
    requires Inv(cfg, s) && s.status == Ok && s.mode == BlockPayload
    requires chunk != [] && |chunk| <= s.blockLen - s.received
    ensures Inv(cfg, PayloadChunk(cfg, s, chunk))
  {
  }

  lemma {:induction false} RunKeepsInv(cfg: Config, s: Rx, bytes: string)
    requires Inv(cfg, s)
    ensures Inv(cfg, Run(cfg, s, bytes))
    decreases |bytes|
  {
    if bytes != [] && s.status == Ok {
      ByteKeepsInv(cfg, s, bytes[0]);
      RunKeepsInv(cfg, Byte(cfg, s, bytes[0]), bytes[1..]);
    }
  }

  lemma {:induction false} RunAppend(cfg: Config, s: Rx, a: string, b: string)
    ensures Run(cfg, s, a + b) == Run(cfg, Run(cfg, s, a), b)
    decreases |a|
  {
    if a == [] {
      assert a + b == b;
    } else if s.status == Ok {
      assert (a + b)[1..] == a[1..] + b;
      RunAppend(cfg, Byte(cfg, s, a[0]), a[1..], b);
    }
  }

  ghost predicate DataAccepted(cb: Callbacks) {
    forall log, chunk :: cb.data(log, chunk)
  }

  /** A payload chunk within the block is its bytes one by one. */
  lemma {:induction false} ChunkIsItsBytes(cfg: Config, s: Rx, chunk: string)
    requires Inv(cfg, s) && s.status == Ok && s.mode == BlockPayload && DataAccepted(cfg.cb)
    requires chunk != [] && |chunk| <= s.blockLen - s.received
    ensures PayloadChunk(cfg, s, chunk) == Run(cfg, s, chunk)
    decreases |chunk|
  {
    assert DataEvents(chunk) == [Data(chunk[0])] + DataEvents(chunk[1..]);
    var s' := Byte(cfg, s, chunk[0]);
    if |chunk| > 1 {
      ByteKeepsInv(cfg, s, chunk[0]);
      ChunkIsItsBytes(cfg, s', chunk[1..]);
      assert s.log + DataEvents(chunk) == s'.log + DataEvents(chunk[1..]);
    } else {
      assert DataEvents(chunk[1..]) == [];
      assert s.log + DataEvents(chunk) == s.log + [Data(chunk[0])];
    }
  }

  /** The chunked engine refines the byte-at-a-time one. */
  lemma {:induction false} ChunkedIsBytewise(cfg: Config, s: Rx, bytes: string)
    requires Inv(cfg, s) && DataAccepted(cfg.cb)
    ensures RunChunked(cfg, s, bytes) == Run(cfg, s, bytes)
    decreases |bytes|
  {
    if bytes != [] && s.status == Ok {
      if s.mode == BlockPayload {
        var n := Min(s.blockLen - s.received, |bytes|);
        ChunkIsItsBytes(cfg, s, bytes[..n]);
        RunKeepsInv(cfg, s, bytes[..n]);
        RunAppend(cfg, s, bytes[..n], bytes[n..]);
        assert bytes[..n] + bytes[n..] == bytes;
        ChunkedIsBytewise(cfg, Run(cfg, s, bytes[..n]), bytes[n..]);
      } else {
        ByteKeepsInv(cfg, s, bytes[0]);
        ChunkedIsBytewise(cfg, Byte(cfg, s, bytes[0]), bytes[1..]);
      }
    }
  }

  /* ---- sequences of receive calls ---- */

  function OnRxChunked(cfg: Config, s: Rx, bytes: string, eom: bool): Rx {
    Settle(RunChunked(cfg, s.(status := Ok), bytes), eom)
  }

  /** Receive calls in turn, up to and including the first that reports a
      fault. Only the last carries the transport's end-of-message mark. */
  function Calls(cfg: Config, s: Rx, chunks: seq<string>, eom: bool): Rx
    requires chunks != []
    decreases |chunks|
  {
    if |chunks| == 1 then OnRxChunked(cfg, s, chunks[0], eom)
    else
      var s' := OnRxChunked(cfg, s, chunks[0], false);
      if s'.status != Ok then s' else Calls(cfg, s', chunks[1..], eom)
  }

  /** However a stream is cut into receive calls, the engine feeds the same
      lines, opens and closes the same blocks, delivers the same payload, stops
      at the same fault and ends in the same state. */
  lemma {:induction false} Fragmentation(cfg: Config, s: Rx, chunks: seq<string>, eom: bool)
    requires Inv(cfg, s.(status := Ok)) && DataAccepted(cfg.cb) && chunks != []
    ensures Calls(cfg, s, chunks, eom) == OnRxSpec(cfg, s, Flat(chunks), eom)
    decreases |chunks|
  {
    var s0 := s.(status := Ok);
    ChunkedIsBytewise(cfg, s0, chunks[0]);
    if |chunks| == 1 {
      assert chunks[1..] == [];
      assert Flat(chunks) == chunks[0];
    } else {
      var mid := Run(cfg, s0, chunks[0]);
      RunKeepsInv(cfg, s0, chunks[0]);
      RunAppend(cfg, s0, chunks[0], Flat(chunks[1..]));
      if mid.status == Ok {
        Fragmentation(cfg, mid, chunks[1..], eom);
        assert mid.(status := Ok) == mid;
      }
    }
  }

  /* ---- the engine in place ---- */

  lemma NothingLeftToRun(cfg: Config, s: Rx, bytes: string)
    requires Inv(cfg, s) && (bytes == [] || s.status != Ok)
    ensures RunChunked(cfg, s, bytes) == s
  {
  }

  class Engine {
    const cfg: Config
    const lineBuf: array<char>
    var mode: Mode
    var lineLen: nat
    var blockLen: nat
    var received: nat
    var ndigits: nat
    var got: nat
    var started: bool
    var log: seq<Event>

    ghost predicate Valid()
      reads this, lineBuf
    {
      && lineBuf.Length == cfg.lineBufLen
      && lineLen < lineBuf.Length
      && Inv(cfg, State(Ok))
    }

    function State(status: Status): (s: Rx)
      requires lineLen <= lineBuf.Length
      reads this, lineBuf
    {
      Rx(mode, lineBuf[..lineLen], blockLen, received, ndigits, got, started, log, status)
    }

    constructor (cfg: Config, lineBuf: array<char>)
      requires lineBuf.Length == cfg.lineBufLen >= 16
      ensures this.cfg == cfg && this.lineBuf == lineBuf
      ensures Valid() && State(Ok) == Rx(Text, "", 0, 0, 0, 0, false, [], Ok)
    {
      this.cfg, this.lineBuf := cfg, lineBuf;
      mode, lineLen, blockLen, received, ndigits, got, started, log := Text, 0, 0, 0, 0, 0, false, [];
    }

    method ErrorPush(e: ScpiError)
      modifies this`log
      ensures log == old(log) + [Error(e)]
    {
      log := log + [Error(e)];
    }

    /** Terminates the assembled line in the buffer and hands it over. There is
        always room for the newline: the overflow guard of the original's
        pending-line path can never be taken. */
    method Feed()
      requires lineLen < lineBuf.Length
      modifies this`lineLen, this`log, lineBuf
      ensures lineLen == 0 && log == old(log) + [Line(old(lineBuf[..lineLen]) + "\n")]
    {
      ghost var line := lineBuf[..lineLen];
      lineBuf[lineLen] := '\n';
      lineLen := lineLen + 1;
      assert lineBuf[..lineLen] == line + "\n";
      log := log + [Line(lineBuf[..lineLen])];
      lineLen := 0;
    }

    method Begin() returns (status: Status)
      requires lineLen <= lineBuf.Length
      modifies this`started, this`log
      ensures State(status) == BlockBegin(cfg, old(State(Ok)))
    {
      if started { return Ok; }
      if cfg.maxBlockLen != 0 && blockLen > cfg.maxBlockLen {
        ErrorPush(TooMuchData);
        return Overflow;
      }
      started := true;
      var ok := cfg.cb.begin(log, blockLen);
      log := log + [Event.Begin(blockLen)];
      if !ok {
        ErrorPush(ExecutionError);
        return Callback;
      }
      return Ok;
    }

    method Finish() returns (status: Status)
      requires lineLen <= lineBuf.Length
      modifies this
      ensures lineLen <= lineBuf.Length && State(status) == BlockFinish(cfg, old(State(Ok)))
    {
      var ok := cfg.cb.end(log, blockLen);
      log := log + [End(blockLen)];
      if !ok {
        ErrorPush(ExecutionError);
        return Callback;
      }
      mode, lineLen := Text, 0;
      blockLen, received, ndigits, got, started := 0, 0, 0, 0, false;
      return Ok;
    }

    method TextStep(c: char) returns (status: Status)
      requires Valid() && mode == Text
      modifies this, lineBuf
      ensures lineLen <= lineBuf.Length && State(status) == TextByte(cfg, old(State(Ok)), c)
    {
      ghost var line := lineBuf[..lineLen];
      if c == '#' {
        var write := LineIsDataWritePrefix(lineBuf[..lineLen]);
        if write {
          mode, lineLen := BlockDigits, 0;
          return Ok;
        }
      }
      if c == '\r' || c == '\0' { return Ok; }
      var separates := false;
      if c == ';' { separates := Separator.LineSeparator(lineBuf[..lineLen]); }
      if c == '\n' || separates {
        Feed();
        return Ok;
      }
      if lineLen + 1 >= cfg.lineBufLen {
        lineLen := 0;
        ErrorPush(ExecutionError);
        return Overflow;
      }
      lineBuf[lineLen] := c;
      lineLen := lineLen + 1;
      assert lineBuf[..lineLen] == line + [c];
      return Ok;
    }

    method LengthStep(c: char) returns (status: Status)
      requires Valid() && mode == BlockLen
      modifies this
      ensures lineLen <= lineBuf.Length && State(status) == LengthByte(cfg, old(State(Ok)), c)
    {
      if !IsDigit(c) {
        ErrorPush(InvalidBlockData);
        return Protocol;
      }
      blockLen := blockLen * 10 + DigitValue(c);
      got := got + 1;
      status := Ok;
      if got == ndigits {
        status := Begin();
        mode := BlockPayload;
        if blockLen == 0 && status == Ok {
          status := Finish();
        }
      }
    }

    method DigitsStep(c: char) returns (status: Status)
      requires lineLen <= lineBuf.Length && mode == BlockDigits
      modifies this
      ensures lineLen == old(lineLen) && State(status) == Byte(cfg, old(State(Ok)), c)
    {
      if c < '1' || c > '9' {
        ErrorPush(InvalidBlockData);
        return Protocol;
      }
      ndigits, got, blockLen, received, mode := DigitValue(c), 0, 0, 0, BlockLen;
      return Ok;
    }

    method PayloadStep(chunk: string) returns (status: Status, taken: nat)
      requires lineLen <= lineBuf.Length && mode == BlockPayload && chunk != []
      modifies this
      ensures lineLen <= lineBuf.Length && State(status) == PayloadChunk(cfg, old(State(Ok)), chunk)
      ensures taken <= |chunk| && (status == Ok ==> taken == |chunk|)
    {
      var ok := cfg.cb.data(log, chunk);
      if !ok {
        ErrorPush(ExecutionError);
        return Callback, 0;
      }
      taken := |chunk|;
      log := log + DataEvents(chunk);
      received := received + |chunk|;
      status := Ok;
      if received == blockLen {
        status := Finish();
      }
    }

    /** One turn of the receive loop: one byte, or as much payload as is left of
        the block and of the call. */
    method Turn(rest: string) returns (status: Status, n: nat)
      requires Valid() && rest != []
      modifies this, lineBuf
      ensures n <= |rest| && (status == Ok ==> n > 0)
      ensures lineLen < lineBuf.Length && Inv(cfg, State(status))
      ensures RunChunked(cfg, old(State(Ok)), rest) == RunChunked(cfg, State(status), rest[n..])
    {
      ghost var s := State(Ok);
      n := 1;
      match mode {
        case Text =>
          ByteKeepsInv(cfg, s, rest[0]);
          status := TextStep(rest[0]);
        case BlockDigits =>
          ByteKeepsInv(cfg, s, rest[0]);
          status := DigitsStep(rest[0]);
        case BlockLen =>
          ByteKeepsInv(cfg, s, rest[0]);
          status := LengthStep(rest[0]);
        case BlockPayload =>
          var chunk := rest[..Min(blockLen - received, |rest|)];
          ChunkKeepsInv(cfg, s, chunk);
          status, n := PayloadStep(chunk);
      }
    }

    /** One receive call. Every call leaves the engine fit for the next one,
        and its whole effect is the specified one, whatever the callbacks do. */
    method OnRx(data: string, eom: bool) returns (status: Status)
      requires Valid()
      modifies this, lineBuf
      ensures Valid() && State(status) == OnRxChunked(cfg, old(State(Ok)), data, eom)
    {
      hide RunChunked, Settle, Inv;
      status := Ok;
      var i := 0;
      assert data[0..] == data;
      while i < |data| && status == Ok
        invariant i <= |data| && lineLen < lineBuf.Length
        invariant Inv(cfg, State(status))
        invariant OnRxChunked(cfg, old(State(Ok)), data, eom) == Settle(RunChunked(cfg, State(status), data[i..]), eom)
        decreases |data| - i, status == Ok
      {
        var n;
        status, n := Turn(data[i..]);
        DropDrop(data, i, n);
        i := i + n;
      }
      NothingLeftToRun(cfg, State(status), data[i..]);
      EndCall(status, eom);
    }

    method EndCall(status: Status, eom: bool)
      requires lineLen < lineBuf.Length && Inv(cfg, State(status)) && lineBuf.Length == cfg.lineBufLen
      modifies this, lineBuf
      ensures Valid() && State(status) == Settle(old(State(status)), eom)
    {
      if status == Ok && eom && mode == Text && lineLen != 0 {
        Feed();
      }
      if status != Ok {
        mode, lineLen, started := Text, 0, false;
      }
    }

    method ErrorClear()
      modifies this`log
      ensures log == old(log) + [ErrorsCleared]
    {
      log := log + [ErrorsCleared];
    }

    /** Back to text mode with nothing assembled, no block open and no error
        queued. */
    method Clear()
      requires Valid()
      modifies this
      ensures Valid() && State(Ok) == Rx(Text, "", 0, 0, 0, 0, false, old(log) + [ErrorsCleared], Ok)
    {
      mode, lineLen := Text, 0;
      blockLen, received, ndigits, got, started := 0, 0, 0, 0, false;
      ErrorClear();
    }
  }
}
