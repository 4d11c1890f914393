/** Message framing over a byte stream (host/rust/src/stream.rs): text up to a
    newline, or a definite-length block and its newline. A byte is the char
    with that code. */
module MsgReader {
  import opened Common
  import opened Decimal
  import opened BlockCodec
  import LineText

  datatype FrameError = BadDigits | NonDigit | TooBig(declared: nat) | NoTerminator

  datatype Frame = Complete(n: nat) | More | Malformed(error: FrameError)

  /** The message at the front of the buffer, by cases on the wire format. */
  function FrameLen(buf: string, maxLen: nat): (f: Frame)
    ensures f.Complete? ==> 0 < f.n <= |buf|
  {
    if buf == "" then More
    else if buf[0] != '#' then
      var i := LineText.Index(buf, '\n');
      if i < |buf| then Complete(i + 1) else More
    else if |buf| < 2 then More
    else if !('1' <= buf[1] <= '9') then Malformed(BadDigits)
    else
      var nd := DigitValue(buf[1]);
      if |buf| < 2 + nd then More
      else if !AllDigits(buf[2..2 + nd]) then Malformed(NonDigit)
      else
        var declared := Value(buf[2..2 + nd]);
        if declared > maxLen then Malformed(TooBig(declared))
        else if |buf| < 2 + nd + declared + 1 then More
        else if buf[2 + nd + declared] != '\n' then Malformed(NoTerminator)
        else Complete(2 + nd + declared + 1)
  }

  /** Each verdict on the front of a stream, by what stands there. Text is decided by its
      newline; after a hash must stand a digit from 1 to 9, then as many digits, then as
      many bytes as these say, within the limit, then a newline; and only as much as
      that takes is waited for. */
  lemma VerdictExact(buf: string, maxLen: nat)
    ensures var f := FrameLen(buf, maxLen);
      if buf == "" then f == More
      else if buf[0] != '#' then
        if '\n' in buf then f.Complete? && buf[f.n - 1] == '\n' && '\n' !in buf[..f.n - 1] else f == More
      else
        && (f == Malformed(BadDigits) <==> |buf| >= 2 && buf[1] !in "123456789")
        && (|buf| >= 2 && buf[1] in "123456789" ==>
              var nd := DigitValue(buf[1]);
              && (f == Malformed(NonDigit) <==> |buf| >= 2 + nd && exists i :: 2 <= i < 2 + nd && !IsDigit(buf[i]))
              && (|buf| >= 2 + nd && AllDigits(buf[2..2 + nd]) ==>
                    var n := Value(buf[2..2 + nd]);
                    var end := 2 + nd + n;
                    && (f == Malformed(TooBig(n)) <==> n > maxLen)
                    && (n <= maxLen && |buf| <= end ==> f == More)
                    && (n <= maxLen && |buf| > end ==>
                          f == if buf[end] == '\n' then Complete(end + 1) else Malformed(NoTerminator)))
              && (|buf| < 2 + nd ==> f == More))
        && (|buf| < 2 ==> f == More)
  {
    if buf == "" {
    } else if buf[0] != '#' {
      hide LineText.Index;
      var i := LineText.Index(buf, '\n');
      assert buf[..|buf|] == buf;
    } else if |buf| >= 2 {
      DigitIs(buf[1]);
      if '1' <= buf[1] <= '9' {
        var nd := DigitValue(buf[1]);
        if |buf| >= 2 + nd { FieldDigits(buf, nd); }
      }
    }
  }

  lemma DigitIs(c: char)
    ensures '1' <= c <= '9' <==> c in "123456789"
  {
  }

  lemma FieldDigits(buf: string, nd: nat)
    requires |buf| >= 2 + nd
    ensures AllDigits(buf[2..2 + nd]) <==> !exists i :: 2 <= i < 2 + nd && !IsDigit(buf[i])
  {
    var field := buf[2..2 + nd];
    if AllDigits(field) {
      forall i | 2 <= i < 2 + nd ensures IsDigit(buf[i]) {
        assert IsDigit(field[i - 2]);
      }
    } else {
      var k :| 0 <= k < |field| && !IsDigit(field[k]);
      assert !IsDigit(buf[k + 2]);
    }
  }

  function Saturated(n: nat): nat {
    if n > USIZE_MAX then USIZE_MAX else n
  }

  lemma NotAllDigits(s: string, k: nat)
    requires k < |s| && !IsDigit(s[k])
    ensures !AllDigits(s)
  {
  }

  /** The length field with the code's saturating accumulator, which nine digits
      never saturate. */
  method ReadLength(field: string) returns (declared: Option<nat>)
    requires |field| <= 9
    ensures declared == if AllDigits(field) then Some(Value(field)) else None
  {
    hide Value, Pow10;
    var n, k := 0, 0;
    Pow10Table();
    NoDigits(field);
    while k < |field|
      invariant k <= |field| && AllDigits(field[..k]) && n == Value(field[..k])
    {
      var d := field[k];
      if !IsDigit(d) {
        NotAllDigits(field, k);
        return None;
      }
      ValueSnoc(field[..k], d);
      assert field[..k + 1] == field[..k] + [d];
      ValueBound(field[..k + 1]);
      assert Pow10(k + 1) <= Pow10(9);
      n := Saturated(Saturated(n * 10) + DigitValue(d));
      k := k + 1;
    }
    assert field[..k] == field;
    return Some(n);
  }

  lemma NoDigits(field: string)
    ensures Value(field[..0]) == 0
  {
  }

  /** The scan as the code makes it. */
  method ScanFrame(buf: string, maxLen: nat) returns (f: Frame)
    ensures f == FrameLen(buf, maxLen)
  {
    hide Value, AllDigits;
    if |buf| == 0 { return More; }
    if buf[0] != '#' {
      var i := LineText.Index(buf, '\n');
      if i < |buf| { return Complete(i + 1); }
      return More;
    }
    if |buf| < 2 { return More; }
    if !('1' <= buf[1] <= '9') { return Malformed(BadDigits); }
    var nd := DigitValue(buf[1]);
    if |buf| < 2 + nd { return More; }
    var declared := ReadLength(buf[2..2 + nd]);
    if declared == None { return Malformed(NonDigit); }
    if declared.value > maxLen { return Malformed(TooBig(declared.value)); }
    var end := 2 + nd + declared.value;
    if |buf| < end + 1 { return More; }
    if buf[end] != '\n' { return Malformed(NoTerminator); }
    return Complete(end + 1);
  }

  /** Once the front of the stream is decided, more bytes do not change it. */
  lemma DecisionIsStable(a: string, b: string, maxLen: nat)
    requires FrameLen(a, maxLen) != More
    ensures FrameLen(a + b, maxLen) == FrameLen(a, maxLen)
  {
    hide Value, AllDigits, LineText.Index;
    var c := a + b;
    assert c[0] == a[0];
    if a[0] != '#' {
      NewlineStays(a, b);
    } else {
      assert c[1] == a[1];
      if '1' <= a[1] <= '9' {
        var nd := DigitValue(a[1]);
        SliceOfAppend(a, b, 2, 2 + nd);
      }
    }
  }

  lemma NewlineStays(a: string, b: string)
    requires LineText.Index(a, '\n') < |a|
    ensures LineText.Index(a + b, '\n') == LineText.Index(a, '\n')
  {
    hide LineText.Index;
    var i := LineText.Index(a, '\n');
    var before, after := a[..i], a[i..] + b;
    assert a == before + a[i..];
    Assoc(before, a[i..], b);
    LineText.IndexAfter(before, '\n', after);
    LineText.IndexHere(after);
  }

  // Reading

  datatype Arrival = Got(bytes: string) | Failed   // Got("") is the end of the stream

  datatype Result = Message(bytes: string) | Broken(error: FrameError) | TooLong | Closed | IoError

  /** One read_msg: what it returns, what stays buffered, what is still unread. */
  function ReadSpec(buf: string, queue: seq<Arrival>, maxLen: nat): (Result, string, seq<Arrival>)
    decreases |queue|
  {
    match FrameLen(buf, maxLen)
    case Complete(n) => (Message(buf[..n]), buf[n..], queue)
    case Malformed(error) => (Broken(error), buf, queue)
    case More =>
      if |buf| > maxLen then (TooLong, buf, queue)
      else if queue == [] then (Closed, buf, [])
      else if queue[0].Failed? then (IoError, buf, queue[1..])
      else if queue[0].bytes == "" then (Closed, buf, queue[1..])
      else ReadSpec(buf + queue[0].bytes, queue[1..], maxLen)
  }

  class Reader {
    var buf: string
    var queue: seq<Arrival>     // what the reads will return, in order

    constructor (queue: seq<Arrival>)
      ensures buf == "" && this.queue == queue
    {
      buf, this.queue := "", queue;
    }

    method ReadMsg(maxLen: nat) returns (r: Result)
      modifies this
      ensures (r, buf, queue) == ReadSpec(old(buf), old(queue), maxLen)
    {
      while true
        invariant ReadSpec(buf, queue, maxLen) == ReadSpec(old(buf), old(queue), maxLen)
        decreases |queue|
      {
        hide FrameLen;
        var f := ScanFrame(buf, maxLen);
        match f
        case Complete(n) =>
          r := Message(buf[..n]);
          buf := buf[n..];
          return;
        case Malformed(error) => return Broken(error);
        case More =>
          if |buf| > maxLen { return TooLong; }
          if queue == [] { return Closed; }
          var chunk := queue[0];
          queue := queue[1..];
          if chunk.Failed? { return IoError; }
          if chunk.bytes == "" { return Closed; }
          buf := buf + chunk.bytes;
      }
    }
  }

  // Streams of messages

  datatype Msg = Text(line: string) | Block(payload: string)

  predicate WellFormed(m: Msg) {
    match m
    case Text(line) => '\n' !in line && (line != "" ==> line[0] != '#')
    case Block(payload) => |payload| < Pow10(9)
  }

  function Wire(m: Msg): string
    requires WellFormed(m)
  {
    (if m.Text? then m.line else Encoded(m.payload)) + "\n"
  }

  predicate Fits(m: Msg, maxLen: nat) {
    WellFormed(m) && |Wire(m)| <= maxLen + 1
  }

  predicate AllFit(ms: seq<Msg>, maxLen: nat) {
    forall i :: 0 <= i < |ms| ==> Fits(ms[i], maxLen)
  }

  function Stream(ms: seq<Msg>, maxLen: nat): string
    requires AllFit(ms, maxLen)
  {
    if ms == [] then "" else Wire(ms[0]) + Stream(ms[1..], maxLen)
  }

  lemma WholeMessage(m: Msg, rest: string, maxLen: nat)
    requires Fits(m, maxLen)
    ensures FrameLen(Wire(m) + rest, maxLen) == Complete(|Wire(m)|)
  {
    var w := Wire(m) + rest;
    match m
    case Text(line) =>
      assert w == line + ("\n" + rest);
      LineText.IndexAfter(line, '\n', "\n" + rest);
      LineText.IndexHere("\n" + rest);
    case Block(payload) =>
      BlockFrame(payload, "\n" + rest, maxLen);
      assert w == Encoded(payload) + ("\n" + rest);
  }

  lemma BlockFrame(payload: string, after: string, maxLen: nat)
    requires |payload| < Pow10(9) && |payload| <= maxLen && after != "" && after[0] == '\n'
    ensures FrameLen(Encoded(payload) + after, maxLen) == Complete(|Encoded(payload)| + 1)
  {
    EncodedParts(payload);
    hide Value, Dec, Digits, Pow10, Encoded, AllDigits;
    var e, nd := Encoded(payload), Digits(|payload|);
    SliceOfAppend(e, after, 2, 2 + nd);
    assert (e + after)[0] == e[0] && (e + after)[1] == e[1];
  }

  /** Part of a message is never mistaken for a whole one or for a bad one. */
  lemma PartOfMessage(m: Msg, k: nat, maxLen: nat)
    requires Fits(m, maxLen) && k < |Wire(m)|
    ensures FrameLen(Wire(m)[..k], maxLen) == More
  {
    hide FrameLen, Wire;
    var w := Wire(m);
    if FrameLen(w[..k], maxLen) != More {
      DecisionIsStable(w[..k], w[k..], maxLen);
      assert w[..k] + w[k..] == w && w + "" == w;
      WholeMessage(m, "", maxLen);
    }
  }

  predicate Flowing(queue: seq<Arrival>) {
    forall i :: 0 <= i < |queue| ==> queue[i].Got? && queue[i].bytes != ""
  }

  function Bytes(queue: seq<Arrival>): string {
    if queue == [] then "" else (if queue[0].Got? then queue[0].bytes else "") + Bytes(queue[1..])
  }

  /** One call returns the next message and leaves the rest of the stream, part
      of it buffered and part unread. */
  lemma {:induction false} ReadsNext(buf: string, queue: seq<Arrival>, m: Msg, rest: string, maxLen: nat)
    requires Fits(m, maxLen) && Flowing(queue) && buf + Bytes(queue) == Wire(m) + rest
    ensures var (r, buf', queue') := ReadSpec(buf, queue, maxLen);
      r == Message(Wire(m)) && buf' + Bytes(queue') == rest && Flowing(queue')
    decreases |queue|
  {
    hide FrameLen, Wire, WellFormed;
    var w := Wire(m);
    if |buf| >= |w| {
      var tail := buf[|w|..];
      assert (buf + Bytes(queue))[..|w|] == w;
      assert buf[..|w|] == w && buf == w + tail;
      WholeMessage(m, tail, maxLen);
      DropOfAppend(buf, Bytes(queue), |w|);
      DropOfAppend(w, rest, |w|);
    } else {
      assert (buf + Bytes(queue))[..|buf|] == buf && (w + rest)[..|buf|] == w[..|buf|];
      assert buf == w[..|buf|];
      PartOfMessage(m, |buf|, maxLen);
      assert queue != [];
      Assoc(buf, queue[0].bytes, Bytes(queue[1..]));
      ReadsNext(buf + queue[0].bytes, queue[1..], m, rest, maxLen);
    }
  }

  /** n calls in a row: what they returned, and the reader afterwards. */
  function ReadMany(buf: string, queue: seq<Arrival>, maxLen: nat, n: nat): (seq<Result>, string, seq<Arrival>)
    decreases n
  {
    if n == 0 then ([], buf, queue)
    else
      var (r, buf', queue') := ReadSpec(buf, queue, maxLen);
      var (rs, buf'', queue'') := ReadMany(buf', queue', maxLen, n - 1);
      ([r] + rs, buf'', queue'')
  }

  function Results(ms: seq<Msg>, maxLen: nat): seq<Result>
    requires AllFit(ms, maxLen)
  {
    seq(|ms|, i requires 0 <= i < |ms| => Message(Wire(ms[i])))
  }

  /** Chunk independence: however a stream of messages is cut into reads,
      successive calls return exactly the messages, in order, and whatever
      follows them is kept. */
  lemma {:induction false} MessagesComeBack(ms: seq<Msg>, tail: string, buf: string, queue: seq<Arrival>, maxLen: nat)
    requires AllFit(ms, maxLen) && Flowing(queue)
    requires buf + Bytes(queue) == Stream(ms, maxLen) + tail
    ensures var (rs, buf', queue') := ReadMany(buf, queue, maxLen, |ms|);
      rs == Results(ms, maxLen) && buf' + Bytes(queue') == tail
    decreases |ms|
  {
    hide ReadSpec, Wire, WellFormed, Flowing;
    if ms != [] {
      var rest := Stream(ms[1..], maxLen) + tail;
      Assoc(Wire(ms[0]), Stream(ms[1..], maxLen), tail);
      ReadsNext(buf, queue, ms[0], rest, maxLen);
      var (r, buf', queue') := ReadSpec(buf, queue, maxLen);
      MessagesComeBack(ms[1..], tail, buf', queue', maxLen);
      assert Results(ms, maxLen) == [Message(Wire(ms[0]))] + Results(ms[1..], maxLen);
    } else {
      assert "" + tail == tail;
    }
  }
}
