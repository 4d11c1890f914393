/** The host's checked command exchange (host/rust/src/session.rs): one write,
    then reads until the bytes received end with an error-queue entry. A byte
    is the char with that code; which byte strings are UTF-8 is a parameter. */
module Session {
  import opened Ascii
  import opened Common
  import opened Decimal
  import opened BlockCodec
  import opened LineText

  datatype ScpiError = ScpiError(code: int, message: string)

  datatype Output = Nothing | Reply(text: string) | Binary(payload: string)

  /** What the reads after the write come to. */
  datatype Outcome =
    | Answered(output: Output, first: ScpiError)  // code 0 is "no error"
    | NoReply                                     // the read limit was reached
    | ReadFailed
    | BadBlock(error: BlockError)
    | NotUtf8

  /** What the caller gets: the output and every error the command queued. */
  datatype Result = Checked(output: Output, errors: seq<ScpiError>) | Failed(why: Outcome)

  datatype Read = Msg(bytes: string) | Failure

  // Splitting a byte string into framed items

  predicate BlockShaped(s: string) {
    |s| > 1 && s[0] == '#' && '1' <= s[1] <= '9'
  }

  /** Length of the item at the front, if all of it is there. A block's own
      newline belongs to it only once it has arrived. */
  function ItemLen(rest: string): (len: Option<nat>)
    ensures len.Some? && rest != "" ==> 0 < len.value <= |rest|
  {
    if BlockShaped(rest) then
      var nd := DigitValue(rest[1]);
      if |rest| < 2 + nd then None
      else
        match ParseUnsigned(rest[2..2 + nd], USIZE_MAX)
        case None => None
        case Some(n) =>
          var end := 2 + nd + n;
          if |rest| < end then None
          else if |rest| > end && rest[end] == '\n' then Some(end + 1)
          else Some(end)
    else
      var i := Index(rest, '\n');
      if i == |rest| then None else Some(i + 1)
  }

  function Prepend(x: string, items: Option<seq<string>>): Option<seq<string>> {
    match items
    case None => None
    case Some(xs) => Some([x] + xs)
  }

  function Items(buf: string): (r: Option<seq<string>>)
    ensures r.Some? ==> (r.value == [] <==> buf == "")
    decreases |buf|
  {
    if buf == "" then Some([])
    else
      match ItemLen(buf)
      case None => None
      case Some(k) => Prepend(buf[..k], Items(buf[k..]))
  }

  /** `items` were split off `all`, and `rest` is still to be split. */
  predicate Splits(all: string, items: seq<string>, rest: string) {
    match Items(rest)
    case None => Items(all) == None
    case Some(xs) => Items(all) == Some(items + xs)
  }

  lemma SplitsNext(all: string, items: seq<string>, rest: string)
    requires Splits(all, items, rest) && rest != ""
    ensures match ItemLen(rest)
            case None => Items(all) == None
            case Some(k) => Splits(all, items + [rest[..k]], rest[k..])
  {
    hide ItemLen;
    var len := ItemLen(rest);
    if len.Some? && Items(rest[len.value..]).Some? {
      Assoc(items, [rest[..len.value]], Items(rest[len.value..]).value);
    }
  }

  method SplitItems(buf: string) returns (r: Option<seq<string>>)
    ensures r == Items(buf)
  {
    var items: seq<string>, i := [], 0;
    SplitsAll(buf);
    hide ItemLen, Items, Splits;
    while i < |buf|
      invariant i <= |buf| && Splits(buf, items, buf[i..])
    {
      var rest := buf[i..];
      var len := ItemLen(rest);
      SplitsNext(buf, items, rest);
      if len.None? { return None; }
      DropDrop(buf, i, len.value);
      items := items + [rest[..len.value]];
      i := i + len.value;
    }
    assert buf[i..] == "";
    SplitsDone(buf, items);
    r := Some(items);
  }

  lemma SplitsDone(buf: string, items: seq<string>)
    requires Splits(buf, items, "")
    ensures Items(buf) == Some(items)
  {
    assert Items("") == Some([]) && items + [] == items;
  }

  lemma SplitsAll(buf: string)
    ensures Splits(buf, [], buf[0..])
  {
    hide ItemLen, Items;
    assert buf[0..] == buf;
    if Items(buf).Some? {
      assert [] + Items(buf).value == Items(buf).value;
    }
  }

  // The error entry

  predicate IsEol(c: char) {
    c == '\r' || c == '\n'
  }

  function TrimEol(s: string): string {
    if s != "" && IsEol(s[|s| - 1]) then TrimEol(s[..|s| - 1]) else s
  }

  /** `i32` parse: an optional sign, digits, in range. */
  function ParseI32(s: string): Option<int> {
    if s != "" && s[0] == '-' then
      if s[1..] == "" || !AllDigits(s[1..]) || Value(s[1..]) > 0x8000_0000 then None
      else var n: int := Value(s[1..]); Some(0 - n)
    else
      match ParseUnsigned(s, 0x7FFF_FFFF)
      case None => None
      case Some(n) => var code: int := n; Some(code)
  }

  /** `<code>,"<message>"`, the shape of a reply to SYSTem:ERRor? */
  function ParseEntry(line: string, utf8: string -> bool): Option<ScpiError> {
    if !utf8(line) then None
    else
      var text := TrimEol(line);
      var comma := Index(text, ',');
      if comma == |text| then None
      else
        match ParseI32(Trim(text[..comma]))
        case None => None
        case Some(code) =>
          var msg := Trim(text[comma + 1..]);
          if |msg| < 2 || msg[0] != '"' || msg[|msg| - 1] != '"' then None
          else Some(ScpiError(code, msg[1..|msg| - 1]))
  }

  function OutputOf(body: seq<string>, first: ScpiError, maxBlockLen: nat, utf8: string -> bool): Outcome {
    if body == [] then Answered(Nothing, first)
    else if |body| == 1 && body[0] != "" && body[0][0] == '#' then
      match ParseSpec(body[0], maxBlockLen)
      case Payload(bytes) => Answered(Binary(bytes), first)
      case Bad(error) => BadBlock(error)
    else
      var text := TrimEol(Flat(body));
      if utf8(text) then Answered(Reply(text), first) else NotUtf8
  }

  /** The error entry the bytes received so far end with, if they end with one. */
  function Ending(buf: string, utf8: string -> bool): Option<ScpiError> {
    match Items(buf)
    case None => None
    case Some(items) => if items == [] then None else ParseEntry(items[|items| - 1], utf8)
  }

  function Body(buf: string): seq<string> {
    match Items(buf)
    case None => []
    case Some(items) => if items == [] then [] else items[..|items| - 1]
  }

  /** The exchange after the write, with n reads left: the outcome and the reads
      not made. */
  function Collect(buf: string, arrivals: seq<Read>, n: nat, maxBlockLen: nat, utf8: string -> bool): (Outcome, seq<Read>)
    decreases n
  {
    if n == 0 then (NoReply, arrivals)
    else if arrivals == [] then (ReadFailed, [])
    else if arrivals[0].Failure? then (ReadFailed, arrivals[1..])
    else
      var more := buf + arrivals[0].bytes;
      match Ending(more, utf8)
      case None => Collect(more, arrivals[1..], n - 1, maxBlockLen, utf8)
      case Some(first) => (OutputOf(Body(more), first, maxBlockLen, utf8), arrivals[1..])
  }

  // Draining the error queue

  function TrimQuotesLeft(s: string): string {
    if s != "" && s[0] == '"' then TrimQuotesLeft(s[1..]) else s
  }

  function TrimQuotesRight(s: string): string {
    if s != "" && s[|s| - 1] == '"' then TrimQuotesRight(s[..|s| - 1]) else s
  }

  lemma BlockIsThere(raw: string, maxBlockLen: nat)
    requires ParseSpec(raw, maxBlockLen).Payload?
    ensures |raw| >= 2 && IsDigit(raw[1])
    ensures 2 + DigitValue(raw[1]) + |ParseSpec(raw, maxBlockLen).bytes| <= |raw|
  {
    hide Value, AllDigits;
  }

  /** The text of a query's reply: the line ends after it, or after the block it
      starts with, are dropped. */
  function ReplyText(raw: string, maxBlockLen: nat): (r: Parsed)
  {
    if raw == "" || raw[0] != '#' then Payload(TrimEol(raw))
    else
      match ParseSpec(raw, maxBlockLen)
      case Bad(error) => Bad(error)
      case Payload(bytes) =>
        BlockIsThere(raw, maxBlockLen);
        var end := 2 + DigitValue(raw[1]) + |bytes|;
        Payload(raw[..end] + TrimEol(raw[end..]))
  }

  /** A queue entry as the drain reads it: leniently, any text is one. */
  function QueueEntry(text: string): ScpiError {
    var comma := Index(text, ',');
    var code := ParseI32(Trim(text[..comma]));
    var rest := if comma < |text| then text[comma + 1..] else "";
    ScpiError(if code.Some? then code.value else -1, TrimQuotesRight(TrimQuotesLeft(Trim(rest))))
  }

  /** The entry that says the queue is empty. */
  predicate IsNoError(e: ScpiError) {
    e.code == 0 || Uppercase(e.message) == "NO ERROR"
  }

  const DRAIN_LIMIT: nat := 64

  /** Asking for entries, with `errors` fetched so far, until the queue is empty
      or the limit reached: the result, the reads not made and the number of
      queries sent. */
  function Drain(errors: seq<ScpiError>, arrivals: seq<Read>, maxBlockLen: nat, utf8: string -> bool)
    : (Result, seq<Read>, nat)
    decreases DRAIN_LIMIT - |errors|
  {
    if arrivals == [] then (Failed(ReadFailed), [], 1)
    else if arrivals[0].Failure? then (Failed(ReadFailed), arrivals[1..], 1)
    else
      match ReplyText(arrivals[0].bytes, maxBlockLen)
      case Bad(error) => (Failed(BadBlock(error)), arrivals[1..], 1)
      case Payload(text) =>
        if !utf8(text) then (Failed(NotUtf8), arrivals[1..], 1)
        else
          var e := QueueEntry(text);
          if IsNoError(e) then (Checked(Nothing, errors), arrivals[1..], 1)
          else if |errors| + 1 >= DRAIN_LIMIT then (Checked(Nothing, errors + [e]), arrivals[1..], 1)
          else
            var d := Drain(errors + [e], arrivals[1..], maxBlockLen, utf8);
            (d.0, d.1, 1 + d.2)
  }

  /** The whole exchange after the write. */
  function Exchange(arrivals: seq<Read>, maxBlockLen: nat, utf8: string -> bool): (Result, seq<Read>, nat) {
    var c := Collect("", arrivals, READ_LIMIT, maxBlockLen, utf8);
    match c.0
    case Answered(output, first) =>
      if first.code == 0 then (Checked(output, []), c.1, 0)
      else
        var d := Drain([], c.1, maxBlockLen, utf8);
        (if d.0.Checked? then Checked(output, [first] + d.0.errors) else d.0, d.1, d.2)
    case _ => (Failed(c.0), c.1, 0)
  }

  /** Where the text ends, the line ends after `from` dropped. */
  method LineEnd(raw: string, from: nat) returns (end: nat)
    requires from <= |raw|
    ensures from <= end <= |raw| && raw[..end] == raw[..from] + TrimEol(raw[from..])
  {
    end := |raw|;
    assert raw[from..end] == raw[from..];
    while end > from && IsEol(raw[end - 1])
      invariant from <= end <= |raw|
      invariant TrimEol(raw[from..]) == TrimEol(raw[from..end])
    {
      assert raw[from..end][..end - from - 1] == raw[from..end - 1];
      end := end - 1;
    }
    assert TrimEol(raw[from..end]) == raw[from..end];
    assert raw[..from] + raw[from..end] == raw[..end];
  }

  const ERROR_QUERY := "SYSTem:ERRor?" + "\n"

  function Queries(n: nat): seq<string> {
    seq(n, i => ERROR_QUERY)
  }

  function CheckedMessage(cmd: string): string {
    "*CLS;" + cmd + ";:SYSTem:ERRor?" + "\n"
  }

  const READ_LIMIT: nat := 4096

  class ScpiSession {
    var written: seq<string>
    var arrivals: seq<Read>      // what the transport will return, in order
    const maxBlockLen: nat

    constructor (arrivals: seq<Read>, maxBlockLen: nat)
      ensures written == [] && this.arrivals == arrivals && this.maxBlockLen == maxBlockLen
    {
      written, this.arrivals, this.maxBlockLen := [], arrivals, maxBlockLen;
    }

    method WriteMsg(msg: string)
      modifies this`written
      ensures written == old(written) + [msg]
    {
      written := written + [msg];
    }

    method ReadMsg() returns (r: Read)
      modifies this`arrivals
      ensures if old(arrivals) == [] then r == Failure && arrivals == []
              else r == old(arrivals)[0] && arrivals == old(arrivals)[1..]
    {
      if arrivals == [] { return Failure; }
      r, arrivals := arrivals[0], arrivals[1..];
    }

    /** One query and its reply as text. */
    method Query(utf8: string -> bool) returns (text: Option<string>, why: Outcome)
      modifies this
      ensures written == old(written) + [ERROR_QUERY]
      ensures arrivals == if old(arrivals) == [] then [] else old(arrivals)[1..]
      ensures if old(arrivals) == [] || old(arrivals)[0].Failure? then text == None && why == ReadFailed
              else
                match ReplyText(old(arrivals)[0].bytes, maxBlockLen)
                case Bad(error) => text == None && why == BadBlock(error)
                case Payload(t) => if utf8(t) then text == Some(t) else text == None && why == NotUtf8
    {
      hide TrimEol, ParseSpec;
      WriteMsg(ERROR_QUERY);
      var raw := ReadMsg();
      if raw.Failure? { return None, ReadFailed; }
      var payloadEnd := 0;
      if raw.bytes != "" && raw.bytes[0] == '#' {
        var block := ParseBlock(raw.bytes, maxBlockLen);
        if block.Bad? { return None, BadBlock(block.error); }
        BlockIsThere(raw.bytes, maxBlockLen);
        payloadEnd := 2 + DigitValue(raw.bytes[1]) + |block.bytes|;
      }
      var end := LineEnd(raw.bytes, payloadEnd);
      assert payloadEnd == 0 ==> raw.bytes[..0] + TrimEol(raw.bytes[0..]) == TrimEol(raw.bytes) by {
        assert raw.bytes[0..] == raw.bytes;
      }
      if !utf8(raw.bytes[..end]) { return None, NotUtf8; }
      return Some(raw.bytes[..end]), NotUtf8;
    }

    /** Queries the error queue until it is empty, at most 64 errors. */
    method DrainErrors(utf8: string -> bool) returns (r: Result)
      modifies this
      ensures var d := Drain([], old(arrivals), maxBlockLen, utf8);
        r == d.0 && arrivals == d.1 && written == old(written) + Queries(d.2)
    {
      var errors: seq<ScpiError> := [];
      ghost var d := Drain([], arrivals, maxBlockLen, utf8);
      ghost var n: nat := 0;
      assert written + Queries(0) == written;
      while true
        invariant |errors| < DRAIN_LIMIT && n <= d.2
        invariant written == old(written) + Queries(n)
        invariant Drain(errors, arrivals, maxBlockLen, utf8) == (d.0, d.1, d.2 - n)
        decreases DRAIN_LIMIT - |errors|
      {
        hide ReplyText, QueueEntry, IsNoError;
        var text, why := Query(utf8);
        assert Queries(n + 1) == Queries(n) + [ERROR_QUERY];
        n := n + 1;
        if text.None? { return Failed(why); }
        var e := QueueEntry(text.value);
        if IsNoError(e) { break; }
        errors := errors + [e];
        if |errors| >= DRAIN_LIMIT { break; }
      }
      r := Checked(Nothing, errors);
    }

    /** Sends `cmd` between *CLS and an error query, reads until the reply is
        complete and then, after an error, fetches the further ones. */
    method SendChecked(cmd: string, utf8: string -> bool) returns (r: Result)
      modifies this
      ensures var x := Exchange(old(arrivals), maxBlockLen, utf8);
        r == x.0 && arrivals == x.1 && written == old(written) + [CheckedMessage(cmd)] + Queries(x.2)
    {
      hide CheckedMessage, Collect;
      WriteMsg(CheckedMessage(cmd));
      assert written + Queries(0) == written;
      var o := CollectReply(utf8);
      if !o.Answered? { return Failed(o); }
      if o.first.code == 0 { return Checked(o.output, []); }
      var more := DrainErrors(utf8);
      if more.Failed? { return more; }
      r := Checked(o.output, [o.first] + more.errors);
    }

    /** Reads until the bytes received end with an error entry. */
    method CollectReply(utf8: string -> bool) returns (r: Outcome)
      modifies this`arrivals
      ensures (r, arrivals) == Collect("", old(arrivals), READ_LIMIT, maxBlockLen, utf8)
    {
      hide OutputOf, ParseEntry, Items;
      var buf := "";
      for k := 0 to READ_LIMIT
        invariant Collect(buf, arrivals, READ_LIMIT - k, maxBlockLen, utf8)
                  == Collect("", old(arrivals), READ_LIMIT, maxBlockLen, utf8)
      {
        var more := ReadMsg();
        if more.Failure? { return ReadFailed; }
        buf := buf + more.bytes;
        var items := SplitItems(buf);
        if items.None? || items.value == [] { continue; }
        var last := items.value[|items.value| - 1];
        var entry := ParseEntry(last, utf8);
        if entry.None? { continue; }
        r := OutputOf(items.value[..|items.value| - 1], entry.value, maxBlockLen, utf8);
        return;
      }
      r := NoReply;
    }
  }
}
