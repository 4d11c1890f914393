/** The host's end of the record stream (host/rust/src/dataplane.rs): whole
    records out of whatever pieces the socket delivers. */
module DataPlane {
  import opened Common
  import Streams = StreamSessions

  /** What one read of the socket returns; Got([]) is the orderly close. */
  datatype Arrival<T> = Got(bytes: seq<T>) | Interrupted | TimedOut | Failed

  datatype Next<T> = Record(bytes: seq<T>) | End | Short(got: nat) | Timeout | IoError

  function Bytes<T>(sock: seq<Arrival<T>>): seq<T> {
    if sock == [] then []
    else (if sock[0].Got? then sock[0].bytes else []) + Bytes(sock[1..])
  }

  /** One call of next_record: what it returns, and what is left buffered and
      unread. A socket with nothing more to say times out. */
  function NextSpec<T>(stride: nat, buf: seq<T>, sock: seq<Arrival<T>>): (r: (Next<T>, seq<T>, seq<Arrival<T>>))
    ensures r.0.Record? ==> |r.0.bytes| == stride && r.0.bytes + (r.1 + Bytes(r.2)) == buf + Bytes(sock)
    decreases |sock|
  {
    if |buf| >= stride then
      assert buf + Bytes(sock) == buf[..stride] + (buf[stride..] + Bytes(sock));
      (Record(buf[..stride]), buf[stride..], sock)
    else if sock == [] then (Timeout, buf, sock)
    else
      match sock[0]
      case Got(bytes) =>
        assert buf + Bytes(sock) == (buf + bytes) + Bytes(sock[1..]);
        if bytes == [] then (if buf == [] then End else Short(|buf|), buf, sock[1..])
        else NextSpec(stride, buf + bytes, sock[1..])
      case Interrupted =>
        assert Bytes(sock) == Bytes(sock[1..]);
        NextSpec(stride, buf, sock[1..])
      case TimedOut => (Timeout, buf, sock[1..])
      case Failed => (IoError, buf, sock[1..])
  }

  class Reader<T> {
    const stride: nat
    var buf: seq<T>
    var sock: seq<Arrival<T>>    // what the reads will return, in order

    constructor (sock: seq<Arrival<T>>, stride: nat)
      requires stride > 0
      ensures this.stride == stride && buf == [] && this.sock == sock
    {
      this.stride, buf, this.sock := stride, [], sock;
    }

    method Receive() returns (a: Arrival<T>)
      modifies this`sock
      ensures if old(sock) == [] then a == TimedOut && sock == []
              else a == old(sock)[0] && sock == old(sock)[1..]
    {
      if sock == [] { return TimedOut; }
      a, sock := sock[0], sock[1..];
    }

    method NextRecord() returns (r: Next<T>)
      requires stride > 0
      modifies this
      ensures (r, buf, sock) == NextSpec(stride, old(buf), old(sock))
    {
      while |buf| < stride
        invariant NextSpec(stride, buf, sock) == NextSpec(stride, old(buf), old(sock))
        decreases |sock|
      {
        if sock == [] { return Timeout; }
        var a := Receive();
        match a
        case Got(chunk) =>
          if |chunk| == 0 {
            if |buf| == 0 { return End; }
            return Short(|buf|);
          }
          buf := buf + chunk;
        case Interrupted =>
        case TimedOut => return Timeout;
        case Failed => return IoError;
      }
      r := Record(buf[..stride]);
      buf := buf[stride..];
    }
  }

  /** Calling next_record until it returns no record: the records, and how the
      stream ended. */
  function ReadAll<T>(stride: nat, buf: seq<T>, sock: seq<Arrival<T>>): (seq<seq<T>>, Next<T>)
    requires stride > 0
    decreases |buf + Bytes(sock)|
  {
    var (next, rest, later) := NextSpec(stride, buf, sock);
    if next.Record? then
      assert |next.bytes + (rest + Bytes(later))| == stride + |rest + Bytes(later)|;
      var (records, end) := ReadAll(stride, rest, later);
      ([next.bytes] + records, end)
    else ([], next)
  }

  /** The whole records at the front of a byte string, and what is left. */
  function Cut<T>(all: seq<T>, stride: nat): (seq<seq<T>>, seq<T>)
    requires stride > 0
    decreases |all|
  {
    if |all| < stride then ([], all)
    else
      var (records, rest) := Cut(all[stride..], stride);
      ([all[..stride]] + records, rest)
  }

  /** Reads that deliver bytes or are interrupted, in any number and size. */
  predicate Flowing<T>(sock: seq<Arrival<T>>) {
    forall i :: 0 <= i < |sock| ==> sock[i].Interrupted? || (sock[i].Got? && |sock[i].bytes| > 0)
  }

  lemma {:induction false} NextOnFlow<T>(stride: nat, buf: seq<T>, flow: seq<Arrival<T>>) returns (left: seq<Arrival<T>>)
    requires stride > 0 && Flowing(flow)
    ensures var all := buf + Bytes(flow);
      var (next, rest, later) := NextSpec(stride, buf, flow + [Got([])]);
      if |all| < stride then next == (if all == [] then End else Short(|all|))
      else next == Record(all[..stride]) && Flowing(left) && later == left + [Got([])]
           && rest + Bytes(left) == all[stride..]
    decreases |flow|
  {
    left := flow;
    var all := buf + Bytes(flow);
    if |buf| >= stride {
      assert all[..stride] == buf[..stride] && all[stride..] == buf[stride..] + Bytes(flow);
    } else if flow == [] {
      assert all == buf;
    } else {
      assert (flow + [Got([])])[1..] == flow[1..] + [Got([])];
      if flow[0].Got? {
        assert buf + flow[0].bytes + Bytes(flow[1..]) == all;
        left := NextOnFlow(stride, buf + flow[0].bytes, flow[1..]);
      } else {
        assert Bytes(flow) == Bytes(flow[1..]);
        left := NextOnFlow(stride, buf, flow[1..]);
      }
    }
  }

  /** However the stream was cut into reads, the records are the stream cut at
      the stride; a close inside a record is reported with the bytes left over,
      and a close between records is an end. */
  lemma {:induction false} RecordsAreTheStream<T>(stride: nat, buf: seq<T>, flow: seq<Arrival<T>>)
    requires stride > 0 && Flowing(flow)
    ensures var (records, rest) := Cut(buf + Bytes(flow), stride);
      ReadAll(stride, buf, flow + [Got([])]) == (records, if rest == [] then End else Short(|rest|))
    decreases |buf + Bytes(flow)|
  {
    hide NextSpec, Flowing;
    var all := buf + Bytes(flow);
    var left := NextOnFlow(stride, buf, flow);
    if |all| >= stride {
      var (next, rest, later) := NextSpec(stride, buf, flow + [Got([])]);
      RecordsAreTheStream(stride, rest, left);
    }
  }

  /** How the records end when the socket stops otherwise: a time limit or a failure is
      reported as such, and what is left over stays buffered. */
  lemma {:induction false} StoppedShort<T>(stride: nat, buf: seq<T>, flow: seq<Arrival<T>>, stop: Arrival<T>,
                                            later: seq<Arrival<T>>)
    requires stride > 0 && Flowing(flow) && (stop == TimedOut || stop == Failed)
    requires |buf + Bytes(flow)| < stride
    ensures NextSpec(stride, buf, flow + ([stop] + later))
            == (if stop == TimedOut then Timeout else IoError, buf + Bytes(flow), later)
    decreases |flow|
  {
    var sock := flow + ([stop] + later);
    if flow == [] {
      assert sock == [stop] + later && sock[1..] == later && buf + [] == buf;
    } else {
      assert sock[1..] == flow[1..] + ([stop] + later);
      if flow[0].Got? {
        Assoc(buf, flow[0].bytes, Bytes(flow[1..]));
        StoppedShort(stride, buf + flow[0].bytes, flow[1..], stop, later);
      } else {
        assert Bytes(flow) == Bytes(flow[1..]);
        StoppedShort(stride, buf, flow[1..], stop, later);
      }
    }
  }

  /** No call loses a byte: what is left buffered and unread is what there was, but for
      the record handed out. */
  lemma {:induction false} NothingLost<T>(stride: nat, buf: seq<T>, sock: seq<Arrival<T>>)
    ensures var (next, rest, later) := NextSpec(stride, buf, sock);
      (if next.Record? then next.bytes else []) + (rest + Bytes(later)) == buf + Bytes(sock)
    decreases |sock|
  {
    if |buf| < stride {
      NoBytes(buf, Bytes(sock));
      if sock != [] {
        BytesCons(sock);
        hide Bytes;
        NoBytes(buf, Bytes(sock[1..]));
        match sock[0]
        case Got(bytes) =>
          Assoc(buf, bytes, Bytes(sock[1..]));
          if bytes != [] { NothingLost(stride, buf + bytes, sock[1..]); }
        case Interrupted => NothingLost(stride, buf, sock[1..]);
        case TimedOut =>
        case Failed =>
      }
    }
  }

  lemma NoBytes<T>(buf: seq<T>, more: seq<T>)
    ensures [] + (buf + more) == buf + more && [] + more == more
  {
  }

  lemma BytesCons<T>(sock: seq<Arrival<T>>)
    requires sock != []
    ensures Bytes(sock) == (if sock[0].Got? then sock[0].bytes else []) + Bytes(sock[1..])
  {
  }

  lemma {:induction false} CutOfRun<T>(records: seq<seq<T>>, part: seq<T>, stride: nat)
    requires stride > 0 && Streams.Uniform(records, stride) && |part| < stride
    ensures Cut(Flat(records) + part, stride) == (records, part)
    decreases |records|
  {
    if records == [] {
      assert Flat(records) + part == part;
    } else {
      var all, rest := Flat(records) + part, Flat(records[1..]) + part;
      assert all == records[0] + rest;
      assert all[..stride] == records[0] && all[stride..] == rest;
      CutOfRun(records[1..], part, stride);
      assert [records[0]] + records[1..] == records;
    }
  }

  /** A host fed the bytes of a session, cut into reads in some way, and then
      the close, reads the session's whole records and learns whether it was
      cut short inside another. */
  ghost predicate HostReads<T>(x: Streams.Session<T>, records: seq<seq<T>>, stride: nat, flow: seq<Arrival<T>>) {
    && stride > 0 && x.first + Streams.Whole(x, stride) <= |records|
    && var whole, cut := Streams.Whole(x, stride), |x.bytes| % stride;
    ReadAll(stride, [], flow + [Got([])])
    == (records[x.first..x.first + whole], if cut == 0 then End else Short(cut))
  }

  lemma HostReadsTheSession<T>(x: Streams.Session<T>, records: seq<seq<T>>, stride: nat, flow: seq<Arrival<T>>)
    requires Streams.WholeRecords(x, records, stride) && Streams.Uniform(records, stride)
    requires Flowing(flow) && Bytes(flow) == x.bytes
    ensures HostReads(x, records, stride, flow)
  {
    hide ReadAll, Cut, Flat, Streams.Whole, Flowing, Bytes;
    var q, cut := Streams.Whole(x, stride), |x.bytes| % stride;
    RecordsAreTheStream(stride, [], flow);
    assert [] + Bytes(flow) == x.bytes;
    CutOfRun(records[x.first..x.first + q], if cut > 0 then records[x.first + q][..cut] else [], stride);
  }

  /** End to end: whatever the producer, the sessions and the network did, the
      host of session i reads exactly the records published from that session's
      first on, and learns at the close whether the last one was cut. */
  lemma HostReadsTheRecords<T>(s0: Streams.State<T>, k: nat, w: nat, acts: seq<Streams.Action<T>>,
                               i: nat, flow: seq<Arrival<T>>)
    requires Streams.Initial(s0, k, w) && Streams.Run(s0, acts).Some?
    requires i < |Streams.Run(s0, acts).value.sessions|
    requires Flowing(flow) && Bytes(flow) == Streams.Run(s0, acts).value.sessions[i].bytes
    ensures HostReads(Streams.Run(s0, acts).value.sessions[i], Streams.Run(s0, acts).value.records, s0.stride, flow)
  {
    hide HostReads, Streams.WholeRecords, Streams.Uniform, Flowing, Bytes, Streams.Run, Streams.Initial;
    Streams.EverySessionIsWholeRecords(s0, k, w, acts, i);
    RecordsUniform(s0, k, w, acts);
    var s := Streams.Run(s0, acts).value;
    HostReadsTheSession(s.sessions[i], s.records, s0.stride, flow);
  }

  lemma RecordsUniform<T>(s0: Streams.State<T>, k: nat, w: nat, acts: seq<Streams.Action<T>>)
    requires Streams.Initial(s0, k, w) && Streams.Run(s0, acts).Some?
    ensures Streams.Uniform(Streams.Run(s0, acts).value.records, s0.stride)
  {
    Streams.InitialInv(s0, k, w);
    Streams.RunKeepsInv(s0, acts);
  }
}
