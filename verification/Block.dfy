/** IEEE 488.2 definite-length blocks as the host writes and reads them
    (host/rust/src/block.rs). A byte is the char with that code. */
module BlockCodec {
  import opened Common
  import opened Decimal

  const USIZE_MAX: nat := 0xFFFF_FFFF_FFFF_FFFF

  datatype BlockError =
    | Empty
    | NoHash
    | BadDigitCount
    | UnexpectedEof
    | InvalidLength
    | TooLarge(len: nat, max: nat)
    | PayloadTooShort

  datatype Parsed = Payload(bytes: string) | Bad(error: BlockError)

  /** The prefix of a block carrying n payload bytes. */
  function Header(n: nat): (h: string)
    requires n < Pow10(9)
    ensures |h| == 2 + Digits(n)
  {
    DigitsPow10(n, 9);
    ['#', DigitChar(Digits(n))] + Dec(n)
  }

  /** The block that carries a payload. */
  function Encoded(payload: string): (b: string)
    requires |payload| < Pow10(9)
    ensures |b| == 2 + Digits(|payload|) + |payload|
  {
    Header(|payload|) + payload
  }

  /** Where the parts of an encoded block are. */
  lemma EncodedParts(payload: string)
    requires |payload| < Pow10(9)
    ensures var e, nd := Encoded(payload), Digits(|payload|);
      && nd <= 9 && |e| == 2 + nd + |payload| && e[0] == '#' && e[1] == DigitChar(nd)
      && '1' <= e[1] <= '9' && DigitValue(e[1]) == nd
      && e[2..2 + nd] == Dec(|payload|) && AllDigits(e[2..2 + nd]) && Value(e[2..2 + nd]) == |payload|
      && e[2 + nd..] == payload
  {
    DigitsPow10(|payload|, 9);
    ValueOfDecimal(|payload|);
  }

  /** What a parse of `msg` must return, by cases on the wire format alone. */
  function ParseSpec(msg: string, maxLen: nat): Parsed {
    if msg == [] then Bad(Empty)
    else if msg[0] != '#' then Bad(NoHash)
    else if |msg| < 2 then Bad(UnexpectedEof)
    else if !('1' <= msg[1] <= '9') then Bad(BadDigitCount)
    else
      var nd := DigitValue(msg[1]);
      if |msg| < 2 + nd then Bad(UnexpectedEof)
      else if !AllDigits(msg[2..2 + nd]) then Bad(InvalidLength)
      else
        var len := Value(msg[2..2 + nd]);
        if len > maxLen then Bad(TooLarge(len, maxLen))
        else if |msg| < 2 + nd + len then Bad(PayloadTooShort)
        else Payload(msg[2 + nd..2 + nd + len])
  }

  /** The walk over the message, with the checked 64-bit accumulation of the
      length field. Nine digits cannot overflow it, so the overflow flag is
      never raised and the result is the one the format dictates. */
  method ParseBlock(msg: string, maxLen: nat) returns (r: Parsed)
    ensures r == ParseSpec(msg, maxLen)
  {
    if |msg| == 0 { return Bad(Empty); }
    if msg[0] != '#' { return Bad(NoHash); }
    var i := 1;
    if i >= |msg| { return Bad(UnexpectedEof); }
    if !('1' <= msg[i] <= '9') { return Bad(BadDigitCount); }
    var nd := DigitValue(msg[i]);
    i := i + 1;
    if i + nd > |msg| { return Bad(UnexpectedEof); }
    var field := msg[i..i + nd];
    var len, overflow, k := 0, false, 0;
    while k < |field|
      invariant k <= |field| && !overflow
      invariant AllDigits(field[..k]) && len == Value(field[..k])
    {
      var c := field[k];
      if !IsDigit(c) {
        return Bad(InvalidLength);
      }
      ValueSnoc(field[..k], c);
      assert field[..k + 1] == field[..k] + [c];
      ValueBound(field[..k + 1]);
      Pow10Table();
      if len * 10 + DigitValue(c) <= USIZE_MAX {
        len := len * 10 + DigitValue(c);
      } else {
        overflow := true;
      }
      k := k + 1;
    }
    assert field[..k] == field;
    if overflow { return Bad(TooLarge(USIZE_MAX, maxLen)); }
    i := i + nd;
    if len > maxLen { return Bad(TooLarge(len, maxLen)); }
    if i + len > |msg| { return Bad(PayloadTooShort); }
    return Payload(msg[i..i + len]);
  }

  lemma Pow10Table()
    ensures Pow10(9) == 1_000_000_000
    ensures forall k: nat :: k <= 9 ==> Pow10(k) <= Pow10(9)
  {
    assert Pow10(0) == 1;
    assert Pow10(1) == 10;
    assert Pow10(2) == 100;
    assert Pow10(3) == 1_000;
    assert Pow10(4) == 10_000;
    assert Pow10(5) == 100_000;
    assert Pow10(6) == 1_000_000;
    assert Pow10(7) == 10_000_000;
    assert Pow10(8) == 100_000_000;
    assert Pow10(9) == 1_000_000_000;
    forall k: nat | k <= 9 ensures Pow10(k) <= Pow10(9) {
      assert k == 0 || k == 1 || k == 2 || k == 3 || k == 4 || k == 5 || k == 6 || k == 7 || k == 8 || k == 9;
    }
  }

  method EncodeBlock(payload: string) returns (out: string)
    requires |payload| < Pow10(9)
    ensures out == Encoded(payload)
  {
    var lenStr := Dec(|payload|);
    DigitsPow10(|payload|, 9);
    out := ['#'];
    out := out + [DigitChar(|lenStr|)];
    out := out + lenStr;
    out := out + payload;
  }

  /** Parsing what was encoded returns the payload whatever follows it, exactly
      when the declared length is within the caller's cap. */
  lemma RoundTrip(payload: string, suffix: string, maxLen: nat)
    requires |payload| < Pow10(9)
    ensures ParseSpec(Encoded(payload) + suffix, maxLen)
            == if |payload| <= maxLen then Payload(payload) else Bad(TooLarge(|payload|, maxLen))
  {
    EncodedParts(payload);
    hide Encoded, Dec, Digits, Value, AllDigits, Pow10;
    var e, nd := Encoded(payload), Digits(|payload|);
    var msg := e + suffix;
    assert msg[0] == e[0] && msg[1] == e[1];
    SliceOfAppend(e, suffix, 2, 2 + nd);
    SliceOfAppend(e, suffix, 2 + nd, |e|);
  }

  /** A proper prefix of an encoded block never parses: the reader reports a
      short message instead of a shorter payload. */
  lemma PrefixIsShort(payload: string, k: nat)
    requires |payload| < Pow10(9) && k < |Encoded(payload)|
    ensures ParseSpec(Encoded(payload)[..k], |payload|)
            == Bad(if k == 0 then Empty else if k < 2 + Digits(|payload|) then UnexpectedEof else PayloadTooShort)
  {
    EncodedParts(payload);
    hide Encoded, Dec, Digits, Value, AllDigits, Pow10;
    var e, nd := Encoded(payload), Digits(|payload|);
    var msg := e[..k];
    if k >= 2 + nd {
      assert msg[2..2 + nd] == e[2..2 + nd];
    }
  }
}
