/** DATA:READ? (src/usbscpi.c): how much of the source fits one reply, clamped
    before anything is consumed. */
module DataRead {
  import opened Common
  import opened Decimal
  import opened BlockCodec

  /** A block of n bytes and its newline are no longer than the MTU. */
  predicate Fits(n: nat, mtu: nat) {
    n + Digits(n) + 3 <= mtu
  }

  method CountDigits(n: nat) returns (d: nat)
    ensures d == Digits(n)
  {
    var temp := n;
    d := 0;
    while true
      invariant d + Digits(temp) == Digits(n)
      decreases temp
    {
      d := d + 1;
      if temp < 10 { break; }
      temp := temp / 10;
    }
  }

  /** The payload the clamp settles on. */
  function Clamped(want: nat, mtu: nat): nat {
    if mtu == 0 || Fits(want, mtu) then want
    else if Digits(want) + 3 >= mtu then 0
    else mtu - Digits(want) - 3
  }

  /** The payload never grows, fits whenever anything does, is left alone when
      it fits, and is short of the largest that fits by at most the digits the
      length field lost. */
  method BlockFit(want: nat, mtu: nat) returns (r: nat)
    ensures r == Clamped(want, mtu)
    ensures r <= want && (mtu == 0 ==> r == want)
    ensures mtu > 0 ==> (Fits(r, mtu) <==> mtu >= 4)
    ensures Fits(want, mtu) ==> r == want
    ensures mtu > 0 ==> forall m: nat :: m <= want && Fits(m, mtu) ==> m - r <= Digits(want) - Digits(r)
  {
    if mtu == 0 { return want; }
    forall m: nat, n: nat | m <= n ensures Digits(m) <= Digits(n) { DigitsMonotone(m, n); }
    r := want;
    for pass := 0 to 2
      invariant r <= want && (pass == 0 ==> r == want)
      invariant pass > 0 ==> !Fits(want, mtu) && r + Digits(want) + 3 == mtu
      invariant pass < 2
    {
      var digits := CountDigits(r);
      var overhead := digits + 3;
      if overhead >= mtu { return 0; }
      if r + overhead <= mtu { return r; }
      r := mtu - overhead;
    }
  }

  /** The application's data source. Asked for n bytes it hands over, and
      forgets, as many of the first n as it likes. */
  class Source {
    var pending: string
    var moods: seq<nat>       // how much it will give, arbitrary

    constructor (pending: string, moods: seq<nat>)
      ensures this.pending == pending && this.moods == moods
    {
      this.pending, this.moods := pending, moods;
    }

    method Take(n: nat) returns (bytes: string)
      requires n <= |pending|
      modifies this
      ensures |bytes| <= n && old(pending) == bytes + pending
      ensures old(moods) == [] ==> |bytes| == n
    {
      var k := n;
      if moods != [] {
        k := Min(n, moods[0]);
        moods := moods[1..];
      }
      bytes := pending[..k];
      pending := pending[k..];
    }
  }

  /** The bytes the length field of a reply may take (libscpi's block header). */
  const LENGTH_FIELD: nat := 10

  /** A length printed into its field; the terminator is stored only if a byte is
      left for it, and without it nobody knows where the length ends. */
  method LengthText(n: nat) returns (text: Option<string>)
    requires n < 0x1_0000_0000
    ensures text == if n < Pow10(9) then Some(Dec(n)) else None
  {
    var written := Dec(n);
    DigitsPow10(n, 9);
    if |written| < LENGTH_FIELD { return Some(written); }
    return None;
  }

  /** Every byte taken from the source is in the one reply, and the reply is no
      longer than the MTU. A length of ten digits leaves its field unterminated,
      and then the reply is not known. */
  method Respond(count: nat, ioBufLen: nat, mtu: nat, source: Source)
    returns (reply: Option<string>, ghost bytes: string)
    requires count < 0x1_0000_0000
    modifies source
    ensures reply.Some? <==> |bytes| < Pow10(9)
    ensures |bytes| < Pow10(9) ==> reply == Some(Encoded(bytes) + "\n")
    ensures old(source.pending) == bytes + source.pending
    ensures |bytes| <= count && |bytes| <= ioBufLen
    ensures mtu >= 4 && reply.Some? ==> |reply.value| <= mtu
    ensures var asked := Min(Min(count, ioBufLen), |old(source.pending)|);
      old(source.moods) == [] && (mtu == 0 || Fits(asked, mtu)) ==> |bytes| == asked
  {
    hide Pow10, Digits, Dec;
    var toRead := count;
    if toRead > ioBufLen { toRead := ioBufLen; }
    if toRead > |source.pending| { toRead := |source.pending|; }
    toRead := BlockFit(toRead, mtu);
    var actual := "";
    if toRead > 0 { actual := source.Take(toRead); }
    bytes := actual;
    DigitsMonotone(|actual|, toRead);
    var text := LengthText(|actual|);
    if text == None { return None, bytes; }
    DigitsPow10(|actual|, 9);
    reply := Some(['#', DigitChar(|text.value|)] + text.value + actual + "\n");
  }

  /** The host gets back exactly the bytes that left the source. */
  lemma ReplyParses(bytes: string)
    requires |bytes| < Pow10(9)
    ensures ParseSpec(Encoded(bytes) + "\n", |bytes|) == Payload(bytes)
  {
    RoundTrip(bytes, "\n", |bytes|);
  }

  /** The clamp can lose a byte: a hundred bytes wanted with an MTU of 104 are
      cut to 98, though 99 would have fitted. */
  lemma OneByteConservative()
    ensures Clamped(100, 104) == 98 && Fits(99, 104)
  {
    assert Digits(99) == 2 && Digits(100) == 3;
  }

  /** When it is the largest payload that fits: exactly when all that is wanted
      fits, or no more than an empty block does, or one byte more than the clamp
      leaves would still need as many length digits as what was wanted. */
  lemma ClampIsLargest(want: nat, mtu: nat)
    ensures (forall m: nat :: m <= want && Fits(m, mtu) ==> m <= Clamped(want, mtu))
            <==> || Fits(want, mtu) || mtu <= 4
                 || (Digits(want) + 3 < mtu && Digits(mtu - Digits(want) - 2) == Digits(want))
  {
    hide Digits;
    var r := Clamped(want, mtu);
    OneDigit();
    if mtu > 4 && !Fits(want, mtu) {
      DigitsMonotone(r + 1, want);
      if Digits(r + 1) == Digits(want) {
        forall m: nat | m <= want && Fits(m, mtu) ensures m <= r {
          if m > r { DigitsMonotone(r + 1, m); }
        }
      } else {
        assert Fits(r + 1, mtu);
      }
      if Digits(want) + 3 >= mtu {
        assert Fits(1, mtu);
        assert want >= 1;
      }
    }
  }

  lemma OneDigit()
    ensures Digits(0) == 1 && Digits(1) == 1
  {
  }
}
