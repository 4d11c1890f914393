/** Little-endian fields of wire records. */
module LittleEndian {
  type Byte = x: nat | x < 256

  function Pow256(w: nat): (p: nat)
    ensures p >= 1
  {
    if w == 0 then 1 else 256 * Pow256(w - 1)
  }

  /** The low w bytes of n, least significant first. */
  function Le(n: nat, w: nat): (s: seq<Byte>)
    ensures |s| == w
  {
    if w == 0 then [] else [n % 256] + Le(n / 256, w - 1)
  }

  function Un(s: seq<Byte>): (n: nat)
    ensures n < Pow256(|s|)
  {
    if s == [] then 0 else s[0] + 256 * Un(s[1..])
  }

  /** Zeros up to n bytes. */
  function Padded(data: seq<Byte>, n: nat): (s: seq<Byte>)
    requires |data| <= n
    ensures |s| == n && s[..|data|] == data
  {
    data + seq(n - |data|, _ => 0)
  }

  lemma {:induction false} UnLe(n: nat, w: nat)
    requires n < Pow256(w)
    ensures Un(Le(n, w)) == n
  {
    if w > 0 {
      UnLe(n / 256, w - 1);
      assert Le(n, w)[1..] == Le(n / 256, w - 1);
    }
  }

  lemma Pow256Table()
    ensures Pow256(2) == 0x1_0000 && Pow256(4) == 0x1_0000_0000 && Pow256(8) == 0x1_0000_0000_0000_0000
  {
    assert Pow256(1) == 0x100;
    assert Pow256(2) == 0x1_0000;
    assert Pow256(3) == 0x100_0000;
    assert Pow256(4) == 0x1_0000_0000;
    assert Pow256(5) == 0x100_0000_0000;
    assert Pow256(6) == 0x1_0000_0000_0000;
    assert Pow256(7) == 0x100_0000_0000_0000;
  }
}
