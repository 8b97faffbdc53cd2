/**
 Fixed-width integers as the program stores them in message parts and archives:
 the raw little-endian bytes of the value, one character per byte. The widths
 are types here, so an operation that wraps says so, and reading a word looks at
 as many bytes as the word has.
 */
module Bytes {

  const TWO_32: nat := 0x1_0000_0000
  const TWO_64: nat := 0x1_0000_0000_0000_0000

  type Uint32 = n: nat | n < TWO_32
  type Uint64 = n: nat | n < TWO_64

  function Pow256(w: nat): (p: nat)
    ensures p > 0
  {
    if w == 0 then 1 else 256 * Pow256(w - 1)
  }

  function ToBytes(n: nat, width: nat): (s: string)
    ensures |s| == width && forall i :: 0 <= i < width ==> s[i] as nat < 256
  {
    if width == 0 then "" else [(n % 256) as char] + ToBytes(n / 256, width - 1)
  }

  function FromBytes(s: string): nat {
    if s == "" then 0 else s[0] as nat % 256 + 256 * FromBytes(s[1..])
  }

  lemma {:induction false} FromToBytes(n: nat, width: nat)
    requires n < Pow256(width)
    ensures FromBytes(ToBytes(n, width)) == n
  {
    if width > 0 {
      FromToBytes(n / 256, width - 1);
      assert ToBytes(n, width)[1..] == ToBytes(n / 256, width - 1);
    }
  }

  lemma {:induction false} FromBytesBound(s: string)
    ensures FromBytes(s) < Pow256(|s|)
  {
    if s != "" {
      FromBytesBound(s[1..]);
    }
  }

  lemma WordSizes()
    ensures Pow256(4) == TWO_32
    ensures Pow256(8) == TWO_64
  {
    assert Pow256(2) == 65536;
    assert Pow256(4) == 256 * (256 * Pow256(2));
    assert Pow256(6) == 256 * (256 * Pow256(4));
    assert Pow256(8) == 256 * (256 * Pow256(6));
  }

  /** Copies four bytes into an unsigned word, as a cast of the part's data does. */
  function ReadU32(s: string): Uint32
    requires |s| >= 4
  {
    FromBytesBound(s[..4]);
    WordSizes();
    FromBytes(s[..4])
  }

  /** The first byte is the lowest. */
  lemma LittleEndian(s: string)
    requires |s| >= 4 && forall i :: 0 <= i < 4 ==> s[i] as nat < 256
    ensures ReadU32(s) == s[0] as nat + 0x100 * s[1] as nat + 0x1_0000 * s[2] as nat + 0x100_0000 * s[3] as nat
  {
    var t := s[..4];
    assert t[1..][0] == s[1] && t[2..][0] == s[2] && t[3..][0] == s[3] && t[4..] == "";
    assert t[1..][1..] == t[2..] && t[2..][1..] == t[3..] && t[3..][1..] == t[4..];
    assert FromBytes(t[3..]) == s[3] as nat;
    assert FromBytes(t[2..]) == s[2] as nat + 256 * FromBytes(t[3..]);
    assert FromBytes(t[1..]) == s[1] as nat + 256 * FromBytes(t[2..]);
  }

  function WriteU32(n: Uint32): (s: string)
    ensures |s| == 4 && ReadU32(s) == n
  {
    WordSizes();
    FromToBytes(n, 4);
    assert ToBytes(n, 4)[..4] == ToBytes(n, 4);
    ToBytes(n, 4)
  }

  function WriteU64(n: Uint64): (s: string)
    ensures |s| == 8 && FromBytes(s) == n
  {
    WordSizes();
    FromToBytes(n, 8);
    ToBytes(n, 8)
  }
}
