/**
 Fixed-width numbers as bytes, in either order.
 */
module ByteOrder {
  import opened Base

  function Pow256(width: nat): nat {
    if width == 0 then 1 else 256 * Pow256(width - 1)
  }

  function ToLittleEndian(n: nat, width: nat): (r: Bytes)
    ensures |r| == width
  {
    if width == 0 then [] else [n % 256] + ToLittleEndian(n / 256, width - 1)
  }

  function FromLittleEndian(bytes: Bytes): nat {
    if bytes == [] then 0 else bytes[0] + 256 * FromLittleEndian(bytes[1..])
  }

  lemma {:induction false} ReadWritten(n: nat, width: nat)
    requires n < Pow256(width)
    ensures FromLittleEndian(ToLittleEndian(n, width)) == n
    decreases width
  {
    if width > 0 {
      ReadWritten(n / 256, width - 1);
    }
  }

  lemma {:induction false} WrittenRead(bytes: Bytes)
    ensures FromLittleEndian(bytes) < Pow256(|bytes|)
    ensures ToLittleEndian(FromLittleEndian(bytes), |bytes|) == bytes
    decreases |bytes|
  {
    if bytes != [] {
      WrittenRead(bytes[1..]);
      assert bytes == [bytes[0]] + bytes[1..];
    }
  }

  function ToBigEndian(n: nat, width: nat): (r: Bytes)
    ensures |r| == width
  {
    if width == 0 then [] else ToBigEndian(n / 256, width - 1) + [n % 256]
  }

  lemma {:induction false} BigEndianInjective(m: nat, n: nat, width: nat)
    requires m < Pow256(width) && n < Pow256(width) && ToBigEndian(m, width) == ToBigEndian(n, width)
    ensures m == n
    decreases width
  {
    if width > 0 {
      var a, b := ToBigEndian(m, width), ToBigEndian(n, width);
      assert a[..width - 1] == ToBigEndian(m / 256, width - 1) && b[..width - 1] == ToBigEndian(n / 256, width - 1);
      assert a[width - 1] == m % 256 && b[width - 1] == n % 256;
      BigEndianInjective(m / 256, n / 256, width - 1);
    }
  }
}
