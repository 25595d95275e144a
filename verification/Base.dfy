/**
 Shared vocabulary: optional values, bytes, and the machine bounds the gateway relies on.
 */
module Base {
  datatype Option<+T> = None | Some(value: T)

  type Byte = b: int | 0 <= b < 256
  type Bytes = seq<Byte>

  const U32_MAX: nat := 0xFFFF_FFFF
  const U64_MAX: nat := 0xFFFF_FFFF_FFFF_FFFF
  const I64_MAX: nat := 0x7FFF_FFFF_FFFF_FFFF

  function Min(a: nat, b: nat): (r: nat)
    ensures r <= a && r <= b && (r == a || r == b)
  {
    if a < b then a else b
  }

  function Max(a: nat, b: nat): (r: nat)
    ensures a <= r && b <= r && (r == a || r == b)
  {
    if a < b then b else a
  }

  /** Number of bytes of a text in UTF-8. */
  function Utf8Length(text: string): nat {
    if text == "" then 0 else Utf8Width(text[0]) + Utf8Length(text[1..])
  }

  function Utf8Width(c: char): nat {
    if c as int < 0x80 then 1
    else if c as int < 0x800 then 2
    else if c as int < 0x10000 then 3
    else 4
  }
}
