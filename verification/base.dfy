/** Types and the one libc helper shared by the control client and the common helpers. */
module Base {

  /** A value that may be absent (a NULL pointer in the C code). */
  datatype Option<T> = None | Some(value: T)

  /** An unsigned 8-bit byte (uint8_t). */
  newtype byte = x: int | 0 <= x < 0x100

  /** memcpy(dst + at, src, |src|): writes exactly the bytes dst[at .. at + |src|). */
  method Memcpy(dst: array<byte>, at: nat, src: seq<byte>)
    requires at + |src| <= dst.Length
    modifies dst
    ensures dst[..] == old(dst[..at]) + src + old(dst[at + |src|..])
  {
    var i := 0;
    while i < |src|
      invariant 0 <= i <= |src|
      invariant forall j :: 0 <= j < dst.Length ==>
                  dst[j] == if at <= j < at + i then src[j - at] else old(dst[j])
    {
      dst[at + i] := src[i];
      i := i + 1;
    }
    assert dst[..] == old(dst[..at]) + src + old(dst[at + |src|..]);
  }
}
