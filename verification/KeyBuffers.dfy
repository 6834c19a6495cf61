/** 32-byte keys, and the mutable buffers that hold them so that they can be overwritten. */
module KeyBuffers {
  import opened Common

  const KEY_BYTES: nat := 32

  type Key = k: seq<Octet> | |k| == KEY_BYTES witness seq(KEY_BYTES, _ => 0)

  predicate AllZero(s: seq<Octet>) {
    forall i | 0 <= i < |s| :: s[i] == 0
  }

  method NewBuffer(k: Key) returns (buffer: array<Octet>)
    ensures fresh(buffer) && buffer.Length == KEY_BYTES && buffer[..] == k
  {
    buffer := new Octet[KEY_BYTES](i requires 0 <= i < KEY_BYTES => k[i]);
    assert buffer[..] == k;
  }

  /** Copies nxt over a key buffer, byte by byte. */
  method Overwrite(buffer: array<Octet>, nxt: Key)
    requires buffer.Length == KEY_BYTES
    modifies buffer
    ensures buffer[..] == nxt
  {
    for pos := 0 to buffer.Length
      invariant buffer[..pos] == nxt[..pos]
    {
      buffer[pos] := nxt[pos];
      assert buffer[..pos + 1] == buffer[..pos] + [nxt[pos]];
    }
    assert buffer[..] == buffer[..KEY_BYTES] == nxt[..KEY_BYTES] == nxt;
  }

  method Wipe(buffer: array<Octet>)
    modifies buffer
    ensures AllZero(buffer[..])
  {
    for pos := 0 to buffer.Length
      invariant forall i | 0 <= i < pos :: buffer[i] == 0
    {
      buffer[pos] := 0;
    }
  }
}
