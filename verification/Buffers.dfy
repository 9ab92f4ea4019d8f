/** Key material lives in arrays, because the program wipes it in place after use. */
module Buffers {
  import opened Base64

  function Zeros(n: nat): Bytes {
    seq(n, i => 0)
  }

  method ZeroBytes(value: array<Byte>)
    modifies value
    ensures value[..] == Zeros(value.Length)
  {
    for i := 0 to value.Length
      invariant forall j :: 0 <= j < i ==> value[j] == 0
    {
      value[i] := 0;
    }
  }

  method NewBuffer(content: Bytes) returns (buffer: array<Byte>)
    ensures fresh(buffer)
    ensures buffer[..] == content
  {
    buffer := new Byte[|content|](i requires 0 <= i < |content| => content[i]);
  }
}
