/**
 * Telegram's run-length scheme for zero bytes: a zero byte followed by a
 * count byte stands for that many zero bytes; every other byte stands for
 * itself. A zero byte with nothing after it is kept as is.
 */
module TelegramRle {
  import opened FileIdTypes

  function Zeros(n: nat): (z: seq<Byte>)
    ensures |z| == n && forall i :: 0 <= i < n ==> z[i] == 0
  {
    if n == 0 then [] else [0] + Zeros(n - 1)
  }

  function RleDecode(b: seq<Byte>): seq<Byte>
  {
    if |b| == 0 then []
    else if b[0] == 0 && |b| >= 2 then Zeros(b[1]) + RleDecode(b[2..])
    else [b[0]] + RleDecode(b[1..])
  }

  /** Input without zero bytes contains no runs, so decoding leaves it unchanged. */
  lemma {:induction false} RleDecodeZeroFree(b: seq<Byte>)
    requires forall i :: 0 <= i < |b| ==> b[i] != 0
    ensures RleDecode(b) == b
  {
    if |b| > 0 {
      RleDecodeZeroFree(b[1..]);
    }
  }
}

