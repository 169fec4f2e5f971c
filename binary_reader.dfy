/**
 * The sequential little-endian reader the file-ID decoder reads its fields
 * with. Each read either yields a value and the offset just past it, or fails
 * with `RangeError` when the buffer ends first. The functions `Int32At`,
 * `LongAt` and `BytesAt` say what a read at a given offset yields; the class
 * `BinaryReader` keeps the offset as mutable state and is proved to agree
 * with them.
 */
module BinaryReading {
  import opened Results
  import opened FileIdTypes

  /** A value read from the buffer together with the offset just past it. */
  datatype Read<+T> = Read(value: T, next: nat)

  type ReadResult<T> = Result<Read<T>, FileIdError>

  /** The unsigned value of four bytes, least significant first. */
  function Uint32Le(b: seq<Byte>): (u: nat)
    requires |b| == 4
    ensures u < 0x1_0000_0000
  {
    b[0] + 0x100 * (b[1] as int) + 0x1_0000 * (b[2] as int) + 0x100_0000 * (b[3] as int)
  }

  /** Two's-complement reading of an unsigned 32-bit value. */
  function ToInt32(u: nat): (x: Int32)
    requires u < 0x1_0000_0000
    ensures x % 0x1_0000_0000 == u
  {
    if u < 0x8000_0000 then u else u - 0x1_0000_0000
  }

  /** A signed 32-bit little-endian integer at `pos`. */
  function Int32At(data: seq<Byte>, pos: nat): (r: ReadResult<Int32>)
    ensures r.Ok? <==> pos + 4 <= |data|
    ensures r.Ok? ==> r.value.next == pos + 4 && r.value.value % 0x1_0000_0000 == Uint32Le(data[pos..pos + 4])
  {
    if pos + 4 > |data| then Err(RangeError)
    else Ok(Read(ToInt32(Uint32Le(data[pos..pos + 4])), pos + 4))
  }

  /** A signed 64-bit little-endian integer at `pos`: low word unsigned, high word signed. */
  function LongAt(data: seq<Byte>, pos: nat): (r: ReadResult<Int64>)
    ensures r.Ok? <==> pos + 8 <= |data|
    ensures r.Ok? ==> r.value.next == pos + 8
    ensures r.Ok? ==> r.value.value % 0x1_0000_0000_0000_0000
                      == Uint32Le(data[pos..pos + 4]) + 0x1_0000_0000 * Uint32Le(data[pos + 4..pos + 8])
  {
    if pos + 8 > |data| then Err(RangeError)
    else
      var lo: int := Uint32Le(data[pos..pos + 4]);
      var hi: int := ToInt32(Uint32Le(data[pos + 4..pos + 8]));
      Ok(Read(hi * 0x1_0000_0000 + lo, pos + 8))
  }

  /** `n` rounded up to a multiple of four: TL fields are padded to 4-byte boundaries. */
  function Padded(n: nat): (m: nat)
    ensures n <= m < n + 4 && m % 4 == 0
  {
    (n + 3) / 4 * 4
  }

  /** Size of the length prefix of a TL byte string that starts with `first`. */
  function HeaderSize(first: Byte): nat {
    if first == 254 then 4 else 1
  }

  /**
   * A length-prefixed byte string at `pos` in the TL framing: a first byte of
   * 254 announces a 3-byte little-endian length, any other first byte is the
   * length itself; the field is padded to a multiple of four bytes.
   */
  function BytesAt(data: seq<Byte>, pos: nat): (r: ReadResult<seq<Byte>>)
    ensures r.Ok? ==> pos < |data|
    ensures r.Ok? ==> (
      var h, v := HeaderSize(data[pos]), r.value.value;
      && pos + h + |v| <= |data|
      && v == data[pos + h..pos + h + |v|]
      && r.value.next == pos + Padded(h + |v|))
    ensures pos < |data| && data[pos] != 254 ==>
      (r.Ok? <==> pos + 1 + data[pos] <= |data|) && (r.Ok? ==> |r.value.value| == data[pos])
    ensures pos < |data| && data[pos] == 254 && pos + 4 > |data| ==> r == Err(RangeError)
    ensures pos + 4 <= |data| && data[pos] == 254 ==>
      var announced := data[pos + 1] + 0x100 * (data[pos + 2] as int) + 0x1_0000 * (data[pos + 3] as int);
      (r.Ok? <==> pos + 4 + announced <= |data|) && (r.Ok? ==> |r.value.value| == announced)
    ensures pos >= |data| ==> r == Err(RangeError)
  {
    if pos >= |data| then Err(RangeError)
    else if data[pos] == 254 then
      if pos + 4 > |data| then Err(RangeError)
      else
        var len: nat := data[pos + 1] + 0x100 * (data[pos + 2] as int) + 0x1_0000 * (data[pos + 3] as int);
        if pos + 4 + len > |data| then Err(RangeError)
        else Ok(Read(data[pos + 4..pos + 4 + len], pos + Padded(4 + len)))
    else
      var len: nat := data[pos];
      if pos + 1 + len > |data| then Err(RangeError)
      else Ok(Read(data[pos + 1..pos + 1 + len], pos + Padded(1 + len)))
  }

  /** A method's outcome, paired with the reader's offset afterwards, in the shape of a `ReadResult`. */
  function Observe<T>(r: Result<T, FileIdError>, pos: nat): ReadResult<T> {
    match r
    case Ok(v) => Ok(Read(v, pos))
    case Err(e) => Err(e)
  }

  /** A forward-only reader over a byte buffer; every read advances `pos`. */
  class BinaryReader {
    const data: seq<Byte>
    var pos: nat

    constructor (data: seq<Byte>)
      ensures this.data == data && pos == 0
    {
      this.data := data;
      pos := 0;
    }

    method Int32() returns (r: Result<Int32, FileIdError>)
      modifies this
      ensures Observe(r, pos) == Int32At(data, old(pos))
    {
      if pos + 4 > |data| {
        return Err(RangeError);
      }
      r := Ok(ToInt32(Uint32Le(data[pos..pos + 4])));
      pos := pos + 4;
    }

    method Long() returns (r: Result<Int64, FileIdError>)
      modifies this
      ensures Observe(r, pos) == LongAt(data, old(pos))
    {
      if pos + 8 > |data| {
        return Err(RangeError);
      }
      var lo: int := Uint32Le(data[pos..pos + 4]);
      var hi: int := ToInt32(Uint32Le(data[pos + 4..pos + 8]));
      r := Ok(hi * 0x1_0000_0000 + lo);
      pos := pos + 8;
    }

    method Bytes() returns (r: Result<seq<Byte>, FileIdError>)
      modifies this
      ensures Observe(r, pos) == BytesAt(data, old(pos))
    {
      if pos >= |data| {
        return Err(RangeError);
      }
      var len: nat;
      if data[pos] == 254 {
        if pos + 4 > |data| {
          return Err(RangeError);
        }
        len := data[pos + 1] + 0x100 * (data[pos + 2] as int) + 0x1_0000 * (data[pos + 3] as int);
        if pos + 4 + len > |data| {
          return Err(RangeError);
        }
        r := Ok(data[pos + 4..pos + 4 + len]);
        assert BytesAt(data, pos) == Ok(Read(data[pos + 4..pos + 4 + len], pos + Padded(4 + len)));
        pos := pos + Padded(4 + len);
      } else {
        len := data[pos];
        if pos + 1 + len > |data| {
          return Err(RangeError);
        }
        r := Ok(data[pos + 1..pos + 1 + len]);
        assert BytesAt(data, pos) == Ok(Read(data[pos + 1..pos + 1 + len], pos + Padded(1 + len)));
        pos := pos + Padded(1 + len);
      }
    }

    /** A TL string: framed like `Bytes`; its UTF-8 decoding is not modelled. */
    method String() returns (r: Result<seq<Byte>, FileIdError>)
      modifies this
      ensures Observe(r, pos) == BytesAt(data, old(pos))
    {
      r := Bytes();
    }
  }
}
