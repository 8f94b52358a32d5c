/**
 * The buffer pool used when pooling is switched off: every rent allocates a new byte
 * array, releasing does nothing and the pool never holds memory of its own.
 */
module BufferPools {
  import opened Wrappers
  import opened TransportTypes
  import Hocon

  /** A window onto a byte array, as `ArraySegment<byte>`. */
  datatype ByteBuffer = ByteBuffer(bytes: array<byte>, offset: nat, count: nat)

  /** What a pool reports about its own memory. */
  datatype BufferPoolInfo = BufferPoolInfo(poolName: string, totalSize: int, free: int, used: int)

  datatype PoolError = BufferSizeNotPositive | Config(error: Hocon.ConfigError)

  /** Buffer sizes a pool accepts. */
  type PositiveSize = n: int | n > 0 witness 1

  /** The buffer size used when the configuration names none. */
  const DefaultBufferSize: int := 256

  /** A buffer that covers all of a new, zero-filled array of `size` bytes. */
  predicate WholeNewBuffer(b: ByteBuffer, size: int)
    reads b.bytes
  {
    && b.offset == 0 && b.count == size && b.bytes.Length == size
    && forall k :: 0 <= k < b.bytes.Length ==> b.bytes[k] == 0
  }

  class DisabledBufferPool {
    const bufferSize: PositiveSize

    constructor (bufferSize: PositiveSize)
      ensures this.bufferSize == bufferSize
    {
      this.bufferSize := bufferSize;
    }

    /** Builds a pool, refusing a buffer size that is not positive. */
    static method New(bufferSize: int) returns (r: Result<DisabledBufferPool, PoolError>)
      ensures r.Success? <==> bufferSize > 0
      ensures r.Failure? ==> r.error == BufferSizeNotPositive
      ensures r.Success? ==> fresh(r.value) && r.value.bufferSize == bufferSize
    {
      if bufferSize <= 0 {
        return Failure(BufferSizeNotPositive);
      }
      var pool := new DisabledBufferPool(bufferSize);
      return Success(pool);
    }

    /** Builds a pool from configuration: `buffer-size`, 256 when absent. */
    static method FromConfig(config: Hocon.Config) returns (r: Result<DisabledBufferPool, PoolError>)
      ensures "buffer-size" !in config ==> r.Success? && r.value.bufferSize == DefaultBufferSize
      ensures Hocon.GetInt(config, "buffer-size").Failure? ==> r == Failure(Config(Hocon.GetInt(config, "buffer-size").error))
      ensures "buffer-size" in config && Hocon.GetInt(config, "buffer-size").Success? ==>
        && (r.Success? <==> Hocon.GetInt(config, "buffer-size").value > 0)
        && (r.Success? ==> r.value.bufferSize == Hocon.GetInt(config, "buffer-size").value)
    {
      var size := DefaultBufferSize;
      if "buffer-size" in config {
        var read := Hocon.GetInt(config, "buffer-size");
        if read.Failure? {
          return Failure(Config(read.error));
        }
        size := read.value;
      }
      r := New(size);
    }

    /** The size a request for at least `minimumSize` bytes is served with. */
    function BytesRequired(minimumSize: int): (n: int)
      ensures n >= minimumSize && n >= bufferSize
      ensures n == minimumSize || n == bufferSize
    {
      if minimumSize >= bufferSize then minimumSize else bufferSize
    }

    /** A buffer over a new array of exactly `size` bytes. */
    method RentOfSize(size: nat) returns (b: ByteBuffer)
      ensures fresh(b.bytes) && WholeNewBuffer(b, size)
    {
      var bytes := new byte[size](_ => 0);
      b := ByteBuffer(bytes, 0, size);
    }

    /** One buffer of the pool's buffer size. */
    method Rent() returns (b: ByteBuffer)
      ensures fresh(b.bytes) && WholeNewBuffer(b, bufferSize)
    {
      b := RentOfSize(bufferSize);
    }

    /** Exactly one buffer, of at least `minimumSize` bytes and at least the buffer size. */
    method RentAtLeast(minimumSize: int) returns (bs: seq<ByteBuffer>)
      ensures |bs| == 1 && fresh(bs[0].bytes)
      ensures WholeNewBuffer(bs[0], BytesRequired(minimumSize))
      ensures bs[0].count >= minimumSize && bs[0].count >= bufferSize
    {
      var b := RentOfSize(BytesRequired(minimumSize));
      bs := [b];
    }

    /** Returning a buffer changes nothing: the array is left to the garbage collector. */
    method Release(b: ByteBuffer)
      ensures unchanged(b.bytes)
    {
    }

    /** Returns each buffer in turn; as each return does nothing, so does this. */
    method ReleaseAll(buffers: seq<ByteBuffer>)
      ensures forall b :: b in buffers ==> unchanged(b.bytes)
    {
      for i := 0 to |buffers|
        invariant forall b :: b in buffers ==> unchanged(b.bytes)
      {
        Release(buffers[i]);
      }
    }

    /** The pool holds no memory: it reports zero bytes in total, free and in use. */
    function Diagnostics(): (info: BufferPoolInfo)
      ensures info.totalSize == 0 && info.free == 0 && info.used == 0
    {
      BufferPoolInfo("DisabledBufferPool", 0, 0, 0)
    }
  }

  /**
   * Two rents never share memory: each hands out its own array, so writing to one
   * buffer cannot show through another.
   */
  method RentsAreDisjoint(pool: DisabledBufferPool) returns (first: ByteBuffer, second: ByteBuffer)
    ensures first.bytes != second.bytes
    ensures WholeNewBuffer(first, pool.bufferSize) && WholeNewBuffer(second, pool.bufferSize)
  {
    first := pool.Rent();
    second := pool.Rent();
  }
}
