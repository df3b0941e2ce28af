/** Size limits of a connection and the capacity of its receive buffer. */
module Config {
  import opened Bytes

  const KB: nat := 1024
  const READ_CHUNK: nat := 8 * KB
  const DEFAULT_FRAME_LIMIT: nat := 32 * KB
  const DEFAULT_SEND_CHAN: nat := 1024

  function NormalLimit(size: int): (n: nat)
    ensures n > 0
  {
    if size <= 0 then DEFAULT_FRAME_LIMIT else size
  }

  function NormalReadCap(readBufferCap: int, inbound: int): nat {
    Max(readBufferCap, NormalLimit(inbound) + READ_CHUNK)
  }

  class TcpConfig {
    var maxInboundSize: int
    var maxOutboundSize: int
    var sendChanSize: int
    var readBufferCap: int

    constructor ()
      ensures maxInboundSize == 0 && maxOutboundSize == 0 && sendChanSize == 0 && readBufferCap == 0
    {
      maxInboundSize, maxOutboundSize, sendChanSize, readBufferCap := 0, 0, 0, 0;
    }

    /** Normalizing again changes nothing, which matters because every dial does it. */
    method Normalize()
      modifies this
      ensures maxInboundSize == if old(maxInboundSize) > 0 then old(maxInboundSize) else 32 * 1024
      ensures maxOutboundSize == if old(maxOutboundSize) > 0 then old(maxOutboundSize) else 32 * 1024
      ensures readBufferCap == if old(readBufferCap) < maxInboundSize + 8 * 1024 then maxInboundSize + 8 * 1024
        else old(readBufferCap)
      ensures maxInboundSize == NormalLimit(old(maxInboundSize)) == NormalLimit(maxInboundSize)
      ensures maxOutboundSize == NormalLimit(old(maxOutboundSize)) == NormalLimit(maxOutboundSize)
      ensures sendChanSize == if old(sendChanSize) <= 0 then DEFAULT_SEND_CHAN else old(sendChanSize)
      ensures readBufferCap == NormalReadCap(old(readBufferCap), old(maxInboundSize))
      ensures readBufferCap == NormalReadCap(readBufferCap, maxInboundSize)
    {
      if maxInboundSize <= 0 {
        maxInboundSize := DEFAULT_FRAME_LIMIT;
      }
      if maxOutboundSize <= 0 {
        maxOutboundSize := DEFAULT_FRAME_LIMIT;
      }
      if sendChanSize <= 0 {
        sendChanSize := DEFAULT_SEND_CHAN;
      }
      if readBufferCap < maxInboundSize + READ_CHUNK {
        readBufferCap := maxInboundSize + READ_CHUNK;
      }
    }
  }
}
