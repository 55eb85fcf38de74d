/** dsp::stream (core/src/dsp/stream.h): a double buffer handed back and forth between one
    writer thread and one reader thread.

    `StreamState` is the value of a stream; each of its functions is the effect of one region
    that the code executes while holding swapMtx or rdyMtx. `Stream` is the object itself, and
    each of its methods is such a region. A condition wait appears as the region that runs once
    the wait's predicate holds (`SwapReady`, `ReadReady`). */
module Streams {

  datatype StreamState<T> = StreamState(
    writeBuf: seq<T>, readBuf: seq<T>,
    canSwap: bool, dataReady: bool,
    readerStop: bool, writerStop: bool,
    dataSize: nat, nReaders: int)
  {
    // swap: the predicate waited for under swapMtx
    predicate SwapReady() { canSwap || writerStop }

    // swap: what the region under swapMtx does when the writer has not been stopped
    function TakeSwap(size: nat): StreamState<T> {
      this.(dataSize := size, writeBuf := readBuf, readBuf := writeBuf, canSwap := false)
    }

    // swap: the second region, under rdyMtx
    function Publish(): StreamState<T> { this.(dataReady := true) }

    // read: registering as a reader before waiting
    function EnterRead(): StreamState<T> { this.(nReaders := nReaders + 1) }

    // read: the predicate waited for under rdyMtx
    predicate ReadReady() { dataReady || readerStop }

    function LeaveRead(): StreamState<T> { this.(nReaders := nReaders - 1) }

    // read: the value returned, -1 for a stopped reader even when a frame is pending
    function ReadResult(): int { if readerStop then -1 else dataSize }

    // flush: the two regions
    function ClearReady(): StreamState<T> { this.(dataReady := false) }
    function AllowSwap(): StreamState<T> { this.(canSwap := true) }
  }

  /** A stream that has just been constructed: both buffers allocated, the writer may swap. */
  function Fresh<T>(writeBuf: seq<T>, readBuf: seq<T>): StreamState<T> {
    StreamState(writeBuf, readBuf, true, false, false, false, 0, 0)
  }

  class Stream<T(0)> {
    var writeBuf: array<T>
    var readBuf: array<T>
    var canSwap: bool
    var dataReady: bool
    var readerStop: bool
    var writerStop: bool
    var dataSize: nat
    var nReaders: int

    ghost predicate Valid()
      reads this
    {
      writeBuf != readBuf && writeBuf.Length == readBuf.Length
    }

    ghost function View(): StreamState<T>
      reads this, writeBuf, readBuf
    {
      StreamState(writeBuf[..], readBuf[..], canSwap, dataReady, readerStop, writerStop, dataSize, nReaders)
    }

    constructor (samples: nat)
      ensures Valid() && fresh(writeBuf) && fresh(readBuf) && writeBuf.Length == samples
      ensures View() == Fresh(writeBuf[..], readBuf[..])
      ensures canSwap && !dataReady && !readerStop && !writerStop && nReaders == 0
    {
      writeBuf, readBuf := new T[samples], new T[samples];
      canSwap, dataReady, readerStop, writerStop := true, false, false, false;
      dataSize, nReaders := 0, 0;
    }

    // First half of swap(). The buffers change hands by exchanging the two pointers.
    method BeginSwap(size: nat) returns (ok: bool)
      requires Valid() && View().SwapReady()
      modifies this
      ensures Valid() && {writeBuf, readBuf} == old({writeBuf, readBuf})
      ensures ok == !old(writerStop)
      ensures View() == if ok then old(View()).TakeSwap(size) else old(View())
      ensures ok ==> readBuf == old(writeBuf) && writeBuf == old(readBuf) && dataSize == size && !canSwap
    {
      if writerStop { return false; }
      dataSize := size;
      var temp := writeBuf;
      writeBuf := readBuf;
      readBuf := temp;
      canSwap := false;
      return true;
    }

    // Second half of swap(): tell the reader.
    method FinishSwap()
      requires Valid()
      modifies this`dataReady
      ensures View() == old(View()).Publish() && dataReady
    {
      dataReady := true;
    }

    method EnterRead()
      requires Valid()
      modifies this`nReaders
      ensures View() == old(View()).EnterRead() && nReaders == old(nReaders) + 1
    {
      nReaders := nReaders + 1;
    }

    method LeaveRead() returns (rv: int)
      requires Valid() && View().ReadReady()
      modifies this`nReaders
      ensures View() == old(View()).LeaveRead()
      ensures rv == old(View()).ReadResult() && nReaders == old(nReaders) - 1
      ensures rv == if readerStop then -1 else dataSize as int
    {
      rv := if readerStop then -1 else dataSize;
      nReaders := nReaders - 1;
    }

    method BeginFlush()
      requires Valid()
      modifies this`dataReady
      ensures View() == old(View()).ClearReady() && !dataReady
    {
      dataReady := false;
    }

    method FinishFlush()
      requires Valid()
      modifies this`canSwap
      ensures View() == old(View()).AllowSwap() && canSwap
    {
      canSwap := true;
    }

    method StopWriter()
      requires Valid()
      modifies this`writerStop
      ensures View() == old(View()).(writerStop := true)
    {
      writerStop := true;
    }

    method ClearWriteStop()
      requires Valid()
      modifies this`writerStop
      ensures View() == old(View()).(writerStop := false)
    {
      writerStop := false;
    }

    // stopReader() raises the flag and then polls nReaders until it is zero.
    method BeginStopReader()
      requires Valid()
      modifies this`readerStop
      ensures View() == old(View()).(readerStop := true)
    {
      readerStop := true;
    }

    method ClearReadStop()
      requires Valid()
      modifies this`readerStop
      ensures View() == old(View()).(readerStop := false)
    {
      readerStop := false;
    }
  }
}
