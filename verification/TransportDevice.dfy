/** The objects behind the deframer: the HCI receiver with its queues, and the transport that calls it back. */
module TransportDevice {
  import opened Bytes
  import opened Folds
  import opened Transport

  /** receiveTransport's static variables and the two queues it fills. */
  class HciReceiver {
    var events: seq<seq<byte>>   // m_event_queue
    var data: seq<seq<byte>>     // m_recv_data_queue
    var prefix: byte             // m_packet_prefix
    var length: nat              // m_length
    var partial: seq<byte>       // the first m_offset bytes of m_pBuffer
    var failed: bool             // an assertion failed, or a copy ran past m_pBuffer

    constructor ()
      ensures Abs() == EMPTY_HOST
    {
      events, data, prefix, length, partial, failed := [], [], 0, 0, [], false;
    }

    ghost function Abs(): (r: Host)
      reads this
    {
      Host(events, data, prefix, length, partial, failed)
    }

    method ReceiveTransport(hciPrefix: byte, buffer: seq<byte>)
      modifies this
      ensures Abs() == Deliver(old(Abs()), hciPrefix, buffer)
    {
      if failed || |buffer| == 0 {
        failed := true;
        return;
      }
      if |partial| == 0 {
        prefix := hciPrefix;
        if prefix == PREFIX_DATA {
          if |buffer| < 4 { return; }
          length := (FromLe16(buffer[2], buffer[3]) + 4) % 0x1_0000;
        } else if |buffer| < 2 {
          return;
        } else {
          length := EventSize(buffer[1]);
        }
      } else if hciPrefix != prefix {
        failed := true;
        return;
      }
      if |partial| + |buffer| > length {
        failed := true;
        return;
      }
      assert partial == [] ==> partial + buffer == buffer;
      partial := partial + buffer;
      if |partial| < length { return; }
      if prefix == PREFIX_DATA {
        data := data + [partial];
      } else {
        events := events + [partial];
      }
      partial := [];
      length := 0;
    }
  }

  /** transport_context_t: the receive state, with the packet so far in m_RxBuffer. */
  class Uart {
    var rxState: RxState          // m_nRxState
    var prefix: byte              // m_prefix_byte
    var need: nat                 // m_nRxParamLength
    var inPtr: nat                // m_nRxInPtr
    const rxBuffer: array<byte>   // m_RxBuffer
    const host: HciReceiver       // receive_callback and its user data

    ghost predicate Valid()
      reads this
    {
      && rxBuffer.Length == BUFFER_SIZE && inPtr <= BUFFER_SIZE
      && (rxState == DataHeader ==> inPtr < 4)
      && (rxState == EventHeader ==> inPtr == 0)
      && (rxState == EventLength ==> inPtr == 1)
    }

    ghost function Abs(): (r: Rx)
      reads this, rxBuffer, host
      requires Valid()
    {
      Rx(rxState, prefix, need, rxBuffer[..inPtr], host.Abs())
    }

    constructor (receiver: HciReceiver)
      ensures Valid() && fresh(rxBuffer) && host == receiver
      ensures Abs() == Rx(Start, 0, 0, [], receiver.Abs())
    {
      rxState, prefix, need, inPtr := Start, 0, 0, 0;
      rxBuffer := new byte[BUFFER_SIZE](_ => 0);
      host := receiver;
    }

    /** m_RxBuffer[m_nRxInPtr++] = nChar. */
    method Store(b: byte)
      requires Valid() && inPtr < BUFFER_SIZE && rxState == Content
      modifies this`inPtr, rxBuffer
      ensures Valid() && inPtr == old(inPtr) + 1 && rxBuffer[..inPtr] == old(rxBuffer[..inPtr]) + [b]
    {
      rxBuffer[inPtr] := b;
      inPtr := inPtr + 1;
    }

    method CallBackHost()
      requires Valid()
      modifies this`rxState, host
      ensures Valid() && Abs() == CallBack(old(Abs()))
    {
      host.ReceiveTransport(prefix, rxBuffer[..inPtr]);
      rxState := Start;
    }

    /** Receive: one byte from the UART. */
    method Receive(nChar: byte)
      requires Valid()
      modifies this, rxBuffer, host
      ensures Valid() && Abs() == Feed(old(Abs()), nChar)
    {
      match rxState {
        case Start =>
          prefix := nChar;
          inPtr := 0;
          need := 0;
          if prefix == PREFIX_EVENT {
            rxState := EventHeader;
          } else if prefix == PREFIX_DATA {
            rxState := DataHeader;
          }
        case DataHeader =>
          rxBuffer[inPtr] := nChar;
          rxState := Content;
          inPtr := inPtr + 1;
          assert rxBuffer[..inPtr] == old(rxBuffer[..inPtr]) + [nChar];
          if inPtr == 4 {
            need := FromLe16(rxBuffer[2], rxBuffer[3]);
            if need == 0 { CallBackHost(); }
          } else {
            rxState := DataHeader;
          }
        case EventHeader =>
          rxBuffer[inPtr] := nChar;
          inPtr := inPtr + 1;
          rxState := EventLength;
          assert rxBuffer[..inPtr] == old(rxBuffer[..inPtr]) + [nChar];
        case EventLength =>
          rxBuffer[inPtr] := nChar;
          rxState := Content;
          inPtr := inPtr + 1;
          assert rxBuffer[..inPtr] == old(rxBuffer[..inPtr]) + [nChar];
          if nChar > 0 {
            need := nChar;
          } else {
            CallBackHost();
          }
        case Content =>
          if inPtr >= BUFFER_SIZE {
            host.failed := true;
            return;
          }
          Store(nChar);
          need := if need > 0 then need - 1 else 0;
          if need == 0 { CallBackHost(); }
      }
    }

    /** The receive thread: one read's worth of bytes. */
    method ReceiveAll(bytes: seq<byte>)
      requires Valid()
      modifies this, rxBuffer, host
      ensures Valid() && Abs() == Run(Feed, old(Abs()), bytes)
    {
      var i := 0;
      while i < |bytes|
        invariant 0 <= i <= |bytes| && Valid()
        invariant Abs() == Run(Feed, old(Abs()), bytes[..i])
      {
        RunPrefix(Feed, old(Abs()), bytes, i);
        Receive(bytes[i]);
        i := i + 1;
      }
      assert bytes[..i] == bytes;
    }
  }
}
