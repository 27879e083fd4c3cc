/** Sending through L2CAP and HCI: the length fields filled in on the way down (l2cap.c, hci.c). */
module L2capSend {
  import opened Bytes
  import opened L2capPackets

  method PutWord(buf: array<byte>, at: nat, w: word)
    requires at + 2 <= buf.Length
    modifies buf
    ensures buf[at] == w % 256 && buf[at + 1] == w / 256
    ensures forall k | 0 <= k < buf.Length && k != at && k != at + 1 :: buf[k] == old(buf[k])
  {
    buf[at], buf[at + 1] := w % 256, w / 256;
  }

  /** A buffer with its two lengths filled in is a packet. */
  lemma FilledIn(before: seq<byte>, b: seq<byte>)
    requires 8 <= |b| <= |before| && |b| < 0x1_0000
    requires b[2] == (|b| - 4) % 256 && b[3] == (|b| - 4) / 256 && b[4] == (|b| - 8) % 256 && b[5] == (|b| - 8) / 256
    requires forall k | 0 <= k < |b| && !(2 <= k < 6) :: b[k] == before[k]
    ensures b == Packet(Word(before, 0), Word(before, 6), before[8..|b|])
  {
  }

  /**
    lcapLayer_sendData and hci_send_data: with the handle and the CID already in the buffer, the two lengths
    are filled in, and the buffer is a whole packet for the data queue.
  */
  method LcapSendData(buf: array<byte>, length: nat) returns (packet: seq<byte>)
    requires 8 <= length <= buf.Length && length < 0x1_0000
    modifies buf
    ensures packet == Packet(Word(old(buf[..]), 0), Word(old(buf[..]), 6), old(buf[8..length]))
  {
    PutWord(buf, 4, length - 8);
    PutWord(buf, 2, length - 4);
    FilledIn(old(buf[..]), buf[..length]);
    assert old(buf[..])[8..length] == old(buf[8..length]);
    packet := buf[..length];
  }
}
