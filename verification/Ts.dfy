// Bytes, the fixed sizes of MPEG transport stream packets and the packet header
// (section 2.4.3.2 of ISO/IEC 13818-1).
module Ts {
  type Byte = x: int | 0 <= x < 256

  const PACKET: nat := 188
  const SYNC: Byte := 0x47
  const PIDS: nat := 8192

  predicate IsPacket(p: seq<Byte>) { |p| == PACKET }

  // transport_error_indicator
  predicate Tei(p: seq<Byte>)
    requires IsPacket(p)
  {
    p[1] >= 0x80
  }

  // payload_unit_start_indicator
  predicate PayloadStart(p: seq<Byte>)
    requires IsPacket(p)
  {
    p[1] / 64 % 2 == 1
  }

  function Pid(p: seq<Byte>): (pid: nat)
    requires IsPacket(p)
    ensures pid < PIDS
  {
    (p[1] as int) % 32 * 256 + p[2] as int
  }

  // adaptation_field_control
  function Afc(p: seq<Byte>): nat
    requires IsPacket(p)
  {
    p[3] / 16 % 4
  }
}
