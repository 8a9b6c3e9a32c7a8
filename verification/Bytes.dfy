/** Octets as small integers, for the packet formats whose fields are numbers. */
module Bytes {
  type byte = b: int | 0 <= b < 256

  /** An Ethernet address. */
  type Mac = m: seq<byte> | |m| == 6 witness [0, 0, 0, 0, 0, 0]

  const NO_MAC: Mac := [0, 0, 0, 0, 0, 0]

  /** The payload of a PPPoE packet: ETH_DATA_LEN bytes. */
  const PAYLOAD_SIZE := 1500

  type Payload = m: seq<byte> | |m| == PAYLOAD_SIZE witness seq(PAYLOAD_SIZE, i => 0)

  function U16(hi: byte, lo: byte): (n: nat)
    ensures n < 0x1_0000
  {
    hi * 256 + lo
  }

  function Hi(n: nat): byte
    requires n < 0x1_0000
  {
    n / 256
  }

  function Lo(n: nat): byte {
    n % 256
  }
}
