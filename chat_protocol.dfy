/**
 * Wire-level constants of the IPK24-CHAT protocol: message type tags and the
 * upper bounds on field lengths, plus the machine integer types and the
 * exceptions the C# code can raise.
 */
module ChatProtocol {

  /** An unsigned 8-bit value (C# `byte`). */
  newtype byte = b: int | 0 <= b < 0x100

  /** An unsigned 16-bit value (C# `ushort`). */
  newtype uint16 = x: int | 0 <= x < 0x1_0000

  // Message type tags, the first byte of every UDP datagram.
  const Confirm: byte := 0x00
  const Reply: byte := 0x01
  const Auth: byte := 0x02
  const Join: byte := 0x03
  const Msg: byte := 0x04
  const Err: byte := 0xFE
  const Bye: byte := 0xFF

  // Field length bounds, in characters (bytes on the UDP wire).
  const MaxUsernameLength: nat := 20
  const MaxChannelIdLength: nat := 20
  const MaxSecretLength: nat := 128
  const MaxDisplayNameLength: nat := 20
  const MaxMessageContentLength: nat := 1400

  /** The seven type tags, in declaration order. */
  function Tags(): (r: seq<byte>)
    ensures |r| == 7
    ensures forall i, j :: 0 <= i < j < |r| ==> r[i] != r[j]
  {
    [Confirm, Reply, Auth, Join, Msg, Err, Bye]
  }

  /** The .NET exceptions that the modelled code raises or lets escape. */
  datatype Exception =
    | ArgumentException
    | EndOfStreamException
    | IndexOutOfRangeException
    | InvalidOperationException
    | IOException
    | OperationCanceledException

  /** The result of a call that may throw. */
  datatype Outcome<+T> = Returned(value: T) | Threw(error: Exception)

  /** `(ushort)(x + 1)`: C#'s unchecked 16-bit increment. */
  function Increment(x: uint16): (r: uint16)
    ensures x < 0xFFFF ==> r as int == x as int + 1
    ensures x == 0xFFFF ==> r == 0
  {
    ((x as int + 1) % 0x1_0000) as uint16
  }
}
