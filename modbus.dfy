/** The part of the Modbus PDU/RTU codec library the driver uses. The
    library itself (frame layout, CRC) is not part of this model: its
    encoder and decoder are the two function values of a `Codec`, about
    which nothing is assumed. */
module Modbus {
  import opened Types

  /** Requests the driver sends. */
  datatype Request =
    | ReadHoldingRegisters(address: Word, quantity: Word)
    | WriteSingleRegister(address: Word, value: Word)
    | WriteMultipleRegisters(address: Word, words: seq<Word>)
    | Custom(code: Byte, bytes: seq<Byte>)

  /** Normal responses the library can decode; `Other` stands for every
      kind the driver never asks for (coils, inputs, ...). */
  datatype Response =
    | ReadHoldingRegisters(words: seq<Word>)
    | WriteSingleRegister(address: Word, value: Word)
    | WriteMultipleRegisters(address: Word, quantity: Word)
    | Custom(code: Byte, bytes: seq<Byte>)
    | Other

  /** The PDU of a response frame: a normal reply or a device exception. */
  datatype Pdu = Normal(response: Response) | Exception(code: Byte)

  /** What the response decoder makes of the received bytes: an error
      (checksum, malformed data), no complete frame yet, or a frame. */
  datatype Decoded = DecodeError | NoFrame | Frame(slave: Byte, pdu: Pdu)

  /** The request encoder (with the slave address) and the response decoder. */
  datatype Codec = Codec(
    encode: (Byte, Request) -> Option<seq<Byte>>,
    decode: seq<Byte> -> Decoded)
}
