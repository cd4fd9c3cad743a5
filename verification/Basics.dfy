/** Vocabulary shared by every component of the node: optional values, blocks, bytes. */
module Basics {

  const U64_MAX: nat := 0xFFFF_FFFF_FFFF_FFFF

  type u64 = n: nat | n <= U64_MAX
  type byte = b: nat | b < 256
  type bytes = seq<byte>

  datatype Option<+T> = None | Some(value: T)

  datatype Result<+T, +E> = Ok(value: T) | Err(error: E)

  /** One entry of a block; `Unset` is a protobuf item whose oneof is empty. */
  datatype Item =
    | Header(number: u64)
    | Proof(block: u64)
    | Payload(data: bytes)
    | Unset

  datatype Block = Block(items: seq<Item>)

  /** The number a block is stored under: that of the header it must start with. */
  function BlockNumber(block: Block): Option<u64> {
    if |block.items| > 0 && block.items[0].Header? then Some(block.items[0].number) else None
  }

  predicate Numbered(block: Block, n: nat) {
    BlockNumber(block) == Some(n)
  }

  /** The serialisers the node relies on: protobuf for blocks, zstd for archived bytes. */
  datatype Codec = Codec(
    encode: Block -> bytes,
    decode: bytes -> Option<Block>,
    compress: bytes -> bytes,
    decompress: bytes -> Option<bytes>)

  ghost predicate Faithful(codec: Codec) {
    && (forall block :: codec.decode(codec.encode(block)) == Some(block))
    && (forall raw :: codec.decompress(codec.compress(raw)) == Some(raw))
  }

  function Max(a: nat, b: nat): nat {
    if a < b then b else a
  }

  function SaturatingPred(n: nat): nat {
    if n == 0 then 0 else n - 1
  }
}
