// The on-disk structures of hodo.h: block addresses, data blocks and inodes.
module Blocks {
  type Byte = b: int | 0 <= b < 256 witness 0

  const DATABLOCK_SIZE: nat := 4096
  const DATA_SIZE: nat := 4088
  const POINTERS: nat := 1022       // DATA_SIZE / 4
  const DIRECT_BLOCKS: nat := 10
  const NAME_SIZE: nat := 16
  const POINTER_LIMIT: nat := 0x1_0000_0000

  // struct hodo_block_pos; zone 0 means "not mapped".
  datatype BlockPos = BlockPos(zone: nat, block: nat)

  type Payload = d: seq<Byte> | |d| == DATA_SIZE witness seq(DATA_SIZE, _ => 0)

  // A freshly cleared block.
  function Zeroes(): Payload {
    seq(DATA_SIZE, _ => 0)
  }

  datatype FileType = Regular | Directory

  // struct hodo_inode without times, owners and mode. A pointer 0 is absent.
  datatype Inode = Inode(
    ino: nat,
    fileLen: nat,
    nameLen: nat,
    name: seq<Byte>,
    typ: FileType,
    direct: seq<nat>,
    single: nat,
    double: nat,
    triple: nat)

  // A 4 KiB block: a data block "DAT<level>" carrying its own logical number,
  // or an inode "INOD".
  datatype Block =
    | Dat(level: nat, lbn: nat, data: Payload)
    | Ino(inode: Inode)

  // The logical number that the garbage collector decodes from the block itself.
  function Owner(b: Block): nat {
    match b
    case Dat(_, lbn, _) => lbn
    case Ino(inode) => inode.ino
  }

  // A data block gets its logical number written into its header; an inode
  // already carries its own.
  function Stamp(b: Block, lbn: nat): Block {
    match b
    case Dat(level, _, data) => Dat(level, lbn, data)
    case Ino(_) => b
  }

  // Lexicographic order of physical positions.
  predicate Before(p: BlockPos, q: BlockPos) {
    p.zone < q.zone || (p.zone == q.zone && p.block < q.block)
  }
}
