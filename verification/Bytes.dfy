/** Bytes, pages and sectors of them and optional values, shared by the models of disks,
    memory, streams and files. */
module Bytes {
  newtype Byte = b: int | 0 <= b < 256

  const PAGE_SIZE: nat := 4096
  const SECTOR: nat := 512

  type Page = p: seq<Byte> | |p| == PAGE_SIZE witness seq(PAGE_SIZE, _ => 0)

  function ZeroPage(): Page
  {
    seq(PAGE_SIZE, _ => 0)
  }

  datatype Option<+T> = None | Some(value: T)
}
