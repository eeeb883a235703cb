/** The rows of a session's derived index, each field of its own width. */
module IndexData {

  const B8 := 0x100
  const B16 := 0x1_0000
  const B32 := 0x1_0000_0000
  const B63 := 0x8000_0000_0000_0000
  const B64 := 0x1_0000_0000_0000_0000

  type U8 = x: nat | x < B8
  type U16 = x: nat | x < B16
  type U32 = x: nat | x < B32
  type U64 = x: nat | x < B64
  type I64 = x: int | -B63 <= x < B63

  /** What an int becomes when it is stored in 32 bits. */
  function Low32(n: nat): U32 {
    n % B32
  }

  const KIND_PROVIDER_BODY: U8 := 11

  /** One indexed record; identifiers are numbers, 0 where there is none. */
  datatype Entry = Entry(seqNo: U32, row: U32, stream: U32, batch: U32, kind: U8, trigger: U8, flags: U16, ts: I64,
                         record: U32, parent: U32, call: U32, run: U32, continues: U32, tool: U32, child: U32,
                         startedBy: U32, title: U32, ord: U64, blockFirst: U32, blockCount: U32)

  datatype Block = Block(entry: U32, ord: U32, kind: U8, toolId: U32, name: U32, adds: U32, dels: U32,
                         server: U32, serverTool: U32)

  datatype Body = Body(entry: U32, role: U8, request: U32, previous: U32, form: U32, thread: U8, threadPrevious: U32,
                       system: U32, list: U8, listBase: U32, listKeep: U32, msgFirst: U32, msgCount: U32,
                       listWhy: U32, listCount: U32, reply: U8, replyHasId: bool, replyId: U64, replyDigest: U64,
                       replyWhy: U32, systemUnknown: bool)

  datatype ListEntry = ListEntry(hasId: bool, id: U64, digest: U64)

  /** A body with the list entries it still carries. */
  datatype Carried = Carried(body: Body, messages: seq<ListEntry>)

  datatype Option<T> = None | Some(value: T)

  /** What is read from one landed record. */
  datatype Row = Row(entry: Entry, blocks: seq<Block>, body: Option<Carried>)

  /** The four tables of an index. */
  datatype Tables = Tables(entries: seq<Entry>, blocks: seq<Block>, bodies: seq<Body>, messages: seq<ListEntry>)

  const NO_TABLES := Tables([], [], [], [])
}
