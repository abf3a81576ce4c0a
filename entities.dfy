/** The values the processor passes between its steps. */
module Entities {

  /** A (destination port, protocol) pair: a key of the lookup table, a parsed flow record, and a key of the
      port/protocol counts. */
  datatype PortProtocol = PortProtocol(port: nat, protocol: string)

  type Tag = string

  /** The loaded lookup table: for each key, the tags of its rows in row order (a `defaultdict(list)` that the
      processor only ever reads through `get`). */
  type LookupTable = map<PortProtocol, seq<Tag>>

  /** The tag of a record whose key the lookup table does not list. */
  const UNTAGGED: Tag := "Untagged"

  /** A file the processor opens for reading: absent (`open` raises `FileNotFoundError`) or present, with the
      content the processor reads from it. */
  datatype Input<T> = NotFound | Found(content: T)

  /** The failures that end a run: the flow log cannot be opened, or `int()` rejects a port field. */
  datatype Error = FlowLogNotFound | InvalidPort(literal: string)
}
