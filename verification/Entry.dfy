/** Typed WAL entries, and the library routines the log depends on. */
module Entry {
  import opened Common
  import opened Bytes
  import opened Json
  import opened Record
  import Definition

  datatype WalEntry =
    | PutMachine(machine: string, version: nat, definitionHash: string, definition: Value)
    | CreateInstance(instanceId: string, machine: string, version: nat, initialState: string, initialCtx: Value,
                     idempotencyKey: Option<string>)
    | ApplyEvent(instanceId: string, event: string, fromState: string, toState: string, payload: Value, ctx: Value,
                 eventId: Option<string>, idempotencyKey: Option<string>)
    | DeleteInstance(instanceId: string, idempotencyKey: Option<string>)
    | SnapshotMark(instanceId: string, snapshotId: string, state: string, ctx: Value)
    | Checkpoint(timestamp: int)

  function EntryTypeOf(e: WalEntry): EntryType {
    match e
    case PutMachine(_, _, _, _) => PutMachineType
    case CreateInstance(_, _, _, _, _, _) => CreateInstanceType
    case ApplyEvent(_, _, _, _, _, _, _, _) => ApplyEventType
    case DeleteInstance(_, _) => DeleteInstanceType
    case SnapshotMark(_, _, _, _) => SnapshotType
    case Checkpoint(_) => CheckpointType
  }

  /** The libraries: CRC32C, entry serialization and its inverse, and the definition checksum. */
  datatype Env = Env(
    crc: Crc, serialize: WalEntry -> Buffer, deserialize: Buffer -> Option<WalEntry>,
    checksum: Definition.Raw -> string)

  /** Serialization is undone by deserialization. */
  ghost predicate Faithful(env: Env) {
    forall e :: env.deserialize(env.serialize(e)) == Some(e)
  }

  /** A log record as the engine sees it: sequence number, packed offset, entry. */
  datatype LogRecord = LogRecord(sequence: nat, offset: nat, entry: WalEntry)

  type Log = seq<LogRecord>
}
