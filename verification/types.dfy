/** The values that travel between the log, the state maps and the lock queues. */
module Types {

  datatype Option<+T> = None | Some(value: T)

  newtype byte = b: int | 0 <= b < 256

  /** The content of a lock command: who owns the lock from `timestamp` on, for `expire`. */
  datatype LockInfo = LockInfo(lockNonce: nat, lockName: string, newOwner: string, timestamp: int, expire: int)

  /** The two commands of the system.  Their JSON encoding is taken to be invertible, so the
      decoded content stands for the encoded one. */
  datatype Command =
    | KVStore(key: string, value: Option<seq<byte>>)
    | DLock(info: LockInfo)
  {
    /** The name by which a state map recognises its own commands. */
    function FastIndex(): string {
      match this
      case KVStore(key, _) => "KVStore:" + key
      case DLock(info) => "DLock:" + info.lockName
    }
  }

  datatype Entry = Entry(term: nat, index: nat, command: Command)

  predicate HasPrefix(s: string, prefix: string) {
    |prefix| <= |s| && s[..|prefix|] == prefix
  }
}
