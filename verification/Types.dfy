/** Values shared by the transaction manager and the workers. */
module Types {

  const MAX_NODES: nat := 10
  const MAX_TRANSACTIONS: nat := 4
  const TWO32: nat := 0x1_0000_0000

  datatype Option<+T> = None | Some(value: T)

  /** The objects a worker keeps: A, B and the ID string. */
  datatype Store = Store(a: int, b: int, id: string)

  const ZERO_STORE := Store(0, 0, "")

  datatype Kind = LBegin | LCommit | LAbort | LPrepared | LUpdate

  /** A log record without its vector clock; `undo` is the undo image of an update. */
  datatype Entry = Entry(kind: Kind, tid: nat, undo: Store)

  /** A freshly initialised record: every field but type and transaction is zero. */
  function Record(kind: Kind, tid: nat): Entry {
    Entry(kind, tid, ZERO_STORE)
  }

  datatype MsgType =
    | BeginTx | JoinTx | Commit | Abort | Ask
    | PrepareToCommit | Prepared | TxError

  /** A datagram. An endpoint stands for the address of a worker's transaction socket,
      whose port number is never zero. Workers ignore the transaction id of what they
      receive, so packets to workers carry none. */
  datatype Packet =
    | ToManager(ep: nat, mtype: MsgType, tid: nat)
    | ToWorker(ep: nat, mtype: MsgType)

  lemma SubsetSize<T>(a: set<T>, b: set<T>)
    requires a <= b
    ensures |a| <= |b|
    ensures |a| == |b| ==> a == b
  {
    assert b == a + (b - a);
  }
}
