/** Values shared by every store: optional results and the two-layer disk. */
module Results {
  datatype Option<+T> = None | Some(value: T)

  datatype Result<+T, +E> = Success(value: T) | Failure(error: E)
}

/**
 A file replaced by write-temporary, rename, sync-directory.

 Readers see the last rename. A power loss may bring back any state renamed since
 the last completed directory sync, or the synced state itself. A process crash
 changes nothing, because no store keeps state in memory between calls.
 */
module Disk {

  /** How far one replacement got. `RenameFailed` also stands for a crash before the rename,
      `SyncFailed` for a crash between the rename and the directory sync. */
  datatype PersistFault = Synced | RenameFailed | SyncFailed

  /** One replacement together with the reason the model gives for it. */
  datatype Write<T, C> = Write(state: T, cause: C, fault: PersistFault)

  datatype Disk<T> = Disk(durable: T, renamed: seq<T>) {

    function Visible(): T {
      if renamed == [] then durable else renamed[|renamed| - 1]
    }

    /** Every state a power loss may leave, oldest first. */
    function Candidates(): seq<T> {
      [durable] + renamed
    }

    function Persist(state: T, fault: PersistFault): Disk<T> {
      match fault
      case Synced => Disk(state, [])
      case RenameFailed => this
      case SyncFailed => Disk(durable, renamed + [state])
    }

    function AfterPowerLoss(choice: nat): Disk<T> {
      if choice < |Candidates()| then Disk(Candidates()[choice], []) else this
    }
  }

  /** Replaying a call's writes, in order. */
  function PersistAll<T, C>(disk: Disk<T>, writes: seq<Write<T, C>>): Disk<T>
    decreases |writes|
  {
    if writes == [] then disk
    else PersistAll(disk.Persist(writes[0].state, writes[0].fault), writes[1..])
  }

  lemma {:induction false} PersistAllAppend<T, C>(disk: Disk<T>, first: seq<Write<T, C>>, second: seq<Write<T, C>>)
    ensures PersistAll(disk, first + second) == PersistAll(PersistAll(disk, first), second)
    decreases |first|
  {
    if first == [] {
      assert first + second == second;
    } else {
      assert (first + second)[1..] == first[1..] + second;
      PersistAllAppend(disk.Persist(first[0].state, first[0].fault), first[1..], second);
    }
  }
}
