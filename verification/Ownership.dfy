/** Ownership records: which access and egress gateway carry a session, at
    which epoch. Epochs are uint64 counters, so a successor wraps at 2^64. */
module Ownership {
  import opened Words

  /** An identifier or an address: text that is only compared. */
  datatype Name = Name(text: string)

  const NONAME := Name("")

  type Epoch = Uint64

  datatype Record = Record(session: Name, access: Name, egress: Name, epoch: Epoch) {

    predicate Valid() {
      session != NONAME && access != NONAME && egress != NONAME
    }

    function NextEpoch(newEgress: Name): Record {
      this.(egress := newEgress, epoch := Successor(epoch))
    }

    function NextAccessEpoch(newAccess: Name): Record {
      this.(access := newAccess, epoch := Successor(epoch))
    }

    predicate Newer(existing: Record) {
      epoch > existing.epoch
    }
  }

  /** The store's keys: the ownership records have a key family of their own. */
  datatype Key = SessionKey(session: Name) | OtherKey(path: string)
}
