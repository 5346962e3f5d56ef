/** The ownership store with each write taken as one step: the current record of
    every session, and the history of all commits. A writer adds a record only if
    it is newer than the current one. `SetIfNewer.ReturnIsAtomic` justifies the
    single step, and `SetIfNewer.StoreIsLedger` ties the ledger to the store. */
module Ledger {
  import opened Words
  import opened Ownership
  import opened Store

  /** `log` is a history variable: the committed records, oldest first. */
  datatype Ledger = Ledger(current: map<Name, Record>, log: seq<Record>) {

    function Get(session: Name): Option<Record> {
      if session in current then Some(current[session]) else None
    }

    /** -1 when the session has never been committed. */
    function Epoch(session: Name): int {
      if session in current then current[session].epoch else -1
    }

    predicate Accepts(rec: Record) {
      Epoch(rec.session) < rec.epoch
    }

    function Commit(rec: Record): Ledger {
      Ledger(current[rec.session := rec], log + [rec])
    }

    function SetIfNewer(rec: Record): Ledger {
      if Accepts(rec) then Commit(rec) else this
    }

    ghost predicate Valid() {
      && Increasing(log)
      && (forall i :: 0 <= i < |log| ==> log[i].epoch <= Epoch(log[i].session))
      && (forall t :: t in current ==> current[t] in log && current[t].session == t)
    }
  }

  const EMPTY := Ledger(map[], [])

  /** Later records of a session carry higher epochs. */
  ghost predicate Increasing(log: seq<Record>) {
    forall i, j :: 0 <= i < j < |log| && log[i].session == log[j].session ==> log[i].epoch < log[j].epoch
  }

  predicate SameSlot(a: Record, b: Record) {
    a.session == b.session && a.epoch == b.epoch
  }

  lemma CommitValid(l: Ledger, rec: Record)
    requires l.Valid() && l.Accepts(rec)
    ensures l.Commit(rec).Valid()
  {
    assert l.Commit(rec).log[|l.log|] == rec;
  }

  /** What every write does: the ledger stays valid, its history grows, and no epoch drops. */
  lemma WriteAdvances(l: Ledger, rec: Record)
    requires l.Valid()
    ensures l.SetIfNewer(rec).Valid() && l.log <= l.SetIfNewer(rec).log
    ensures forall t :: l.Epoch(t) <= l.SetIfNewer(rec).Epoch(t)
  {
    if l.Accepts(rec) {
      CommitValid(l, rec);
    }
  }

  /** A session has one record per epoch. */
  lemma RecordUnique(l: Ledger, a: Record, b: Record)
    requires l.Valid() && a in l.log && b in l.log && SameSlot(a, b)
    ensures a == b
  {
    var i :| 0 <= i < |l.log| && l.log[i] == a;
    var j :| 0 <= j < |l.log| && l.log[j] == b;
    assert i < j || i == j || j < i;
  }

  /** A committed record is never ahead of the current one. */
  lemma CommittedBelowCurrent(l: Ledger, rec: Record)
    requires l.Valid() && rec in l.log
    ensures rec.epoch <= l.Epoch(rec.session)
  {
  }

  /** A committed record that the ledger still accepts a direct successor of is current. */
  lemma AcceptsSuccessor(l: Ledger, rec: Record, next: Record)
    requires l.Valid() && rec in l.log && next.session == rec.session && next.epoch == Successor(rec.epoch)
    ensures l.Accepts(next) <==> l.Get(rec.session) == Some(rec) && rec.epoch + 1 < UINT64
  {
    CommittedBelowCurrent(l, rec);
    if l.Epoch(rec.session) == rec.epoch {
      RecordUnique(l, l.current[rec.session], rec);
    }
  }

  /** A record added to a history was newer than all its session had there before. */
  lemma AppendedIsNewer(a: Ledger, b: Ledger, rec: Record)
    requires a.Valid() && b.Valid() && a.log <= b.log && rec in b.log[|a.log|..]
    ensures a.Accepts(rec)
  {
    var j :| |a.log| <= j < |b.log| && b.log[j] == rec;
    if rec.session in a.current {
      var i :| 0 <= i < |a.log| && a.log[i] == a.current[rec.session];
      assert b.log[i] == a.log[i];
    }
  }

  /** Growing the history never lowers an epoch. */
  lemma GrowthRaises(a: Ledger, b: Ledger, session: Name)
    requires a.Valid() && b.Valid() && a.log <= b.log
    ensures a.Epoch(session) <= b.Epoch(session)
  {
    if session in a.current {
      CommittedBelowCurrent(b, a.current[session]);
    }
  }
}
