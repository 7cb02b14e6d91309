/**
  * The lease-expiry heap. Python's `heapq` is taken at its interface: a bag of entries
  * whose pop removes one with the earliest expiry.
  */
module LeaseIndex {
  import opened Lease

  const COMPACT_FLOOR := 16

  datatype Entry = Entry(due: real, task: string, epoch: nat)

  function EntryOf(c: Claim, task: string): Entry {
    Entry(c.expiresAt, task, c.epoch)
  }

  /** Every live lease is indexed under its current expiry and epoch. */
  ghost predicate Tracked(claims: map<string, Claim>, entries: multiset<Entry>) {
    forall t :: t in claims ==> EntryOf(claims[t], t) in entries
  }

  function EntriesOf(claims: map<string, Claim>, tasks: set<string>): set<Entry>
    requires tasks <= claims.Keys
  {
    set t | t in tasks :: EntryOf(claims[t], t)
  }

  lemma TaskOfEntry(claims: map<string, Claim>)
    ensures forall t :: t in claims ==> EntryOf(claims[t], t).task == t
  {
  }

  lemma {:induction false} OneEntryEach(claims: map<string, Claim>, tasks: set<string>)
    requires tasks <= claims.Keys
    ensures |EntriesOf(claims, tasks)| == |tasks|
  {
    if tasks != {} {
      var t :| t in tasks;
      OneEntryEach(claims, tasks - {t});
      assert EntriesOf(claims, tasks) == EntriesOf(claims, tasks - {t}) + {EntryOf(claims[t], t)};
    }
  }

  ghost predicate Least(e: Entry, entries: multiset<Entry>) {
    e in entries && forall f :: f in entries ==> e.due <= f.due
  }

  class LeaseIndex {
    var entries: multiset<Entry>

    constructor ()
      ensures entries == multiset{}
    {
      entries := multiset{};
    }

    /** Indexes a lease; churn is shed once stale entries outnumber live ones by the margin. */
    method Track(claim: Claim, claims: map<string, Claim>)
      requires claim.task in claims && claims[claim.task] == claim
      requires forall t :: t in claims && t != claim.task ==> EntryOf(claims[t], t) in entries
      modifies this
      ensures Tracked(claims, entries)
      ensures |entries| <= 2 * |claims| + COMPACT_FLOOR
    {
      entries := entries + multiset{EntryOf(claim, claim.task)};
      if |entries| > 2 * |claims| + COMPACT_FLOOR {
        Rebuild(claims);
      }
    }

    /** Exactly one entry per live claim. */
    method Rebuild(claims: map<string, Claim>)
      modifies this
      ensures Tracked(claims, entries) && |entries| == |claims|
      ensures forall e :: e in entries ==> e.task in claims && e == EntryOf(claims[e.task], e.task)
    {
      hide EntryOf;
      OneEntryEach(claims, claims.Keys);
      entries := multiset(EntriesOf(claims, claims.Keys));
      assert forall t :: t in claims ==> EntryOf(claims[t], t) in EntriesOf(claims, claims.Keys);
      assert forall t :: t in claims ==> EntryOf(claims[t], t).task == t by { TaskOfEntry(claims); }
    }

    /** An entry that expires no later than any other. */
    method Earliest() returns (e: Entry)
      requires entries != multiset{}
      ensures Least(e, entries)
    {
      var left := entries;
      e :| e in left;
      ghost var seen := multiset{};
      while left != multiset{}
        invariant entries == left + seen && e in entries
        invariant forall f :: f in seen ==> e.due <= f.due
        decreases |left|
      {
        var f :| f in left;
        if f.due < e.due {
          e := f;
        }
        left, seen := left - multiset{f}, seen + multiset{f};
      }
    }

    /** The next due entry, live or stale, or none once every remaining lease is later than `now`. */
    method PopDue(now: real) returns (due: bool, e: Entry)
      modifies this
      ensures due ==> e in old(entries) && e.due <= now && entries == old(entries) - multiset{e}
      ensures due ==> Least(e, old(entries))
      ensures !due ==> entries == old(entries) && forall f :: f in entries ==> f.due > now
    {
      due, e := false, Entry(now, "", 0);
      if entries != multiset{} {
        e := Earliest();
        if e.due <= now {
          due, entries := true, entries - multiset{e};
        }
      }
    }
  }
}
