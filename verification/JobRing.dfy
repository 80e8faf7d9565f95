/**
 The ring of job records behind bhist (lsbatch/bhist/read.event.c, inJobList,
 offJobList, initJobList): a doubly linked ring around a header.
 */
module JobRing {

  class JobRecord {
    var forw: JobRecord?
    var back: JobRecord?

    constructor ()
      ensures forw == back == null
    {
      forw, back := null, null;
    }
  }

  /* `ring` starts and ends with the header and repeats nothing in between. */
  ghost predicate Closed(ring: seq<JobRecord>) {
    && |ring| >= 2 && ring[0] == ring[|ring| - 1]
    && (forall i, j :: 0 <= i < j < |ring| - 1 ==> ring[i] != ring[j])
  }

  /* Forward and back links are inverse and run along `ring`. */
  ghost predicate Forward(ring: seq<JobRecord>)
    reads ring
  {
    forall i {:trigger ring[i].forw} :: 0 <= i < |ring| - 1 ==> ring[i].forw == ring[i + 1]
  }

  ghost predicate Backward(ring: seq<JobRecord>)
    reads ring
  {
    forall i {:trigger ring[i].back} :: 0 < i < |ring| ==> ring[i].back == ring[i - 1]
  }

  class Ring {
    const head: JobRecord
    ghost var records: seq<JobRecord>

    ghost function Around(): seq<JobRecord>
      reads this
    {
      [head] + records + [head]
    }

    ghost predicate Valid()
      reads this, head, records
    {
      Closed(Around()) && Forward(Around()) && Backward(Around())
    }

    /** initJobList. */
    constructor ()
      ensures Valid() && records == [] && fresh(head)
    {
      var q := new JobRecord();
      head := q;
      records := [];
      new;
      q.forw, q.back := q, q;
    }

    /** inJobList at the header: the record goes to the end of the ring. */
    method InJobList(entry: JobRecord)
      requires Valid() && entry !in Around()
      modifies this, head, records, entry
      ensures Valid() && records == old(records) + [entry]
    {
      ghost var ring := Around();
      ghost var n := |ring|;
      assert head.back == ring[n - 1].back == ring[n - 2];
      entry.forw := head;
      entry.back := head.back;
      head.back.forw := entry;
      head.back := entry;
      records := records + [entry];
      assert Around() == ring[..n - 1] + [entry, head];
    }

    /** offJobList: the neighbours close ranks, and the rest keeps its order. */
    method OffJobList(entry: JobRecord) returns (ghost k: int)
      requires Valid() && entry in records
      modifies this, head, records
      ensures Valid() && 0 <= k < |old(records)| && old(records)[k] == entry
      ensures records == old(records)[..k] + old(records)[k + 1..]
    {
      k :| 0 <= k < |records| && records[k] == entry;
      ghost var ring := Around();
      assert ring[k + 1] == entry && entry.back == ring[k] && entry.forw == ring[k + 2];
      Unlink(entry, ring, k + 1);
      assert ring[..k + 1] + ring[k + 2..] == [head] + (records[..k] + records[k + 1..]) + [head];
      records := records[..k] + records[k + 1..];
    }

    /** Following the forward links from the header visits exactly the records, in
        the order they were inserted. */
    method Walk() returns (visited: seq<JobRecord>)
      requires Valid()
      ensures visited == records
    {
      visited := [];
      ghost var ring := Around();
      assert head == ring[0];
      var p := head.forw;
      while p != head
        invariant |visited| <= |records| && visited == records[..|visited|]
        invariant p == ring[|visited| + 1]
        decreases |records| - |visited|
      {
        assert ring[|visited| + 1] == records[|visited|];
        visited := visited + [p];
        p := p.forw;
      }
    }
  }

  method Unlink(entry: JobRecord, ghost ring: seq<JobRecord>, ghost k: int)
    requires Closed(ring) && Forward(ring) && Backward(ring)
    requires 0 < k < |ring| - 1 && entry == ring[k] && entry.back == ring[k - 1] && entry.forw == ring[k + 1]
    modifies ring[k - 1], ring[k + 1]
    ensures var rest := ring[..k] + ring[k + 1..]; Closed(rest) && Forward(rest) && Backward(rest)
  {
    if entry.back != null {
      entry.back.forw := entry.forw;
    }
    if entry.forw != null {
      entry.forw.back := entry.back;
    }
    ghost var rest := ring[..k] + ring[k + 1..];
    assert forall i :: 0 <= i < k ==> rest[i] == ring[i];
    assert forall i :: k <= i < |rest| ==> rest[i] == ring[i + 1];
  }
}
