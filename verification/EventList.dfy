/**
 The event lists and the ring of job records that bhist builds while it reads
 the log (lsbatch/bhist/read.event.c, addEvent, inJobList, offJobList,
 initJobList).
 */
module EventList {
  import History

  datatype Kind = JobNew | JobSwitch | Mig | Chkpnt | JobSigact | OtherKind(code: int)

  datatype EventRecord = EventRecord(
    kind: Kind, jStatus: int, reasons: History.Reasons, idx: int, timeStamp: int, timeEvent: int)

  /* How an event comes to addEvent: while the head of the log is being read, or
     later from a log file that is not the first. */
  datatype Source = Source(readFromHead: bool, otherFile: bool)

  /* The part of a job record that addEvent changes: the chain from eventhead, the
     position of eventtail in it, and the flag for events read from the head. */
  datatype JobEvents = JobEvents(chain: seq<EventRecord>, tail: int, nonNewFromHead: bool)

  /* Whether `s & mask` is not 0, for a mask of one bit. */
  predicate Bit(s: int, mask: int)
    requires mask > 0
  {
    (s / mask) % 2 == 1
  }

  const NO_EVENTS := JobEvents([], -1, false)

  predicate Valid(j: JobEvents) {
    if j.chain == [] then j.tail == -1 else 0 <= j.tail < |j.chain|
  }

  predicate Sorted(s: seq<EventRecord>) {
    forall i, k :: 0 <= i < k < |s| ==> s[i].timeStamp <= s[k].timeStamp
  }

  /* Older than the tail, or the tail over again. */
  predicate Stale(e: EventRecord, tail: EventRecord) {
    e.timeStamp < tail.timeStamp ||
    (e.timeStamp == tail.timeStamp &&
     match e.kind
     case JobSwitch => e.kind == tail.kind
     case Mig => false
     case Chkpnt => false
     case JobSigact => false
     case _ => e.kind == tail.kind && e.jStatus == tail.jStatus && e.idx == tail.idx && e.timeEvent == tail.timeEvent)
  }

  /* After the head of the log has been read, the first later event starts over
     behind the first one. */
  predicate StartsOver(j: JobEvents, e: EventRecord, s: Source) {
    !s.readFromHead && j.nonNewFromHead && s.otherFile && !e.kind.JobNew?
  }

  function Rewound(j: JobEvents, e: EventRecord, s: Source): JobEvents {
    if StartsOver(j, e, s) then JobEvents(j.chain, if j.chain == [] then -1 else 0, false) else j
  }

  predicate Accepts(j: JobEvents, e: EventRecord, s: Source)
    requires Valid(j)
  {
    var r := Rewound(j, e, s);
    r.chain == [] || !Stale(e, r.chain[r.tail])
  }

  function Added(j: JobEvents, e: EventRecord, s: Source): JobEvents
    requires Valid(j)
  {
    var r := Rewound(j, e, s);
    if !Accepts(j, e, s) then r
    else JobEvents(r.chain[..r.tail + 1] + [e], r.tail + 1, r.nonNewFromHead || (s.readFromHead && !e.kind.JobNew?))
  }

  class JobRecord {
    var events: JobEvents
    var currentStatus: int
    var endTime: int

    constructor ()
      ensures events == NO_EVENTS
    {
      events, currentStatus, endTime := NO_EVENTS, 0, 0;
    }

    method NoteStatus(event: EventRecord)
      modifies this`currentStatus, this`endTime
      ensures currentStatus == event.jStatus
      ensures endTime == if Bit(event.jStatus, 0x40) || Bit(event.jStatus, 0x20) then event.timeStamp else old(endTime)
    {
      currentStatus := event.jStatus;
      if Bit(event.jStatus, 0x40) || Bit(event.jStatus, 0x20) {
        endTime := event.timeStamp;
      }
    }

    /* The tests against the tail, by kind of event. */
    static method IsStale(event: EventRecord, ePtr: EventRecord) returns (stale: bool)
      ensures stale == Stale(event, ePtr)
    {
      match event.kind {
        case JobSwitch =>
          stale := event.timeStamp < ePtr.timeStamp || (event.timeStamp == ePtr.timeStamp && event.kind == ePtr.kind);
        case Mig => stale := event.timeStamp < ePtr.timeStamp;
        case Chkpnt => stale := event.timeStamp < ePtr.timeStamp;
        case JobSigact => stale := event.timeStamp < ePtr.timeStamp;
        case _ =>
          stale := event.timeStamp < ePtr.timeStamp ||
            (event.timeStamp == ePtr.timeStamp && event.kind == ePtr.kind && event.jStatus == ePtr.jStatus &&
             event.idx == ePtr.idx && event.timeEvent == ePtr.timeEvent);
      }
    }

    /** addEvent: the list stays in time order; a rejected event leaves the chain
        as it was. */
    method AddEvent(event: EventRecord, s: Source) returns (ok: bool)
      requires Valid(events) && Sorted(events.chain)
      modifies this
      ensures ok == Accepts(old(events), event, s)
      ensures events == Added(old(events), event, s)
      ensures Valid(events) && Sorted(events.chain)
      ensures !ok ==> events.chain == old(events.chain)
      ensures currentStatus == event.jStatus
    {
      AddedKeeps(events, event, s);
      NoteStatus(event);
      if !s.readFromHead && events.nonNewFromHead && s.otherFile && !event.kind.JobNew? {
        events := events.(tail := if events.chain == [] then -1 else 0, nonNewFromHead := false);
      }
      ok := Append(event);
      if !ok {
        return;
      }
      if s.readFromHead && !event.kind.JobNew? {
        events := events.(nonNewFromHead := true);
      }
    }

    /* Behind the tail, or as the first event. */
    method Append(event: EventRecord) returns (ok: bool)
      requires Valid(events)
      modifies this`events
      ensures var j := old(events);
        ok == (j.chain == [] || !Stale(event, j.chain[j.tail])) &&
        events == if ok then j.(chain := j.chain[..j.tail + 1] + [event], tail := j.tail + 1) else j
    {
      if events.chain == [] {
        events := events.(chain := [event], tail := 0);
      } else {
        var stale := IsStale(event, events.chain[events.tail]);
        if stale {
          return false;
        }
        events := events.(chain := events.chain[..events.tail + 1] + [event], tail := events.tail + 1);
      }
      return true;
    }
  }

  lemma {:induction false} AddedKeeps(j: JobEvents, e: EventRecord, s: Source)
    requires Valid(j) && Sorted(j.chain)
    ensures var a := Added(j, e, s);
      Valid(a) && Sorted(a.chain) && (!Accepts(j, e, s) ==> a.chain == j.chain) &&
      (Accepts(j, e, s) ==> a.chain[a.tail] == e && a.tail == |a.chain| - 1) &&
      (j.chain != [] ==> a.chain != [] && a.chain[0] == j.chain[0])
  {
  }

  // ----- Whole logs -----

  datatype Call = Call(event: EventRecord, source: Source)

  function Replay(calls: seq<Call>): (j: JobEvents)
    ensures Valid(j)
    decreases |calls|
  {
    if calls == [] then NO_EVENTS
    else
      var c, before := calls[|calls| - 1], Replay(calls[..|calls| - 1]);
      Added(before, c.event, c.source)
  }

  /** After any sequence of addEvent calls, also across the rewinding of the tail,
      the list is in time order, begins with the first event ever added, and holds
      only events that were added. */
  lemma {:induction false} ReplaySorted(calls: seq<Call>)
    ensures var j := Replay(calls);
      Sorted(j.chain) && (calls != [] ==> j.chain != [] && j.chain[0] == calls[0].event) &&
      (forall e :: e in j.chain ==> exists k :: 0 <= k < |calls| && calls[k].event == e)
    decreases |calls|
  {
    if calls != [] {
      var init, c := calls[..|calls| - 1], calls[|calls| - 1];
      ReplaySorted(init);
      AddedKeeps(Replay(init), c.event, c.source);
      forall e | e in Replay(calls).chain ensures exists k :: 0 <= k < |calls| && calls[k].event == e {
        if e != c.event {
          assert e in Replay(init).chain;
          var k :| 0 <= k < |init| && init[k].event == e;
          assert calls[k].event == e;
        } else {
          assert calls[|calls| - 1].event == e;
        }
      }
    }
  }

  // ----- What is kept and what is dropped -----

  /* What tells two events of the same time apart; migrations, checkpoints and signals are
     never the same. */
  datatype Key = NoKey | KindOnly | All(kind: Kind, jStatus: int, idx: int, timeEvent: int)

  function KeyOf(e: EventRecord): Key {
    match e.kind
    case Mig => NoKey
    case Chkpnt => NoKey
    case JobSigact => NoKey
    case JobSwitch => KindOnly
    case _ => All(e.kind, e.jStatus, e.idx, e.timeEvent)
  }

  /* `e` says again what `tail` says. */
  predicate Repeats(e: EventRecord, tail: EventRecord) { KeyOf(e) == KeyOf(tail) != NoKey && e.timeStamp == tail.timeStamp }

  lemma {:induction false} StaleIff(e: EventRecord, tail: EventRecord)
    ensures Stale(e, tail) <==> e.timeStamp < tail.timeStamp || Repeats(e, tail)
  {
  }

  /** The same event once more is dropped, unless it is a migration, checkpoint or signal. */
  lemma {:induction false} TwiceIsOnce(j: JobEvents, e: EventRecord, s: Source, again: Source)
    requires Valid(j) && Accepts(j, e, s) && !StartsOver(Added(j, e, s), e, again)
    ensures var once := Added(j, e, s);
      Added(once, e, again).chain == if KeyOf(e) == NoKey then once.chain + [e] else once.chain
  {
    var once := Added(j, e, s);
    StaleIff(e, e);
    assert once.chain[..|once.chain|] == once.chain;
  }

  /* Later than the one before, or of the same time and not a repetition. */
  predicate InOrder(calls: seq<Call>) {
    forall k :: 0 < k < |calls| ==> Follows(calls[k].event, calls[k - 1].event)
  }

  predicate Follows(e: EventRecord, before: EventRecord) { before.timeStamp <= e.timeStamp && !Repeats(e, before) }

  function Events(calls: seq<Call>): seq<EventRecord> { seq(|calls|, i requires 0 <= i < |calls| => calls[i].event) }

  /** A log read once from the beginning is kept without loss: the list is the events as they
      came, if none is older than the one before or repeats it. */
  lemma {:induction false} NothingLost(calls: seq<Call>)
    requires InOrder(calls) && forall k :: 0 <= k < |calls| ==> !calls[k].source.readFromHead
    ensures Replay(calls) == JobEvents(Events(calls), |calls| - 1, false)
    decreases |calls|
  {
    if calls != [] {
      var init, c := calls[..|calls| - 1], calls[|calls| - 1];
      NothingLost(init);
      if init != [] { StaleIff(c.event, init[|init| - 1].event); }
      assert Events(calls) == Events(init) + [c.event];
      assert Events(init)[..|init|] == Events(init);
    }
  }

  /* Reading goes on, from a later file, behind the first event of the list `j`. */
  lemma {:induction false} AfterHead(j: JobEvents, calls: seq<Call>) returns (r: JobEvents)
    requires Valid(j) && j.chain != [] && j.nonNewFromHead && calls != [] && !calls[0].event.kind.JobNew? && InOrder(calls)
    requires Follows(calls[0].event, j.chain[0])
    requires forall k :: 0 <= k < |calls| ==> calls[k].source == Source(false, true)
    ensures r == ReplayFrom(j, calls) == JobEvents([j.chain[0]] + Events(calls), |calls|, false)
    decreases |calls|
  {
    var init, c := calls[..|calls| - 1], calls[|calls| - 1];
    r := ReplayFrom(j, calls);
    if init == [] {
      StaleIff(c.event, j.chain[0]);
      assert ReplayFrom(j, init) == j;
      assert j.chain[..1] == [j.chain[0]];
      assert Events(calls) == [c.event];
    } else {
      var b := AfterHead(j, init);
      StaleIff(c.event, init[|init| - 1].event);
      assert b.chain[b.tail] == init[|init| - 1].event;
      assert Events(calls) == Events(init) + [c.event];
      assert b.chain[..b.tail + 1] + [c.event] == [j.chain[0]] + Events(calls);
    }
  }

  function ReplayFrom(j: JobEvents, calls: seq<Call>): (r: JobEvents)
    requires Valid(j)
    ensures Valid(r)
    decreases |calls|
  {
    if calls == [] then j
    else
      var c := calls[|calls| - 1];
      Added(ReplayFrom(j, calls[..|calls| - 1]), c.event, c.source)
  }

  lemma {:induction false} ReplayAppend(a: seq<Call>, b: seq<Call>)
    ensures Replay(a + b) == ReplayFrom(Replay(a), b)
    decreases |b|
  {
    if b == [] {
      assert a + b == a;
    } else {
      ReplayAppend(a, b[..|b| - 1]);
      assert (a + b)[..|a + b| - 1] == a + b[..|b| - 1];
    }
  }

  /** Events found while the head of the log was searched are not counted again: reading on
      from a later file leaves the submission and the events of that reading, no more. */
  lemma {:induction false} HeadIsForgotten(head: seq<Call>, calls: seq<Call>)
    requires head != [] && Replay(head).nonNewFromHead && calls != [] && !calls[0].event.kind.JobNew? && InOrder(calls)
    requires Follows(calls[0].event, head[0].event)
    requires forall k :: 0 <= k < |calls| ==> calls[k].source == Source(false, true)
    ensures Replay(head + calls).chain == [head[0].event] + Events(calls)
  {
    ReplaySorted(head);
    ReplayAppend(head, calls);
    var r := AfterHead(Replay(head), calls);
  }

  /** In any other case a later event is added behind all there is: while the head is being
      read, from the first file, for a submission, or if nothing came from the head. */
  lemma {:induction false} LaterIsAdded(j: JobEvents, e: EventRecord, s: Source)
    requires Valid(j) && j.chain != [] && j.tail == |j.chain| - 1 && j.chain[j.tail].timeStamp < e.timeStamp
    requires s.readFromHead || !s.otherFile || e.kind.JobNew? || !j.nonNewFromHead
    ensures Added(j, e, s).chain == j.chain + [e]
  {
    assert j.chain[..|j.chain|] == j.chain;
  }

  /** What has been read from the head is remembered exactly from the first accepted event
      that is no submission. */
  lemma {:induction false} HeadIsNoted(j: JobEvents, e: EventRecord, s: Source)
    requires Valid(j) && !j.nonNewFromHead
    ensures Added(j, e, s).nonNewFromHead <==> s.readFromHead && !e.kind.JobNew? && Accepts(j, e, s)
  {
  }

  // ----- The list as the accounting sees it -----

  /** The status codes of the log are those of lsbatch.h; any other is taken by its bits. */
  lemma {:induction false} StatusCodes(s: int)
    requires 0 <= s < 0x200
    ensures StatusOf(s) == History.Pend <==> s == 0x01
    ensures StatusOf(s) == History.Psusp <==> s == 0x02
    ensures StatusOf(s) == History.Run <==> s == 0x04
    ensures StatusOf(s) == History.Ssusp <==> s == 0x08
    ensures StatusOf(s) == History.Ususp <==> s == 0x10
    ensures StatusOf(s) == History.Exit <==> s == 0x20
    ensures StatusOf(s) == History.Done <==> s == 0x40
    ensures StatusOf(0x04 + 0x200) == History.RunWait && StatusOf(0) == History.Zero
    ensures StatusOf(0x40 + 0x80) == History.Other(true, false, true, false)
    ensures StatusOf(0x40 + 0x100) == History.Other(true, false, false, true)
    ensures StatusOf(0x20 + 0x80) == History.Other(false, true, true, false)
  {
  }

  function StatusOf(s: int): History.Status {
    if s == 0 then History.Zero
    else if s == 0x02 then History.Psusp
    else if s == 0x01 then History.Pend
    else if s == 0x204 then History.RunWait
    else if s == 0x04 then History.Run
    else if s == 0x08 then History.Ssusp
    else if s == 0x10 then History.Ususp
    else if s == 0x40 then History.Done
    else if s == 0x20 then History.Exit
    else History.Other(Bit(s, 0x40), Bit(s, 0x20), Bit(s, 0x80), Bit(s, 0x100))
  }

  function AccountedEvent(e: EventRecord, matched: int -> bool): History.Event {
    History.Event(e.kind.JobSwitch?, StatusOf(e.jStatus), e.reasons, e.timeStamp, matched(e.idx))
  }

  function Accounted(s: seq<EventRecord>, matched: int -> bool): seq<History.Event> {
    seq(|s|, i requires 0 <= i < |s| => AccountedEvent(s[i], matched))
  }

  /** From log to totals: whatever calls built the list of a job whose first event
      is its submission, the six totals account for exactly the time from that
      event on, less lost and plus doubled intervals. */
  lemma {:induction false} ReplayedTimeConserved(calls: seq<Call>, matched: int -> bool, last0: History.Status, q: History.Query)
    requires calls != [] && calls[0].event.kind.JobNew?
    ensures var evs := Accounted(Replay(calls).chain, matched);
      evs != [] && History.Sorted(evs) &&
      History.Balance(evs, |evs|, last0, q) == History.Upto(evs, |evs|, q) - calls[0].event.timeStamp
  {
    ReplaySorted(calls);
    var evs := Accounted(Replay(calls).chain, matched);
    assert !evs[0].switched && evs[0].timeStamp == calls[0].event.timeStamp;
    History.TimeConserved(evs, |evs|, last0, q);
  }
}
