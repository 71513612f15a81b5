/**
 * The stream a reconnecting client reads (section 9.2 of the WHATWG HTML Living Standard) and
 * the poller that forwards journal rows into the hub.
 */
module EventStream {
  import opened Common
  import opened EventHub

  /** A frame of the stream; heartbeats carry no event and are not modelled. */
  datatype Frame = Data(ev: Event) | SnapshotRequired

  function Frames(events: seq<Event>): (r: seq<Frame>)
    ensures |r| == |events| && forall i :: 0 <= i < |events| ==> r[i] == Data(events[i])
  {
    seq(|events|, i requires 0 <= i < |events| => Data(events[i]))
  }

  method PublishAll(hub: EventHub, events: seq<Event>)
    requires hub.Valid()
    modifies hub`ring, hub`log
    modifies set q | q in hub.subscribers :: q`items
    modifies set q | q in hub.subscribers :: q`dropped
    ensures hub.Valid() && old(hub.log) <= hub.log
  {
    for i := 0 to |events|
      invariant hub.Valid() && old(hub.log) <= hub.log
    {
      var outcome := hub.Publish(events[i]);
    }
  }

  method Drain(hub: EventHub, q: ClientQueue) returns (live: seq<Event>)
    requires hub.Valid() && q in hub.subscribers
    modifies q`items, q`taken
    ensures hub.Valid() && live == old(q.items) && q.items == []
  {
    hide ClientQueue.Follows, EventHub.RingValid;
    live := [];
    while q.items != []
      invariant hub.Valid() && live + q.items == old(q.items)
      decreases |q.items|
    {
      var ev := q.GetNowait(hub.log);
      live := live + [ev.value];
    }
  }

  // ---- The journal ----------------------------------------------------------

  datatype Row = Row(id: int, ev: Event)

  const FETCH_LIMIT: nat := 50

  predicate Ascending(rows: seq<Row>) {
    forall i, j :: 0 <= i < j < |rows| ==> rows[i].id < rows[j].id
  }

  /** The first `limit` rows with a greater id. */
  function Fetch(rows: seq<Row>, after: int, limit: nat): seq<Row> {
    if rows == [] || limit == 0 then []
    else if rows[0].id > after then [rows[0]] + Fetch(rows[1..], after, limit - 1)
    else Fetch(rows[1..], after, limit)
  }

  /** The rows up to the first one that `publish` refuses. */
  function ValidPrefix(rows: seq<Row>): seq<Row> {
    if rows == [] || !WellFormed(rows[0].ev) then [] else [rows[0]] + ValidPrefix(rows[1..])
  }

  /** How many rows have an id up to `seen`. */
  function Seen(rows: seq<Row>, seen: int): (n: nat)
    ensures n <= |rows|
  {
    if rows == [] then 0 else (if rows[0].id <= seen then 1 else 0) + Seen(rows[1..], seen)
  }

  function Events(rows: seq<Row>): (r: seq<Event>)
    ensures |r| == |rows| && forall i :: 0 <= i < |rows| ==> r[i] == rows[i].ev
  {
    seq(|rows|, i requires 0 <= i < |rows| => rows[i].ev)
  }

  /** The row of an event id, which the journal holds at most once. */
  function RowWithId(rows: seq<Row>, id: string): (r: Option<Row>)
    ensures r.Some? ==> r.value in rows && r.value.ev.id == id
    ensures r.None? ==> forall i :: 0 <= i < |rows| ==> rows[i].ev.id != id
  {
    if rows == [] then None else if rows[0].ev.id == id then Some(rows[0]) else RowWithId(rows[1..], id)
  }

  /** The rows after an id, at most fifty; None when the id or the database is not found. */
  function JournalReplay(journal: Option<seq<Row>>, id: string): Option<seq<Row>> {
    if journal.None? then None
    else
      match RowWithId(journal.value, id)
      case None => None
      case Some(row) => Some(Fetch(journal.value, row.id, FETCH_LIMIT))
  }

  // ---- A connection ---------------------------------------------------------

  /** The events before the first one whose formatting raises. */
  function Sendable(events: seq<Event>): seq<Event> {
    if events == [] || !WellFormed(events[0]) then [] else [events[0]] + Sendable(events[1..])
  }

  lemma {:induction false} WellFormedIsSendable(events: seq<Event>)
    requires forall i :: 0 <= i < |events| ==> WellFormed(events[i])
    ensures Sendable(events) == events
  {
    if events != [] {
      WellFormedIsSendable(events[1..]);
    }
  }

  /** What is sent is valid and goes up to the first invalid event, or to the end. */
  lemma {:induction false} SendableIsValidPrefix(events: seq<Event>)
    ensures var sent := Sendable(events);
            && sent <= events && (forall i :: 0 <= i < |sent| ==> WellFormed(sent[i]))
            && (sent != events ==> !WellFormed(events[|sent|]))
  {
    if events != [] && WellFormed(events[0]) {
      SendableIsValidPrefix(events[1..]);
    }
  }

  /** Formats events one by one; an invalid one raises, which ends the stream. */
  method SendReplay(events: seq<Event>) returns (sent: seq<Frame>, raised: bool)
    ensures sent == Frames(Sendable(events)) && (raised <==> Sendable(events) != events)
  {
    hide Sendable, WellFormed;
    sent := [];
    for i := 0 to |events|
      invariant sent == Frames(events[..i]) && Sendable(events) == events[..i] + Sendable(events[i..])
    {
      SendableStep(events, i);
      if !WellFormed(events[i]) {
        return sent, true;
      }
      sent := sent + [Data(events[i])];
    }
    SendableStep(events, |events|);
    assert events[..|events|] == events;
    return sent, false;
  }

  lemma {:induction false} SendableStep(events: seq<Event>, i: nat)
    requires i <= |events|
    ensures i == |events| ==> Sendable(events[i..]) == []
    ensures i < |events| && !WellFormed(events[i]) ==> Sendable(events[i..]) == []
    ensures i < |events| && WellFormed(events[i]) ==>
              events[..i] + Sendable(events[i..]) == events[..i + 1] + Sendable(events[i + 1..])
  {
    hide WellFormed;
    if i < |events| {
      assert events[i..][1..] == events[i + 1..];
    }
  }

  /**
   * What is sent before the live events, and whether the stream ends there. An empty `lastEventId`
   * is a missing header.
   */
  method Replay(hub: EventHub, lastEventId: string, journal: Option<seq<Row>>)
    returns (sent: seq<Frame>, raised: bool, ghost point: nat)
    requires hub.Valid()
    ensures lastEventId == [] ==> sent == [] && !raised
    ensures lastEventId != [] && HasId(Last(hub.log, hub.bufferSize), lastEventId) ==>
              && point < |hub.log| && hub.log[point].id == lastEventId
              && sent == Frames(hub.log[point + 1..]) && !raised
    ensures lastEventId != [] && !HasId(Last(hub.log, hub.bufferSize), lastEventId) ==>
              match JournalReplay(journal, lastEventId)
              case None => sent == [SnapshotRequired] && !raised
              case Some(rows) =>
                sent == Frames(Sendable(Events(rows))) && (raised <==> Sendable(Events(rows)) != Events(rows))
  {
    hide JournalReplay, Sendable, HasId, Last, Frames;
    if lastEventId == [] {
      return [], false, 0;
    }
    var found, replay;
    found, replay, point := hub.GetReplayEvents(lastEventId);
    if found {
      WellFormedIsSendable(replay);
    } else {
      var rows := JournalReplay(journal, lastEventId);
      if rows.None? {
        return [SnapshotRequired], false, point;
      }
      replay := Events(rows.value);
    }
    sent, raised := SendReplay(replay);
  }

  /**
   * A client connects: it is subscribed, others publish `meanwhile`, the replay is computed with
   * the journal as it is then, others publish `later`, and the client reads its queue.
   */
  method StreamEvents(
    hub: EventHub, lastEventId: string, journal: Option<seq<Row>>, meanwhile: seq<Event>, later: seq<Event>)
    returns (sent: seq<Frame>, ghost since: nat, ghost replayed: nat, ghost point: nat)
    requires hub.Valid()
    modifies hub
    modifies set q | q in hub.subscribers :: q`items
    modifies set q | q in hub.subscribers :: q`dropped
    ensures hub.Valid() && hub.subscribers == old(hub.subscribers)
    ensures since == |old(hub.log)| <= replayed <= |hub.log| && old(hub.log) <= hub.log
    ensures lastEventId == [] ==> sent == Frames(Backlog(hub.log, since, QUEUE_SIZE))
    ensures lastEventId != [] && HasId(Last(hub.log[..replayed], hub.bufferSize), lastEventId) ==>
              && point < replayed && hub.log[point].id == lastEventId
              && sent == RingStream(hub.log, since, replayed, point, QUEUE_SIZE)
    ensures lastEventId != [] && !HasId(Last(hub.log[..replayed], hub.bufferSize), lastEventId) ==>
              match JournalReplay(journal, lastEventId)
              case None => sent == [SnapshotRequired] + Frames(Backlog(hub.log, since, QUEUE_SIZE))
              case Some(rows) =>
                if Sendable(Events(rows)) == Events(rows)
                then sent == JournalStream(rows, hub.log, since, QUEUE_SIZE)
                else sent == Frames(Sendable(Events(rows)))
  {
    hide Last, HasId, Backlog, Frames, Fetch, Sendable, JournalReplay, EventHub.RingValid;
    since := |hub.log|;
    var q := hub.Subscribe(QUEUE_SIZE);
    PublishAll(hub, meanwhile);
    replayed := |hub.log|;
    ghost var logThen := hub.log;
    var raised;
    sent, raised, point := Replay(hub, lastEventId, journal);
    PublishAll(hub, later);
    assert hub.log[..replayed] == logThen;
    assert q in hub.subscribers && q.Follows(hub.log) && q.taken == [];
    if !raised {
      var live := Drain(hub, q);
      sent := sent + Frames(live);
    }
    hub.Unsubscribe(q);
  }

  const QUEUE_SIZE := 100

  /** The frames when the ring knows the id: the replay, and what waits in the queue. */
  function RingStream(log: seq<Event>, since: nat, replayed: nat, point: nat, maxsize: int): seq<Frame>
    requires since <= |log| && point < replayed <= |log|
  {
    Frames(log[point + 1..replayed]) + Frames(Backlog(log, since, maxsize))
  }

  /** The frames when the journal does. */
  function JournalStream(rows: seq<Row>, log: seq<Event>, since: nat, maxsize: int): seq<Frame>
    requires since <= |log|
  {
    Frames(Events(rows)) + Frames(Backlog(log, since, maxsize))
  }

  // ---- Gaps and repeats -----------------------------------------------------

  /**
   * The frames are the history after `point` without a hole: a stretch up to `upTo`, then one
   * that starts no later and runs to the end.
   */
  ghost predicate Gapless(sent: seq<Frame>, history: seq<Event>, point: nat, upTo: nat) {
    && point < upTo <= |history|
    && exists q: nat :: q <= upTo && sent == Frames(history[point + 1..upTo]) + Frames(history[q..])
  }

  lemma {:induction false} FramesAreOf(a: seq<Event>, b: seq<Event>)
    ensures Frames(a) == Frames(b) <==> a == b
    ensures Frames(a + b) == Frames(a) + Frames(b)
  {
    if Frames(a) == Frames(b) {
      assert forall i :: 0 <= i < |a| ==> Frames(a)[i] == Data(a[i]) && Frames(b)[i] == Data(b[i]);
    }
  }

  /** Where the queue of a client that has read nothing starts. */
  function QueueStart(log: seq<Event>, since: nat, maxsize: nat): (q: nat)
    requires since <= |log| && maxsize > 0
    ensures q <= |log| && Backlog(log, since, maxsize) == log[q..]
    ensures since <= q && |log| - maxsize <= q && (q == since || q == |log| - maxsize)
  {
    if |log| - since <= maxsize then since else |log| - maxsize
  }

  lemma {:induction false} GaplessByStart(history: seq<Event>, point: nat, upTo: nat, q: nat)
    requires point < upTo <= |history| && q <= |history|
    ensures Gapless(Frames(history[point + 1..upTo]) + Frames(history[q..]), history, point, upTo) <==> q <= upTo
  {
    var sent := Frames(history[point + 1..upTo]) + Frames(history[q..]);
    assert |sent| == upTo - point - 1 + |history| - q;
  }

  /**
   * Reconnection through the ring leaves no gap after `Last-Event-ID` exactly when at most the
   * queue's capacity of events is accepted between the replay and the client's reading.
   */
  lemma {:induction false} GapFreeIff(log: seq<Event>, since: nat, replayed: nat, point: nat, maxsize: nat)
    requires since <= replayed <= |log| && point < replayed && maxsize > 0
    ensures Gapless(RingStream(log, since, replayed, point, maxsize), log, point, replayed)
       <==> |log| - replayed <= maxsize
    ensures |log| - replayed <= maxsize ==> SendsAll(RingStream(log, since, replayed, point, maxsize), log, point)
  {
    hide SendsAll;
    GaplessByStart(log, point, replayed, QueueStart(log, since, maxsize));
    if |log| - replayed <= maxsize {
      GaplessMeansAllSent(RingStream(log, since, replayed, point, maxsize), log, point, replayed);
    }
  }

  /** Every event after `point` is in some frame. */
  predicate SendsAll(sent: seq<Frame>, history: seq<Event>, point: nat) {
    forall i :: point < i < |history| ==> Data(history[i]) in sent
  }

  lemma {:induction false} GaplessMeansAllSent(sent: seq<Frame>, history: seq<Event>, point: nat, upTo: nat)
    requires Gapless(sent, history, point, upTo)
    ensures SendsAll(sent, history, point)
  {
    hide Gapless;
    forall i | point < i < |history|
      ensures Data(history[i]) in sent
    {
      GaplessSendsAll(sent, history, point, upTo, i);
    }
  }

  /** As deployed, that is up to a hundred events. */
  lemma {:induction false} HundredEventsWait(log: seq<Event>, since: nat, replayed: nat, point: nat)
    requires since <= replayed <= |log| && point < replayed
    ensures Gapless(RingStream(log, since, replayed, point, QUEUE_SIZE), log, point, replayed)
       <==> |log| - replayed <= 100
  {
    GapFreeIff(log, since, replayed, point, QUEUE_SIZE);
    hide Gapless, RingStream;
  }

  lemma {:induction false} GaplessSendsAll(sent: seq<Frame>, history: seq<Event>, point: nat, upTo: nat, i: nat)
    requires Gapless(sent, history, point, upTo) && point < i < |history|
    ensures Data(history[i]) in sent
  {
    var q: nat :| q <= upTo && sent == Frames(history[point + 1..upTo]) + Frames(history[q..]);
    if i < upTo {
      assert sent[i - point - 1] == Data(history[i]);
    } else {
      assert sent[upTo - point - 1 + i - q] == Data(history[i]);
    }
  }

  /** Otherwise the first event after the replay, unless it is published twice, is never sent. */
  lemma {:induction false} LostEventIsNotSent(log: seq<Event>, since: nat, replayed: nat, point: nat, maxsize: nat)
    requires since <= replayed <= |log| && point < replayed && maxsize > 0 && |log| - replayed > maxsize
    requires forall i :: point < i < |log| && i != replayed ==> log[i] != log[replayed]
    ensures Data(log[replayed]) !in RingStream(log, since, replayed, point, maxsize)
  {
    var q := QueueStart(log, since, maxsize);
    var sent, a, b := RingStream(log, since, replayed, point, maxsize), log[point + 1..replayed], log[q..];
    hide RingStream, Backlog, QueueStart;
    assert sent == Frames(a) + Frames(b);
    forall k | 0 <= k < |sent|
      ensures sent[k] != Data(log[replayed])
    {
      var i := if k < |a| then point + 1 + k else q + k - |a|;
      assert sent[k] == Data(log[i]);
    }
  }

  /** Among events that are each published once, all that follow `Last-Event-ID` are sent under the same condition. */
  lemma {:induction false} AllSentIff(log: seq<Event>, since: nat, replayed: nat, point: nat, maxsize: nat)
    requires since <= replayed <= |log| && point < replayed && maxsize > 0
    requires forall i, j :: point < i < j < |log| ==> log[i] != log[j]
    ensures SendsAll(RingStream(log, since, replayed, point, maxsize), log, point) <==> |log| - replayed <= maxsize
  {
    hide RingStream, Gapless;
    GapFreeIff(log, since, replayed, point, maxsize);
    if |log| - replayed > maxsize {
      LostEventIsNotSent(log, since, replayed, point, maxsize);
    }
  }

  /**
   * Each event after `Last-Event-ID` is sent exactly once, and nothing else, exactly when the queue
   * starts where the replay ends: events accepted between subscription and replay come twice.
   */
  lemma {:induction false} SentOnceIff(log: seq<Event>, since: nat, replayed: nat, point: nat, maxsize: nat)
    requires since <= replayed <= |log| && point < replayed && maxsize > 0
    ensures RingStream(log, since, replayed, point, maxsize) == Frames(log[point + 1..])
       <==> |log| - replayed <= maxsize && (since == replayed || |log| - replayed == maxsize)
  {
    var q := QueueStart(log, since, maxsize);
    if q == replayed {
      assert log[point + 1..replayed] + log[replayed..] == log[point + 1..];
      FramesAreOf(log[point + 1..replayed], log[replayed..]);
    }
    assert |RingStream(log, since, replayed, point, maxsize)| == replayed - point - 1 + |log| - q;
  }

  // ---- Gaps when only the journal knows the id -------------------------------

  predicate UniqueEvents(rows: seq<Row>) {
    forall i, j :: 0 <= i < j < |rows| ==> rows[i].ev.id != rows[j].ev.id
  }

  /** The fallback replays the rows after the client's, up to fifty. */
  lemma {:induction false} JournalReplaysFifty(rows: seq<Row>, p: nat)
    requires Ascending(rows) && UniqueEvents(rows) && p < |rows|
    ensures JournalReplay(Some(rows), rows[p].ev.id)
         == Some(rows[p + 1..p + 1 + Min(FETCH_LIMIT, |rows| - p - 1)])
  {
    hide Fetch, Seen;
    var row := RowWithId(rows, rows[p].ev.id).value;
    var i :| 0 <= i < |rows| && rows[i] == row;
    assert i == p;
    FetchIsSlice(rows, row.id, FETCH_LIMIT);
    SeenIs(rows, row.id, p + 1);
  }

  /** The hub's log is what was forwarded from the journal, from row `base` on. */
  ghost predicate Forwarded(log: seq<Event>, journal: seq<Row>, base: nat) {
    base + |log| <= |journal| && forall i :: 0 <= i < |log| ==> log[i] == journal[base + i].ev
  }

  /**
   * Reconnection through the journal, whose first `there` rows were there at the replay and whose
   * rows reach the hub by the poller: no gap up to what the hub has accepted (it may still be
   * behind the replay) exactly when the fifty rows reach the subscription and the start of the queue,
   * and every row the hub has accepted after the client's is sent under the same condition.
   */
  lemma {:induction false} JournalGapFreeIff(
    journal: seq<Row>, there: nat, p: nat, log: seq<Event>, base: nat, since: nat, maxsize: nat)
    requires Ascending(journal) && UniqueEvents(journal) && p < there <= |journal| && maxsize > 0
    requires Forwarded(log, journal, base) && since <= |log|
    ensures var rows := JournalReplay(Some(journal[..there]), journal[p].ev.id);
            var upTo := p + 1 + Min(FETCH_LIMIT, there - p - 1);
            && rows == Some(journal[p + 1..upTo])
            && (base + |log| < upTo
                || Gapless(JournalStream(rows.value, log, since, maxsize), Events(journal[..base + |log|]), p, upTo)
                <==> base + since <= upTo && base + |log| - maxsize <= upTo)
            && (SendsAll(JournalStream(rows.value, log, since, maxsize), Events(journal[..base + |log|]), p)
                <==> base + since <= upTo && base + |log| - maxsize <= upTo)
  {
    hide JournalReplay, Fetch, Seen, Gapless, SendsAll, JournalStream, Forwarded, QueueStart;
    var first := journal[..there];
    assert Ascending(first) && UniqueEvents(first) && first[p] == journal[p];
    JournalReplaysFifty(first, p);
    var upTo := p + 1 + Min(FETCH_LIMIT, there - p - 1);
    assert first[p + 1..upTo] == journal[p + 1..upTo];
    ForwardedFits(log, journal, base);
    JournalSendsAllIff(journal, p, upTo, log, base, since, maxsize);
    if upTo <= base + |log| {
      JournalGapByStart(journal, p, upTo, log, base, since, maxsize);
    }
  }

  lemma {:induction false} JournalSendsAllIff(
    journal: seq<Row>, p: nat, upTo: nat, log: seq<Event>, base: nat, since: nat, maxsize: nat)
    requires UniqueEvents(journal) && Forwarded(log, journal, base) && since <= |log| && maxsize > 0
    requires p < upTo <= |journal|
    ensures SendsAll(JournalStream(journal[p + 1..upTo], log, since, maxsize), Events(journal[..base + |log|]), p)
       <==> base + QueueStart(log, since, maxsize) <= upTo
  {
    hide Frames, Events, Backlog, QueueStart;
    var q, n := QueueStart(log, since, maxsize), base + |log|;
    var replayed, live := Events(journal[p + 1..upTo]), log[q..];
    var sent, history := JournalStream(journal[p + 1..upTo], log, since, maxsize), Events(journal[..n]);
    assert sent == Frames(replayed) + Frames(live);
    assert forall k :: 0 <= k < |replayed| ==> sent[k] == Data(journal[p + 1 + k].ev);
    assert forall k :: |replayed| <= k < |sent| ==> sent[k] == Data(journal[base + q + k - |replayed|].ev);
    if base + q <= upTo {
      forall i | p < i < n
        ensures Data(history[i]) in sent
      {
        assert sent[if i < upTo then i - p - 1 else |replayed| + i - base - q] == Data(journal[i].ev);
      }
    } else {
      assert history[upTo] == journal[upTo].ev;
    }
  }

  lemma {:induction false} ForwardedFits(log: seq<Event>, journal: seq<Row>, base: nat)
    requires Forwarded(log, journal, base)
    ensures base + |log| <= |journal|
  {
  }

  lemma {:induction false} JournalGapByStart(
    journal: seq<Row>, p: nat, upTo: nat, log: seq<Event>, base: nat, since: nat, maxsize: nat)
    requires Forwarded(log, journal, base) && since <= |log| && maxsize > 0 && p < upTo <= base + |log| <= |journal|
    ensures Gapless(JournalStream(journal[p + 1..upTo], log, since, maxsize), Events(journal[..base + |log|]), p, upTo)
       <==> base + QueueStart(log, since, maxsize) <= upTo
  {
    hide Gapless, Frames;
    var history, q := Events(journal[..base + |log|]), QueueStart(log, since, maxsize);
    ForwardedSlices(journal, p, upTo, log, base, q);
    hide Events, Forwarded, Backlog;
    GaplessByStart(history, p, upTo, base + q);
  }

  lemma {:induction false} ForwardedSlices(journal: seq<Row>, p: nat, upTo: nat, log: seq<Event>, base: nat, q: nat)
    requires Forwarded(log, journal, base) && p < upTo <= base + |log| <= |journal| && q <= |log|
    ensures var history := Events(journal[..base + |log|]);
            history[p + 1..upTo] == Events(journal[p + 1..upTo]) && history[base + q..] == log[q..]
  {
  }

  /**
   * Nothing arrives any more and the hub is up to date: a client misses events exactly when it is
   * over fifty rows behind.
   */
  lemma {:induction false} QuietGapFreeIff(journal: seq<Row>, p: nat, log: seq<Event>, base: nat, maxsize: nat)
    requires Ascending(journal) && UniqueEvents(journal) && p < |journal| && maxsize > 0
    requires Forwarded(log, journal, base) && base + |log| == |journal|
    ensures var rows := JournalReplay(Some(journal), journal[p].ev.id);
            && rows.Some?
            && (Gapless(JournalStream(rows.value, log, |log|, maxsize), Events(journal), p, p + 1 + |rows.value|)
                <==> |journal| - p - 1 <= FETCH_LIMIT)
  {
    hide JournalReplay, Gapless;
    assert journal[..|journal|] == journal;
    JournalGapFreeIff(journal, |journal|, p, log, base, |log|, maxsize);
  }

  /** `n` valid rows with ids "e", "ee", "eee", ... */
  function Numbered(n: nat): (rows: seq<Row>)
    ensures |rows| == n
    ensures forall i :: 0 <= i < n ==> rows[i] == Row(i, Event(seq(i + 1, _ => 'e'), "HEARTBEAT", "INFO"))
  {
    seq(n, i requires 0 <= i < n => Row(i, Event(seq(i + 1, _ => 'e'), "HEARTBEAT", "INFO")))
  }

  lemma {:induction false} EmptyBacklog(log: seq<Event>)
    ensures Backlog(log, |log|, QUEUE_SIZE) == []
  {
    assert log[|log|..] == [];
  }

  /** The frames when the queue is empty, and an event that is not among them. */
  lemma {:induction false} NothingWaits(rows: seq<Row>, log: seq<Event>, missing: Event)
    requires forall i :: 0 <= i < |rows| ==> rows[i].ev != missing
    ensures Data(missing) !in JournalStream(rows, log, |log|, QUEUE_SIZE)
  {
    EmptyBacklog(log);
    hide Backlog;
    var sent := JournalStream(rows, log, |log|, QUEUE_SIZE);
    assert |sent| == |rows|;
    assert forall i :: 0 <= i < |rows| ==> sent[i] == Data(rows[i].ev);
  }

  /** Fifty-two rows, a client that has seen the first, nothing new: the last row is never sent. */
  lemma {:induction false} FiftyOneBehindExample()
    ensures var rows := Numbered(52);
            && JournalReplay(Some(rows), "e") == Some(rows[1..51])
            && Data(rows[51].ev) !in JournalStream(rows[1..51], Events(rows), 52, QUEUE_SIZE)
  {
    hide JournalReplay, Fetch, Numbered, JournalStream, Frames, Events;
    var rows := Numbered(52);
    assert rows[0].ev.id == "e";
    assert forall i :: 0 <= i < 52 ==> |rows[i].ev.id| == i + 1;
    assert Ascending(rows) && UniqueEvents(rows);
    JournalReplaysFifty(rows, 0);
    hide UniqueEvents, Ascending;
    NothingWaits(rows[1..51], Events(rows), rows[51].ev);
  }

  // ---- The cross-process poller ---------------------------------------------

  function LastId(rows: seq<Row>, otherwise: int): int {
    if rows == [] then otherwise else rows[|rows| - 1].id
  }

  /** The forwarding loop; a row that `publish` refuses raises, so the rows after it wait behind it. */
  method Forward(hub: EventHub, records: seq<Row>, lastSeen: int) returns (forwarded: seq<Row>, newLast: int)
    requires hub.Valid() && Ascending(records) && (records != [] ==> records[0].id > lastSeen)
    modifies hub`ring, hub`log
    modifies set q | q in hub.subscribers :: q`items
    modifies set q | q in hub.subscribers :: q`dropped
    ensures hub.Valid() && old(hub.log) <= hub.log
    ensures forwarded == ValidPrefix(records) && newLast == LastId(forwarded, lastSeen)
  {
    hide *;
    forwarded, newLast := [], lastSeen;
    LastOfNone(lastSeen);
    var i := 0;
    while i < |records|
      invariant hub.Valid() && old(hub.log) <= hub.log
      invariant 0 <= i <= |records| && forwarded == records[..i]
      invariant forall j :: 0 <= j < i ==> WellFormed(records[j].ev)
      invariant newLast == LastId(forwarded, lastSeen)
    {
      NextIsGreater(records, i, lastSeen);
      var outcome := hub.Publish(records[i].ev);
      if outcome.Refused? {
        ValidPrefixIs(records, i);
        return;
      }
      newLast := if newLast < records[i].id then records[i].id else newLast;
      forwarded := forwarded + [records[i]];
      i := i + 1;
    }
    ValidPrefixIs(records, i);
  }

  method PollOnce(hub: EventHub, rows: seq<Row>, lastSeen: int) returns (forwarded: seq<Row>, newLast: int)
    requires hub.Valid() && Ascending(rows)
    modifies hub`ring, hub`log
    modifies set q | q in hub.subscribers :: q`items
    modifies set q | q in hub.subscribers :: q`dropped
    ensures hub.Valid() && old(hub.log) <= hub.log
    ensures forwarded == ValidPrefix(Fetch(rows, lastSeen, FETCH_LIMIT))
    ensures newLast == LastId(forwarded, lastSeen)
  {
    var records := Fetch(rows, lastSeen, FETCH_LIMIT);
    FetchAscends(rows, lastSeen, FETCH_LIMIT);
    forwarded, newLast := Forward(hub, records, lastSeen);
  }

  lemma {:induction false} LastOfNone(start: int)
    ensures LastId([], start) == start
  {
  }

  lemma {:induction false} ValidPrefixIs(rows: seq<Row>, i: nat)
    requires i <= |rows| && forall j :: 0 <= j < i ==> WellFormed(rows[j].ev)
    requires i < |rows| ==> !WellFormed(rows[i].ev)
    ensures ValidPrefix(rows) == rows[..i]
  {
    hide WellFormed;
    if i > 0 {
      ValidPrefixIs(rows[1..], i - 1);
      assert rows[..i] == [rows[0]] + rows[1..][..i - 1];
    }
  }

  /** The cursor is behind the next row, and moves onto it. */
  lemma {:induction false} NextIsGreater(rows: seq<Row>, i: nat, start: int)
    requires Ascending(rows) && i < |rows| && rows[0].id > start
    ensures LastId(rows[..i], start) < rows[i].id == LastId(rows[..i + 1], start)
    ensures rows[..i + 1] == rows[..i] + [rows[i]]
  {
  }

  lemma {:induction false} FetchAscends(rows: seq<Row>, after: int, limit: nat)
    requires Ascending(rows)
    ensures Ascending(Fetch(rows, after, limit))
    ensures forall i :: 0 <= i < |Fetch(rows, after, limit)| ==> Fetch(rows, after, limit)[i].id > after
  {
    hide Fetch, Seen;
    FetchIsSlice(rows, after, limit);
    SeenSplits(rows, after);
  }

  lemma {:induction false} SeenSplits(rows: seq<Row>, seen: int)
    requires Ascending(rows)
    ensures forall i :: 0 <= i < |rows| ==> (rows[i].id <= seen <==> i < Seen(rows, seen))
  {
    if rows != [] {
      SeenSplits(rows[1..], seen);
    }
  }

  /** In an ascending journal a fetch is the next stretch of unseen rows. */
  lemma {:induction false} FetchIsSlice(rows: seq<Row>, after: int, limit: nat)
    requires Ascending(rows)
    ensures var n := Seen(rows, after); Fetch(rows, after, limit) == rows[n..n + Min(limit, |rows| - n)]
    decreases |rows|
  {
    if rows != [] && limit > 0 {
      var rest := rows[1..];
      if rows[0].id > after {
        FetchIsSlice(rest, after, limit - 1);
        AllUnseen(rows, after);
        assert [rows[0]] + rest[..Min(limit - 1, |rest|)] == rows[..Min(limit, |rows|)];
      } else {
        FetchIsSlice(rest, after, limit);
        SliceShifts(rows, Seen(rest, after), Min(limit, |rest| - Seen(rest, after)));
      }
    }
  }

  lemma {:induction false} SliceShifts(rows: seq<Row>, n: nat, m: nat)
    requires rows != [] && n + m < |rows|
    ensures rows[1..][n..n + m] == rows[n + 1..n + 1 + m]
  {
  }

  lemma {:induction false} SeenIs(rows: seq<Row>, seen: int, n: nat)
    requires Ascending(rows) && n <= |rows|
    requires forall i :: 0 <= i < |rows| ==> (rows[i].id <= seen <==> i < n)
    ensures Seen(rows, seen) == n
  {
    hide Seen;
    SeenSplits(rows, seen);
    var m := Seen(rows, seen);
    assert m < |rows| ==> rows[m].id > seen;
    assert n < |rows| ==> rows[n].id > seen;
  }

  lemma {:induction false} AllUnseen(rows: seq<Row>, after: int)
    requires Ascending(rows) && rows != [] && rows[0].id > after
    ensures Seen(rows, after) == Seen(rows[1..], after) == 0
  {
    hide Seen;
    SeenIs(rows, after, 0);
    SeenIs(rows[1..], after, 0);
  }

  // ---- Runs of the poller ---------------------------------------------------

  /** All rows forwarded by polling these states of the journal in turn, and the last id seen. */
  function PollRun(journals: seq<seq<Row>>, start: int): (seq<Row>, int) {
    if journals == [] then ([], start)
    else
      var (forwarded, last) := PollRun(journals[..|journals| - 1], start);
      var more := ValidPrefix(Fetch(journals[|journals| - 1], last, FETCH_LIMIT));
      (forwarded + more, LastId(more, last))
  }

  /** The journal gains rows with increasing ids at its end. */
  ghost predicate Growing(journals: seq<seq<Row>>) {
    && (forall i :: 0 <= i < |journals| ==> Ascending(journals[i]))
    && (forall i, j :: 0 <= i < j < |journals| ==> journals[i] <= journals[j])
  }

  lemma {:induction false} ValidPrefixIsPrefix(rows: seq<Row>)
    ensures ValidPrefix(rows) <= rows
    ensures |ValidPrefix(rows)| < |rows| ==> !WellFormed(rows[|ValidPrefix(rows)|].ev)
    ensures forall i :: 0 <= i < |ValidPrefix(rows)| ==> WellFormed(rows[i].ev)
  {
    if rows != [] && WellFormed(rows[0].ev) {
      ValidPrefixIsPrefix(rows[1..]);
    }
  }

  /** What one poll forwards, and where it leaves the cursor. */
  lemma {:induction false} PollTakesASlice(rows: seq<Row>, last: int)
    requires Ascending(rows)
    ensures var more, n := ValidPrefix(Fetch(rows, last, FETCH_LIMIT)), Seen(rows, last);
            && n + |more| <= |rows| && more == rows[n..n + |more|]
            && Seen(rows, LastId(more, last)) == n + |more|
            && (more != [] ==> rows[|rows| - 1].id >= rows[n + |more| - 1].id == LastId(more, last) > last)
  {
    hide Fetch, Seen, ValidPrefix, WellFormed;
    FetchIsSlice(rows, last, FETCH_LIMIT);
    SeenSplits(rows, last);
    var records := Fetch(rows, last, FETCH_LIMIT);
    ValidPrefixIsPrefix(records);
    var more := ValidPrefix(records);
    if more != [] {
      SeenIs(rows, LastId(more, last), Seen(rows, last) + |more|);
    }
  }

  /** A poll advances exactly when `publish` accepts the first unseen row; an invalid row blocks all later ones. */
  lemma {:induction false} PollAdvancesIff(rows: seq<Row>, last: int)
    requires Ascending(rows)
    ensures ValidPrefix(Fetch(rows, last, FETCH_LIMIT)) != []
       <==> Seen(rows, last) < |rows| && WellFormed(rows[Seen(rows, last)].ev)
  {
    hide Fetch, Seen, WellFormed;
    FetchIsSlice(rows, last, FETCH_LIMIT);
    var records := Fetch(rows, last, FETCH_LIMIT);
    assert records != [] ==> records[0] == rows[Seen(rows, last)];
  }

  /** Rows that appear later are beyond the cursor. */
  lemma {:induction false} SeenStays(earlier: seq<Row>, rows: seq<Row>, id: int)
    requires Ascending(rows) && earlier <= rows && earlier != [] && id <= earlier[|earlier| - 1].id
    ensures Seen(rows, id) == Seen(earlier, id) && id <= rows[|rows| - 1].id
  {
    hide Seen;
    assert forall i :: 0 <= i < |earlier| ==> earlier[i] == rows[i];
    SeenSplits(earlier, id);
    SeenIs(rows, id, Seen(earlier, id));
  }

  lemma {:induction false} GrowingFront(journals: seq<seq<Row>>)
    requires Growing(journals) && journals != []
    ensures var front := journals[..|journals| - 1];
            && Ascending(journals[|journals| - 1]) && Growing(front)
            && (front != [] ==> front[|front| - 1] <= journals[|journals| - 1])
  {
    hide Ascending;
  }

  lemma {:induction false} PollRunNext(journals: seq<seq<Row>>, start: int)
    ensures PollRun([], start) == ([], start)
    ensures journals != [] ==>
              var (f, last) := PollRun(journals[..|journals| - 1], start);
              var more := ValidPrefix(Fetch(journals[|journals| - 1], last, FETCH_LIMIT));
              PollRun(journals, start) == (f + more, LastId(more, last))
  {
    hide ValidPrefix, Fetch, LastId;
  }

  /** The rows forwarded so far are those between the start and the cursor. */
  predicate ForwardedUpTo(rows: seq<Row>, start: int, forwarded: seq<Row>, last: int) {
    && start <= last && Seen(rows, start) <= Seen(rows, last)
    && forwarded == rows[Seen(rows, start)..Seen(rows, last)]
    && (if forwarded == [] then last == start else rows != [] && last <= rows[|rows| - 1].id)
  }

  lemma {:induction false} ForwardedStays(earlier: seq<Row>, rows: seq<Row>, start: int, forwarded: seq<Row>, last: int)
    requires Ascending(rows) && earlier <= rows && ForwardedUpTo(earlier, start, forwarded, last)
    ensures ForwardedUpTo(rows, start, forwarded, last)
  {
    hide Seen, Ascending;
    if forwarded != [] {
      SeenStays(earlier, rows, start);
      SeenStays(earlier, rows, last);
    }
  }

  lemma {:induction false} ForwardedGrows(rows: seq<Row>, start: int, forwarded: seq<Row>, last: int)
    requires Ascending(rows) && ForwardedUpTo(rows, start, forwarded, last)
    ensures var more := ValidPrefix(Fetch(rows, last, FETCH_LIMIT));
            ForwardedUpTo(rows, start, forwarded + more, LastId(more, last))
  {
    hide Fetch, Seen, ValidPrefix, Ascending;
    PollTakesASlice(rows, last);
    var more := ValidPrefix(Fetch(rows, last, FETCH_LIMIT));
    var a, b := Seen(rows, start), Seen(rows, last);
    assert rows[a..b] + rows[b..b + |more|] == rows[a..b + |more|];
  }

  /** Every row after the start and up to the cursor is forwarded exactly once and in id order. */
  lemma {:induction false} ForwardedOnceInOrder(journals: seq<seq<Row>>, start: int)
    requires journals != [] && Growing(journals)
    ensures var (forwarded, last) := PollRun(journals, start);
            ForwardedUpTo(journals[|journals| - 1], start, forwarded, last)
  {
    hide *;
    var front, rows := journals[..|journals| - 1], journals[|journals| - 1];
    var (f, last) := PollRun(front, start);
    GrowingFront(journals);
    PollRunNext(journals, start);
    if front == [] {
      NothingForwarded(rows, start);
    } else {
      ForwardedOnceInOrder(front, start);
      ForwardedStays(front[|front| - 1], rows, start, f, last);
    }
    ForwardedGrows(rows, start, f, last);
  }

  lemma {:induction false} NothingForwarded(rows: seq<Row>, start: int)
    ensures ForwardedUpTo(rows, start, [], start)
  {
    hide Seen;
  }

  // ---- Rows that become visible out of id order ------------------------------

  /** Visible rows stay, and ids ascend, but a row can become visible after one with a greater id. */
  ghost predicate Accumulating(journals: seq<seq<Row>>) {
    && (forall i :: 0 <= i < |journals| ==> Ascending(journals[i]))
    && (forall i, j, r :: 0 <= i < j < |journals| && r in journals[i] ==> r in journals[j])
  }

  /** The cursor when the `k`-th poll starts. */
  function CursorBefore(journals: seq<seq<Row>>, start: int, k: nat): int
    requires k <= |journals|
  {
    PollRun(journals[..k], start).1
  }

  /** The first poll that finds the row visible. */
  function FirstVisible(journals: seq<seq<Row>>, r: Row): (k: nat)
    requires journals != [] && r in journals[|journals| - 1]
    ensures k < |journals| && r in journals[k]
    ensures k > 0 ==> r !in journals[k - 1]
  {
    var front := journals[..|journals| - 1];
    if front == [] || r !in front[|front| - 1] then |front| else FirstVisible(front, r)
  }

  /** A poll forwards exactly the visible rows its cursor passes over. */
  lemma {:induction false} PollPassesOver(rows: seq<Row>, last: int)
    requires Ascending(rows)
    ensures var more := ValidPrefix(Fetch(rows, last, FETCH_LIMIT));
            && Ascending(more) && last <= LastId(more, last)
            && forall r :: r in more <==> r in rows && last < r.id <= LastId(more, last)
  {
    hide Fetch, Seen, ValidPrefix;
    PollTakesASlice(rows, last);
    var more, n := ValidPrefix(Fetch(rows, last, FETCH_LIMIT)), Seen(rows, last);
    SeenSplits(rows, last);
    SeenSplits(rows, LastId(more, last));
    forall r | r in rows && last < r.id <= LastId(more, last)
      ensures r in more
    {
      var i :| 0 <= i < |rows| && rows[i] == r;
      assert more[i - n] == r;
    }
  }

  lemma {:induction false} AccumulatingFront(journals: seq<seq<Row>>)
    requires Accumulating(journals) && journals != []
    ensures var front, rows := journals[..|journals| - 1], journals[|journals| - 1];
            && Ascending(rows) && Accumulating(front)
            && forall r :: front != [] && r in front[|front| - 1] ==> r in rows
  {
    hide Ascending;
  }

  /** The ids forwarded so far ascend, hence no row is forwarded twice, and the cursor is the last of them. */
  lemma {:induction false} ForwardedAscend(journals: seq<seq<Row>>, start: int)
    requires Accumulating(journals)
    ensures var (forwarded, last) := PollRun(journals, start);
            && Ascending(forwarded) && start <= last
            && forall r :: r in forwarded ==> start < r.id <= last
  {
    hide PollRun, ValidPrefix, Fetch, LastId, Accumulating;
    PollRunNext(journals, start);
    if journals != [] {
      AccumulatingFront(journals);
      ForwardedAscend(journals[..|journals| - 1], start);
      PollPassesOver(journals[|journals| - 1], CursorBefore(journals, start, |journals| - 1));
    }
  }

  lemma {:induction false} CursorsOfFront(journals: seq<seq<Row>>, start: int, k: nat)
    requires journals != [] && k < |journals|
    ensures CursorBefore(journals, start, k) == CursorBefore(journals[..|journals| - 1], start, k)
    ensures CursorBefore(journals, start, |journals|) == PollRun(journals, start).1
  {
    hide PollRun;
    assert journals[..|journals| - 1][..k] == journals[..k];
    assert journals[..|journals|] == journals;
  }

  /**
   * A visible row is forwarded exactly when the cursor passes over it, and it is passed by without
   * being forwarded, in this run and in every longer one, exactly when it became visible behind the cursor.
   */
  lemma {:induction false} RowLostIff(journals: seq<seq<Row>>, start: int, r: Row)
    requires journals != [] && Accumulating(journals) && r in journals[|journals| - 1]
    ensures var (forwarded, last) := PollRun(journals, start);
            var cursor := CursorBefore(journals, start, FirstVisible(journals, r));
            && (r in forwarded <==> cursor < r.id <= last)
            && (r !in forwarded && r.id <= last <==> r.id <= cursor)
  {
    hide PollRun, ValidPrefix, Fetch, LastId, Accumulating, CursorBefore, Ascending;
    var n := |journals| - 1;
    var front, rows := journals[..n], journals[n];
    var k := FirstVisible(journals, r);
    PollRunNext(journals, start);
    AccumulatingFront(journals);
    CursorsOfFront(journals, start, k);
    CursorsOfFront(journals, start, n);
    AtTheEnd(front, start);
    ForwardedAscend(front, start);
    PollPassesOver(rows, PollRun(front, start).1);
    if k < n {
      RowLostIff(front, start, r);
    } else {
      NotVisibleNotForwarded(front, start, r);
    }
  }

  lemma {:induction false} AtTheEnd(journals: seq<seq<Row>>, start: int)
    ensures CursorBefore(journals, start, |journals|) == PollRun(journals, start).1
  {
    assert journals[..|journals|] == journals;
  }

  lemma {:induction false} NotVisibleNotForwarded(journals: seq<seq<Row>>, start: int, r: Row)
    requires Accumulating(journals) && (journals != [] ==> r !in journals[|journals| - 1])
    ensures r !in PollRun(journals, start).0
  {
    hide PollRun, ValidPrefix, Fetch, LastId, Accumulating, Ascending;
    PollRunNext(journals, start);
    if journals != [] {
      var front := journals[..|journals| - 1];
      AccumulatingFront(journals);
      PollPassesOver(journals[|journals| - 1], PollRun(front, start).1);
      NotVisibleNotForwarded(front, start, r);
    }
  }

  /** Two inserts whose transactions commit in the other order, with a poll in between: the first is never forwarded. */
  lemma {:induction false} LateRowIsLost(first: Event, second: Event)
    requires WellFormed(second)
    ensures var journals := [[Row(2, second)], [Row(1, first), Row(2, second)]];
            PollRun(journals, 0) == ([Row(2, second)], 2)
  {
    hide WellFormed;
    var a, b := Row(1, first), Row(2, second);
    PollRunNext([[b], [a, b]], 0);
    PollRunNext([[b]], 0);
    PollRunNext([], 0);
    assert [[b], [a, b]][..1] == [[b]] && [[b]][..0] == [];
    assert [b][1..] == [] && [a, b][1..] == [b];
    assert Fetch([b], 0, FETCH_LIMIT) == [b] && ValidPrefix([b]) == [b];
    assert PollRun([[b]], 0) == ([b], 2) by {
      assert [] + [b] == [b];
    }
    assert Fetch([b], 2, FETCH_LIMIT) == [];
    assert Fetch([a, b], 2, FETCH_LIMIT) == [] && ValidPrefix([]) == [];
    assert [b] + [] == [b];
  }
}
