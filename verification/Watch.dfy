// The resuming watch: client/fetch/watch.go.
//
// A Watch outlives its streams. Its methods below are the atomic steps of the two
// goroutines that share it (the reader's and the consumer's), so any interleaving is
// a sequence of calls. What the server may put on a stream is the contract `Allowed`.
module Watches {
  import opened Wrappers

  /** A position in the change sequence: an epoch, and how many of its events came before. */
  datatype Cursor = Zero | At(epoch: nat, seqNo: nat)

  /** A logged change. Matching: under the watched path. Known: an op this client knows. */
  datatype Event = Event(matching: bool, known: bool, id: nat)

  /** What Next returns. A change's cursor is the position just after its event. */
  datatype Notice = Change(cursor: Cursor, event: Event) | Resync(cursor: Cursor)

  /** One append-only event log per epoch; only the last epoch still grows. */
  type Logs = seq<seq<Event>>

  datatype Status = StatusOK | StatusResync | StatusClosing | StatusOther

  datatype Block =
    | Malformed
    | EventBlock(cursor: Cursor, event: Event)
    | Control(status: Status, position: Option<Cursor>)

  const WATCH_QUEUE_SIZE := 1024

  // ---------- Logs and positions ----------

  predicate ValidCursor(logs: Logs, c: Cursor) {
    c.At? && c.epoch < |logs| && c.seqNo <= |logs[c.epoch]|
  }

  ghost predicate Wanted(e: Event) { e.matching && e.known }

  /** Nothing the consumer wants lies between a and b. */
  ghost predicate Quiet(logs: Logs, a: Cursor, b: Cursor) {
    a == b ||
    (ValidCursor(logs, a) && ValidCursor(logs, b) && a.epoch == b.epoch && a.seqNo <= b.seqNo &&
     forall i :: a.seqNo <= i < b.seqNo ==> !Wanted(logs[a.epoch][i]))
  }

  ghost predicate Grows(old_: Logs, now: Logs) {
    |old_| <= |now| && forall e :: 0 <= e < |old_| ==> old_[e] <= now[e]
  }

  // ---------- Histories ----------

  /** Where a consumer stands before notice k of ns, having started at from. */
  function Before(from: Cursor, ns: seq<Notice>, k: nat): Cursor
    requires k <= |ns|
  {
    if k == 0 then from else ns[k - 1].cursor
  }

  function Last(from: Cursor, ns: seq<Notice>): Cursor { Before(from, ns, |ns|) }

  /** n is the next wanted event of its log after position c. */
  ghost predicate NextAfter(logs: Logs, c: Cursor, n: Notice) {
    n.Change? && ValidCursor(logs, n.cursor) && n.cursor.seqNo > 0 &&
    var i := n.cursor.seqNo - 1;
    logs[n.cursor.epoch][i] == n.event && Wanted(n.event) && Quiet(logs, c, At(n.cursor.epoch, i))
  }

  /** Every change in ns is the next wanted event after the notice in front of it. */
  ghost predicate Faithful(logs: Logs, from: Cursor, ns: seq<Notice>) {
    forall k: nat :: k < |ns| && ns[k].Change? ==> NextAfter(logs, Before(from, ns, k), ns[k])
  }

  lemma FaithfulNil(logs: Logs, from: Cursor)
    ensures Faithful(logs, from, [])
  {
  }

  lemma FaithfulAppend(logs: Logs, from: Cursor, ns: seq<Notice>, n: Notice)
    requires Faithful(logs, from, ns)
    requires n.Change? ==> NextAfter(logs, Last(from, ns), n)
    ensures Faithful(logs, from, ns + [n]) && Last(from, ns + [n]) == n.cursor
  {
    hide NextAfter;
    var all := ns + [n];
    forall k: nat | k < |all| && all[k].Change? ensures NextAfter(logs, Before(from, all, k), all[k]) {
      if k < |ns| { assert Before(from, all, k) == Before(from, ns, k); }
    }
  }

  /** A history can be cut anywhere: the front ends at a cursor the rest is faithful from. */
  lemma FaithfulSplit(logs: Logs, from: Cursor, ns: seq<Notice>, m: nat)
    requires m <= |ns| && Faithful(logs, from, ns)
    ensures Faithful(logs, from, ns[..m]) && Faithful(logs, Before(from, ns, m), ns[m..])
    ensures Last(from, ns[..m]) == Before(from, ns, m)
  {
    hide NextAfter;
    forall k: nat | k < m && ns[k].Change? ensures NextAfter(logs, Before(from, ns[..m], k), ns[..m][k]) {
      assert Before(from, ns[..m], k) == Before(from, ns, k);
    }
    var mid, rest := Before(from, ns, m), ns[m..];
    forall k: nat | k < |rest| && rest[k].Change? ensures NextAfter(logs, Before(mid, rest, k), rest[k]) {
      assert rest[k] == ns[m + k] && Before(mid, rest, k) == Before(from, ns, m + k);
    }
  }

  /** The converse: histories that meet at a cursor join. */
  lemma FaithfulJoin(logs: Logs, from: Cursor, a: seq<Notice>, b: seq<Notice>)
    requires Faithful(logs, from, a) && Faithful(logs, Last(from, a), b)
    ensures Faithful(logs, from, a + b) && Last(from, a + b) == Last(Last(from, a), b)
  {
    hide NextAfter;
    var all, mid := a + b, Last(from, a);
    forall k: nat | k < |all| && all[k].Change? ensures NextAfter(logs, Before(from, all, k), all[k]) {
      if k < |a| {
        assert Before(from, all, k) == Before(from, a, k);
      } else {
        assert Before(from, all, k) == Before(mid, b, k - |a|);
      }
    }
  }

  // ---------- The reference: a filter over the log ----------

  /** The wanted events of one epoch's log from lo up to hi, as notices. */
  ghost function Filtered(log: seq<Event>, epoch: nat, lo: nat, hi: nat): seq<Notice>
    requires lo <= hi <= |log|
    decreases hi - lo
  {
    if lo == hi then []
    else (if Wanted(log[lo]) then [Change(At(epoch, lo + 1), log[lo])] else []) + Filtered(log, epoch, lo + 1, hi)
  }

  lemma {:induction false} FilteredSplit(log: seq<Event>, epoch: nat, lo: nat, mid: nat, hi: nat)
    requires lo <= mid <= hi <= |log|
    ensures Filtered(log, epoch, lo, hi) == Filtered(log, epoch, lo, mid) + Filtered(log, epoch, mid, hi)
    decreases mid - lo
  {
    if lo < mid { FilteredSplit(log, epoch, lo + 1, mid, hi); }
  }

  lemma {:induction false} FilteredQuiet(log: seq<Event>, epoch: nat, lo: nat, hi: nat)
    requires lo <= hi <= |log| && forall i :: lo <= i < hi ==> !Wanted(log[i])
    ensures Filtered(log, epoch, lo, hi) == []
    decreases hi - lo
  {
    if lo < hi { FilteredQuiet(log, epoch, lo + 1, hi); }
  }

  /** A faithful run of changes is exactly the filtered log between where it starts and where it ends. */
  lemma {:induction false} ChangesAreTheLog(logs: Logs, from: Cursor, ns: seq<Notice>)
    requires Faithful(logs, from, ns) && ns != [] && forall n <- ns :: n.Change?
    ensures var to := Last(from, ns);
      && ValidCursor(logs, to) && from.At? && from.epoch == to.epoch && from.seqNo <= to.seqNo
      && ns == Filtered(logs[to.epoch], to.epoch, from.seqNo, to.seqNo)
    decreases |ns|
  {
    hide Filtered;
    hide Faithful;
    var m := |ns| - 1;
    var n := ns[m];
    var mid := Before(from, ns, m);
    FaithfulSplit(logs, from, ns, m);
    LastIsNext(logs, from, ns);
    assert ns == ns[..m] + [n];
    if m > 0 {
      assert forall x <- ns[..m] :: x in ns;
      ChangesAreTheLog(logs, from, ns[..m]);
    } else {
      assert ns[..m] == [];
      FilteredQuiet(logs[mid.epoch], mid.epoch, mid.seqNo, mid.seqNo);
    }
    LogStep(logs, from, mid, n);
  }

  lemma LastIsNext(logs: Logs, from: Cursor, ns: seq<Notice>)
    requires Faithful(logs, from, ns) && ns != [] && forall n <- ns :: n.Change?
    ensures NextAfter(logs, Before(from, ns, |ns| - 1), ns[|ns| - 1])
  {
    assert ns[|ns| - 1] in ns;
  }

  lemma LogStep(logs: Logs, from: Cursor, mid: Cursor, n: Notice)
    requires NextAfter(logs, mid, n)
    requires from.At? && mid.At? && from.epoch == mid.epoch && from.seqNo <= mid.seqNo
    ensures from.epoch == n.cursor.epoch && from.seqNo <= mid.seqNo <= n.cursor.seqNo <= |logs[from.epoch]|
    ensures Filtered(logs[from.epoch], from.epoch, from.seqNo, n.cursor.seqNo) ==
      Filtered(logs[from.epoch], from.epoch, from.seqNo, mid.seqNo) + [n]
  {
    hide Filtered;
    var e, i := n.cursor.epoch, n.cursor.seqNo - 1;
    FilteredOne(logs[e], e, i);
    FilteredQuiet(logs[e], e, mid.seqNo, i);
    FilteredSplit(logs[e], e, mid.seqNo, i, i + 1);
    FilteredSplit(logs[e], e, from.seqNo, mid.seqNo, i + 1);
  }

  lemma FilteredOne(log: seq<Event>, epoch: nat, i: nat)
    requires i < |log| && Wanted(log[i])
    ensures Filtered(log, epoch, i, i + 1) == [Change(At(epoch, i + 1), log[i])]
  {
    assert Filtered(log, epoch, i + 1, i + 1) == [];
  }

  // ---------- The server's side of a stream ----------

  /** No matching event (known or not) lies between two positions of one epoch. */
  predicate Unsent(logs: Logs, epoch: nat, lo: nat, hi: nat) {
    epoch < |logs| && lo <= hi <= |logs[epoch]| && forall i :: lo <= i < hi ==> !logs[epoch][i].matching
  }

  /** What a stream that stands at c may carry next: the next matching event, a control block
      whose cursor jumps over no matching event, a resync to any valid position, or garbage. */
  predicate Allowed(logs: Logs, c: Cursor, b: Block) {
    ValidCursor(logs, c) &&
    match b
    case Malformed => true
    case EventBlock(p, e) =>
      p.At? && p.epoch == c.epoch && p.seqNo > c.seqNo && ValidCursor(logs, p) && e.matching &&
      logs[p.epoch][p.seqNo - 1] == e && Unsent(logs, c.epoch, c.seqNo, p.seqNo - 1)
    case Control(s, None) => true
    case Control(s, Some(p)) =>
      ValidCursor(logs, p) && (s != StatusResync ==> p.epoch == c.epoch && Unsent(logs, c.epoch, c.seqNo, p.seqNo))
  }

  /** How a subscription can be answered: ok at the asked cursor (at the head when none was
      asked), resync when a resume is refused, a refusal, or no usable answer, with or without
      an attempt left. */
  datatype Answer = Acked(cursor: Cursor) | Resynced(cursor: Cursor) | Refused(retryLater: bool) | Lost(again: bool)

  predicate AnswerAllowed(logs: Logs, since: Cursor, a: Answer) {
    match a
    case Acked(c) => ValidCursor(logs, c) && (since.At? ==> c == since)
    case Resynced(c) => ValidCursor(logs, c) && since.At?
    case Refused(_) => true
    case Lost(_) => true
  }

  // ---------- The watch ----------

  /** Where the reading goroutine stands. */
  datatype Phase =
    | Opening                                   // subscribing, or waiting to try again
    | Queueing(notice: Notice)                  // accept holds a resync for a full queue
    | Pumping                                   // a stream is open at `stream`
    | Delivering(notice: Notice, ends: bool)    // deliver's first, non-blocking send is next
    | Blocked(notice: Notice)                   // queue was full: stream cancelled, send waits
    | Ended

  class Watch {
    // Where the next stream reopens from, and the cursor of the last notice Next returned.
    var stream: Cursor
    var consumed: Cursor
    var notices: seq<Notice>
    var phase: Phase
    // The constructor call has not returned yet: no consumer.
    var starting: bool
    // Where the first segment starts, and every notice Next has returned.
    ghost var start: Cursor
    ghost var returned: seq<Notice>

    ghost function Pending(): seq<Notice>
      reads this
    {
      if phase.Queueing? || phase.Delivering? || phase.Blocked? then [phase.notice] else []
    }

    /** Everything that reached the watch: returned, queued, or in the reader's hands. */
    ghost function History(): seq<Notice>
      reads this
    {
      returned + notices + Pending()
    }

    ghost predicate Valid(logs: Logs)
      reads this
    {
      && |notices| <= WATCH_QUEUE_SIZE
      && Faithful(logs, start, History())
      && (phase != Ended ==> Quiet(logs, Last(start, History()), stream))
      && (phase.Pumping? || (phase.Delivering? && !phase.ends) ==> ValidCursor(logs, stream))
      && (start == Zero <==> stream == Zero)
      && (stream == Zero ==> starting && History() == [] && (phase == Opening || phase == Ended))
      && (starting ==> phase.Opening? || phase.Queueing? || phase.Ended?)
      && (starting ==> returned == [] && (start.At? ==> consumed == start) && (History() == [] ==> stream == start))
      && (!starting ==> consumed == Last(start, returned) && start.At?)
    }

    constructor (since: Cursor, ghost logs: Logs)
      ensures Valid(logs) && starting && phase == Opening && stream == start == consumed == since
      ensures returned == notices == []
    {
      stream, consumed, notices, phase, starting := since, since, [], Opening, true;
      start, returned := since, [];
    }

    /** The logs moved on under the watch. */
    lemma StaysValid(old_: Logs, now: Logs)
      requires Valid(old_) && Grows(old_, now)
      ensures Valid(now)
    {
      if ValidCursor(old_, stream) { assert old_[stream.epoch] <= now[stream.epoch]; }
    }

    /** open, subscribe and accept: one answered attempt, from the stream cursor. */
    method Open(answer: Answer, ghost logs: Logs)
      requires Valid(logs) && phase == Opening && AnswerAllowed(logs, stream, answer)
      modifies this
      ensures Valid(logs) && returned == old(returned) && notices == old(notices)
      ensures old(start).At? ==> start == old(start)
      ensures answer.Acked? ==> phase == Pumping && stream == answer.cursor
      ensures answer.Resynced? ==> phase == Queueing(Resync(answer.cursor)) && stream == answer.cursor
      ensures answer.Acked? ==> !starting && consumed == if old(starting) && notices == [] then stream else old(consumed)
      ensures !answer.Acked? ==> consumed == old(consumed) && starting == old(starting)
      ensures answer.Refused? || answer.Lost? ==> stream == old(stream)
      ensures answer.Refused? ==> phase == if old(starting) || !answer.retryLater then Ended else Opening
      ensures answer.Lost? ==> phase == if old(starting) && !answer.again then Ended else Opening
    {
      hide Faithful;
      match answer
      case Acked(c) =>
        stream := c;
        phase := Pumping;
        if starting {
          if |notices| == 0 {
            // With nothing queued, a reader picks up at the cursor the server acknowledged.
            consumed := stream;
            if start == Zero { start := c; }
          }
          starting := false;
        }
        FaithfulNil(logs, c);
        assert History() == old(History());
      case Resynced(c) =>
        assert History() == returned + notices;
        FaithfulAppend(logs, start, History(), Resync(c));
        stream := c;
        phase := Queueing(Resync(c));
      case Refused(retryLater) =>
        if starting || !retryLater { phase := Ended; }
        assert History() == old(History());
      case Lost(again) =>
        if starting && !again { phase := Ended; }
        assert History() == old(History());
    }

    /** accept's send of a resync: the subscription is then tried again. */
    method QueueResync(ghost logs: Logs) returns (sent: bool)
      requires Valid(logs) && phase.Queueing?
      modifies this
      ensures Valid(logs) && returned == old(returned) && start == old(start)
      ensures sent == (|old(notices)| < WATCH_QUEUE_SIZE)
      ensures History() == old(History())
      ensures sent ==> phase == Opening
    {
      sent := |notices| < WATCH_QUEUE_SIZE;
      if sent {
        notices := notices + [phase.notice];
        phase := Opening;
        assert History() == old(History());
      }
    }

    /** One block read by pump. */
    method Pump(b: Block, ghost logs: Logs)
      requires Valid(logs) && phase == Pumping && Allowed(logs, stream, b)
      modifies this
      ensures Valid(logs) && returned == old(returned) && notices == old(notices) && start == old(start)
      ensures consumed == old(consumed)
      ensures b.EventBlock? ==> stream == b.cursor
      ensures b.Control? ==> stream == (if b.position.Some? then b.position.value else old(stream))
      ensures b.Malformed? || (b.Control? && b.status.StatusClosing?) ==> phase == Opening
      ensures b.Control? && b.status.StatusOK? ==> phase == Pumping
      ensures b.Control? && b.status.StatusOther? ==> phase == Ended
      ensures b.Control? && b.status.StatusResync? ==>
        phase == if b.position.None? then Opening else Delivering(Resync(b.position.value), true)
      ensures b.EventBlock? ==> phase == if b.event.known then Delivering(Change(b.cursor, b.event), false) else Pumping
    {
      hide Faithful;
      hide Quiet;
      hide NextAfter;
      assert History() == returned + notices;
      ghost var c0 := Last(start, History());
      StepQuiet(logs, c0, stream, b);
      match b {
      case Malformed =>
        phase := Opening;
      case EventBlock(c, e) =>
        if e.known {
          FaithfulAppend(logs, start, History(), Change(c, e));
          phase := Delivering(Change(c, e), false);
        }
        stream := c;
      case Control(status, position) =>
        if position.Some? {
          if status == StatusResync { FaithfulAppend(logs, start, History(), Resync(position.value)); }
          stream := position.value;
        }
        match status
        case StatusOK =>
        case StatusResync =>
          phase := if position.None? then Opening else Delivering(Resync(position.value), true);
        case StatusClosing => phase := Opening;
        case StatusOther => phase := Ended;
      }
      assert History() == if phase.Delivering? then old(History()) + [phase.notice] else old(History());
    }

    /** deliver: a full queue cancels the stream and keeps the notice in hand. */
    method Deliver(ghost logs: Logs) returns (sent: bool)
      requires Valid(logs) && phase.Delivering?
      modifies this
      ensures Valid(logs) && returned == old(returned) && start == old(start)
      ensures History() == old(History()) && stream == old(stream)
      ensures sent == (|old(notices)| < WATCH_QUEUE_SIZE)
      ensures phase == if !sent then Blocked(old(phase).notice) else if old(phase).ends then Opening else Pumping
    {
      var n, ends := phase.notice, phase.ends;
      sent := |notices| < WATCH_QUEUE_SIZE;
      if sent {
        notices := notices + [n];
        phase := if ends then Opening else Pumping;
      } else {
        phase := Blocked(n);
      }
      assert History() == old(History());
    }

    /** deliver's second send, once there is room: the stream is reopened after the notice. */
    method Unblock(ghost logs: Logs) returns (sent: bool)
      requires Valid(logs) && phase.Blocked?
      modifies this
      ensures Valid(logs) && returned == old(returned) && start == old(start)
      ensures History() == old(History()) && stream == old(stream)
      ensures sent == (|old(notices)| < WATCH_QUEUE_SIZE)
      ensures sent ==> phase == Opening
    {
      sent := |notices| < WATCH_QUEUE_SIZE;
      if sent {
        notices := notices + [phase.notice];
        phase := Opening;
        assert History() == old(History());
      }
    }

    /** The stream is lost, stalls, or is reset: the watch reopens from its cursor. */
    method Cut(ghost logs: Logs)
      requires Valid(logs) && phase == Pumping
      modifies this
      ensures Valid(logs) && phase == Opening && stream == old(stream) && History() == old(History())
      ensures returned == old(returned) && start == old(start)
    {
      phase := Opening;
    }

    /** The context ends: what the reader still held is dropped, what is queued stays. */
    method Cancel(ghost logs: Logs)
      requires Valid(logs) && !starting
      modifies `phase
      ensures Valid(logs) && phase == Ended && returned == old(returned) && notices == old(notices)
      ensures consumed == old(consumed) && start == old(start)
    {
      FaithfulSplit(logs, start, History(), |returned + notices|);
      assert History()[..|returned + notices|] == returned + notices;
      phase := Ended;
      assert History() == returned + notices;
    }

    /** Next, when a notice is queued. */
    method Next(ghost logs: Logs) returns (n: Notice)
      requires Valid(logs) && !starting && notices != []
      modifies this
      ensures Valid(logs) && [n] + notices == old(notices) && returned == old(returned) + [n]
      ensures consumed == n.cursor && History() == old(History())
      ensures stream == old(stream) && phase == old(phase) && start == old(start)
    {
      n := notices[0];
      notices := notices[1..];
      returned := returned + [n];
      consumed := n.cursor;
      assert History() == old(History());
    }
  }

  /** What a block a server may send does to a consumer at c0 whose stream stands quietly at c. */
  lemma StepQuiet(logs: Logs, c0: Cursor, c: Cursor, b: Block)
    requires Quiet(logs, c0, c) && Allowed(logs, c, b)
    ensures b.EventBlock? && b.event.known ==> NextAfter(logs, c0, Change(b.cursor, b.event))
    ensures b.EventBlock? && !b.event.known ==> Quiet(logs, c0, b.cursor)
    ensures b.EventBlock? ==> ValidCursor(logs, b.cursor) && Quiet(logs, b.cursor, b.cursor)
    ensures b.Control? && b.position.Some? ==> ValidCursor(logs, b.position.value)
    ensures b.Control? && b.position.Some? ==> Quiet(logs, b.position.value, b.position.value)
    ensures b.Control? && b.position.Some? && b.status != StatusResync ==> Quiet(logs, c0, b.position.value)
  {
    if b.EventBlock? {
      var before := At(b.cursor.epoch, b.cursor.seqNo - 1);
      assert Quiet(logs, c, before);
      if !b.event.known {
        assert Quiet(logs, before, b.cursor);
      }
    } else if b.Control? && b.position.Some? && b.status != StatusResync {
      assert Quiet(logs, c, b.position.value);
    }
  }

  // ---------- What a consumer may rely on ----------

  /** Between two resyncs Next returns a prefix of exactly the log's wanted events after the
      segment's starting cursor: in order, no gap, no duplicate. A segment [a, b) of the returned
      notices starts at the beginning or just after a resync. */
  lemma SegmentIsLogPrefix(w: Watch, logs: Logs, a: nat, b: nat)
    requires w.Valid(logs) && a < b <= |w.returned|
    requires forall k :: a <= k < b ==> w.returned[k].Change?
    ensures var from, segment := Before(w.start, w.returned, a), w.returned[a..b];
      && ValidCursor(logs, from)
      && segment <= Filtered(logs[from.epoch], from.epoch, from.seqNo, |logs[from.epoch]|)
  {
    var from, segment := Before(w.start, w.returned, a), w.returned[a..b];
    var n := |w.returned|;
    ReturnedFaithful(w, logs);
    FaithfulSplit(logs, w.start, w.returned, b);
    FaithfulSplit(logs, w.start, w.returned[..b], a);
    assert w.returned[..b][a..] == segment;
    assert Before(w.start, w.returned[..b], a) == from;
    ChangesAreTheLog(logs, from, segment);
    var to := Last(from, segment);
    FilteredSplit(logs[from.epoch], from.epoch, from.seqNo, to.seqNo, |logs[from.epoch]|);
  }

  lemma ReturnedFaithful(w: Watch, logs: Logs)
    requires w.Valid(logs)
    ensures Faithful(logs, w.start, w.returned)
    ensures Faithful(logs, Last(w.start, w.returned), w.notices + w.Pending())
  {
    hide Faithful;
    FaithfulSplit(logs, w.start, w.History(), |w.returned|);
    assert w.History()[..|w.returned|] == w.returned;
    assert w.History()[|w.returned|..] == w.notices + w.Pending();
    assert Before(w.start, w.History(), |w.returned|) == Last(w.start, w.returned);
  }

  /** Restarting misses nothing: whatever a second watch opened from Cursor() ever returns
      continues the first one's history without a gap or a repeat. */
  lemma RestartMissesNothing(w: Watch, next: Watch, earlier: Logs, logs: Logs)
    requires w.Valid(earlier) && !w.starting && Grows(earlier, logs)
    requires next.Valid(logs) && next.start == w.consumed
    ensures Faithful(logs, w.start, w.returned + next.returned)
  {
    ReturnedFaithful(w, earlier);
    ReturnedFaithful(next, logs);
    FaithfulJoin(logs, w.start, w.returned, next.returned);
  }

  /** Nothing is lost on the way either: with no resync outstanding, the queue and the notice in
      the reader's hands are the wanted events between Cursor() and the stream's position. */
  lemma QueueIsTheGap(w: Watch, logs: Logs)
    requires w.Valid(logs) && !w.starting && w.phase != Ended && ValidCursor(logs, w.stream)
    requires forall n <- w.notices + w.Pending() :: n.Change?
    ensures w.consumed.At? && w.consumed.epoch == w.stream.epoch && w.consumed.seqNo <= w.stream.seqNo
    ensures w.notices + w.Pending() ==
      Filtered(logs[w.stream.epoch], w.stream.epoch, w.consumed.seqNo, w.stream.seqNo)
  {
    var rest, to := w.notices + w.Pending(), w.stream;
    ReturnedFaithful(w, logs);
    assert w.History() == w.returned + rest;
    FaithfulJoin(logs, w.start, w.returned, rest);
    var mid := Last(w.consumed, rest);
    if rest != [] {
      ChangesAreTheLog(logs, w.consumed, rest);
    } else {
      FilteredQuiet(logs[mid.epoch], mid.epoch, mid.seqNo, mid.seqNo);
    }
    FilteredQuiet(logs[to.epoch], to.epoch, mid.seqNo, to.seqNo);
    FilteredSplit(logs[to.epoch], to.epoch, w.consumed.seqNo, mid.seqNo, to.seqNo);
  }

  // ---------- Every interleaving ----------

  /** Any number of steps of the log, the server, the network, the reader and the consumer, in any
      order, with every choice left open: the watch stays valid, so the lemmas above always apply. */
  method AnyRun(since: Cursor, steps: nat, blocks: seq<Block>, answers: seq<Answer>, events: seq<Event>)
    returns (w: Watch, logs: Logs)
    ensures fresh(w) && w.Valid(logs)
  {
    logs := [[]];
    w := new Watch(since, logs);
    var k := 0;
    while k < steps
      invariant w.Valid(logs) && |logs| > 0 && fresh(w)
      decreases steps - k
    {
      ghost var was := logs;
      if {
        case true =>
          var e := if k < |events| then events[k] else Event(true, true, k);
          logs := logs[|logs| - 1 := logs[|logs| - 1] + [e]];
          w.StaysValid(was, logs);
        case true =>
          logs := logs + [[]];
          w.StaysValid(was, logs);
        case w.phase == Opening && k < |answers| && AnswerAllowed(logs, w.stream, answers[k]) => w.Open(answers[k], logs);
        case w.phase == Pumping && k < |blocks| && Allowed(logs, w.stream, blocks[k]) => w.Pump(blocks[k], logs);
        case w.phase == Pumping => w.Cut(logs);
        case w.phase.Queueing? => var _ := w.QueueResync(logs);
        case w.phase.Delivering? => var _ := w.Deliver(logs);
        case w.phase.Blocked? => var _ := w.Unblock(logs);
        case !w.starting && w.notices != [] => var _ := w.Next(logs);
        case !w.starting => w.Cancel(logs);
      }
      k := k + 1;
    }
  }
}
