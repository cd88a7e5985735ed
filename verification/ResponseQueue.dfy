/**
 Command responses on their way back to the UART: an 8-slot ring of responses that drops the
 oldest one when it is full, drained into the transmit ring at most 64 bytes a call and
 resumed in the middle of a response when the transmit ring fills up.

 `Queue` remembers every response ever queued, so that what was handed over can be compared
 with what was asked for.
 */
module ResponseQueue {
  import opened Bytes
  import Ring
  import Tx = TxStaging

  const SLOTS: nat := 8
  const MAX_LEN: nat := 256
  const BUDGET: nat := 64

  /** One response: its text, how much of it went out, and whether it was thrown away. */
  datatype Record = Record(text: Text, sent: nat, dropped: bool) {
    predicate Finished() { sent == |text| }
  }

  /** What went out of a record, and what did not. */
  function Head(r: Record): Text { if r.sent <= |r.text| then r.text[..r.sent] else r.text }

  function Rest(r: Record): Text { if r.sent <= |r.text| then r.text[r.sent..] else [] }

  function Heads(records: seq<Record>): (heads: seq<Text>)
    ensures |heads| == |records|
  {
    seq(|records|, i requires 0 <= i < |records| => Head(records[i]))
  }

  function Rests(records: seq<Record>): (rests: seq<Text>)
    ensures |rests| == |records|
  {
    seq(|records|, i requires 0 <= i < |records| => Rest(records[i]))
  }

  /** The last `live` records are still queued; `handed` is all that went to the UART. */
  datatype Queue = Queue(records: seq<Record>, live: nat, handed: Text) {
    function First(): (i: nat)
      requires live <= |records|
    {
      |records| - live
    }

    /** The responses still queued, oldest first. */
    function Window(): (w: seq<Record>)
      requires live <= |records|
      ensures |w| == live
    {
      records[First()..]
    }

    ghost predicate Shape() {
      && live <= SLOTS && live <= |records|
      && forall i :: 0 <= i < |records| ==>
           0 < |records[i].text| < MAX_LEN && records[i].sent <= |records[i].text|
    }

    /** Responses leave in the order they came: those before the window are finished or dropped,
        the oldest queued one may be half sent, the others have not been touched. */
    ghost predicate InOrder()
      requires live <= |records|
    {
      && (forall i :: 0 <= i < First() ==> records[i].dropped || records[i].Finished())
      && (forall i :: First() <= i < |records| ==> !records[i].dropped && !records[i].Finished())
      && (forall i :: First() < i < |records| ==> records[i].sent == 0)
    }

    /** What was handed over is exactly the sent part of each response, in order. */
    ghost predicate Valid() {
      Shape() && InOrder() && handed == Flatten(Heads(records))
    }

    /** What is queued and not yet handed over. */
    function Waiting(): Text {
      if live <= |records| then Flatten(Rests(records[First()..])) else []
    }
  }

  const NOTHING: Queue := Queue([], 0, [])

  function Cut(data: Text): Text {
    if |data| > MAX_LEN - 1 then data[..MAX_LEN - 1] else data
  }

  function DropOldest(q: Queue): Queue
    requires q.Valid() && q.live > 0
  {
    var i := q.First();
    q.(records := q.records[i := q.records[i].(dropped := true)], live := q.live - 1)
  }

  function Enqueued(q: Queue, data: Text): Queue
    requires q.Valid()
  {
    if data == [] then q
    else
      var r := if q.live >= SLOTS then DropOldest(q) else q;
      r.(records := r.records + [Record(Cut(data), 0, false)], live := r.live + 1)
  }

  function Passed(q: Queue, k: nat): Queue
    requires 0 < q.live <= |q.records|
    requires q.records[q.First()].sent + k <= |q.records[q.First()].text|
  {
    var i, r := q.First(), q.records[q.First()];
    var after := r.(sent := r.sent + k);
    Queue(q.records[i := after],
          if after.Finished() then q.live - 1 else q.live,
          q.handed + r.text[r.sent..r.sent + k])
  }

  /** `k` more bytes of the oldest response go out; it leaves the queue when it is finished. */
  function Handed(q: Queue, k: nat): Queue
    requires q.Valid() && q.live > 0
    requires q.records[q.First()].sent + k <= |q.records[q.First()].text|
  {
    Passed(q, k)
  }

  lemma HeadsAppend(a: seq<Record>, b: seq<Record>)
    requires forall i :: 0 <= i < |a| ==> a[i].sent <= |a[i].text|
    requires forall i :: 0 <= i < |b| ==> b[i].sent <= |b[i].text|
    ensures Flatten(Heads(a + b)) == Flatten(Heads(a)) + Flatten(Heads(b))
  {
    assert Heads(a + b) == Heads(a) + Heads(b);
    FlattenAppend(Heads(a), Heads(b));
  }

  lemma {:induction false} UntouchedHaveNoHeads(records: seq<Record>)
    requires forall i :: 0 <= i < |records| ==> records[i].sent == 0
    ensures Flatten(Heads(records)) == []
  {
    if records != [] {
      UntouchedHaveNoHeads(records[1..]);
      assert Heads(records)[1..] == Heads(records[1..]);
    }
  }

  lemma DropKeepsOrder(q: Queue)
    requires q.Valid() && q.live > 0
    ensures DropOldest(q).Valid()
  {
    assert Heads(DropOldest(q).records) == Heads(q.records);
  }

  lemma EnqueueKeepsOrder(q: Queue, data: Text)
    requires q.Valid()
    ensures Enqueued(q, data).Valid()
  {
    if data != [] {
      if q.live >= SLOTS {
        DropKeepsOrder(q);
        AppendKeepsOrder(DropOldest(q), Cut(data));
      } else {
        AppendKeepsOrder(q, Cut(data));
      }
    }
  }

  lemma AppendKeepsOrder(q: Queue, text: Text)
    requires q.Valid() && q.live < SLOTS && 0 < |text| < MAX_LEN
    ensures q.(records := q.records + [Record(text, 0, false)], live := q.live + 1).Valid()
  {
    UntouchedHaveNoHeads([Record(text, 0, false)]);
    HeadsAppend(q.records, [Record(text, 0, false)]);
  }

  /** What went out ends inside one record when those behind it are untouched. */
  lemma HeadsUpTo(before: seq<Record>, r: Record, behind: seq<Record>)
    requires r.sent <= |r.text|
    requires forall i :: 0 <= i < |before| ==> before[i].sent <= |before[i].text|
    requires forall i :: 0 <= i < |behind| ==> behind[i].sent == 0
    ensures Flatten(Heads(before + [r] + behind)) == Flatten(Heads(before)) + r.text[..r.sent]
  {
    UntouchedHaveNoHeads(behind);
    HeadsAppend(before + [r], behind);
    HeadsAppend(before, [r]);
    assert Flatten(Heads([r])) == r.text[..r.sent];
  }

  lemma GivesMore(base: Text, text: Text, i: nat, k: nat)
    requires i + k <= |text|
    ensures base + text[..i] + text[i..i + k] == base + text[..i + k]
  {
    assert text[..i] + text[i..i + k] == text[..i + k];
  }

  lemma HandedShape(q: Queue, k: nat)
    requires q.Shape() && q.live > 0
    requires q.records[q.First()].sent + k <= |q.records[q.First()].text|
    ensures Passed(q, k).Shape()
  {
  }

  lemma HandKeepsOrder(q: Queue, k: nat)
    requires q.Valid() && q.live > 0
    requires q.records[q.First()].sent + k <= |q.records[q.First()].text|
    ensures Handed(q, k).Valid()
  {
    HandedShape(q, k);
    HandedOrder(q, k);
    HandedHeads(q, k);
  }

  lemma HandedOrder(q: Queue, k: nat)
    requires q.Valid() && q.live > 0
    requires q.records[q.First()].sent + k <= |q.records[q.First()].text|
    ensures Passed(q, k).InOrder()
  {
  }

  lemma HandedHeads(q: Queue, k: nat)
    requires q.Valid() && q.live > 0
    requires q.records[q.First()].sent + k <= |q.records[q.First()].text|
    ensures Passed(q, k).handed == Flatten(Heads(Passed(q, k).records))
  {
    var i, r := q.First(), q.records[q.First()];
    var before, behind := q.records[..i], q.records[i + 1..];
    var after := r.(sent := r.sent + k);
    SplitAt(q.records, i, r);
    SplitAt(q.records, i, after);
    HeadsUpTo(before, r, behind);
    HeadsUpTo(before, after, behind);
    GivesMore(Flatten(Heads(before)), r.text, r.sent, k);
  }

  lemma SplitAt(records: seq<Record>, i: nat, r: Record)
    requires i < |records|
    ensures records[i := r] == records[..i] + [r] + records[i + 1..] && records[i := records[i]] == records
  {
  }

  predicate Sane(records: seq<Record>) {
    forall i :: 0 <= i < |records| ==> records[i].sent <= |records[i].text|
  }

  lemma RestsCons(r: Record, behind: seq<Record>)
    requires r.sent <= |r.text| && Sane(behind)
    ensures Flatten(Rests([r] + behind)) == r.text[r.sent..] + Flatten(Rests(behind))
  {
    assert Rests([r] + behind) == [r.text[r.sent..]] + Rests(behind);
    assert Rests([r] + behind)[1..] == Rests(behind);
  }

  /** Handing bytes over moves them from what waits to what was handed, in order. */
  lemma HandMovesBytes(q: Queue, k: nat)
    requires q.Valid() && q.live > 0
    requires q.records[q.First()].sent + k <= |q.records[q.First()].text|
    ensures Handed(q, k).Shape() && k <= |q.Waiting()|
    ensures Handed(q, k).handed == q.handed + q.Waiting()[..k]
    ensures Handed(q, k).Waiting() == q.Waiting()[k..]
  {
    HandedShape(q, k);
    HandedWindow(q, k);
    HandedText(q, k);
    WaitingIsRests(q);
    WaitingIsRests(Passed(q, k));
    RestSane(q);
    FirstHanded(q.Window(), k);
  }

  lemma RestSane(q: Queue)
    requires q.Shape() && q.live > 0
    ensures Sane(q.Window()[1..])
  {
  }

  lemma WaitingIsRests(q: Queue)
    requires q.live <= |q.records|
    ensures q.Waiting() == Flatten(Rests(q.Window()))
  {
  }

  /** The queued records before and after. */
  lemma HandedWindow(q: Queue, k: nat)
    requires 0 < q.live <= |q.records| && q.Window()[0].sent + k <= |q.Window()[0].text|
    ensures var w, h := q.Window(), Passed(q, k);
            var after := w[0].(sent := w[0].sent + k);
            h.live <= |h.records| && h.Window() == (if after.Finished() then w[1..] else [after] + w[1..])
  {
  }

  lemma HandedText(q: Queue, k: nat)
    requires 0 < q.live <= |q.records| && q.Window()[0].sent + k <= |q.Window()[0].text|
    ensures var r := q.Window()[0];
            r == q.records[q.First()] && Passed(q, k).handed == q.handed + r.text[r.sent..r.sent + k]
  {
  }

  lemma FrontHanded(r: Record, behind: seq<Record>, k: nat)
    requires r.sent + k <= |r.text| && Sane(behind)
    ensures var after, waiting := r.(sent := r.sent + k), Flatten(Rests([r] + behind));
            && k <= |r.text| - r.sent <= |waiting| && waiting[..k] == r.text[r.sent..r.sent + k]
            && Flatten(Rests([after] + behind)) == waiting[k..]
            && (after.Finished() ==> Flatten(Rests(behind)) == waiting[k..])
  {
    var after := r.(sent := r.sent + k);
    RestsCons(r, behind);
    RestsCons(after, behind);
    Skip(r.text[r.sent..], Flatten(Rests(behind)), k);
    assert r.text[r.sent..][k..] == after.text[after.sent..];
    assert after.Finished() ==> after.text[after.sent..] == [];
  }

  lemma FirstHanded(w: seq<Record>, k: nat)
    requires w != [] && Sane(w[1..]) && w[0].sent + k <= |w[0].text|
    ensures var r, after, waiting := w[0], w[0].(sent := w[0].sent + k), Flatten(Rests(w));
            && k <= |r.text| - r.sent <= |waiting| && waiting[..k] == r.text[r.sent..r.sent + k]
            && Flatten(Rests([after] + w[1..])) == waiting[k..]
            && (after.Finished() ==> Flatten(Rests(w[1..])) == waiting[k..])
  {
    assert w == [w[0]] + w[1..];
    FrontHanded(w[0], w[1..], k);
  }

  lemma Skip(a: Text, b: Text, k: nat)
    requires k <= |a|
    ensures (a + b)[k..] == a[k..] + b && (a + b)[..k] == a[..k]
  {
  }

  /** What waits starts with the rest of the oldest response. */
  lemma FirstOfWaiting(q: Queue, n: nat)
    requires q.Valid() && q.live > 0
    requires q.records[q.First()].sent + n <= |q.records[q.First()].text|
    ensures var r := q.records[q.First()];
            n <= |q.Waiting()| && q.Waiting()[..n] == r.text[r.sent..r.sent + n]
    ensures var r := q.records[q.First()]; r.sent + n < |r.text| ==> n < |q.Waiting()|
  {
    HandedText(q, n);
    RestSane(q);
    WaitingIsRests(q);
    FirstHanded(q.Window(), n);
  }

  // ---- every run ----

  datatype Event = Queued(data: Text) | Sent(k: nat)

  function Step(q: Queue, e: Event): Queue
    requires q.Valid()
  {
    match e
    case Queued(data) => Enqueued(q, data)
    case Sent(k) =>
      if q.live > 0 && q.records[q.First()].sent + k <= |q.records[q.First()].text|
      then Handed(q, k) else q
  }

  function Final(q: Queue, events: seq<Event>): (f: Queue)
    requires q.Valid()
    ensures f.Valid()
    decreases events
  {
    if events == [] then q
    else
      StepKeepsOrder(q, events[0]);
      Final(Step(q, events[0]), events[1..])
  }

  lemma StepKeepsOrder(q: Queue, e: Event)
    requires q.Valid()
    ensures Step(q, e).Valid()
  {
    match e
    case Queued(data) => EnqueueKeepsOrder(q, data);
    case Sent(k) =>
      if q.live > 0 && q.records[q.First()].sent + k <= |q.records[q.First()].text| {
        HandKeepsOrder(q, k);
      }
  }

  function Request(e: Event): seq<Text> {
    match e
    case Queued(data) => if data == [] then [] else [Cut(data)]
    case Sent(_) => []
  }

  /** The texts queued by a run, each cut to what a slot holds. */
  function Asked(events: seq<Event>): seq<Text> {
    if events == [] then [] else Request(events[0]) + Asked(events[1..])
  }

  function Texts(records: seq<Record>): (texts: seq<Text>)
    ensures |texts| == |records|
  {
    seq(|records|, i requires 0 <= i < |records| => records[i].text)
  }

  function Drops(records: seq<Record>): (drops: seq<bool>)
    ensures |drops| == |records|
  {
    seq(|records|, i requires 0 <= i < |records| => records[i].dropped)
  }

  lemma StepRecordsRequest(q: Queue, e: Event)
    requires q.Valid()
    ensures Texts(Step(q, e).records) == Texts(q.records) + Request(e)
  {
  }

  lemma Regroup(a: seq<Text>, b: seq<Text>, c: seq<Text>)
    ensures (a + b) + c == a + (b + c)
  {
  }

  lemma {:induction false} RecordsAreWhatWasAsked(q: Queue, events: seq<Event>)
    requires q.Valid()
    ensures Texts(Final(q, events).records) == Texts(q.records) + Asked(events)
    decreases events
  {
    if events != [] {
      StepKeepsOrder(q, events[0]);
      StepRecordsRequest(q, events[0]);
      var n, rest := Step(q, events[0]), events[1..];
      RecordsAreWhatWasAsked(n, rest);
      Regroup(Texts(q.records), Request(events[0]), Asked(rest));
      assert Final(q, events) == Final(n, rest);
    }
  }

  ghost predicate GivesInOrder(q: Queue) {
    && q.Shape() && q.handed == Flatten(Heads(q.records))
    && (forall i :: 0 <= i < q.First() ==> q.records[i].dropped || q.records[i].Finished())
    && (forall i :: q.First() < i < |q.records| ==> q.records[i].sent == 0)
  }

  /** Over any mix of queueing and sending, stalls included: the responses on record are those
      asked for, in order, and the bytes handed over are one prefix of each: the whole text
      unless the response was dropped or is still queued, nothing for the queued ones behind
      the oldest. */
  lemma HandsKeptResponsesInOrder(events: seq<Event>)
    ensures var f := Final(NOTHING, events); Texts(f.records) == Asked(events) && GivesInOrder(f)
  {
    TextsAreWhatWasAsked(events);
    ValidGivesInOrder(Final(NOTHING, events));
  }

  lemma TextsAreWhatWasAsked(events: seq<Event>)
    ensures Texts(Final(NOTHING, events).records) == Asked(events)
  {
    RecordsAreWhatWasAsked(NOTHING, events);
    EmptyFirst(Texts(NOTHING.records), Asked(events));
  }

  lemma EmptyFirst(none: seq<Text>, a: seq<Text>)
    requires |none| == 0
    ensures none + a == a
  {
  }

  lemma ValidGivesInOrder(q: Queue)
    requires q.Valid()
    ensures GivesInOrder(q)
  {
  }

  lemma HeadsOfFirst(r: Record, behind: seq<Record>)
    requires r.sent <= |r.text| && forall i :: 0 <= i < |behind| ==> behind[i].sent == 0
    ensures Flatten(Heads([r] + behind)) == r.text[..r.sent]
  {
    UntouchedHaveNoHeads(behind);
    HeadsAppend([r], behind);
    assert Flatten(Heads([r])) == r.text[..r.sent];
  }

  lemma TextsCons(r: Record, behind: seq<Record>)
    ensures Flatten(Texts([r] + behind)) == r.text + Flatten(Texts(behind))
  {
    assert Texts([r] + behind)[1..] == Texts(behind);
  }

  lemma UntouchedRest(behind: seq<Record>)
    requires forall i :: 0 <= i < |behind| ==> behind[i].sent == 0
    ensures Rests(behind) == Texts(behind)
  {
  }

  lemma Rejoin(text: Text, i: nat, more: Text)
    requires i <= |text|
    ensures text[..i] + (text[i..] + more) == text + more
  {
  }

  lemma HeadsAndRests(r: Record, behind: seq<Record>)
    requires r.sent <= |r.text| && forall i :: 0 <= i < |behind| ==> behind[i].sent == 0
    ensures Flatten(Heads([r] + behind)) + Flatten(Rests([r] + behind)) == Flatten(Texts([r] + behind))
  {
    HeadsOfFirst(r, behind);
    RestsCons(r, behind);
    UntouchedRest(behind);
    TextsCons(r, behind);
    Rejoin(r.text, r.sent, Flatten(Texts(behind)));
  }

  predicate NoneDropped(records: seq<Record>) {
    forall i :: 0 <= i < |records| ==> !records[i].dropped
  }

  lemma FinishedGaveAll(done: seq<Record>)
    requires forall i :: 0 <= i < |done| ==> done[i].sent == |done[i].text|
    ensures Heads(done) == Texts(done)
  {
    forall i | 0 <= i < |done| ensures Heads(done)[i] == Texts(done)[i] {
      assert done[i].text[..|done[i].text|] == done[i].text;
    }
  }

  lemma QueueGivesAll(queue: seq<Record>)
    requires forall i :: 0 <= i < |queue| ==> queue[i].sent <= |queue[i].text|
    requires forall i :: 0 < i < |queue| ==> queue[i].sent == 0
    ensures Flatten(Heads(queue)) + Flatten(Rests(queue)) == Flatten(Texts(queue))
  {
    if queue != [] {
      assert queue == [queue[0]] + queue[1..];
      HeadsAndRests(queue[0], queue[1..]);
    }
  }

  lemma TextsAppend(a: seq<Record>, b: seq<Record>)
    ensures Flatten(Texts(a + b)) == Flatten(Texts(a)) + Flatten(Texts(b))
  {
    assert Texts(a + b) == Texts(a) + Texts(b);
    FlattenAppend(Texts(a), Texts(b));
  }

  lemma KeptIsHandedOrWaiting(q: Queue)
    requires q.Valid() && NoneDropped(q.records)
    ensures q.handed + q.Waiting() == Flatten(Texts(q.records))
  {
    var done, queue := q.records[..q.First()], q.records[q.First()..];
    assert q.records == done + queue;
    HeadsAppend(done, queue);
    TextsAppend(done, queue);
    FinishedGaveAll(done);
    QueueGivesAll(queue);
    Associates(Flatten(Heads(done)), Flatten(Heads(queue)), Flatten(Rests(queue)));
  }

  /** When nothing had to be dropped, the UART gets the concatenation of the responses: what was
      handed over followed by what waits. */
  lemma NoDropIsLossless(events: seq<Event>)
    requires NoneDropped(Final(NOTHING, events).records)
    ensures var f := Final(NOTHING, events); f.handed + f.Waiting() == Flatten(Asked(events))
  {
    KeptIsHandedOrWaiting(Final(NOTHING, events));
    HandsKeptResponsesInOrder(events);
  }

  // ---- the firmware's slots ----

  /** One UARTResponseEntry; its length field is |data|. */
  datatype Entry = Entry(data: Text, readOffset: nat, pending: bool)

  function Slot(i: nat): (r: nat)
    requires i < 2 * SLOTS
    ensures r < SLOTS
  {
    Ring.Wrap(i, SLOTS)
  }

  /** From `before` to `after`, `n` bytes were handed over and nothing else changed. */
  ghost predicate HandedOver(before: Queue, after: Queue, n: nat) {
    && n <= |before.Waiting()|
    && after.handed == before.handed + before.Waiting()[..n]
    && after.Waiting() == before.Waiting()[n..]
    && Texts(after.records) == Texts(before.records)
    && Drops(after.records) == Drops(before.records)
  }

  function Entries(window: seq<Record>): (e: seq<Entry>)
    ensures |e| == |window|
  {
    seq(|window|, i requires 0 <= i < |window| => Entry(window[i].text, window[i].sent, true))
  }

  /** The slots from `tail` on hold exactly the queued records. */
  ghost predicate Mirrors(slots: seq<Entry>, tail: nat, window: seq<Record>) {
    |slots| == SLOTS && Ring.Holds(slots, tail, Entries(window))
  }

  lemma MirrorsPop(slots: seq<Entry>, tail: nat, window: seq<Record>)
    requires Mirrors(slots, tail, window) && window != []
    ensures Mirrors(slots, Slot(tail + 1), window[1..])
  {
    Ring.Dropped(slots, tail, Entries(window), 1);
    assert Entries(window)[1..] == Entries(window[1..]);
  }

  lemma MirrorsPush(slots: seq<Entry>, tail: nat, window: seq<Record>, text: Text)
    requires Mirrors(slots, tail, window) && |window| < SLOTS
    ensures Mirrors(slots[Slot(tail + |window|) := Entry(text, 0, true)], tail,
                    window + [Record(text, 0, false)])
  {
    Ring.Pushed(slots, tail, Entries(window), Entry(text, 0, true));
    assert Entries(window) + [Entry(text, 0, true)] == Entries(window + [Record(text, 0, false)]);
  }

  lemma MirrorsReplaced(slots: seq<Entry>, tail: nat, window: seq<Record>, first: Record, now: seq<Record>)
    requires Mirrors(slots, tail, window) && window != [] && now == [first] + window[1..]
    ensures Mirrors(slots[tail := Entry(first.text, first.sent, true)], tail, now)
  {
    var entry := Entry(first.text, first.sent, true);
    Ring.Front(slots, tail, Entries(window), entry);
    EntriesReplaced(window, first);
  }

  lemma EntriesReplaced(window: seq<Record>, first: Record)
    requires window != []
    ensures Entries([first] + window[1..]) == [Entry(first.text, first.sent, true)] + Entries(window)[1..]
  {
  }

  lemma MirrorsFreed(slots: seq<Entry>, tail: nat, window: seq<Record>, entry: Entry)
    requires Mirrors(slots, tail, window) && window != []
    ensures Mirrors(slots[tail := entry], Slot(tail + 1), window[1..])
  {
    Ring.Front(slots, tail, Entries(window), entry);
    assert Entries(window)[1..] == Entries(window[1..]);
  }

  lemma FirstEntry(slots: seq<Entry>, tail: nat, q: Queue)
    requires q.live > 0 && q.live <= |q.records| && Mirrors(slots, tail, q.Window())
    ensures tail < |slots| && slots[tail] == Entry(q.Window()[0].text, q.Window()[0].sent, true)
  {
    Ring.Front(slots, tail, Entries(q.Window()), slots[tail]);
  }

  lemma MirrorsUnfinished(slots: seq<Entry>, tail: nat, q: Queue, n: nat, r: Record)
    requires 0 < q.live <= |q.records| && Mirrors(slots, tail, q.Window())
    requires r == q.Window()[0] && r.sent + n < |r.text|
    ensures Passed(q, n).live == q.live <= |Passed(q, n).records|
    ensures Mirrors(slots[tail := Entry(r.text, r.sent + n, true)], tail, Passed(q, n).Window())
  {
    HandedWindow(q, n);
    MirrorsReplaced(slots, tail, q.Window(), r.(sent := r.sent + n), Passed(q, n).Window());
  }

  lemma MirrorsFinished(slots: seq<Entry>, tail: nat, q: Queue, n: nat, r: Record)
    requires 0 < q.live <= |q.records| && Mirrors(slots, tail, q.Window())
    requires r == q.Window()[0] && r.sent + n == |r.text|
    ensures Passed(q, n).live == q.live - 1 <= |Passed(q, n).records|
    ensures Mirrors(slots[tail := Entry(r.text, r.sent + n, false)], Slot(tail + 1), Passed(q, n).Window())
  {
    HandedWindow(q, n);
    MirrorsFreed(slots, tail, q.Window(), Entry(r.text, r.sent + n, false));
  }

  lemma MirrorsDrop(slots: seq<Entry>, tail: nat, q: Queue)
    requires q.Valid() && q.live > 0 && Mirrors(slots, tail, q.Window())
    ensures var d := DropOldest(q); d.live <= |d.records| && Mirrors(slots, Slot(tail + 1), d.Window())
  {
    MirrorsPop(slots, tail, q.Window());
    assert DropOldest(q).Window() == q.Window()[1..];
  }

  /** Handing over part of the oldest response, seen from outside. */
  lemma HandedOverFirst(q: Queue, n: nat)
    requires q.Valid() && q.live > 0
    requires q.Window()[0].sent + n <= |q.Window()[0].text|
    ensures HandedOver(q, Handed(q, n), n)
    ensures var r := q.Window()[0];
            && q.Waiting()[..n] == r.text[r.sent..r.sent + n]
            && (r.sent + n < |r.text| ==> n < |q.Waiting()|)
  {
    var r := q.Window()[0];
    assert r == q.records[q.First()];
    HandMovesBytes(q, n);
    FirstOfWaiting(q, n);
    SameTextsAndDrops(q.records, q.First(), r.(sent := r.sent + n));
  }

  lemma SameTextsAndDrops(records: seq<Record>, i: nat, r: Record)
    requires i < |records| && r.text == records[i].text && r.dropped == records[i].dropped
    ensures Texts(records[i := r]) == Texts(records) && Drops(records[i := r]) == Drops(records)
  {
  }

  lemma HandedOverTwice(a: Queue, b: Queue, c: Queue, m: nat, n: nat, base: Text)
    requires HandedOver(a, b, m) && HandedOver(b, c, n)
    ensures HandedOver(a, c, m + n)
    ensures base + a.Waiting()[..m] + b.Waiting()[..n] == base + a.Waiting()[..m + n]
  {
    Stretches(a.handed, a.Waiting(), m, n);
    Stretches(base, a.Waiting(), m, n);
  }

  lemma Stretches(base: Text, w: Text, m: nat, n: nat)
    requires m <= |w| && n <= |w[m..]|
    ensures w[m..][n..] == w[m + n..] && w[..m] + w[m..][..n] == w[..m + n]
    ensures base + w[..m] + w[m..][..n] == base + w[..m + n]
  {
    assert w[..m] + w[m..][..n] == w[..m + n];
    Associates(base, w[..m], w[m..][..n]);
  }

  lemma NothingWaits(q: Queue)
    requires q.Valid() && q.live == 0
    ensures q.Waiting() == []
  {
  }

  lemma OneMoreByte(base: Text, data: Text, from: nat, to: nat)
    requires from <= to < |data|
    ensures data[from..to] + [data[to]] == data[from..to + 1]
    ensures base + data[from..to] + [data[to]] == base + data[from..to + 1]
  {
    Associates(base, data[from..to], [data[to]]);
  }

  lemma Shift(base: Text, done: Text, rest: Text)
    requires rest != []
    ensures done + rest == (done + [rest[0]]) + rest[1..]
    ensures base + done + [rest[0]] == base + (done + [rest[0]])
  {
  }

  /** How many of `waiting` and then of `extra` one call may send. */
  function Quota(room: nat, waiting: nat, extra: nat): nat {
    Tx.Min(64, Tx.Min(room, waiting + extra))
  }

  lemma SplitQuota(waiting: Text, extra: Text, k: nat, m: nat)
    requires k <= |waiting| && m <= |extra| && (k < |waiting| ==> m == 0)
    ensures (waiting + extra)[..k + m] == waiting[..k] + extra[..m]
  {
  }

  /** The effect of one call on the queue, the command buffer and what the transmit ring accepted. */
  ghost predicate Spent(q: Queue, out: Text, t: Tx.Log, q': Queue, out': Text, t': Tx.Log) {
    && |t.tx.ring| <= Tx.CAPACITY
    && var waiting := q.Waiting();
       var n := Quota(Tx.CAPACITY - |t.tx.ring|, |waiting|, |out|);
       var k := Tx.Min(n, |waiting|);
       && HandedOver(q, q', k)
       && out' == out[n - k..]
       && t'.accepted == t.accepted + (waiting + out)[..n]
  }

  lemma NothingMore(base: Text, out: Text)
    ensures out[0..] == out && base + out[..0] == base
  {
  }

  lemma SpentInTwoParts(q: Queue, out: Text, t: Tx.Log, q': Queue, out': Text, t': Tx.Log, k: nat, m: nat)
    requires HandedOver(q, q', k) && m <= |out| && out' == out[m..]
    requires t'.accepted == t.accepted + q.Waiting()[..k] + out[..m]
    requires |t.tx.ring| + k + m <= Tx.CAPACITY && k + m <= BUDGET
    requires k < |q.Waiting()| ==> m == 0
    requires |t.tx.ring| + k + m == Tx.CAPACITY || k + m == BUDGET || k + m == |q.Waiting()| + |out|
    ensures Spent(q, out, t, q', out', t')
  {
    var w := q.Waiting();
    SplitQuota(w, out, k, m);
    Associates(t.accepted, w[..k], out[..m]);
    assert k + m == Quota(Tx.CAPACITY - |t.tx.ring|, |w|, |out|);
  }

  /** The ring variables hold what the queue's history says. */
  ghost predicate Kept(slots: seq<Entry>, head: nat, tail: nat, count: nat, q: Queue) {
    && head < SLOTS && tail < SLOTS && count <= SLOTS && head == Slot(tail + count)
    && q.Valid() && q.live == count
    && Mirrors(slots, tail, q.Window())
  }

  lemma KeptForget(slots: seq<Entry>, head: nat, tail: nat, count: nat, q: Queue)
    requires Kept(slots, head, tail, count, q) && count > 0
    ensures Kept(slots, head, Slot(tail + 1), count - 1, DropOldest(q))
  {
    DropKeepsOrder(q);
    MirrorsDrop(slots, tail, q);
  }

  lemma EnqueuedWindow(q: Queue, text: Text)
    requires q.Valid() && q.live < SLOTS && 0 < |text| < MAX_LEN
    ensures Enqueued(q, text).Valid() && Enqueued(q, text).live == q.live + 1
    ensures Enqueued(q, text).Window() == q.Window() + [Record(text, 0, false)]
  {
    AppendKeepsOrder(q, text);
    assert Enqueued(q, text) == q.(records := q.records + [Record(text, 0, false)], live := q.live + 1);
  }

  lemma KeptAppend(slots: seq<Entry>, head: nat, tail: nat, count: nat, q: Queue, text: Text)
    requires Kept(slots, head, tail, count, q) && count < SLOTS && 0 < |text| < MAX_LEN
    ensures Kept(slots[head := Entry(text, 0, true)], Slot(head + 1), tail, count + 1, Enqueued(q, text))
  {
    MirrorsPush(slots, tail, q.Window(), text);
    EnqueuedWindow(q, text);
  }

  /** After n bytes of the oldest response went out: not all of it... */
  lemma KeptUnfinished(slots: seq<Entry>, head: nat, tail: nat, count: nat, q: Queue, n: nat, r: Record)
    requires Kept(slots, head, tail, count, q) && count > 0 && r == q.Window()[0] && r.sent + n < |r.text|
    ensures Kept(slots[tail := Entry(r.text, r.sent + n, true)], head, tail, count, Handed(q, n))
  {
    HandKeepsOrder(q, n);
    MirrorsUnfinished(slots, tail, q, n, r);
  }

  /** ...or the last of it, which frees its slot. */
  lemma KeptFinished(slots: seq<Entry>, head: nat, tail: nat, count: nat, q: Queue, n: nat, r: Record)
    requires Kept(slots, head, tail, count, q) && count > 0 && r == q.Window()[0] && r.sent + n == |r.text|
    ensures Kept(slots[tail := Entry(r.text, r.sent + n, false)], head, Slot(tail + 1), count - 1, Handed(q, n))
  {
    HandKeepsOrder(q, n);
    MirrorsFinished(slots, tail, q, n, r);
  }

  /** The entry after `n` more of its bytes went out. */
  function Advanced(e: Entry, n: nat): Entry {
    e.(readOffset := e.readOffset + n)
  }

  lemma KeptHanded(slots: seq<Entry>, head: nat, tail: nat, count: nat, q: Queue, n: nat, e: Entry)
    requires Kept(slots, head, tail, count, q) && count > 0
    requires q.Window()[0].sent + n <= |q.Window()[0].text|
    requires e == Entry(q.Window()[0].text, q.Window()[0].sent + n, true)
    ensures if e.readOffset >= |e.data|
            then Kept(slots[tail := e.(pending := false)], head, Slot(tail + 1), count - 1, Handed(q, n))
            else Kept(slots[tail := e], head, tail, count, Handed(q, n))
  {
    if e.readOffset >= |e.data| {
      KeptFinished(slots, head, tail, count, q, n, q.Window()[0]);
    } else {
      KeptUnfinished(slots, head, tail, count, q, n, q.Window()[0]);
    }
  }

  /** `now` is `e` after `n` more of its bytes went out, and they were accepted after `base`. */
  ghost predicate Partly(e: Entry, now: Entry, n: nat, base: Text, accepted: Text) {
    && e.readOffset + n <= |e.data| && now == Advanced(e, n)
    && accepted == base + e.data[e.readOffset..e.readOffset + n]
  }

  lemma PartlyNone(e: Entry, base: Text)
    requires e.readOffset <= |e.data|
    ensures Partly(e, e, 0, base, base)
  {
  }

  lemma PartlyMore(e: Entry, now: Entry, n: nat, base: Text, accepted: Text)
    requires Partly(e, now, n, base, accepted) && now.readOffset < |now.data|
    ensures Partly(e, Advanced(now, 1), n + 1, base, accepted + [now.data[now.readOffset]])
  {
    OneMoreByte(base, e.data, e.readOffset, e.readOffset + n);
  }

  /** `n` bytes of what waited in `start` were accepted after `base`, and nothing else changed. */
  ghost predicate Gave(start: Queue, base: Text, now: Queue, accepted: Text, n: nat) {
    HandedOver(start, now, n) && accepted == base + start.Waiting()[..n]
  }

  lemma GaveNothing(q: Queue, base: Text)
    ensures Gave(q, base, q, base, 0)
  {
  }

  lemma GaveTwice(start: Queue, base: Text, q: Queue, between: Text, m: nat, now: Queue, accepted: Text, n: nat)
    requires Gave(start, base, q, between, m) && Gave(q, between, now, accepted, n)
    ensures Gave(start, base, now, accepted, m + n)
  {
    HandedOverTwice(start, q, now, m, n, base);
  }

  lemma GaveAll(start: Queue, base: Text, now: Queue, accepted: Text, n: nat)
    requires Gave(start, base, now, accepted, n) && now.Valid()
    ensures now.live == 0 ==> n == |start.Waiting()|
  {
    if now.live == 0 {
      NothingWaits(now);
      assert |start.Waiting()[n..]| == 0;
    }
  }

  /** What pushing on the oldest response does to the queue. */
  lemma GaveOldest(q: Queue, e: Entry, now: Entry, n: nat, base: Text, accepted: Text)
    requires q.Valid() && q.live > 0
    requires e == Entry(q.Window()[0].text, q.Window()[0].sent, true) && Partly(e, now, n, base, accepted)
    ensures q.Window()[0].sent + n <= |q.Window()[0].text|
    ensures now == Entry(q.Window()[0].text, q.Window()[0].sent + n, true)
    ensures Gave(q, base, Handed(q, n), accepted, n)
    ensures now.readOffset < |now.data| ==> Handed(q, n).Waiting() != []
  {
    HandedOverFirst(q, n);
  }

  class Responses {
    const slots: array<Entry>
    const tx: Tx.TxRing
    var head: nat
    var tail: nat
    var count: nat
    var outgoing: Text             // the command buffer's own output queue
    ghost var log: Queue

    ghost predicate Valid()
      reads this, slots, tx, tx.cells
    {
      tx.Valid() && SlotsValid()
    }

    ghost predicate SlotsValid()
      reads this, slots
    {
      slots.Length == SLOTS && Kept(slots[..], head, tail, count, log)
    }

    constructor (tx: Tx.TxRing)
      requires tx.Valid()
      ensures Valid() && fresh(slots) && this.tx == tx && log == NOTHING && outgoing == []
    {
      this.tx := tx;
      slots := new Entry[SLOTS](_ => Entry([], 0, false));
      head, tail, count, outgoing := 0, 0, 0, [];
      log := NOTHING;
    }

    /** queueUARTResponse. */
    method QueueResponse(data: Text) returns (ok: bool)
      requires Valid()
      modifies this, slots
      ensures Valid() && ok == (data != [])
      ensures log == Enqueued(old(log), data) && outgoing == old(outgoing)
    {
      if |data| == 0 { return false; }
      var text := if |data| > MAX_LEN - 1 then data[..MAX_LEN - 1] else data;
      if count >= SLOTS { Forget(); }
      Append(text);
      return true;
    }

    /** Make room by stepping over the oldest response. */
    method Forget()
      requires SlotsValid() && count > 0
      modifies this
      ensures SlotsValid() && log == DropOldest(old(log)) && outgoing == old(outgoing)
      ensures count == old(count) - 1
    {
      KeptForget(slots[..], head, tail, count, log);
      log := DropOldest(log);
      tail := Slot(tail + 1);
      count := count - 1;
    }

    method Append(text: Text)
      requires SlotsValid() && count < SLOTS && 0 < |text| < MAX_LEN
      modifies this, slots
      ensures SlotsValid() && log == Enqueued(old(log), text) && outgoing == old(outgoing)
    {
      KeptAppend(slots[..], head, tail, count, log, text);
      log := Enqueued(log, text);
      slots[head] := Entry(text, 0, true);
      assert slots[..] == old(slots[..])[head := Entry(text, 0, true)];
      head := Slot(head + 1);
      count := count + 1;
    }

    /** The inner loop: push a response on from where it stalled, until it is finished, the
        budget is used up or the transmit ring is full. */
    method PushRest(budget: nat) returns (n: nat, stalled: bool)
      requires tx.Valid() && slots.Length == SLOTS && tail < SLOTS
      requires slots[tail].readOffset <= |slots[tail].data|
      modifies slots, tx, tx.cells
      ensures tx.Valid() && tx.claimed == old(tx.claimed)
      ensures n <= budget && slots[..] == old(slots[..])[tail := slots[tail]]
      ensures Partly(old(slots[tail]), slots[tail], n, old(tx.log.accepted), tx.log.accepted)
      ensures |tx.log.tx.ring| == old(|tx.log.tx.ring|) + n
      ensures stalled ==> |tx.log.tx.ring| == Tx.CAPACITY && n < budget && slots[tail].readOffset < |slots[tail].data|
      ensures !stalled ==> n == budget || slots[tail].readOffset == |slots[tail].data|
    {
      ghost var e, was := slots[tail], slots[..];
      n, stalled := 0, false;
      PartlyNone(e, tx.log.accepted);
      while slots[tail].readOffset < |slots[tail].data| && n < budget
        invariant tx.Valid() && tx.claimed == old(tx.claimed) && n <= budget
        invariant Partly(e, slots[tail], n, old(tx.log.accepted), tx.log.accepted)
        invariant slots[..] == was[tail := slots[tail]]
        invariant |tx.log.tx.ring| == old(|tx.log.tx.ring|) + n
      {
        PartlyMore(e, slots[tail], n, old(tx.log.accepted), tx.log.accepted);
        var ok := PushNext();
        if !ok { stalled := true; break; }
        n := n + 1;
      }
    }

    method PushNext() returns (ok: bool)
      requires tx.Valid() && slots.Length == SLOTS && tail < SLOTS
      requires slots[tail].readOffset < |slots[tail].data|
      modifies slots, tx, tx.cells
      ensures tx.Valid() && tx.claimed == old(tx.claimed)
      ensures ok == (|old(tx.log.tx.ring)| < Tx.CAPACITY)
      ensures |tx.log.tx.ring| == old(|tx.log.tx.ring|) + if ok then 1 else 0
      ensures slots[..] == old(slots[..])[tail := slots[tail]]
      ensures var e := old(slots[tail]);
              && slots[tail] == (if ok then Advanced(e, 1) else e)
              && tx.log.accepted == old(tx.log.accepted) + if ok then [e.data[e.readOffset]] else []
    {
      var entry := slots[tail];
      ok := tx.PushByte(entry.data[entry.readOffset]);
      if ok {
        slots[tail] := Advanced(entry, 1);
      }
    }

    /** One round of the outer loop. */
    method SendOldest(budget: nat) returns (n: nat, stalled: bool)
      requires Valid() && count > 0
      modifies this, slots, tx, tx.cells
      ensures Valid() && n <= budget && outgoing == old(outgoing) && count <= old(count)
      ensures Gave(old(log), old(tx.log.accepted), log, tx.log.accepted, n)
      ensures |tx.log.tx.ring| == old(|tx.log.tx.ring|) + n && tx.claimed == old(tx.claimed)
      ensures stalled ==> |tx.log.tx.ring| == Tx.CAPACITY && log.Waiting() != []
      ensures !stalled ==> n == budget || count < old(count)
    {
      ghost var before, e, base := slots[..], slots[tail], tx.log.accepted;
      FirstEntry(before, tail, log);
      assert e == before[tail];
      n, stalled := PushRest(budget);
      GaveOldest(log, e, slots[tail], n, base, tx.log.accepted);
      Book(n, before);
    }

    /** Book the `n` bytes just pushed, and free the slot if they finish the response. */
    method Book(n: nat, ghost before: seq<Entry>)
      requires slots.Length == SLOTS && Kept(before, head, tail, count, log) && count > 0
      requires log.Window()[0].sent + n <= |log.Window()[0].text|
      requires slots[tail] == Entry(log.Window()[0].text, log.Window()[0].sent + n, true)
      requires slots[..] == before[tail := slots[tail]]
      modifies this, slots
      ensures SlotsValid() && outgoing == old(outgoing) && log == Handed(old(log), n)
      ensures count == log.live
    {
      var e := slots[tail];
      KeptHanded(before, head, tail, count, log, n, e);
      log := Handed(log, n);
      if e.readOffset >= |e.data| {
        slots[tail] := e.(pending := false);
        assert slots[..] == before[tail := e.(pending := false)];
        tail := Slot(tail + 1);
        count := count - 1;
      }
    }

    /** sendPendingUARTResponses: as many bytes as the budget and the transmit ring allow, first
        from the queued responses and then from the command buffer, and not one more; the loops
        always terminate. */
    method Send()
      requires Valid()
      modifies this, slots, tx, tx.cells
      ensures Valid() && tx.claimed == old(tx.claimed)
      ensures Spent(old(log), old(outgoing), old(tx.log), log, outgoing, tx.log)
    {
      var pushed := SendBytes();
      if pushed { tx.PumpDma(); }
    }

    method SendBytes() returns (pushed: bool)
      requires Valid()
      modifies this, slots, tx, tx.cells
      ensures Valid() && tx.claimed == old(tx.claimed)
      ensures Spent(old(log), old(outgoing), old(tx.log), log, outgoing, tx.log)
    {
      ghost var q, out, t := log, outgoing, tx.log;
      var k, stalled := SendQueued();
      if stalled {
        NothingMore(t.accepted + q.Waiting()[..k], out);
        SpentInTwoParts(q, out, t, log, outgoing, tx.log, k, 0);
        return k > 0;
      }
      var sent := SendOutgoing(k);
      SpentInTwoParts(q, out, t, log, outgoing, tx.log, k, sent - k);
      return sent > 0;
    }

    method SendQueued() returns (sent: nat, stalled: bool)
      requires Valid()
      modifies this, slots, tx, tx.cells
      ensures Valid() && sent <= BUDGET && outgoing == old(outgoing) && tx.claimed == old(tx.claimed)
      ensures Gave(old(log), old(tx.log.accepted), log, tx.log.accepted, sent)
      ensures |tx.log.tx.ring| == old(|tx.log.tx.ring|) + sent
      ensures stalled ==> |tx.log.tx.ring| == Tx.CAPACITY && log.Waiting() != []
      ensures !stalled ==> sent == BUDGET || sent == |old(log).Waiting()|
    {
      ghost var start, base := log, tx.log.accepted;
      sent, stalled := 0, false;
      GaveNothing(start, base);
      while count > 0 && sent < BUDGET
        invariant Valid() && sent <= BUDGET && outgoing == old(outgoing)
        invariant tx.claimed == old(tx.claimed)
        invariant Gave(start, base, log, tx.log.accepted, sent)
        invariant |tx.log.tx.ring| == old(|tx.log.tx.ring|) + sent
        decreases BUDGET - sent, count
      {
        sent, stalled := SendMore(sent, start, base);
        if stalled { break; }
      }
      GaveAll(start, base, log, tx.log.accepted, sent);
    }

    /** SendOldest with what is left of the budget, seen from where this call of Send started. */
    method SendMore(sent: nat, ghost start: Queue, ghost base: Text) returns (total: nat, stalled: bool)
      requires Valid() && count > 0 && sent < BUDGET
      requires Gave(start, base, log, tx.log.accepted, sent)
      modifies this, slots, tx, tx.cells
      ensures Valid() && sent <= total <= BUDGET && outgoing == old(outgoing) && count <= old(count)
      ensures Gave(start, base, log, tx.log.accepted, total)
      ensures |tx.log.tx.ring| + sent == old(|tx.log.tx.ring|) + total && tx.claimed == old(tx.claimed)
      ensures stalled ==> |tx.log.tx.ring| == Tx.CAPACITY && log.Waiting() != []
      ensures !stalled ==> total == BUDGET || count < old(count)
    {
      ghost var q, between := log, tx.log.accepted;
      var n;
      n, stalled := SendOldest(BUDGET - sent);
      total := sent + n;
      GaveTwice(start, base, q, between, sent, log, tx.log.accepted, n);
    }

    method SendOutgoing(already: nat) returns (sent: nat)
      requires Valid() && already <= BUDGET
      modifies this`outgoing, tx, tx.cells
      ensures Valid() && tx.claimed == old(tx.claimed)
      ensures already <= sent <= BUDGET && sent - already <= |old(outgoing)|
      ensures |tx.log.tx.ring| == old(|tx.log.tx.ring|) + (sent - already)
      ensures sent == BUDGET || sent - already == |old(outgoing)| || |tx.log.tx.ring| == Tx.CAPACITY
      ensures outgoing == old(outgoing)[sent - already..]
      ensures tx.log.accepted == old(tx.log.accepted) + old(outgoing)[..sent - already]
    {
      sent := already;
      ghost var out, done: Text := outgoing, [];
      while outgoing != [] && sent < BUDGET
        invariant Valid() && sent == already + |done| <= BUDGET && tx.claimed == old(tx.claimed)
        invariant out == done + outgoing
        invariant |tx.log.tx.ring| == old(|tx.log.tx.ring|) + |done|
        invariant tx.log.accepted == old(tx.log.accepted) + done
      {
        Shift(old(tx.log.accepted), done, outgoing);
        ghost var b := outgoing[0];
        var ok := PushOutgoing();
        if !ok { break; }
        done := done + [b];
        sent := sent + 1;
      }
      assert out[..|done|] == done && out[|done|..] == outgoing;
    }

    /** The next byte of the command buffer, consumed only if the transmit ring takes it. */
    method PushOutgoing() returns (ok: bool)
      requires Valid() && outgoing != []
      modifies this`outgoing, tx, tx.cells
      ensures Valid() && tx.claimed == old(tx.claimed)
      ensures ok == (|old(tx.log.tx.ring)| < Tx.CAPACITY)
      ensures if ok then
                && outgoing == old(outgoing)[1..]
                && tx.log.accepted == old(tx.log.accepted) + [old(outgoing)[0]]
                && |tx.log.tx.ring| == old(|tx.log.tx.ring|) + 1
              else
                && outgoing == old(outgoing) && tx.log.accepted == old(tx.log.accepted)
                && |tx.log.tx.ring| == old(|tx.log.tx.ring|) == Tx.CAPACITY
    {
      ok := tx.PushByte(outgoing[0]);
      if ok { outgoing := outgoing[1..]; }
    }
  }
}
