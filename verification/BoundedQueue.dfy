/**
 What the response queue comes to, without its records: a plain sequence of at most eight texts,
 the first of which may have gone out in part. A response is lost only when it is the oldest of
 eight and one more is asked for.
 */
module BoundedQueue {
  import opened Bytes
  import opened ResponseQueue

  /** `gone` counts the responses that left the queue, `lost` has the numbers of those that were
      thrown away. */
  datatype Plain = Plain(waiting: seq<Text>, sent: nat, out: Text, gone: nat, lost: set<nat>)

  const EMPTY: Plain := Plain([], 0, [], 0, {})

  function Asked(p: Plain, data: Text): Plain {
    if |data| == 0 then p
    else
      var kept := if |data| <= 255 then data else data[..255];
      if |p.waiting| == 8
      then p.(waiting := p.waiting[1..] + [kept], sent := 0, gone := p.gone + 1, lost := p.lost + {p.gone})
      else p.(waiting := p.waiting + [kept])
  }

  function Gave(p: Plain, k: nat): Plain {
    if p.waiting == [] || p.sent + k > |p.waiting[0]| then p
    else
      var out := p.out + p.waiting[0][p.sent..p.sent + k];
      if p.sent + k == |p.waiting[0]| then p.(waiting := p.waiting[1..], sent := 0, out := out, gone := p.gone + 1)
      else p.(sent := p.sent + k, out := out)
  }

  function PlainStep(p: Plain, e: Event): Plain {
    match e
    case Queued(data) => Asked(p, data)
    case Sent(k) => Gave(p, k)
  }

  function PlainRun(p: Plain, events: seq<Event>): Plain
    decreases events
  {
    if events == [] then p else PlainRun(PlainStep(p, events[0]), events[1..])
  }

  ghost predicate LostAre(records: seq<Record>, lost: set<nat>) {
    && (forall i :: 0 <= i < |records| ==> (records[i].dropped <==> i in lost))
    && forall i :: i in lost ==> i < |records|
  }

  /** The firmware's queue stands for the plain one. */
  ghost predicate Stands(q: Queue, p: Plain) {
    && q.live <= |q.records|
    && p.waiting == Texts(q.Window()) && p.gone == q.First()
    && p.sent == (if q.live > 0 then q.Window()[0].sent else 0)
    && p.out == q.handed
    && LostAre(q.records, p.lost)
  }

  lemma WindowMoves(q: Queue, k: nat)
    requires 0 < q.live <= |q.records| && q.Window()[0].sent + k <= |q.Window()[0].text|
    ensures var w, h := q.Window(), Passed(q, k);
            && h.live <= |h.records|
            && (w[0].sent + k == |w[0].text| ==> h.live == q.live - 1 && h.Window() == w[1..])
            && (w[0].sent + k < |w[0].text| ==>
                  h.live == q.live && h.Window() == [w[0].(sent := w[0].sent + k)] + w[1..])
  {
    HandedWindow(q, k);
  }

  lemma TextsTail(w: seq<Record>, r: Record)
    requires w != [] && r.text == w[0].text
    ensures Texts(w[1..]) == Texts(w)[1..] && Texts([r] + w[1..]) == Texts(w)
  {
  }

  /** Behind the oldest queued response nothing has gone out. */
  lemma NextUntouched(q: Queue)
    requires q.Valid()
    ensures q.live > 1 ==> q.Window()[1].sent == 0
  {
  }

  lemma GiveStands(q: Queue, p: Plain, k: nat)
    requires q.Valid() && Stands(q, p)
    ensures Stands(Step(q, Sent(k)), Gave(p, k))
  {
    if q.live > 0 && q.Window()[0].sent + k <= |q.Window()[0].text| {
      var w := q.Window();
      WindowMoves(q, k);
      HandedText(q, k);
      TextsTail(w, w[0].(sent := w[0].sent + k));
      NextUntouched(q);
    }
  }

  lemma DropStands(q: Queue, p: Plain)
    requires q.Valid() && Stands(q, p) && q.live > 0
    ensures Stands(DropOldest(q), p.(waiting := p.waiting[1..], sent := 0, gone := p.gone + 1, lost := p.lost + {p.gone}))
  {
    var w, d := q.Window(), DropOldest(q);
    NextUntouched(q);
    TextsTail(w, w[0]);
    assert d.Window() == w[1..];
  }

  lemma AppendStands(q: Queue, p: Plain, text: Text)
    requires q.Valid() && Stands(q, p) && 0 < |text|
    ensures Stands(q.(records := q.records + [Record(text, 0, false)], live := q.live + 1), p.(waiting := p.waiting + [text]))
  {
    var a := q.(records := q.records + [Record(text, 0, false)], live := q.live + 1);
    assert a.Window() == q.Window() + [Record(text, 0, false)];
    assert Texts(a.Window()) == Texts(q.Window()) + [text];
    assert q.live == 0 ==> p.sent == 0;
  }

  lemma AskStands(q: Queue, p: Plain, data: Text)
    requires q.Valid() && Stands(q, p)
    ensures Stands(Step(q, Queued(data)), Asked(p, data))
  {
    if |data| > 0 {
      var text := if |data| <= 255 then data else data[..255];
      if q.live == 8 {
        DropKeepsOrder(q);
        DropStands(q, p);
        AppendStands(DropOldest(q), p.(waiting := p.waiting[1..], sent := 0, gone := p.gone + 1, lost := p.lost + {p.gone}), text);
      } else {
        AppendStands(q, p, text);
      }
    }
  }

  lemma {:induction false} RunStands(q: Queue, p: Plain, events: seq<Event>)
    requires q.Valid() && Stands(q, p)
    ensures Stands(Final(q, events), PlainRun(p, events))
    decreases events
  {
    if events != [] {
      StepKeepsOrder(q, events[0]);
      match events[0] {
        case Queued(data) => AskStands(q, p, data);
        case Sent(k) => GiveStands(q, p, k);
      }
      RunStands(Step(q, events[0]), PlainStep(p, events[0]), events[1..]);
    }
  }

  /** Over any mix of queueing and sending the queue is the plain one: the same texts wait, in the
      same order, the same bytes went out, and the responses thrown away are exactly those that
      were the oldest of eight when one more was asked for. */
  lemma QueueIsPlain(events: seq<Event>)
    ensures var f, p := Final(NOTHING, events), PlainRun(EMPTY, events);
            && f.live <= |f.records|
            && Texts(f.Window()) == p.waiting && |p.waiting| <= 8
            && f.handed == p.out
            && forall i: nat :: i < |f.records| ==> (f.records[i].dropped <==> i in p.lost)
  {
    RunStands(NOTHING, EMPTY, events);
  }
}
