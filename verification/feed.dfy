/** The live feed (internal/usecase/feed.go).

  `Feed` keeps the set of live subscribers; each has a channel with a bounded buffer. Sending on or closing a
  closed channel panics in Go, so those operations require an open channel here. The methods are specified by
  one step of a state machine over all subscriptions ever made, and the theorems are about its runs: every
  interleaving of subscribing, publishing, receiving and cancelling. */
module LiveFeed {
  import opened Domain

  datatype Event = Event(stream: StreamID, sample: Sample, alert: Option<Notification>)

  function SampleEvent(id: StreamID, s: Sample): Event { Event(id, s, None) }

  function AlertEvent(n: Notification): Event { Event(n.rule.stream, Sample(n.time, n.value, n.unit), Some(n)) }

  // ----- the state machine -----

  /** One subscription: what waits in its channel and what was received from it. */
  datatype View = View(closed: bool, buffered: seq<Event>, got: seq<Event>)

  const NEW_VIEW := View(false, [], [])

  /** What happens to one subscription. */
  datatype Local = Offer(event: Event) | Take | Close

  function React(buffer: nat, v: View, i: Local): View {
    match i
    case Offer(e) => if v.closed || |v.buffered| >= buffer then v else v.(buffered := v.buffered + [e])
    case Take => if v.buffered == [] then v else v.(buffered := v.buffered[1..], got := v.got + [v.buffered[0]])
    case Close => v.(closed := true)
  }

  datatype Action = Subscribe | Publish(event: Event) | Receive(who: nat) | Cancel(who: nat)

  /** What an action is to subscription `k`. */
  function LocalOf(a: Action, k: nat): Option<Local> {
    match a
    case Subscribe => None
    case Publish(e) => Some(Offer(e))
    case Receive(who) => if who == k then Some(Take) else None
    case Cancel(who) => if who == k then Some(Close) else None
  }

  function Touch(buffer: nat, v: View, i: Option<Local>): View { if i.None? then v else React(buffer, v, i.value) }

  function Step(buffer: nat, views: seq<View>, a: Action): (r: seq<View>)
    ensures |r| == |views| + if a.Subscribe? then 1 else 0
    ensures forall k :: 0 <= k < |views| ==> r[k] == Touch(buffer, views[k], LocalOf(a, k))
    ensures a.Subscribe? ==> r[|views|] == NEW_VIEW
  {
    seq(|views|, k requires 0 <= k < |views| => Touch(buffer, views[k], LocalOf(a, k)))
    + if a.Subscribe? then [NEW_VIEW] else []
  }

  // ----- the feed -----

  datatype Receipt = Received(event: Event) | WouldBlock | Closed

  class Subscriber {
    var closed: bool
    var ch: seq<Event>
    var chClosed: bool
    ghost var got: seq<Event>

    constructor ()
      ensures !closed && !chClosed && ch == [] && got == []
    {
      closed, ch, chClosed, got := false, [], false, [];
    }

    ghost function AsView(): View
      reads this
    {
      View(closed, ch, got)
    }

    /** A send with a default case. */
    method TrySend(capacity: nat, ev: Event)
      requires !chClosed
      modifies this`ch
      ensures ch == if |old(ch)| < capacity then old(ch) + [ev] else old(ch)
    {
      if |ch| < capacity {
        ch := ch + [ev];
      }
    }

    method CloseChannel()
      requires !chClosed
      modifies this`chClosed
      ensures chClosed
    {
      chClosed := true;
    }

    /** A receive: what waits first, else whether the receiver would block or is told that the channel is closed. */
    method TryReceive() returns (r: Receipt)
      modifies this`ch, this`got
      ensures r == if old(ch) != [] then Received(old(ch)[0]) else if chClosed then Closed else WouldBlock
      ensures AsView() == React(0, old(AsView()), Take)
    {
      if ch == [] {
        return if chClosed then Closed else WouldBlock;
      }
      r := Received(ch[0]);
      got := got + [ch[0]];
      ch := ch[1..];
    }
  }

  ghost function ViewsOf(ss: seq<Subscriber>): (r: seq<View>)
    reads ss
    ensures |r| == |ss| && forall k :: 0 <= k < |r| ==> r[k] == ss[k].AsView()
  {
    if ss == [] then [] else ViewsOf(ss[..|ss| - 1]) + [ss[|ss| - 1].AsView()]
  }

  class Feed {
    const buffer: nat
    var subs: set<Subscriber>
    ghost var all: seq<Subscriber>

    ghost predicate Valid()
      reads this, all
    {
      && (forall i, j :: 0 <= i < j < |all| ==> all[i] != all[j])
      && (forall s :: s in subs ==> s in all)
      && (forall s :: s in all ==> (s in subs <==> !s.closed) && s.chClosed == s.closed)
    }

    ghost function State(): (r: seq<View>)
      reads this, all
      ensures |r| == |all| && forall k :: 0 <= k < |r| ==> r[k] == all[k].AsView()
    {
      ViewsOf(all)
    }

    constructor (buffer: nat)
      ensures Valid() && this.buffer == buffer && State() == []
    {
      this.buffer, subs, all := buffer, {}, [];
    }

    method SubscribeNew() returns (s: Subscriber)
      requires Valid()
      modifies this
      ensures Valid()
      ensures all == old(all) + [s] && fresh(s)
      ensures State() == Step(buffer, old(State()), Subscribe)
    {
      s := new Subscriber();
      subs := subs + {s};
      all := all + [s];
      assert forall k :: 0 <= k < |all| - 1 ==> all[k] == old(all)[k];
    }

    method CancelSub(s: Subscriber, ghost k: nat)
      requires Valid() && k < |all| && all[k] == s
      modifies this, s
      ensures Valid() && all == old(all)
      ensures State() == Step(buffer, old(State()), Cancel(k))
    {
      if s.closed {
        return;
      }
      s.closed := true;
      subs := subs - {s};
      s.CloseChannel();
    }

    method ReceiveFrom(s: Subscriber, ghost k: nat) returns (r: Receipt)
      requires Valid() && k < |all| && all[k] == s
      modifies s
      ensures Valid()
      ensures r == if old(s.ch) != [] then Received(old(s.ch)[0]) else if s.closed then Closed else WouldBlock
      ensures State() == Step(buffer, old(State()), Receive(k))
    {
      r := s.TryReceive();
    }

    method Subscribers() returns (n: nat)
      requires Valid()
      ensures n == |subs|
    {
      n := |subs|;
    }

    /** Offers the event to every live subscriber, in any order; none of their channels is closed. */
    method OfferAll(ev: Event)
      requires forall s :: s in subs ==> !s.chClosed
      modifies subs`ch
      ensures forall s :: s in subs ==> s.ch == if |old(s.ch)| < buffer then old(s.ch) + [ev] else old(s.ch)
    {
      var todo := subs;
      while todo != {}
        invariant todo <= subs
        invariant forall s :: s in subs ==>
                    s.ch == if s !in todo && |old(s.ch)| < buffer then old(s.ch) + [ev] else old(s.ch)
        decreases |todo|
      {
        var s :| s in todo;
        s.TrySend(buffer, ev);
        todo := todo - {s};
      }
    }

    method PublishEvent(ev: Event)
      requires Valid()
      modifies subs`ch
      ensures Valid()
      ensures State() == Step(buffer, old(State()), Publish(ev))
    {
      OfferAll(ev);
      forall k | 0 <= k < |all| ensures all[k].AsView() == React(buffer, old(State())[k], Offer(ev)) {
        assert all[k] in subs <==> !all[k].closed;
      }
    }

    method Ingest(id: StreamID, s: Sample)
      requires Valid()
      modifies subs`ch
      ensures Valid()
      ensures State() == Step(buffer, old(State()), Publish(SampleEvent(id, s)))
    {
      PublishEvent(SampleEvent(id, s));
    }

    method Notify(n: Notification)
      requires Valid()
      modifies subs`ch
      ensures Valid()
      ensures State() == Step(buffer, old(State()), Publish(AlertEvent(n)))
    {
      PublishEvent(AlertEvent(n));
    }
  }

  // ----- runs -----

  function Run(buffer: nat, acts: seq<Action>): seq<View> {
    if acts == [] then [] else Step(buffer, Run(buffer, acts[..|acts| - 1]), acts[|acts| - 1])
  }

  function Subscribed(acts: seq<Action>): nat {
    if acts == [] then 0 else Subscribed(acts[..|acts| - 1]) + if acts[|acts| - 1].Subscribe? then 1 else 0
  }

  /** What subscription `k` lives through. */
  function Story(acts: seq<Action>, k: nat): seq<Local> {
    if acts == [] then []
    else
      var before, a := acts[..|acts| - 1], acts[|acts| - 1];
      if Subscribed(before) <= k || LocalOf(a, k).None? then Story(before, k)
      else Story(before, k) + [LocalOf(a, k).value]
  }

  function Solo(buffer: nat, ins: seq<Local>): View {
    if ins == [] then NEW_VIEW else React(buffer, Solo(buffer, ins[..|ins| - 1]), ins[|ins| - 1])
  }

  lemma SoloSnoc(buffer: nat, ins: seq<Local>, i: Local)
    ensures Solo(buffer, ins + [i]) == React(buffer, Solo(buffer, ins), i)
  {
    assert (ins + [i])[..|ins|] == ins;
  }

  lemma {:induction false} StoryStarts(acts: seq<Action>, k: nat)
    requires Subscribed(acts) <= k
    ensures Story(acts, k) == []
  {
    if acts != [] {
      StoryStarts(acts[..|acts| - 1], k);
    }
  }

  /** Whatever the other subscribers do, a subscription depends on its own story alone: a slow or cancelled
    subscriber never costs another one an event. */
  lemma {:induction false} SubscribersAreIndependent(buffer: nat, acts: seq<Action>, k: nat)
    ensures |Run(buffer, acts)| == Subscribed(acts)
    ensures k < Subscribed(acts) ==> Run(buffer, acts)[k] == Solo(buffer, Story(acts, k))
  {
    hide React, Solo, LocalOf;
    if acts != [] {
      var before, a := acts[..|acts| - 1], acts[|acts| - 1];
      SubscribersAreIndependent(buffer, before, k);
      if k < Subscribed(before) {
        if LocalOf(a, k).Some? {
          SoloSnoc(buffer, Story(before, k), LocalOf(a, k).value);
        }
      } else if k < Subscribed(acts) {
        StoryStarts(before, k);
        NewSolo(buffer);
      }
    }
  }

  lemma NewSolo(buffer: nat)
    ensures Solo(buffer, []) == NEW_VIEW
  {
  }

  // ----- what a subscriber gets -----

  /** At moment `p` of its story the subscription is open, and an event is published. */
  predicate OfferedAt(buffer: nat, ins: seq<Local>, p: nat) {
    p < |ins| && ins[p].Offer? && !Solo(buffer, ins[..p]).closed
  }

  predicate PublishedAt(buffer: nat, ins: seq<Local>, p: nat, e: Event) {
    OfferedAt(buffer, ins, p) && ins[p].event == e
  }

  predicate FullAt(buffer: nat, ins: seq<Local>, p: nat)
    requires p <= |ins|
  {
    |Solo(buffer, ins[..p]).buffered| == buffer
  }

  /** Received and still buffered, in order. */
  function Seen(v: View): seq<Event> { v.got + v.buffered }

  /** `at` are the moments at which the events `es` were published, in order, and they are all those offered moments
    at which the buffer had room. */
  ghost predicate Explains(buffer: nat, ins: seq<Local>, es: seq<Event>, at: seq<nat>) {
    && |at| == |es|
    && (forall i, j :: 0 <= i < j < |at| ==> at[i] < at[j])
    && (forall i :: 0 <= i < |at| ==> PublishedAt(buffer, ins, at[i], es[i]))
    && (forall p :: OfferedAt(buffer, ins, p) ==> (p in at <==> !FullAt(buffer, ins, p)))
  }

  lemma OfferedBefore(buffer: nat, ins: seq<Local>, i: Local, p: nat)
    requires p < |ins|
    ensures OfferedAt(buffer, ins + [i], p) == OfferedAt(buffer, ins, p)
    ensures FullAt(buffer, ins + [i], p) == FullAt(buffer, ins, p)
    ensures forall e :: PublishedAt(buffer, ins + [i], p, e) == PublishedAt(buffer, ins, p, e)
  {
    assert (ins + [i])[..p] == ins[..p];
  }

  lemma BufferBounded(buffer: nat, ins: seq<Local>)
    ensures |Solo(buffer, ins).buffered| <= buffer
  {
    if ins != [] {
      BufferBounded(buffer, ins[..|ins| - 1]);
    }
  }

  /** A subscriber sees, in order, the events published while it was subscribed, and misses exactly those
    published while its buffer was full. */
  lemma {:induction false} SeenExactly(buffer: nat, ins: seq<Local>) returns (at: seq<nat>)
    ensures Explains(buffer, ins, Seen(Solo(buffer, ins)), at)
  {
    if ins == [] {
      at := [];
    } else {
      var before, i := ins[..|ins| - 1], ins[|ins| - 1];
      assert ins == before + [i];
      at := SeenExactly(buffer, before);
      at := SeenOneMore(buffer, before, i, at);
    }
  }

  lemma SeenOneMore(buffer: nat, before: seq<Local>, i: Local, at: seq<nat>) returns (at': seq<nat>)
    requires Explains(buffer, before, Seen(Solo(buffer, before)), at)
    ensures Explains(buffer, before + [i], Seen(Solo(buffer, before + [i])), at')
  {
    hide Solo, OfferedAt, PublishedAt, FullAt, Seen, React;
    var n, v, all := |before|, Solo(buffer, before), before + [i];
    SoloSnoc(buffer, before, i);
    BufferBounded(buffer, before);
    NowAt(buffer, before, i);
    InRange(buffer, before, at, Seen(v));
    SeenStep(buffer, v, i);
    var room := i.Offer? && !v.closed && |v.buffered| < buffer;
    at' := if room then at + [n] else at;
    forall j | 0 <= j < |at| ensures PublishedAt(buffer, all, at[j], Seen(v)[j]) {
      OfferedBefore(buffer, before, i, at[j]);
    }
    forall p: nat | OfferedAt(buffer, all, p) ensures p in at' <==> !FullAt(buffer, all, p) {
      assert room ==> (p in at' <==> p in at || p == n);
      if p < n {
        OfferedBefore(buffer, before, i, p);
      }
    }
  }

  lemma NowAt(buffer: nat, before: seq<Local>, i: Local)
    ensures OfferedAt(buffer, before + [i], |before|) <==> i.Offer? && !Solo(buffer, before).closed
    ensures OfferedAt(buffer, before + [i], |before|) ==> PublishedAt(buffer, before + [i], |before|, i.event)
    ensures FullAt(buffer, before + [i], |before|) <==> |Solo(buffer, before).buffered| == buffer
    ensures forall p: nat :: OfferedAt(buffer, before + [i], p) ==> p <= |before|
  {
    assert (before + [i])[..|before|] == before;
  }

  lemma InRange(buffer: nat, ins: seq<Local>, at: seq<nat>, es: seq<Event>)
    requires Explains(buffer, ins, es, at)
    ensures forall i :: 0 <= i < |at| ==> at[i] < |ins|
    ensures |ins| !in at
  {
  }

  /** Everything published while the subscription was open. */
  function Published(ins: seq<Local>): seq<Event> {
    if ins == [] then []
    else
      var before, i := ins[..|ins| - 1], ins[|ins| - 1];
      Published(before) + if i.Offer? && Close !in before then [i.event] else []
  }

  lemma {:induction false} ClosedIff(buffer: nat, ins: seq<Local>)
    ensures Solo(buffer, ins).closed <==> Close in ins
  {
    if ins != [] {
      ClosedIff(buffer, ins[..|ins| - 1]);
      assert ins == ins[..|ins| - 1] + [ins[|ins| - 1]];
    }
  }

  lemma {:induction false} PublishedGrows(before: seq<Local>, later: seq<Local>)
    ensures Published(before) <= Published(before + later)
  {
    if later == [] {
      assert before + later == before;
    } else {
      PublishedGrows(before, later[..|later| - 1]);
      assert (before + later)[..|before + later| - 1] == before + later[..|later| - 1];
    }
  }

  /** What is published in the later part of a story, while the subscription is open. */
  function PublishedSince(before: seq<Local>, later: seq<Local>): seq<Event> {
    PublishedGrows(before, later);
    Published(before + later)[|Published(before)|..]
  }

  lemma SinceSnoc(before: seq<Local>, later: seq<Local>, i: Local)
    ensures PublishedSince(before, []) == []
    ensures PublishedSince(before, later + [i]) ==
            PublishedSince(before, later) + if i.Offer? && Close !in before + later then [i.event] else []
  {
    var all := before + (later + [i]);
    PublishedGrows(before, later);
    assert before + [] == before;
    assert all[..|all| - 1] == before + later && all[|all| - 1] == i;
  }

  /** From moment `from` of its story on the buffer is never full when something is published. */
  ghost predicate NeverFull(buffer: nat, ins: seq<Local>, from: nat) {
    forall p: nat :: from <= p && OfferedAt(buffer, ins, p) ==> !FullAt(buffer, ins, p)
  }

  lemma NeverFullOneMore(buffer: nat, ins: seq<Local>, i: Local, from: nat)
    requires from <= |ins|
    ensures NeverFull(buffer, ins + [i], from) <==>
            NeverFull(buffer, ins, from)
            && var v := Solo(buffer, ins); (i.Offer? && !v.closed ==> |v.buffered| != buffer)
  {
    hide Solo, OfferedAt, FullAt;
    NowAt(buffer, ins, i);
    OnlyInside(buffer, ins);
    forall p: nat | p < |ins|
      ensures OfferedAt(buffer, ins + [i], p) == OfferedAt(buffer, ins, p)
      ensures FullAt(buffer, ins + [i], p) == FullAt(buffer, ins, p)
    {
      OfferedBefore(buffer, ins, i, p);
    }
  }

  /** From some moment on a subscriber misses nothing exactly when its buffer is never full from then on at the moment
    something is published, whatever it missed before. */
  lemma {:induction false} MissesNothingSinceIff(buffer: nat, before: seq<Local>, later: seq<Local>)
    ensures |Seen(Solo(buffer, before + later))| <= |Seen(Solo(buffer, before))| + |PublishedSince(before, later)|
    ensures Seen(Solo(buffer, before + later)) == Seen(Solo(buffer, before)) + PublishedSince(before, later) <==>
            NeverFull(buffer, before + later, |before|)
  {
    hide Solo, OfferedAt, FullAt, NeverFull, PublishedSince, Seen, React;
    if later == [] {
      SinceSnoc(before, [], Take);
      assert before + later == before;
      NeverFullAfter(buffer, before);
    } else {
      var init, i := later[..|later| - 1], later[|later| - 1];
      var so := before + init;
      assert later == init + [i] && before + later == so + [i];
      MissesNothingSinceIff(buffer, before, init);
      SinceSnoc(before, init, i);
      SoloSnoc(buffer, so, i);
      BufferBounded(buffer, so);
      ClosedIff(buffer, so);
      NeverFullOneMore(buffer, so, i, |before|);
      var v, start, since := Solo(buffer, so), Seen(Solo(buffer, before)), PublishedSince(before, init);
      SeenStep(buffer, v, i);
      if i.Offer? {
        SameWithoutLast(Seen(v), start + since, i.event);
        assert start + (since + [i.event]) == start + since + [i.event];
      }
    }
  }

  lemma NeverFullAfter(buffer: nat, ins: seq<Local>)
    ensures NeverFull(buffer, ins, |ins|)
  {
    hide Solo;
  }

  /** A subscriber misses nothing exactly when its buffer is never full at the moment something is published. */
  lemma MissesNothingIff(buffer: nat, ins: seq<Local>)
    ensures |Seen(Solo(buffer, ins))| <= |Published(ins)|
    ensures Seen(Solo(buffer, ins)) == Published(ins) <==> NeverFull(buffer, ins, 0)
  {
    MissesNothingSinceIff(buffer, [], ins);
    assert [] + ins == ins;
  }

  lemma SameWithoutLast(a: seq<Event>, b: seq<Event>, e: Event)
    ensures a + [e] == b + [e] <==> a == b
  {
    assert a == (a + [e])[..|a + [e]| - 1] && b == (b + [e])[..|b + [e]| - 1];
  }

  lemma OnlyInside(buffer: nat, ins: seq<Local>)
    ensures forall p: nat :: OfferedAt(buffer, ins, p) ==> p < |ins|
  {
  }

  lemma SeenStep(buffer: nat, v: View, i: Local)
    ensures Seen(React(buffer, v, i)) ==
            if i.Offer? && !v.closed && |v.buffered| < buffer then Seen(v) + [i.event] else Seen(v)
  {
  }

  /** For every interleaving, what subscription `k` received and still has waiting is the in-order part of the
    events published while it was open that found room in its buffer. */
  lemma FeedDelivers(buffer: nat, acts: seq<Action>, k: nat) returns (at: seq<nat>)
    requires k < |Run(buffer, acts)|
    ensures Explains(buffer, Story(acts, k), Seen(Run(buffer, acts)[k]), at)
    ensures |Run(buffer, acts)[k].buffered| <= buffer
  {
    hide Explains;
    SubscribersAreIndependent(buffer, acts, k);
    BufferBounded(buffer, Story(acts, k));
    at := SeenExactly(buffer, Story(acts, k));
  }
}
