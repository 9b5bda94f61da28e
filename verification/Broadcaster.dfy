/**
 The event broadcaster (`service/transport/ipc_broadcaster.py`): one bounded queue per
 subscription, from which a full queue may lose display events and nothing else.
 */
module Broadcaster {
  import opened Common

  datatype Event = Event(kind: string, runId: Option<string>, jobId: Option<string>, body: string)

  type Writer = nat

  /** Display updates that the client can rebuild. */
  predicate Droppable(e: Event) {
    e.kind == "llm.token" || e.kind == "tool.call_finished"
  }

  // ----- what a subscription wants -----

  predicate StartsWith(s: string, prefix: string) {
    prefix <= s
  }

  predicate MatchesScope(e: Event, scope: string) {
    if scope == "global" then true
    else if StartsWith(scope, "run:") then e.runId == Some(scope[4..])
    else if StartsWith(scope, "job:") then e.jobId == Some(scope[4..])
    else false
  }

  function ScopeFamily(scope: string): string {
    if StartsWith(scope, "job:") then "job" else if StartsWith(scope, "run:") then "run" else "global"
  }

  /** Topic patterns are matched by `glob`, which stands for `fnmatch`. */
  type Glob = (string, string) -> bool

  predicate MatchesTopic(glob: Glob, e: Event, topics: seq<string>) {
    exists i :: 0 <= i < |topics| && glob(e.kind, topics[i])
  }

  datatype Filter = Filter(glob: Glob, topics: seq<string>, scope: string)

  predicate Wants(f: Filter, e: Event) {
    MatchesTopic(f.glob, e, f.topics) && MatchesScope(e, f.scope)
  }

  /** The published events a subscription wants, in order. */
  function Wanted(f: Filter, events: seq<Event>): seq<Event> {
    if events == [] then []
    else
      var last := events[|events| - 1];
      Wanted(f, events[..|events| - 1]) + if Wants(f, last) then [last] else []
  }

  lemma WantedOneMore(f: Filter, events: seq<Event>, e: Event)
    ensures Wanted(f, events + [e]) == Wanted(f, events) + if Wants(f, e) then [e] else []
  {
    assert (events + [e])[..|events|] == events;
  }

  // ----- losing display events only -----

  /** `kept` is `full` without some of its droppable events, in the same order. */
  predicate Thinned(kept: seq<Event>, full: seq<Event>)
    decreases |full|
  {
    if full == [] then kept == []
    else
      var last := full[|full| - 1];
      || (kept != [] && kept[|kept| - 1] == last && Thinned(kept[..|kept| - 1], full[..|full| - 1]))
      || (Droppable(last) && Thinned(kept, full[..|full| - 1]))
  }

  /** The events that must reach the client. */
  function Essential(events: seq<Event>): seq<Event> {
    if events == [] then []
    else
      var last := events[|events| - 1];
      Essential(events[..|events| - 1]) + if Droppable(last) then [] else [last]
  }

  lemma {:induction false} ThinnedKeepsEssential(kept: seq<Event>, full: seq<Event>)
    requires Thinned(kept, full)
    ensures Essential(kept) == Essential(full)
    decreases |full|
  {
    if full != [] {
      var last, rest := full[|full| - 1], full[..|full| - 1];
      if kept != [] && kept[|kept| - 1] == last && Thinned(kept[..|kept| - 1], rest) {
        ThinnedKeepsEssential(kept[..|kept| - 1], rest);
      } else {
        ThinnedKeepsEssential(kept, rest);
      }
    }
  }

  /** Nothing is lost when nothing is missing. */
  lemma {:induction false} ThinnedSameLength(kept: seq<Event>, full: seq<Event>)
    requires Thinned(kept, full)
    ensures |kept| <= |full| && (|kept| == |full| ==> kept == full)
    decreases |full|
  {
    if full != [] {
      var last, rest := full[|full| - 1], full[..|full| - 1];
      if kept != [] && kept[|kept| - 1] == last && Thinned(kept[..|kept| - 1], rest) {
        ThinnedSameLength(kept[..|kept| - 1], rest);
        assert kept == kept[..|kept| - 1] + [last] && full == rest + [last];
      } else {
        ThinnedSameLength(kept, rest);
      }
    }
  }

  /** What is kept is some of it. */
  lemma {:induction false} ThinnedIsPart(kept: seq<Event>, full: seq<Event>)
    requires Thinned(kept, full)
    ensures forall e :: e in kept ==> e in full
    decreases |full|
  {
    if full != [] {
      var last, rest := full[|full| - 1], full[..|full| - 1];
      assert full == rest + [last];
      if kept != [] && kept[|kept| - 1] == last && Thinned(kept[..|kept| - 1], rest) {
        ThinnedIsPart(kept[..|kept| - 1], rest);
        assert kept == kept[..|kept| - 1] + [last];
      } else {
        ThinnedIsPart(kept, rest);
      }
    }
  }

  lemma {:induction false} WantedAreWanted(f: Filter, events: seq<Event>)
    ensures forall e :: e in Wanted(f, events) ==> e in events && Wants(f, e)
  {
    if events != [] {
      WantedAreWanted(f, events[..|events| - 1]);
    }
  }

  /** A subscription to one run or one job matches no event of another. */
  lemma ScopeSeparates(f: Filter, e: Event, id: string)
    requires Wants(f, e)
    ensures f.scope == "run:" + id ==> e.runId == Some(id)
    ensures f.scope == "job:" + id ==> e.jobId == Some(id)
    ensures exists i :: 0 <= i < |f.topics| && f.glob(e.kind, f.topics[i])
  {
    if f.scope == "run:" + id {
      assert f.scope[4..] == id && f.scope[0] == 'r' && "run:" <= f.scope;
    }
    if f.scope == "job:" + id {
      assert f.scope[4..] == id && f.scope[0] == 'j' && "job:" <= f.scope;
      assert "run:"[0] == 'r';
    }
  }

  /** One more event is kept, or lost when it is droppable. */
  lemma ThinnedGrows(kept: seq<Event>, full: seq<Event>, e: Event)
    requires Thinned(kept, full)
    ensures Thinned(kept + [e], full + [e])
    ensures Droppable(e) ==> Thinned(kept, full + [e])
  {
    assert (full + [e])[..|full|] == full && (kept + [e])[..|kept|] == kept;
  }

  /** Losing another droppable event anywhere keeps the rest in order. */
  lemma {:induction false} ThinnedFurther(before: seq<Event>, e: Event, after: seq<Event>, full: seq<Event>)
    requires Thinned(before + [e] + after, full) && Droppable(e)
    ensures Thinned(before + after, full)
    decreases |full|
  {
    var kept := before + [e] + after;
    assert full != [];
    var last, rest := full[|full| - 1], full[..|full| - 1];
    if kept[|kept| - 1] == last && Thinned(kept[..|kept| - 1], rest) {
      if after == [] {
        assert kept[..|kept| - 1] == before + after;
      } else {
        var front := after[..|after| - 1];
        assert kept[..|kept| - 1] == before + [e] + front;
        ThinnedFurther(before, e, front, rest);
        assert (before + after)[..|before + after| - 1] == before + front;
      }
    } else {
      ThinnedFurther(before, e, after, rest);
    }
  }

  // ----- one queue -----

  function FirstDroppable(queue: seq<Event>): (r: Option<nat>)
    ensures r.Some? ==> r.value < |queue| && Droppable(queue[r.value])
    ensures forall i :: 0 <= i < (if r.Some? then r.value else |queue|) ==> !Droppable(queue[i])
  {
    if queue == [] then None
    else if Droppable(queue[0]) then Some(0)
    else
      match FirstDroppable(queue[1..])
      case None => None
      case Some(i) => Some(i + 1)
  }

  /** The queue without its earliest droppable event. */
  function Evicted(queue: seq<Event>): seq<Event> {
    match FirstDroppable(queue)
    case None => queue
    case Some(i) => queue[..i] + queue[i + 1..]
  }

  /** A queue overflows only for an essential event when it is full of essential events. */
  predicate Overflows(queue: seq<Event>, e: Event, size: nat) {
    |queue| >= size && !Droppable(e) && forall i :: 0 <= i < |queue| ==> !Droppable(queue[i])
  }

  /** The queue after an event that does not overflow it. */
  function Put(queue: seq<Event>, e: Event, size: nat): seq<Event> {
    if |queue| < size then queue + [e]
    else if Droppable(e) then queue
    else Evicted(queue) + [e]
  }

  /**
   What an event does to a queue: it joins while there is room; a full queue loses a droppable event, the
   earliest of its own if the new one is not droppable itself, and stays as it is when it has none.
   */
  predicate Takes(queue: seq<Event>, e: Event, size: nat, after: seq<Event>) {
    if |queue| < size then after == queue + [e]
    else if Droppable(e) || Overflows(queue, e, size) then after == queue
    else
      exists i :: 0 <= i < |queue| && Droppable(queue[i]) && (forall j :: 0 <= j < i ==> !Droppable(queue[j]))
                  && after == queue[..i] + queue[i + 1..] + [e]
  }

  lemma PutTakes(queue: seq<Event>, e: Event, size: nat)
    ensures Takes(queue, e, size, if Overflows(queue, e, size) then queue else Put(queue, e, size))
  {
    if |queue| >= size && !Droppable(e) && !Overflows(queue, e, size) {
      var i := FirstDroppable(queue).value;
      assert Put(queue, e, size) == queue[..i] + queue[i + 1..] + [e];
    }
  }

  /** A publication that finds the queue full costs one event, and no other costs any. */
  predicate FindsFull(queue: seq<Event>, f: Filter, e: Event, size: nat) {
    Wants(f, e) && |queue| >= size
  }

  lemma PutCounts(queue: seq<Event>, e: Event, size: nat)
    requires !Overflows(queue, e, size)
    ensures |Put(queue, e, size)| == |queue| + if |queue| >= size then 0 else 1
  {
  }

  lemma EvictionThins(sent: seq<Event>, queue: seq<Event>, i: nat, e: Event, full: seq<Event>)
    requires i < |queue| && Droppable(queue[i]) && Thinned(sent + queue + [e], full)
    ensures Thinned(sent + (queue[..i] + queue[i + 1..] + [e]), full)
  {
    hide Thinned;
    assert sent + queue + [e] == (sent + queue[..i]) + [queue[i]] + (queue[i + 1..] + [e]);
    ThinnedFurther(sent + queue[..i], queue[i], queue[i + 1..] + [e], full);
    assert sent + (queue[..i] + queue[i + 1..] + [e]) == (sent + queue[..i]) + (queue[i + 1..] + [e]);
  }

  /** Putting an event into a queue keeps its bound and loses only droppable events. */
  lemma PutThins(sent: seq<Event>, queue: seq<Event>, e: Event, size: nat, full: seq<Event>)
    requires Thinned(sent + queue, full) && |queue| <= size && size > 0 && !Overflows(queue, e, size)
    ensures |Put(queue, e, size)| <= size && Thinned(sent + Put(queue, e, size), full + [e])
  {
    hide Thinned, FirstDroppable;
    ThinnedGrows(sent + queue, full, e);
    if |queue| < size {
      assert sent + (queue + [e]) == sent + queue + [e];
    } else if !Droppable(e) {
      EvictionThins(sent, queue, FirstDroppable(queue).value, e, full + [e]);
    }
  }

  // ----- the broadcaster -----

  class Subscription {
    const writer: Writer
    const filter: Filter
    /** How many events had been published when the subscription began. */
    ghost const since: nat
    var queue: seq<Event>
    var ready: bool
    var inFlight: Option<Event>
    var draining: bool
    /** The live events passed to the writer. */
    var written: seq<Event>
    /** How many of the events it wants found its queue full. */
    ghost var fulls: nat

    constructor (writer: Writer, filter: Filter, ready: bool, ghost since: nat)
      ensures this.writer == writer && this.filter == filter && this.since == since
      ensures this.ready == ready && queue == [] && inFlight == None && !draining && written == [] && fulls == 0
    {
      this.writer, this.filter, this.since := writer, filter, since;
      queue, inFlight, draining, written, fulls := [], None, false, [], 0;
      this.ready := ready;
    }

    /** What has left the queue: the written events, and the one on its way. */
    ghost function Sent(): seq<Event>
      reads this
    {
      written + if inFlight.Some? then [inFlight.value] else []
    }

    ghost predicate Ok(published: seq<Event>, size: nat)
      reads this
    {
      && |queue| <= size && since <= |published|
      && Thinned(Sent() + queue, Wanted(filter, published[since..]))
      && |Sent()| + |queue| + fulls == |Wanted(filter, published[since..])|
      && (!ready ==> written == [] && inFlight.None?)
      && (draining ==> inFlight.None?)
    }

    /** `_evict_droppable`: the queue is emptied and refilled without its earliest droppable event. */
    method EvictDroppable() returns (evicted: bool)
      modifies this`queue
      ensures evicted <==> exists i :: 0 <= i < |old(queue)| && Droppable(old(queue)[i])
      ensures queue == Evicted(old(queue))
    {
      var retained := [];
      evicted := false;
      ghost var n := 0;
      ghost var first := FirstDroppable(queue);
      while queue != []
        invariant n <= |old(queue)| && queue == old(queue)[n..]
        invariant evicted <==> first.Some? && first.value < n
        invariant retained == if evicted then old(queue)[..first.value] + old(queue)[first.value + 1..n]
                              else old(queue)[..n]
      {
        var item := queue[0];
        queue := queue[1..];
        if !evicted && Droppable(item) {
          evicted := true;
        } else {
          retained := retained + [item];
        }
        n := n + 1;
      }
      queue := retained;
    }
  }

  /** The subscriptions that do not belong to these writers. */
  function WithoutWriters(subs: seq<Subscription>, writers: set<Writer>): (r: seq<Subscription>)
    ensures forall i :: 0 <= i < |r| ==> r[i] in subs && r[i].writer !in writers
    ensures forall i :: 0 <= i < |subs| && subs[i].writer !in writers ==> subs[i] in r
  {
    if subs == [] then []
    else
      var last := subs[|subs| - 1];
      WithoutWriters(subs[..|subs| - 1], writers) + if last.writer in writers then [] else [last]
  }

  /** The subscriptions but for a writer's one of this scope family. */
  function WithoutFamily(subs: seq<Subscription>, writer: Writer, family: string): (r: seq<Subscription>)
    ensures forall i :: 0 <= i < |r| ==>
      r[i] in subs && !(r[i].writer == writer && ScopeFamily(r[i].filter.scope) == family)
    ensures forall i ::
      0 <= i < |subs| && !(subs[i].writer == writer && ScopeFamily(subs[i].filter.scope) == family) ==> subs[i] in r
  {
    if subs == [] then []
    else
      var last := subs[|subs| - 1];
      WithoutFamily(subs[..|subs| - 1], writer, family)
      + if last.writer == writer && ScopeFamily(last.filter.scope) == family then [] else [last]
  }

  predicate Distinct(subs: seq<Subscription>) {
    forall i, j :: 0 <= i < j < |subs| ==>
      && subs[i] != subs[j]
      && !(subs[i].writer == subs[j].writer && ScopeFamily(subs[i].filter.scope) == ScopeFamily(subs[j].filter.scope))
  }

  lemma {:induction false} WithoutWritersDistinct(subs: seq<Subscription>, writers: set<Writer>)
    requires Distinct(subs)
    ensures Distinct(WithoutWriters(subs, writers))
  {
    if subs != [] {
      var front, last := subs[..|subs| - 1], subs[|subs| - 1];
      WithoutWritersDistinct(front, writers);
    }
  }

  lemma {:induction false} WithoutFamilyDistinct(subs: seq<Subscription>, writer: Writer, family: string)
    requires Distinct(subs)
    ensures Distinct(WithoutFamily(subs, writer, family))
  {
    if subs != [] {
      var front, last := subs[..|subs| - 1], subs[|subs| - 1];
      WithoutFamilyDistinct(front, writer, family);
    }
  }

  lemma {:induction false} WithoutWritersTwice(subs: seq<Subscription>, some: set<Writer>, more: set<Writer>)
    ensures WithoutWriters(WithoutWriters(subs, some), more) == WithoutWriters(subs, some + more)
  {
    if subs != [] {
      var front, last := subs[..|subs| - 1], subs[|subs| - 1];
      WithoutWritersTwice(front, some, more);
      var kept := WithoutWriters(front, some);
      if last.writer !in some {
        assert (kept + [last])[..|kept|] == kept;
      } else {
        assert kept + [] == kept;
      }
    }
  }

  lemma {:induction false} WithoutNobody(subs: seq<Subscription>)
    ensures WithoutWriters(subs, {}) == subs
  {
    if subs != [] {
      WithoutNobody(subs[..|subs| - 1]);
    }
  }

  /** The writers that an event overflows a queue of. */
  function SlowWriters(subs: seq<Subscription>, e: Event, size: nat): set<Writer>
    reads subs
  {
    if subs == [] then {}
    else
      var last := subs[|subs| - 1];
      SlowWriters(subs[..|subs| - 1], e, size)
      + if Wants(last.filter, e) && Overflows(last.queue, e, size) then {last.writer} else {}
  }

  lemma SlowWritersOverflow(subs: seq<Subscription>, e: Event, size: nat)
    ensures forall s :: s in subs && s.writer !in SlowWriters(subs, e, size) ==>
      !(Wants(s.filter, e) && Overflows(s.queue, e, size))
  {
    if subs != [] {
      SlowWritersOverflow(subs[..|subs| - 1], e, size);
    }
  }

  /** A subscription that does not overflow stays in order with what has been published. */
  lemma TakesEvent(f: Filter, published: seq<Event>, since: nat, sent: seq<Event>, queue: seq<Event>, fulls: nat,
                   e: Event, size: nat)
    requires since <= |published| && size > 0 && |queue| <= size && Thinned(sent + queue, Wanted(f, published[since..]))
    requires |sent| + |queue| + fulls == |Wanted(f, published[since..])|
    requires !(Wants(f, e) && Overflows(queue, e, size))
    ensures
      var now, full := if Wants(f, e) then Put(queue, e, size) else queue, Wanted(f, (published + [e])[since..]);
      && |now| <= size && Thinned(sent + now, full)
      && |sent| + |now| + fulls + (if FindsFull(queue, f, e, size) then 1 else 0) == |full|
  {
    hide Thinned, Wanted, Overflows, Put, Wants;
    assert (published + [e])[since..] == published[since..] + [e];
    WantedOneMore(f, published[since..], e);
    if Wants(f, e) {
      PutThins(sent, queue, e, size, Wanted(f, published[since..]));
      PutCounts(queue, e, size);
    } else {
      assert Wanted(f, published[since..]) + [] == Wanted(f, published[since..]);
    }
  }

  /** A subscription's queue and count of full finds before and after it was offered an event. */
  predicate Served(f: Filter, e: Event, size: nat, before: seq<Event>, fulls: nat, after: seq<Event>, now: nat) {
    && after == (if Wants(f, e) && !Overflows(before, e, size) then Put(before, e, size) else before)
    && now == fulls + if FindsFull(before, f, e, size) then 1 else 0
  }

  class IpcEventBroadcaster {
    const glob: Glob
    const size: nat
    var subscriptions: seq<Subscription>
    ghost var published: seq<Event>

    constructor (glob: Glob, size: nat)
      requires size > 0
      ensures this.glob == glob && this.size == size && subscriptions == [] && Valid()
    {
      this.glob, this.size, subscriptions, published := glob, size, [], [];
    }

    ghost predicate Valid()
      reads this, subscriptions
    {
      && size > 0 && Distinct(subscriptions)
      && forall s :: s in subscriptions ==> s.filter.glob == glob && s.Ok(published, size)
    }

    /**
     For every live subscription: the essential events it wants and that were published since
     it began are, in order, those written, then the one in flight, then those queued; the
     queue is within its bound, and nothing was written before the activation.
     */
    lemma EssentialEventsArrive(s: Subscription)
      requires Valid() && s in subscriptions
      ensures s.since <= |published|
      ensures Essential(s.Sent() + s.queue) == Essential(Wanted(s.filter, published[s.since..]))
      ensures |s.queue| <= size && (!s.ready ==> s.Sent() == [])
    {
      ThinnedKeepsEssential(s.Sent() + s.queue, Wanted(s.filter, published[s.since..]));
    }

    /**
     A display event is lost only under congestion: for every live subscription the events it wants are as
     many as those written, in flight and queued and those that found its queue full, and as long as none
     has found it full they are the same, display events included.
     */
    lemma NothingLostUnlessFull(s: Subscription)
      requires Valid() && s in subscriptions
      ensures s.since <= |published|
      ensures |s.Sent() + s.queue| + s.fulls == |Wanted(s.filter, published[s.since..])|
      ensures s.Sent() + s.queue == Wanted(s.filter, published[s.since..]) <==> s.fulls == 0
    {
      ThinnedSameLength(s.Sent() + s.queue, Wanted(s.filter, published[s.since..]));
    }

    /** Nothing reaches a subscription but events published since it began that match a topic and its scope. */
    lemma OnlyWantedArrive(s: Subscription, e: Event, id: string)
      requires Valid() && s in subscriptions && e in s.Sent() + s.queue
      ensures s.since <= |published| && e in published[s.since..]
      ensures exists i :: 0 <= i < |s.filter.topics| && glob(e.kind, s.filter.topics[i])
      ensures s.filter.scope == "run:" + id ==> e.runId == Some(id)
      ensures s.filter.scope == "job:" + id ==> e.jobId == Some(id)
    {
      ThinnedIsPart(s.Sent() + s.queue, Wanted(s.filter, published[s.since..]));
      WantedAreWanted(s.filter, published[s.since..]);
      ScopeSeparates(s.filter, e, id);
    }

    method Subscribe(writer: Writer, topics: seq<string>, scope: string, replayPending: bool)
      returns (sub: Subscription)
      requires Valid()
      modifies this`subscriptions
      ensures Valid() && fresh(sub)
      ensures subscriptions == WithoutFamily(old(subscriptions), writer, ScopeFamily(scope)) + [sub]
      ensures sub.writer == writer && sub.filter == Filter(glob, topics, scope) && sub.ready == !replayPending
      ensures sub.since == |published| && sub.fulls == 0 && sub.Sent() + sub.queue == []
    {
      var kept := WithoutFamily(subscriptions, writer, ScopeFamily(scope));
      WithoutFamilyDistinct(subscriptions, writer, ScopeFamily(scope));
      sub := new Subscription(writer, Filter(glob, topics, scope), !replayPending, |published|);
      assert sub.Sent() + sub.queue == [];
      subscriptions := kept + [sub];
    }

    method Activate(sub: Subscription)
      requires Valid()
      modifies sub`ready
      ensures Valid() && sub.ready == (old(sub.ready) || sub in subscriptions)
    {
      if sub in subscriptions {
        sub.ready := true;
      }
    }

    /** `_remove_writer`, for a client that has left, whose connection broke, or that is too slow. */
    method RemoveWriter(writer: Writer)
      requires Valid()
      modifies this`subscriptions
      ensures Valid() && subscriptions == WithoutWriters(old(subscriptions), {writer})
    {
      WithoutWritersDistinct(subscriptions, {writer});
      subscriptions := WithoutWriters(subscriptions, {writer});
    }

    // ----- the write loop of a subscription, from await to await -----

    method Take(sub: Subscription)
      requires Valid() && sub in subscriptions
      requires sub.ready && sub.inFlight.None? && !sub.draining && sub.queue != []
      modifies sub`inFlight, sub`queue
      ensures Valid() && sub.Sent() + sub.queue == old(sub.Sent() + sub.queue)
      ensures sub.inFlight == Some(old(sub.queue)[0])
    {
      sub.inFlight, sub.queue := Some(sub.queue[0]), sub.queue[1..];
      assert sub.Sent() + sub.queue == old(sub.Sent() + sub.queue);
    }

    method Write(sub: Subscription)
      requires Valid() && sub in subscriptions && sub.inFlight.Some?
      modifies sub`written, sub`inFlight, sub`draining
      ensures Valid() && sub.written == old(sub.written) + [old(sub.inFlight).value] && sub.inFlight.None?
      ensures sub.queue == old(sub.queue)
    {
      sub.written, sub.inFlight, sub.draining := sub.written + [sub.inFlight.value], None, true;
      assert sub.Sent() + sub.queue == old(sub.Sent() + sub.queue);
    }

    method Drained(sub: Subscription)
      requires Valid() && sub in subscriptions && sub.draining
      modifies sub`draining
      ensures Valid() && !sub.draining
    {
      sub.draining := false;
    }

    // ----- publishing -----

    /** How one subscription takes an event: its queue changes, or it overflows and keeps it. */
    method Offer(sub: Subscription, event: Event) returns (overflow: bool)
      modifies sub`queue
      ensures overflow == Overflows(old(sub.queue), event, size)
      ensures sub.queue == if overflow then old(sub.queue) else Put(old(sub.queue), event, size)
      ensures Takes(old(sub.queue), event, size, sub.queue)
    {
      PutTakes(sub.queue, event, size);
      overflow := false;
      if |sub.queue| < size {
        sub.queue := sub.queue + [event];
      } else if !Droppable(event) {
        var evicted := sub.EvictDroppable();
        if evicted {
          sub.queue := sub.queue + [event];
        } else {
          overflow := true;
        }
      }
    }

    /**
     Every subscription that wants the event takes it; the clients with an overflowing queue
     lose all their subscriptions, and nobody else does.
     */
    method Handle(event: Event)
      requires Valid()
      modifies this, subscriptions
      ensures Valid() && published == old(published) + [event]
      ensures subscriptions == WithoutWriters(old(subscriptions), old(SlowWriters(subscriptions, event, size)))
      ensures forall s :: s in old(subscriptions) ==>
        && unchanged(s`written, s`inFlight, s`ready, s`draining)
        && (if Wants(s.filter, event) then Takes(old(s.queue), event, size, s.queue) else s.queue == old(s.queue))
        && s.fulls == old(s.fulls) + if FindsFull(old(s.queue), s.filter, event, size) then 1 else 0
    {
      hide Thinned, Wanted, Overflows, Put, Wants, WithoutWriters, SlowWriters, Takes, FindsFull;
      ghost var slow := SlowWriters(subscriptions, event, size);
      SlowWritersOverflow(subscriptions, event, size);
      WithoutWritersDistinct(subscriptions, slow);
      OfferAll(event);
      published := published + [event];
      forall s | s in subscriptions
        ensures s.Ok(published, size)
      {
        TakesEvent(s.filter, old(published), s.since, s.Sent(), old(s.queue), old(s.fulls), event, size);
      }
      forall s | s in old(subscriptions)
        ensures if Wants(s.filter, event) then Takes(old(s.queue), event, size, s.queue) else s.queue == old(s.queue)
      {
        PutTakes(old(s.queue), event, size);
      }
    }

    /** One subscription in the loop: it is offered the event if it wants it. */
    method OfferWanted(sub: Subscription, event: Event) returns (overflow: bool)
      modifies sub`queue, sub`fulls
      ensures overflow == (Wants(sub.filter, event) && Overflows(old(sub.queue), event, size))
      ensures Served(sub.filter, event, size, old(sub.queue), old(sub.fulls), sub.queue, sub.fulls)
    {
      hide Overflows, Put, Wants, Takes;
      overflow := false;
      if Wants(sub.filter, event) {
        sub.fulls := sub.fulls + if |sub.queue| >= size then 1 else 0;
        overflow := Offer(sub, event);
      }
    }

    /** The loop over a snapshot of the subscriptions. */
    method OfferAll(event: Event)
      requires Distinct(subscriptions)
      modifies this`subscriptions, subscriptions
      ensures subscriptions == WithoutWriters(old(subscriptions), old(SlowWriters(subscriptions, event, size)))
      ensures forall s :: s in old(subscriptions) ==>
        && Served(s.filter, event, size, old(s.queue), old(s.fulls), s.queue, s.fulls)
        && unchanged(s`written, s`inFlight, s`ready, s`draining)
    {
      hide Overflows, Wants, WithoutWriters, Served;
      var snapshot := subscriptions;
      ghost var slow: set<Writer> := {};
      WithoutNobody(snapshot);
      for k := 0 to |snapshot|
        invariant snapshot == old(subscriptions)
        invariant slow == old(SlowWriters(subscriptions[..k], event, size))
        invariant subscriptions == WithoutWriters(snapshot, slow)
        invariant forall i :: 0 <= i < k ==>
          Served(snapshot[i].filter, event, size, old(subscriptions[i].queue), old(subscriptions[i].fulls),
                 snapshot[i].queue, snapshot[i].fulls)
        invariant forall i :: k <= i < |snapshot| ==>
          snapshot[i].queue == old(subscriptions[i].queue) && snapshot[i].fulls == old(subscriptions[i].fulls)
        invariant forall s :: s in snapshot ==> unchanged(s`written, s`inFlight, s`ready, s`draining)
      {
        var sub := snapshot[k];
        assert old(subscriptions[..k + 1][..k]) == old(subscriptions[..k]);
        var overflow := OfferWanted(sub, event);
        if overflow {
          WithoutWritersTwice(snapshot, slow, {sub.writer});
          slow := slow + {sub.writer};
          subscriptions := WithoutWriters(subscriptions, {sub.writer});
        }
      }
      assert old(subscriptions[..|subscriptions|]) == old(subscriptions);
    }
  }
}
