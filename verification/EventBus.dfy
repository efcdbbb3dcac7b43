/** The event bus: publishers that append to per-subscriber queues under a shared lock, one forwarder
    per subscriber that moves the queue into a channel, and receivers, all interleaved. */
module EventBus {
  import opened Base

  // ----- one subscriber -----

  /** `enqueued` and `received` are the history of a subscriber: what publishers appended, and what was
      taken out of the channel. An in-flight event stays in `inFlight` when the forwarder gives up. */
  datatype Sub<E> = Sub(
    capacity: nat,
    queue: seq<E>,
    inFlight: Option<E>,
    channel: seq<E>,
    closed: bool,
    exited: bool,
    enqueued: seq<E>,
    received: seq<E>,
    since: nat)

  function Flight<E>(s: Sub<E>): seq<E> {
    if s.inFlight.Some? then [s.inFlight.value] else []
  }

  function Delivered<E>(s: Sub<E>): seq<E> {
    s.received + s.channel
  }

  /** What was delivered, then the in-flight event, then the queue is exactly what was enqueued. */
  predicate SubOk<E(==)>(s: Sub<E>) {
    Delivered(s) + (Flight(s) + s.queue) == s.enqueued && |s.channel| <= s.capacity
  }

  datatype Move = Take | Send | Handoff | GiveUp | Exit | Receive

  predicate CanMove<E>(s: Sub<E>, m: Move) {
    match m
    case Take => !s.exited && s.inFlight.None? && s.queue != []
    case Send => !s.exited && s.inFlight.Some? && |s.channel| < s.capacity
    case Handoff => !s.exited && s.inFlight.Some? && s.channel == []
    case GiveUp => !s.exited && s.inFlight.Some? && s.closed
    case Exit => !s.exited && s.inFlight.None? && s.queue == [] && s.closed
    case Receive => s.channel != []
  }

  function Moved<E>(s: Sub<E>, m: Move): Sub<E>
    requires CanMove(s, m)
  {
    match m
    case Take => s.(inFlight := Some(s.queue[0]), queue := s.queue[1..])
    case Send => s.(channel := s.channel + [s.inFlight.value], inFlight := None)
    case Handoff => s.(received := s.received + [s.inFlight.value], inFlight := None)
    case GiveUp => s.(exited := true)
    case Exit => s.(exited := true)
    case Receive => s.(received := s.received + [s.channel[0]], channel := s.channel[1..])
  }

  lemma MoveKeepsSub<E>(s: Sub<E>, m: Move)
    requires CanMove(s, m) && SubOk(s)
    ensures SubOk(Moved(s, m)) && Moved(s, m).enqueued == s.enqueued && Moved(s, m).since == s.since
  {
    var r := Moved(s, m);
    match m
    case Take => assert Flight(r) + r.queue == s.queue;
    case Send => assert Delivered(r) == Delivered(s) + Flight(s);
    case Handoff => assert Delivered(r) == Delivered(s) + Flight(s);
    case GiveUp =>
    case Exit =>
    case Receive => assert Delivered(r) == Delivered(s);
  }

  function Enqueued<E>(s: Sub<E>, e: E): Sub<E> {
    s.(queue := s.queue + [e], enqueued := s.enqueued + [e])
  }

  lemma EnqueueKeepsSub<E>(s: Sub<E>, e: E)
    requires SubOk(s)
    ensures SubOk(Enqueued(s, e))
  {
    assert Delivered(s) + (Flight(s) + (s.queue + [e])) == (Delivered(s) + (Flight(s) + s.queue)) + [e];
  }

  // ----- the bus -----

  /** A Publish that is under way: its event, and how many of the listed subscribers it has passed. */
  datatype Publication<E> = Publication(event: E, passed: nat)

  /** `listed` is the subscriber slice; a subscriber that left it goes on with what it has. `published`
      lists the events of the calls of Publish that are over. */
  datatype State<E> = State(
    subs: seq<Sub<E>>,
    listed: seq<nat>,
    closed: bool,
    active: seq<Publication<E>>,
    published: seq<E>)

  datatype Action<E> =
    | Subscribe(capacity: nat)
    | Unsubscribe(at: nat)
    | Close
    | BeginPublish(event: E)
    | Enqueue(p: nat)
    | EndPublish(p: nat)
    | Forward(id: nat, move: Move)

  /** Subscribe, Unsubscribe and Close need the write lock, so no Publish is under way. */
  predicate Enabled<E>(s: State<E>, a: Action<E>) {
    match a
    case Subscribe(_) => s.active == []
    case Unsubscribe(at) => s.active == [] && at < |s.listed| && s.listed[at] < |s.subs|
    case Close => s.active == []
    case BeginPublish(_) => !s.closed
    case Enqueue(p) => p < |s.active| && s.active[p].passed < |s.listed| && s.listed[s.active[p].passed] < |s.subs|
    case EndPublish(p) => p < |s.active| && s.active[p].passed == |s.listed|
    case Forward(id, m) => id < |s.subs| && CanMove(s.subs[id], m)
  }

  function CloseAll<E>(subs: seq<Sub<E>>, listed: seq<nat>): (r: seq<Sub<E>>)
    ensures |r| == |subs|
    ensures forall i :: 0 <= i < |subs| ==> r[i] == subs[i].(closed := subs[i].closed || i in listed)
  {
    seq(|subs|, i requires 0 <= i < |subs| => subs[i].(closed := subs[i].closed || i in listed))
  }

  function Apply<E>(s: State<E>, a: Action<E>): State<E>
    requires Enabled(s, a)
  {
    match a
    case Subscribe(capacity) =>
      if s.closed then s
      else s.(subs := s.subs + [Sub(capacity, [], None, [], false, false, [], [], |s.published|)],
              listed := s.listed + [|s.subs|])
    case Unsubscribe(at) =>
      s.(subs := s.subs[s.listed[at] := s.subs[s.listed[at]].(closed := true)],
         listed := s.listed[..at] + s.listed[at+1..])
    case Close => s.(closed := true, subs := CloseAll(s.subs, s.listed), listed := [])
    case BeginPublish(event) => s.(active := s.active + [Publication(event, 0)])
    case Enqueue(p) =>
      var id := s.listed[s.active[p].passed];
      s.(subs := if s.subs[id].closed then s.subs else s.subs[id := Enqueued(s.subs[id], s.active[p].event)],
         active := s.active[p := s.active[p].(passed := s.active[p].passed + 1)])
    case EndPublish(p) =>
      s.(active := s.active[..p] + s.active[p+1..], published := s.published + [s.active[p].event])
    case Forward(id, m) => s.(subs := s.subs[id := Moved(s.subs[id], m)])
  }

  predicate Initial<E>(s: State<E>) {
    s.subs == [] && s.listed == [] && !s.closed && s.active == [] && s.published == []
  }

  ghost predicate Execution<E>(ss: seq<State<E>>, acts: seq<Action<E>>) {
    && |ss| == |acts| + 1 && Initial(ss[0])
    && forall t :: 0 <= t < |acts| ==> Enabled(ss[t], acts[t]) && ss[t+1] == Apply(ss[t], acts[t])
  }

  // ----- delivery -----

  predicate SubsOk<E(==)>(s: State<E>) {
    forall i :: 0 <= i < |s.subs| ==> SubOk(s.subs[i])
  }

  lemma ApplySubs<E>(s: State<E>, a: Action<E>)
    requires SubsOk(s) && Enabled(s, a)
    ensures SubsOk(Apply(s, a))
  {
    hide SubOk, Moved, CanMove, Enqueued;
    match a
    case Subscribe(capacity) =>
      NewSubOk<E>(capacity, |s.published|);
    case Unsubscribe(at) => ClosedSubOk(s.subs[s.listed[at]], true);
    case Close =>
      forall i | 0 <= i < |s.subs| ensures SubOk(CloseAll(s.subs, s.listed)[i]) {
        ClosedSubOk(s.subs[i], s.subs[i].closed || i in s.listed);
      }
    case BeginPublish(_) =>
    case Enqueue(p) => EnqueueKeepsSub(s.subs[s.listed[s.active[p].passed]], s.active[p].event);
    case EndPublish(_) =>
    case Forward(id, m) => MoveKeepsSub(s.subs[id], m);
  }

  lemma NewSubOk<E>(capacity: nat, since: nat)
    ensures SubOk<E>(Sub(capacity, [], None, [], false, false, [], [], since))
  {
  }

  lemma ClosedSubOk<E>(s: Sub<E>, closed: bool)
    requires SubOk(s)
    ensures SubOk(s.(closed := closed))
  {
    assert Delivered(s.(closed := closed)) == Delivered(s) && Flight(s.(closed := closed)) == Flight(s);
  }

  /** For every subscriber and every interleaving: what the channel has delivered, then the in-flight
      event, then the queue is exactly the sequence enqueued since the subscription. So the receiver
      sees a prefix of it, without gap, repetition or change of order, even if it was closed early. */
  lemma {:induction false} DeliveryIsPrefix<E>(ss: seq<State<E>>, acts: seq<Action<E>>, t: nat)
    requires Execution(ss, acts) && t < |ss|
    ensures forall i :: 0 <= i < |ss[t].subs| ==>
      Delivered(ss[t].subs[i]) + (Flight(ss[t].subs[i]) + ss[t].subs[i].queue) == ss[t].subs[i].enqueued
    ensures forall i :: 0 <= i < |ss[t].subs| ==> ss[t].subs[i].received <= ss[t].subs[i].enqueued
    ensures SubsOk(ss[t])
  {
    if t > 0 {
      DeliveryIsPrefix(ss, acts, t - 1);
      assert Enabled(ss[t-1], acts[t-1]);
      ApplySubs(ss[t-1], acts[t-1]);
    }
    var s := ss[t];
    forall i | 0 <= i < |s.subs| ensures s.subs[i].received <= s.subs[i].enqueued {
      assert SubOk(s.subs[i]);
    }
  }

  // ----- nothing is lost on the way into the queues -----

  /** The events of the publications that have passed this position of the list. */
  ghost function PassedEvents<E>(active: seq<Publication<E>>, at: nat): multiset<E> {
    if active == [] then multiset{}
    else
      var last := active[|active|-1];
      PassedEvents(active[..|active|-1], at) + if last.passed > at then multiset{last.event} else multiset{}
  }

  lemma {:induction false} PassedConcat<E>(a: seq<Publication<E>>, b: seq<Publication<E>>, at: nat)
    ensures PassedEvents(a + b, at) == PassedEvents(a, at) + PassedEvents(b, at)
  {
    if b == [] {
      assert a + b == a;
    } else {
      assert (a + b)[..|a + b|-1] == a + b[..|b|-1];
      PassedConcat(a, b[..|b|-1], at);
    }
  }

  lemma PassedUpdate<E>(active: seq<Publication<E>>, p: nat, at: nat)
    requires p < |active|
    ensures PassedEvents(active, at) ==
            PassedEvents(active[..p] + active[p+1..], at) +
            if active[p].passed > at then multiset{active[p].event} else multiset{}
  {
    assert active == active[..p] + ([active[p]] + active[p+1..]);
    PassedConcat(active[..p], [active[p]] + active[p+1..], at);
    PassedConcat([active[p]], active[p+1..], at);
    PassedConcat(active[..p], active[p+1..], at);
    assert [active[p]][..0] == [];
  }

  /** Listed subscribers are open and different, and each has been given every event published since it
      subscribed, once. */
  ghost predicate ListOk<E>(s: State<E>) {
    && (forall j :: 0 <= j < |s.listed| ==> s.listed[j] < |s.subs| && !s.subs[s.listed[j]].closed)
    && (forall i, j :: 0 <= i < j < |s.listed| ==> s.listed[i] != s.listed[j])
    && (s.closed ==> s.listed == [])
    && (forall p :: 0 <= p < |s.active| ==> s.active[p].passed <= |s.listed|)
  }

  ghost predicate Served<E>(s: State<E>, j: nat)
    requires j < |s.listed| && s.listed[j] < |s.subs|
  {
    var sub := s.subs[s.listed[j]];
    sub.since <= |s.published| &&
    multiset(sub.enqueued) == multiset(s.published[sub.since..]) + PassedEvents(s.active, j)
  }

  ghost predicate AllServed<E>(s: State<E>) {
    ListOk(s) && forall j :: 0 <= j < |s.listed| ==> Served(s, j)
  }

  /** Open subscribers stay open where the listed ones are not touched. */
  lemma ListKept<E>(s: State<E>, r: State<E>)
    requires ListOk(s) && r.listed == s.listed && r.closed == s.closed && |r.subs| == |s.subs|
    requires forall i :: 0 <= i < |s.subs| ==> r.subs[i].closed == s.subs[i].closed
    requires forall p :: 0 <= p < |r.active| ==> r.active[p].passed <= |r.listed|
    ensures ListOk(r)
  {
  }

  lemma UnsubscribeListOk<E>(s: State<E>, at: nat)
    requires ListOk(s) && Enabled(s, Action<E>.Unsubscribe(at))
    ensures ListOk(Apply(s, Action<E>.Unsubscribe(at)))
  {
    var r := Apply(s, Action<E>.Unsubscribe(at));
    forall j | 0 <= j < |r.listed| ensures r.listed[j] == s.listed[if j < at then j else j + 1] {
    }
  }

  lemma ApplyListOk<E>(s: State<E>, a: Action<E>)
    requires ListOk(s) && Enabled(s, a)
    ensures ListOk(Apply(s, a))
  {
    match a
    case Subscribe(_) =>
    case Unsubscribe(at) => UnsubscribeListOk(s, at);
    case Close =>
    case BeginPublish(_) => ListKept(s, Apply(s, a));
    case Enqueue(_) => ListKept(s, Apply(s, a));
    case EndPublish(_) => ListKept(s, Apply(s, a));
    case Forward(id, m) =>
      ForwardKeeps(s.subs[id], m);
      ListKept(s, Apply(s, a));
  }

  lemma EnqueueServes<E>(s: State<E>, p: nat, j: nat)
    requires AllServed(s) && Enabled(s, Action<E>.Enqueue(p)) && j < |s.listed|
    ensures ListOk(Apply(s, Action<E>.Enqueue(p))) && Served(Apply(s, Action<E>.Enqueue(p)), j)
  {
    hide PassedEvents;
    ApplyListOk(s, Action<E>.Enqueue(p));
    var r := Apply(s, Action<E>.Enqueue(p));
    assert Served(s, j);
    PassedUpdate(s.active, p, j);
    PassedUpdate(r.active, p, j);
    assert r.active[..p] + r.active[p+1..] == s.active[..p] + s.active[p+1..];
  }

  lemma EndServes<E>(s: State<E>, p: nat, j: nat)
    requires AllServed(s) && Enabled(s, Action<E>.EndPublish(p)) && j < |s.listed|
    ensures ListOk(Apply(s, Action<E>.EndPublish(p))) && Served(Apply(s, Action<E>.EndPublish(p)), j)
  {
    ApplyListOk(s, Action<E>.EndPublish(p));
    var sub := s.subs[s.listed[j]];
    assert Served(s, j);
    PassedUpdate(s.active, p, j);
    assert (s.published + [s.active[p].event])[sub.since..] == s.published[sub.since..] + [s.active[p].event];
  }

  lemma OtherServes<E>(s: State<E>, a: Action<E>, j: nat)
    requires AllServed(s) && Enabled(s, a) && !a.Enqueue? && !a.EndPublish? && j < |Apply(s, a).listed|
    ensures ListOk(Apply(s, a)) && Served(Apply(s, a), j)
  {
    hide SubOk;
    ApplyListOk(s, a);
    var r := Apply(s, a);
    match a
    case Subscribe(_) =>
      if j < |s.listed| {
        assert Served(s, j);
      } else {
        assert r.published[|r.published|..] == [];
      }
    case Unsubscribe(at) =>
      assert Served(s, if j < at then j else j + 1);
    case Close =>
    case BeginPublish(event) =>
      assert Served(s, j);
      assert r.active[..|r.active|-1] == s.active;
    case Forward(id, m) =>
      assert Served(s, j);
      ForwardKeeps(s.subs[id], m);
  }

  lemma ForwardKeeps<E>(s: Sub<E>, m: Move)
    requires CanMove(s, m)
    ensures Moved(s, m).enqueued == s.enqueued && Moved(s, m).since == s.since && Moved(s, m).closed == s.closed
  {
  }

  lemma ApplyServes<E>(s: State<E>, a: Action<E>)
    requires AllServed(s) && Enabled(s, a)
    ensures AllServed(Apply(s, a))
  {
    hide Served;
    ApplyListOk(s, a);
    forall j | 0 <= j < |Apply(s, a).listed| ensures Served(Apply(s, a), j) {
      match a
      case Enqueue(p) => EnqueueServes(s, p, j);
      case EndPublish(p) => EndServes(s, p, j);
      case _ => OtherServes(s, a, j);
    }
  }

  /** Conservation: every listed subscriber has been given exactly the events published since it
      subscribed, each once, besides those of publications under way that have already passed it. */
  lemma {:induction false} SubscribersServed<E>(ss: seq<State<E>>, acts: seq<Action<E>>, t: nat)
    requires Execution(ss, acts) && t < |ss|
    ensures AllServed(ss[t])
  {
    if t > 0 {
      SubscribersServed(ss, acts, t - 1);
      assert Enabled(ss[t-1], acts[t-1]);
      ApplyServes(ss[t-1], acts[t-1]);
    }
  }

  // ----- nobody is blocked, and nobody is forgotten -----

  /** Publish never waits for a receiver: whatever the queues and channels hold, a publication that is under
      way can go on to the next subscriber or end. */
  lemma PublishNeverBlocks<E>(ss: seq<State<E>>, acts: seq<Action<E>>, t: nat, p: nat)
    requires Execution(ss, acts) && t < |ss| && p < |ss[t].active|
    ensures Enabled(ss[t], Action<E>.Enqueue(p)) || Enabled(ss[t], Action<E>.EndPublish(p))
  {
    SubscribersServed(ss, acts, t);
    assert ss[t].active[p].passed <= |ss[t].listed|;
  }

  /** A forwarder ends only for a closed subscriber, and unless it gave an event up it has delivered all. */
  predicate EndOk<E>(s: Sub<E>) {
    s.exited ==> s.closed && (s.inFlight.None? ==> s.queue == [])
  }

  ghost predicate EndsOk<E>(s: State<E>) {
    && (forall i :: 0 <= i < |s.subs| ==> EndOk(s.subs[i]))
    && forall i :: 0 <= i < |s.subs| && i !in s.listed ==> s.subs[i].closed
  }

  lemma ApplyEnds<E>(s: State<E>, a: Action<E>)
    requires EndsOk(s) && Enabled(s, a)
    ensures EndsOk(Apply(s, a))
  {
    hide SubOk;
    var r := Apply(s, a);
    match a
    case Subscribe(_) =>
      assert s.closed || r.listed == s.listed + [|s.subs|];
    case Unsubscribe(at) =>
      forall i | 0 <= i < |r.subs| && i !in r.listed ensures r.subs[i].closed {
        assert s.listed == s.listed[..at] + ([s.listed[at]] + s.listed[at+1..]);
        assert i in s.listed ==> i == s.listed[at];
      }
    case Close =>
    case BeginPublish(_) =>
    case Enqueue(_) =>
    case EndPublish(_) =>
    case Forward(id, m) =>
  }

  lemma {:induction false} EveryEndOk<E>(ss: seq<State<E>>, acts: seq<Action<E>>, t: nat)
    requires Execution(ss, acts) && t < |ss|
    ensures EndsOk(ss[t])
  {
    hide Apply, Enabled;
    if t > 0 {
      EveryEndOk(ss, acts, t - 1);
      assert Enabled(ss[t-1], acts[t-1]) && ss[t] == Apply(ss[t-1], acts[t-1]);
      ApplyEnds(ss[t-1], acts[t-1]);
    }
  }

  /** A subscriber that left the list is closed, its forwarder needs no receiver to end, and once it has ended
      everything was delivered but for the event that it may have given up and the queue behind that. */
  lemma LeaversEnd<E>(ss: seq<State<E>>, acts: seq<Action<E>>, t: nat, i: nat) returns (m: Move)
    requires Execution(ss, acts) && t < |ss| && i < |ss[t].subs| && i !in ss[t].listed
    ensures ss[t].subs[i].closed
    ensures !ss[t].subs[i].exited ==> m in {Take, GiveUp, Exit} && Enabled(ss[t], Action<E>.Forward(i, m))
    ensures var sub := ss[t].subs[i];
            sub.exited && sub.inFlight.None? ==> Delivered(sub) == sub.enqueued
  {
    EveryEndOk(ss, acts, t);
    DeliveryIsPrefix(ss, acts, t);
    var sub := ss[t].subs[i];
    assert EndOk(sub) && SubOk(sub);
    m := if sub.inFlight.Some? then GiveUp else if sub.queue != [] then Take else Exit;
    if sub.exited && sub.inFlight.None? {
      assert Flight(sub) + sub.queue == [];
    }
  }

  /** What has been closed stays closed, and is given nothing any more. */
  lemma {:induction false} ClosedGetsNothing<E>(ss: seq<State<E>>, acts: seq<Action<E>>, t: nat, u: nat, i: nat)
    requires Execution(ss, acts) && t <= u < |ss| && i < |ss[t].subs| && ss[t].subs[i].closed
    ensures i < |ss[u].subs| && ss[u].subs[i].closed && ss[u].subs[i].enqueued == ss[t].subs[i].enqueued
  {
    hide Apply, Enabled;
    if t < u {
      ClosedGetsNothing(ss, acts, t, u - 1, i);
      assert Enabled(ss[u-1], acts[u-1]) && ss[u] == Apply(ss[u-1], acts[u-1]);
      ClosedKept(ss[u-1], acts[u-1], i);
    }
  }

  lemma ClosedKept<E>(s: State<E>, a: Action<E>, i: nat)
    requires Enabled(s, a) && i < |s.subs| && s.subs[i].closed
    ensures i < |Apply(s, a).subs| && Apply(s, a).subs[i].closed && Apply(s, a).subs[i].enqueued == s.subs[i].enqueued
  {
  }

  /** Close is final: from then on every subscriber is closed, nobody is listed and no publication begins. */
  lemma {:induction false} CloseIsFinal<E>(ss: seq<State<E>>, acts: seq<Action<E>>, t: nat, u: nat)
    requires Execution(ss, acts) && t < u < |ss| && acts[t] == Close
    ensures ss[u].closed && ss[u].listed == [] && forall i :: 0 <= i < |ss[u].subs| ==> ss[u].subs[i].closed
    ensures u < |acts| ==> !acts[u].BeginPublish?
  {
    hide SubOk;
    assert Enabled(ss[u-1], acts[u-1]) && ss[u] == Apply(ss[u-1], acts[u-1]);
    if t < u - 1 {
      CloseIsFinal(ss, acts, t, u - 1);
    }
    SubscribersServed(ss, acts, u);
    EveryEndOk(ss, acts, u);
    if u < |acts| {
      assert Enabled(ss[u], acts[u]);
    }
  }

  /** No Unsubscribe and no Close in this part of an execution. */
  predicate NobodyLeaves<E(==)>(acts: seq<Action<E>>, t: nat, u: nat) {
    forall v :: t <= v < u && v < |acts| ==> !acts[v].Unsubscribe? && !acts[v].Close?
  }

  lemma ListedKept<E>(s: State<E>, a: Action<E>, id: nat)
    requires Enabled(s, a) && !a.Unsubscribe? && !a.Close? && id in s.listed && id < |s.subs|
    ensures id in Apply(s, a).listed && id < |Apply(s, a).subs| && Apply(s, a).subs[id].since == s.subs[id].since
  {
    if a.Forward? {
      ForwardKeeps(s.subs[a.id], a.move);
    }
  }

  /** Who subscribes to an open bus is given every event that is published from then on, each once, as long
      as nobody unsubscribes and the bus is not closed. */
  lemma {:induction false} SubscriberGetsAll<E>(ss: seq<State<E>>, acts: seq<Action<E>>, t: nat, u: nat)
    returns (j: nat)
    requires Execution(ss, acts) && t < u < |ss| && acts[t].Subscribe? && !ss[t].closed && NobodyLeaves(acts, t, u)
    ensures j < |ss[u].listed| && ss[u].listed[j] == |ss[t].subs| < |ss[u].subs|
    ensures |ss[t].published| <= |ss[u].published|
    ensures multiset(ss[u].subs[|ss[t].subs|].enqueued) ==
            multiset(ss[u].published[|ss[t].published|..]) + PassedEvents(ss[u].active, j)
  {
    hide PassedEvents, SubOk;
    StaysListed(ss, acts, t, u);
    SubscribersServed(ss, acts, u);
    j :| j < |ss[u].listed| && ss[u].listed[j] == |ss[t].subs|;
    assert Served(ss[u], j);
  }

  lemma {:induction false} StaysListed<E>(ss: seq<State<E>>, acts: seq<Action<E>>, t: nat, u: nat)
    requires Execution(ss, acts) && t < u < |ss| && acts[t].Subscribe? && !ss[t].closed && NobodyLeaves(acts, t, u)
    ensures |ss[t].subs| in ss[u].listed && |ss[t].subs| < |ss[u].subs|
    ensures ss[u].subs[|ss[t].subs|].since == |ss[t].published|
  {
    assert Enabled(ss[u-1], acts[u-1]) && ss[u] == Apply(ss[u-1], acts[u-1]);
    if t < u - 1 {
      hide Apply, Enabled;
      StaysListed(ss, acts, t, u - 1);
      ListedKept(ss[u-1], acts[u-1], |ss[t].subs|);
    }
  }

  // ----- publications that do not overlap -----

  /** Different calls of Publish carry different events. */
  ghost predicate EventsDiffer<E>(acts: seq<Action<E>>) {
    forall u, v :: 0 <= u < v < |acts| && acts[u].BeginPublish? && acts[v].BeginPublish? ==>
      acts[u].event != acts[v].event
  }

  ghost predicate BegunAt<E>(acts: seq<Action<E>>, u: nat, e: E) {
    u < |acts| && acts[u] == BeginPublish(e)
  }

  ghost predicate EndedAt<E>(ss: seq<State<E>>, acts: seq<Action<E>>, u: nat, e: E) {
    u < |acts| && u < |ss| && acts[u].EndPublish? && acts[u].p < |ss[u].active| && ss[u].active[acts[u].p].event == e
  }

  /** The publication of `y` was over when that of `x` began. */
  ghost predicate EndedBefore<E>(ss: seq<State<E>>, acts: seq<Action<E>>, y: E, x: E) {
    exists u: nat, v: nat :: u < v && EndedAt(ss, acts, u, y) && BegunAt(acts, v, x)
  }

  /** Where a publication under way was before a step that did not begin it. */
  function Earlier<E>(a: Action<E>, q: nat): nat {
    if a.EndPublish? && q >= a.p then q + 1 else q
  }

  lemma ActiveAfter<E>(s: State<E>, a: Action<E>, q: nat)
    requires Enabled(s, a) && q < |Apply(s, a).active|
    ensures if a.BeginPublish? && q == |s.active| then Apply(s, a).active[q].event == a.event
            else Earlier(a, q) < |s.active| && Apply(s, a).active[q].event == s.active[Earlier(a, q)].event
    ensures a.EndPublish? ==> Earlier(a, q) != a.p
  {
  }

  lemma EnqueuedAfter<E>(s: State<E>, a: Action<E>, i: nat)
    requires Enabled(s, a) && i < |Apply(s, a).subs|
    ensures var after := Apply(s, a).subs[i].enqueued;
            || after == []
            || (i < |s.subs| && after == s.subs[i].enqueued)
            || (i < |s.subs| && a.Enqueue? && after == s.subs[i].enqueued + [s.active[a.p].event])
  {
    if a.Forward? {
      ForwardKeeps(s.subs[a.id], a.move);
    }
  }

  lemma StepOf<E>(ss: seq<State<E>>, acts: seq<Action<E>>, t: nat)
    requires Execution(ss, acts) && 0 < t < |ss|
    ensures Enabled(ss[t-1], acts[t-1]) && ss[t] == Apply(ss[t-1], acts[t-1])
  {
    assert Enabled(ss[t-1], acts[t-1]);
  }

  lemma {:induction false} ActiveBegun<E>(ss: seq<State<E>>, acts: seq<Action<E>>, t: nat, q: nat) returns (v: nat)
    requires Execution(ss, acts) && t < |ss| && q < |ss[t].active|
    ensures v < t && BegunAt(acts, v, ss[t].active[q].event)
  {
    hide Apply, Enabled;
    if t == 0 {
      assert false;
    } else {
      StepOf(ss, acts, t);
      ActiveAfter(ss[t-1], acts[t-1], q);
      if acts[t-1].BeginPublish? && q == |ss[t-1].active| {
        v := t - 1;
      } else {
        v := ActiveBegun(ss, acts, t - 1, Earlier(acts[t-1], q));
      }
    }
  }

  lemma {:induction false} ActiveDiffer<E>(ss: seq<State<E>>, acts: seq<Action<E>>, t: nat, p: nat, q: nat)
    requires Execution(ss, acts) && EventsDiffer(acts) && t < |ss| && p < q < |ss[t].active|
    ensures ss[t].active[p].event != ss[t].active[q].event
  {
    hide Apply, Enabled;
    if t > 0 {
      StepOf(ss, acts, t);
      ActiveAfter(ss[t-1], acts[t-1], p);
      ActiveAfter(ss[t-1], acts[t-1], q);
      if acts[t-1].BeginPublish? && q == |ss[t-1].active| {
        var v := ActiveBegun(ss, acts, t - 1, p);
        assert acts[v].event != acts[t-1].event;
      } else {
        ActiveDiffer(ss, acts, t - 1, Earlier(acts[t-1], p), Earlier(acts[t-1], q));
      }
    }
  }

  lemma {:induction false} ActiveNotEnded<E>(ss: seq<State<E>>, acts: seq<Action<E>>, t: nat, q: nat, u: nat)
    requires Execution(ss, acts) && EventsDiffer(acts) && u < t < |ss| && q < |ss[t].active|
    ensures !EndedAt(ss, acts, u, ss[t].active[q].event)
  {
    hide Apply, Enabled;
    StepOf(ss, acts, t);
    ActiveAfter(ss[t-1], acts[t-1], q);
    if acts[t-1].BeginPublish? && q == |ss[t-1].active| {
      if EndedAt(ss, acts, u, acts[t-1].event) {
        var v := ActiveBegun(ss, acts, u, acts[u].p);
      }
    } else {
      var r := Earlier(acts[t-1], q);
      if u < t - 1 {
        ActiveNotEnded(ss, acts, t - 1, r, u);
      } else if acts[u].EndPublish? && acts[u].p < |ss[u].active| {
        if r < acts[u].p {
          ActiveDiffer(ss, acts, u, r, acts[u].p);
        } else {
          ActiveDiffer(ss, acts, u, acts[u].p, r);
        }
      }
    }
  }

  lemma {:induction false} EnqueuedBegun<E>(ss: seq<State<E>>, acts: seq<Action<E>>, t: nat, i: nat, a: nat)
    returns (v: nat)
    requires Execution(ss, acts) && t < |ss| && i < |ss[t].subs| && a < |ss[t].subs[i].enqueued|
    ensures v < t && BegunAt(acts, v, ss[t].subs[i].enqueued[a])
  {
    hide Apply, Enabled;
    if t == 0 {
      assert false;
    } else {
      StepOf(ss, acts, t);
      EnqueuedAfter(ss[t-1], acts[t-1], i);
      var before := ss[t-1].subs[i].enqueued;
      if a < |before| {
        v := EnqueuedBegun(ss, acts, t - 1, i, a);
      } else {
        EnabledEnqueue(ss[t-1], acts[t-1]);
        v := ActiveBegun(ss, acts, t - 1, acts[t-1].p);
      }
    }
  }

  lemma EnabledEnqueue<E>(s: State<E>, a: Action<E>)
    requires Enabled(s, a) && a.Enqueue?
    ensures a.p < |s.active|
  {
  }

  /** If the publication of one event was over before that of another began, no subscriber is given the
      other one first: what reaches a receiver keeps the order of publications that do not overlap. */
  lemma {:induction false} DeliveryInOrder<E>(ss: seq<State<E>>, acts: seq<Action<E>>, t: nat, i: nat, a: nat, b: nat)
    requires Execution(ss, acts) && EventsDiffer(acts) && t < |ss| && i < |ss[t].subs|
    requires a < b < |ss[t].subs[i].enqueued|
    ensures !EndedBefore(ss, acts, ss[t].subs[i].enqueued[b], ss[t].subs[i].enqueued[a])
  {
    hide Apply, Enabled;
    if t == 0 {
      assert false;
    } else {
      StepOf(ss, acts, t);
      EnqueuedAfter(ss[t-1], acts[t-1], i);
      var before, after := ss[t-1].subs[i].enqueued, ss[t].subs[i].enqueued;
      if b < |before| {
        DeliveryInOrder(ss, acts, t - 1, i, a, b);
      } else {
        EnabledEnqueue(ss[t-1], acts[t-1]);
        var w := EnqueuedBegun(ss, acts, t - 1, i, a);
        if EndedBefore(ss, acts, after[b], after[a]) {
          var u: nat, v: nat :| u < v && EndedAt(ss, acts, u, after[b]) && BegunAt(acts, v, after[a]);
          assert v == w;
          ActiveNotEnded(ss, acts, t - 1, acts[t-1].p, u);
        }
      }
    }
  }
}
