/** Event fan-out: publishers under a shared lock offer each event to every
    subscriber without blocking; subscribing, cancelling and closing take the lock
    alone. An event stream subscribes first and reads its snapshot second.

    An event is known by who published it and as which of its changes; each change
    is committed to the database before it is published. */
module Broker {
  import opened Wrappers

  const EVENT_BUFFER := 32

  type PubId = nat
  type Fid = nat
  type ChanId = nat

  datatype Tag = Tag(pub: PubId, change: nat)

  /** An event lost to a subscriber, and the buffer it found. */
  datatype Drop = Drop(tag: Tag, found: seq<Tag>)

  /** A subscriber's channel with what became of the events offered to it. `since`
      and `until` count each publisher's events when it was opened and closed, and
      `seen` counts the changes committed when its snapshot was read. */
  datatype Channel = Channel(
    fid: Fid, open: bool,
    buffer: seq<Tag>, received: seq<Tag>, drops: seq<Drop>,
    since: map<PubId, nat>, until: Option<map<PubId, nat>>, seen: Option<map<PubId, nat>>)

  /** A publisher: changes committed, events published, and while it holds the
      shared lock the subscriptions it has still to visit. */
  datatype Publisher = Publisher(committed: nat, published: nat, visiting: Option<set<Fid>>)

  datatype Broker = Broker(
    next: Fid, made: ChanId, subs: map<Fid, ChanId>, closed: bool,
    channels: map<ChanId, Channel>, pubs: map<PubId, Publisher>, panicked: bool)

  datatype Action =
    | Subscribe
    | Cancel(fid: Fid)
    | CloseAll
    | Commit(pub: PubId)
    | Begin(pub: PubId)
    | Offer(pub: PubId, fid: Fid)
    | Done(pub: PubId)
    | Receive(ch: ChanId)
    | Snapshot(ch: ChanId)

  function Log(c: Channel): seq<Tag> {
    c.received + c.buffer
  }

  function CountIn(m: map<PubId, nat>, p: PubId): nat {
    if p in m then m[p] else 0
  }

  function PublishedCounts(b: Broker): map<PubId, nat> {
    map p | p in b.pubs :: b.pubs[p].published
  }

  function CommittedCounts(b: Broker): map<PubId, nat> {
    map p | p in b.pubs :: b.pubs[p].committed
  }

  /** No publisher holds the shared lock, so a writer may take it. */
  predicate LockFree(b: Broker) {
    forall p | p in b.pubs :: b.pubs[p].visiting.None?
  }

  predicate Enabled(b: Broker, a: Action) {
    match a
    case Subscribe => LockFree(b)
    case Cancel(_) => LockFree(b)
    case CloseAll => LockFree(b)
    case Commit(p) => p in b.pubs ==> b.pubs[p].visiting.None? && b.pubs[p].committed == b.pubs[p].published
    case Begin(p) => p in b.pubs && b.pubs[p].visiting.None? && b.pubs[p].committed == b.pubs[p].published + 1
    case Offer(p, fid) =>
      && p in b.pubs && b.pubs[p].visiting.Some? && fid in b.pubs[p].visiting.value
      && fid in b.subs && b.subs[fid] in b.channels
    case Done(p) => p in b.pubs && b.pubs[p].visiting == Some({})
    case Receive(ch) => ch in b.channels && b.channels[ch].buffer != []
    case Snapshot(ch) => ch in b.channels && b.channels[ch].seen.None?
  }

  /** Closing a channel that is closed already would panic. */
  function CloseChannel(b: Broker, ch: ChanId): Broker
    requires ch in b.channels
  {
    var c := b.channels[ch];
    b.(panicked := b.panicked || !c.open,
       channels := b.channels[ch := c.(open := false, until := if c.open then Some(PublishedCounts(b)) else c.until)])
  }

  /** The non-blocking send; sending on a closed channel would panic. */
  function Send(c: Channel, tag: Tag): Channel {
    if |c.buffer| < EVENT_BUFFER then c.(buffer := c.buffer + [tag])
    else c.(drops := c.drops + [Drop(tag, c.buffer)])
  }

  function Apply(b: Broker, a: Action): Broker
    requires Enabled(b, a)
  {
    match a
    case Subscribe =>
      if b.closed then
        b.(made := b.made + 1,
           channels := b.channels[b.made :=
             Channel(b.next, false, [], [], [], PublishedCounts(b), Some(PublishedCounts(b)), None)])
      else
        b.(next := b.next + 1, made := b.made + 1, subs := b.subs[b.next := b.made],
           channels := b.channels[b.made := Channel(b.next, true, [], [], [], PublishedCounts(b), None, None)])
    case Cancel(fid) =>
      if fid in b.subs && b.subs[fid] in b.channels
      then CloseChannel(b.(subs := b.subs - {fid}), b.subs[fid])
      else b
    case CloseAll =>
      if b.closed then b
      else
        b.(closed := true, subs := map[],
           panicked := b.panicked || exists ch | ch in b.subs.Values :: ch in b.channels && !b.channels[ch].open,
           channels := map ch | ch in b.channels ::
             if ch in b.subs.Values && b.channels[ch].open
             then b.channels[ch].(open := false, until := Some(PublishedCounts(b)))
             else b.channels[ch])
    case Commit(p) =>
      var pub := if p in b.pubs then b.pubs[p] else Publisher(0, 0, None);
      b.(pubs := b.pubs[p := pub.(committed := pub.committed + 1)])
    case Begin(p) => b.(pubs := b.pubs[p := b.pubs[p].(visiting := Some(b.subs.Keys))])
    case Offer(p, fid) =>
      var pub, ch := b.pubs[p], b.subs[fid];
      b.(panicked := b.panicked || !b.channels[ch].open,
         channels := b.channels[ch := Send(b.channels[ch], Tag(p, pub.published))],
         pubs := b.pubs[p := pub.(visiting := Some(pub.visiting.value - {fid}))])
    case Done(p) => b.(pubs := b.pubs[p := b.pubs[p].(published := b.pubs[p].published + 1, visiting := None)])
    case Receive(ch) =>
      var c := b.channels[ch];
      b.(channels := b.channels[ch := c.(received := c.received + [c.buffer[0]], buffer := c.buffer[1..])])
    case Snapshot(ch) => b.(channels := b.channels[ch := b.channels[ch].(seen := Some(CommittedCounts(b)))])
  }

  datatype Run = Start | Then(before: Run, action: Action)

  function End(r: Run): Broker {
    match r
    case Start => Broker(0, 0, map[], false, map[], map[], false)
    case Then(before, a) => if Enabled(End(before), a) then Apply(End(before), a) else End(before)
  }

  predicate IsRun(r: Run) {
    match r
    case Start => true
    case Then(before, a) => IsRun(before) && Enabled(End(before), a)
  }

  // ----- the invariant -----

  /** How many of a publisher's events were finished while the channel was open. */
  function Due(b: Broker, c: Channel, p: PubId): nat {
    if c.until.Some? then CountIn(c.until.value, p) else if p in b.pubs then b.pubs[p].published else 0
  }

  /** How many have been offered to the channel or passed it by: one more once the
      publisher under way has visited it. */
  ghost function Upto(b: Broker, c: Channel, p: PubId): nat {
    var visited := c.until.None? && p in b.pubs && b.pubs[p].visiting.Some? && c.fid !in b.pubs[p].visiting.value;
    Due(b, c, p) + (if visited then 1 else 0)
  }

  ghost predicate Lost(c: Channel, tag: Tag) {
    exists i :: 0 <= i < |c.drops| && c.drops[i].tag == tag
  }

  /** Per publisher, the channel's events come in publishing order. */
  ghost predicate InOrder(log: seq<Tag>) {
    forall i, j | 0 <= i < j < |log| && log[i].pub == log[j].pub :: log[i].change < log[j].change
  }

  /** A channel's events come from after it was opened and before what is owed. */
  ghost predicate InRange(b: Broker, c: Channel) {
    forall i | 0 <= i < |Log(c)| ::
      CountIn(c.since, Log(c)[i].pub) <= Log(c)[i].change < Upto(b, c, Log(c)[i].pub)
  }

  ghost predicate Complete(b: Broker, c: Channel) {
    forall p, n | CountIn(c.since, p) <= n < Upto(b, c, p) :: Tag(p, n) in Log(c) || Lost(c, Tag(p, n))
  }

  ghost predicate ChannelOk(b: Broker, c: Channel) {
    && |c.buffer| <= EVENT_BUFFER
    && InOrder(Log(c)) && InRange(b, c) && Complete(b, c)
    && (forall i | 0 <= i < |c.drops| :: |c.drops[i].found| == EVENT_BUFFER)
  }

  ghost predicate CountsOk(b: Broker, c: Channel) {
    && (c.open <==> c.until.None?)
    && (forall p | p in c.since :: p in b.pubs && c.since[p] <= b.pubs[p].published)
    && (c.seen.Some? ==> forall p :: CountIn(c.since, p) <= CountIn(c.seen.value, p))
    && (c.until.Some? ==> forall p | p in c.until.value :: p in b.pubs && c.until.value[p] <= b.pubs[p].published)
  }

  /** Subscriptions and open channels correspond one to one. */
  ghost predicate SubsMatch(b: Broker) {
    && (forall fid | fid in b.subs ::
          && fid < b.next && b.subs[fid] in b.channels
          && b.channels[b.subs[fid]].open && b.channels[b.subs[fid]].fid == fid)
    && (forall ch | ch in b.channels ::
          ch < b.made && (b.channels[ch].open ==> b.channels[ch].fid in b.subs && b.subs[b.channels[ch].fid] == ch))
  }

  /** A publisher holds the lock only for a change it has committed, and visits
      only current subscriptions. */
  ghost predicate PubsOk(b: Broker) {
    forall p | p in b.pubs ::
      && b.pubs[p].published <= b.pubs[p].committed <= b.pubs[p].published + 1
      && (b.pubs[p].visiting.Some? ==>
            b.pubs[p].committed == b.pubs[p].published + 1 && b.pubs[p].visiting.value <= b.subs.Keys)
  }

  ghost predicate SubsOk(b: Broker) {
    SubsMatch(b) && PubsOk(b) && !b.panicked
  }

  ghost predicate BrokerOk(b: Broker) {
    && SubsOk(b)
    && forall ch | ch in b.channels :: ChannelOk(b, b.channels[ch]) && CountsOk(b, b.channels[ch])
  }

  lemma StepKeepsSubs(b: Broker, a: Action)
    requires SubsOk(b) && Enabled(b, a)
    ensures SubsOk(Apply(b, a))
  {
    if a.Subscribe? || a.Cancel? || a.CloseAll? {
      WriterKeepsSubs(b, a);
    }
  }

  lemma WriterKeepsSubs(b: Broker, a: Action)
    requires SubsOk(b) && Enabled(b, a) && (a.Subscribe? || a.Cancel? || a.CloseAll?)
    ensures SubsOk(Apply(b, a))
  {
  }

  lemma ClosingKeepsCounts(b: Broker, a: Action, ch: ChanId)
    requires SubsOk(b) && Enabled(b, a) && ch in b.channels && CountsOk(b, b.channels[ch])
    requires a.CloseAll? || a.Cancel?
    ensures ch in Apply(b, a).channels && CountsOk(Apply(b, a), Apply(b, a).channels[ch])
  {
  }

  lemma PublishersKeepCounts(b: Broker, a: Action, ch: ChanId)
    requires SubsOk(b) && Enabled(b, a) && ch in b.channels && CountsOk(b, b.channels[ch])
    requires a.Commit? || a.Begin? || a.Offer? || a.Done?
    ensures ch in Apply(b, a).channels && CountsOk(Apply(b, a), Apply(b, a).channels[ch])
  {
  }

  lemma ReadersKeepCounts(b: Broker, a: Action, ch: ChanId)
    requires SubsOk(b) && Enabled(b, a) && ch in b.channels && CountsOk(b, b.channels[ch])
    requires a.Subscribe? || a.Receive? || a.Snapshot?
    ensures ch in Apply(b, a).channels && CountsOk(Apply(b, a), Apply(b, a).channels[ch])
  {
  }

  lemma StepKeepsCounts(b: Broker, a: Action, ch: ChanId)
    requires BrokerOk(b) && Enabled(b, a) && ch in Apply(b, a).channels
    ensures CountsOk(Apply(b, a), Apply(b, a).channels[ch])
  {
    if ch in b.channels {
      if a.CloseAll? || a.Cancel? {
        ClosingKeepsCounts(b, a, ch);
      } else if a.Subscribe? || a.Receive? || a.Snapshot? {
        ReadersKeepCounts(b, a, ch);
      } else {
        PublishersKeepCounts(b, a, ch);
      }
    }
  }

  /** A send puts its event in the channel or records its loss, and forgets none. */
  lemma SendForgetsNothing(c: Channel, tag: Tag)
    ensures var c' := Send(c, tag);
            && (tag in Log(c') || Lost(c', tag))
            && (forall t | t in Log(c) :: t in Log(c'))
            && (forall t | Lost(c, t) :: Lost(c', t))
            && (Log(c') == Log(c) || Log(c') == Log(c) + [tag])
  {
    var c' := Send(c, tag);
    if |c.buffer| < EVENT_BUFFER {
      assert Log(c') == Log(c) + [tag];
    } else {
      assert c'.drops[|c.drops|] == Drop(tag, c.buffer);
    }
    forall t | Lost(c, t)
      ensures Lost(c', t)
    {
      var i :| 0 <= i < |c.drops| && c.drops[i].tag == t;
      assert c'.drops[i].tag == t;
    }
  }

  /** The channel is owed one event more, this one. */
  ghost predicate IsNextFor(b: Broker, b': Broker, c: Channel, tag: Tag) {
    && Upto(b, c, tag.pub) == tag.change && CountIn(c.since, tag.pub) <= tag.change
    && Upto(b', Send(c, tag), tag.pub) == tag.change + 1
    && (forall q | q != tag.pub :: Upto(b', Send(c, tag), q) == Upto(b, c, q))
  }

  lemma SendKeepsOrder(b: Broker, b': Broker, c: Channel, tag: Tag)
    requires InOrder(Log(c)) && InRange(b, c) && IsNextFor(b, b', c, tag)
    ensures InOrder(Log(Send(c, tag))) && InRange(b', Send(c, tag))
  {
    SendForgetsNothing(c, tag);
  }

  lemma SendKeepsComplete(b: Broker, b': Broker, c: Channel, tag: Tag)
    requires Complete(b, c) && IsNextFor(b, b', c, tag)
    ensures Complete(b', Send(c, tag))
  {
    var c' := Send(c, tag);
    SendForgetsNothing(c, tag);
    forall q, n | CountIn(c'.since, q) <= n < Upto(b', c', q)
      ensures Tag(q, n) in Log(c') || Lost(c', Tag(q, n))
    {
      if Tag(q, n) != tag {
        assert Tag(q, n) in Log(c) || Lost(c, Tag(q, n));
      }
    }
  }

  /** Where an event under way has yet to reach a channel, it comes next. */
  lemma SendKeepsChannel(b: Broker, b': Broker, c: Channel, tag: Tag)
    requires ChannelOk(b, c) && IsNextFor(b, b', c, tag)
    ensures ChannelOk(b', Send(c, tag))
  {
    SendKeepsOrder(b, b', c, tag);
    SendKeepsComplete(b, b', c, tag);
  }

  lemma OfferMovesOne(b: Broker, p: PubId, fid: Fid, q: PubId)
    requires SubsOk(b) && Enabled(b, Offer(p, fid)) && CountsOk(b, b.channels[b.subs[fid]])
    ensures var b', c := Apply(b, Offer(p, fid)), b.channels[b.subs[fid]];
            var c' := Send(c, Tag(p, b.pubs[p].published));
            && b'.channels[b.subs[fid]] == c'
            && Upto(b, c, p) == b.pubs[p].published && CountIn(c.since, p) <= b.pubs[p].published
            && Upto(b', c', q) == Upto(b, c, q) + (if q == p then 1 else 0)
  {
  }

  lemma OfferKeepsChannel(b: Broker, p: PubId, fid: Fid)
    requires BrokerOk(b) && Enabled(b, Offer(p, fid))
    ensures ChannelOk(Apply(b, Offer(p, fid)), Apply(b, Offer(p, fid)).channels[b.subs[fid]])
  {
    var b', c, tag := Apply(b, Offer(p, fid)), b.channels[b.subs[fid]], Tag(p, b.pubs[p].published);
    forall q
      ensures Upto(b', Send(c, tag), q) == Upto(b, c, q) + (if q == p then 1 else 0)
    {
      OfferMovesOne(b, p, fid, q);
    }
    OfferMovesOne(b, p, fid, p);
    SendKeepsChannel(b, b', c, tag);
  }

  /** Steps that leave a channel's events alone and do not move what it is owed. */
  lemma UntouchedChannel(b: Broker, b': Broker, c: Channel, c': Channel)
    requires ChannelOk(b, c)
    requires Log(c') == Log(c) && |c'.buffer| <= |c.buffer| && c'.drops == c.drops && c'.since == c.since
    requires forall p :: Upto(b', c', p) == Upto(b, c, p)
    ensures ChannelOk(b', c')
  {
    forall p, n | CountIn(c'.since, p) <= n < Upto(b', c', p)
      ensures Tag(p, n) in Log(c') || Lost(c', Tag(p, n))
    {
      assert Tag(p, n) in Log(c) || Lost(c, Tag(p, n));
      if Lost(c, Tag(p, n)) {
        var i :| 0 <= i < |c.drops| && c.drops[i].tag == Tag(p, n);
        assert c'.drops[i].tag == Tag(p, n);
      }
    }
  }

  /** What a channel is owed moves only when a publisher visits it. */
  lemma UptoIsStable(b: Broker, a: Action, ch: ChanId, p: PubId)
    requires SubsOk(b) && Enabled(b, a) && ch in b.channels && CountsOk(b, b.channels[ch])
    requires a.Offer? ==> b.subs[a.fid] != ch
    ensures ch in Apply(b, a).channels
    ensures Upto(Apply(b, a), Apply(b, a).channels[ch], p) == Upto(b, b.channels[ch], p)
  {
    if a.Commit? || a.Begin? || a.Offer? || a.Done? {
      PublishersKeepUpto(b, a, ch, p);
    } else if a.CloseAll? || a.Cancel? {
      ClosingKeepsUpto(b, a, ch, p);
    }
  }

  lemma PublishersKeepUpto(b: Broker, a: Action, ch: ChanId, p: PubId)
    requires SubsOk(b) && Enabled(b, a) && ch in b.channels && CountsOk(b, b.channels[ch])
    requires a.Commit? || a.Begin? || a.Done? || (a.Offer? && b.subs[a.fid] != ch)
    ensures ch in Apply(b, a).channels
    ensures Upto(Apply(b, a), Apply(b, a).channels[ch], p) == Upto(b, b.channels[ch], p)
  {
    var c := b.channels[ch];
    if a.Done? {
      assert b.pubs[a.pub].visiting.value == {};
    } else if a.Begin? && c.open {
      assert c.fid in b.subs;
    } else if a.Offer? && c.open {
      assert c.fid in b.subs && b.subs[c.fid] == ch;
    }
  }

  lemma ClosingKeepsUpto(b: Broker, a: Action, ch: ChanId, p: PubId)
    requires SubsOk(b) && Enabled(b, a) && ch in b.channels && CountsOk(b, b.channels[ch])
    requires a.CloseAll? || a.Cancel?
    ensures ch in Apply(b, a).channels
    ensures Upto(Apply(b, a), Apply(b, a).channels[ch], p) == Upto(b, b.channels[ch], p)
  {
  }

  /** Only an offer to it changes what has happened to a channel's events. */
  lemma EventsAreStable(b: Broker, a: Action, ch: ChanId)
    requires SubsOk(b) && Enabled(b, a) && ch in b.channels
    requires a.Offer? ==> b.subs[a.fid] != ch
    ensures ch in Apply(b, a).channels
    ensures var c, c' := b.channels[ch], Apply(b, a).channels[ch];
            Log(c') == Log(c) && |c'.buffer| <= |c.buffer| && c'.drops == c.drops && c'.since == c.since
  {
    if a.Receive? {
      ReceivingMovesOne(b.channels[a.ch]);
    }
  }

  lemma ReceivingMovesOne(c: Channel)
    requires c.buffer != []
    ensures c.received + [c.buffer[0]] + c.buffer[1..] == c.received + c.buffer
  {
  }

  lemma NewChannelIsOk(b: Broker)
    requires SubsOk(b) && Enabled(b, Subscribe)
    ensures b.made in Apply(b, Subscribe).channels
    ensures ChannelOk(Apply(b, Subscribe), Apply(b, Subscribe).channels[b.made])
  {
    var b' := Apply(b, Subscribe);
    assert Log(b'.channels[b.made]) == [];
    assert forall p :: Upto(b', b'.channels[b.made], p) == CountIn(b'.channels[b.made].since, p);
  }

  lemma StepKeepsChannels(b: Broker, a: Action, ch: ChanId)
    requires BrokerOk(b) && Enabled(b, a) && ch in Apply(b, a).channels
    ensures ChannelOk(Apply(b, a), Apply(b, a).channels[ch])
  {
    var b' := Apply(b, a);
    if ch !in b.channels {
      NewChannelIsOk(b);
    } else if a.Offer? && b.subs[a.fid] == ch {
      OfferKeepsChannel(b, a.pub, a.fid);
    } else {
      assert ChannelOk(b, b.channels[ch]);
      EventsAreStable(b, a, ch);
      forall p
        ensures Upto(b', b'.channels[ch], p) == Upto(b, b.channels[ch], p)
      {
        UptoIsStable(b, a, ch, p);
      }
      UntouchedChannel(b, b', b.channels[ch], b'.channels[ch]);
    }
  }

  lemma {:induction false} RunsKeepBroker(r: Run)
    requires IsRun(r)
    ensures BrokerOk(End(r))
  {
    if r.Then? {
      RunsKeepBroker(r.before);
      StepKeepsSubs(End(r.before), r.action);
      forall ch | ch in End(r).channels
        ensures ChannelOk(End(r), End(r).channels[ch]) && CountsOk(End(r), End(r).channels[ch])
      {
        StepKeepsCounts(End(r.before), r.action, ch);
        StepKeepsChannels(End(r.before), r.action, ch);
      }
    }
  }

  // ----- what subscribers get -----

  /** Under every interleaving: nothing panics, the open channels are exactly those
      in the map, and no buffer ever exceeds its bound. */
  lemma ChannelsAreSafe(r: Run, ch: ChanId)
    requires IsRun(r) && ch in End(r).channels
    ensures !End(r).panicked
    ensures End(r).channels[ch].open <==> ch in End(r).subs.Values
    ensures |End(r).channels[ch].buffer| <= 32
  {
    RunsKeepBroker(r);
  }

  /** What a subscriber has received or still has buffered is, publisher by
      publisher, in publishing order and from after it subscribed; and each event
      finished while it was subscribed is there unless it found the buffer full,
      whether the channel is still open or has been cancelled or closed since. */
  lemma SubscribersMissOnlyWhenFull(r: Run, ch: ChanId, p: PubId, n: nat)
    requires IsRun(r) && ch in End(r).channels && p in End(r).pubs
    ensures InOrder(Log(End(r).channels[ch]))
    ensures Tag(p, n) in Log(End(r).channels[ch]) ==>
              CountIn(End(r).channels[ch].since, p) <= n < End(r).pubs[p].committed
    ensures CountIn(End(r).channels[ch].since, p) <= n < Due(End(r), End(r).channels[ch], p) ==>
              || Tag(p, n) in Log(End(r).channels[ch])
              || exists i :: 0 <= i < |End(r).channels[ch].drops|
                          && End(r).channels[ch].drops[i].tag == Tag(p, n)
                          && |End(r).channels[ch].drops[i].found| == EVENT_BUFFER
  {
    RunsKeepBroker(r);
    var c := End(r).channels[ch];
    assert ChannelOk(End(r), c) && CountsOk(End(r), c);
    if CountIn(c.since, p) <= n < Due(End(r), c, p) {
      assert n < Upto(End(r), c, p);
      assert Tag(p, n) in Log(c) || Lost(c, Tag(p, n));
    }
  }

  /** Subscribing before the snapshot misses nothing: every change published while
      the stream's channel was open, so far or until it was closed, was committed
      before the stream's snapshot was read, or its event reached the stream's
      channel, or it found the buffer full. */
  lemma StreamsMissNothing(r: Run, ch: ChanId, p: PubId, n: nat)
    requires IsRun(r) && ch in End(r).channels && p in End(r).pubs
    requires End(r).channels[ch].seen.Some? && n < Due(End(r), End(r).channels[ch], p)
    ensures || n < CountIn(End(r).channels[ch].seen.value, p)
            || Tag(p, n) in Log(End(r).channels[ch])
            || exists i :: 0 <= i < |End(r).channels[ch].drops|
                        && End(r).channels[ch].drops[i].tag == Tag(p, n)
                        && |End(r).channels[ch].drops[i].found| == EVENT_BUFFER
  {
    RunsKeepBroker(r);
    assert CountsOk(End(r), End(r).channels[ch]);
    SubscribersMissOnlyWhenFull(r, ch, p, n);
  }

  /** The order matters: reading the snapshot before subscribing loses a change that
      is committed and published in between, with no buffer ever full. */
  lemma SnapshotFirstWouldMiss()
    ensures exists before, after ::
              && IsRun(after) && after == Then(Then(Then(Then(before, Commit(0)), Begin(0)), Done(0)), Subscribe)
              && 0 in End(after).pubs && 0 < End(after).pubs[0].published
              && !(0 < CountIn(CommittedCounts(End(before)), 0))
              && 0 in End(after).channels && End(after).channels[0].open
              && Tag(0, 0) !in Log(End(after).channels[0]) && End(after).channels[0].drops == []
  {
    var committed := Then(Start, Commit(0));
    var begun := Then(committed, Begin(0));
    var done := Then(begun, Done(0));
    var after := Then(done, Subscribe);
    assert End(committed).pubs[0] == Publisher(1, 0, None);
    assert End(committed).subs.Keys == {};
    assert End(begun).pubs[0] == Publisher(1, 0, Some({}));
    assert End(done).pubs[0] == Publisher(1, 1, None);
    assert LockFree(End(done)) && IsRun(after);
    assert CommittedCounts(End(Start)) == map[];
    assert Log(End(after).channels[0]) == [];
    assert after == Then(Then(Then(Then(Start, Commit(0)), Begin(0)), Done(0)), Subscribe);
  }
}
