/** Events of different publishers: when the last event a stream has about a job is
    the last change made to it. */
module BrokerOrder {
  import opened Wrappers
  import opened Broker
  import opened HubProtocol

  function Committed(b: Broker, p: PubId): nat {
    if p in b.pubs then b.pubs[p].committed else 0
  }

  function Published(b: Broker, p: PubId): nat {
    if p in b.pubs then b.pubs[p].published else 0
  }

  /** What everyone had published when a change was committed. */
  ghost function AtCommit(r: Run, t: Tag): Option<map<PubId, nat>> {
    match r
    case Start => None
    case Then(before, a) =>
      if a.Commit? && t == Tag(a.pub, Committed(End(before), a.pub)) then Some(PublishedCounts(End(before)))
      else AtCommit(before, t)
  }

  /** One change was published before the other was committed. */
  ghost predicate Precedes(r: Run, u: Tag, t: Tag) {
    AtCommit(r, t).Some? && u.change < CountIn(AtCommit(r, t).value, u.pub)
  }

  lemma StepGrows(b: Broker, a: Action, p: PubId)
    requires SubsOk(b) && Enabled(b, a)
    ensures Published(b, p) <= Published(Apply(b, a), p) && Committed(b, p) <= Committed(Apply(b, a), p)
  {
  }

  /** Only committed changes have a commit, and only published ones precede any. */
  lemma {:induction false} CommitsAreKnown(r: Run, t: Tag)
    requires IsRun(r)
    ensures AtCommit(r, t).Some? ==> t.change < Committed(End(r), t.pub)
    ensures forall u: Tag | Precedes(r, u, t) :: u.change < Published(End(r), u.pub)
  {
    if r.Then? {
      CommitsAreKnown(r.before, t);
      RunsKeepBroker(r.before);
      StepGrows(End(r.before), r.action, t.pub);
      forall u: Tag | Precedes(r, u, t)
        ensures u.change < Published(End(r), u.pub)
      {
        StepGrows(End(r.before), r.action, u.pub);
      }
    }
  }

  /** Nothing that precedes an event comes after it, and what precedes something
      published before the channel was opened was itself published before. */
  ghost predicate Ordered(r: Run, c: Channel) {
    && (forall i, j | 0 <= i < j < |Log(c)| :: !Precedes(r, Log(c)[j], Log(c)[i]))
    && (forall t: Tag, u: Tag | t.change < CountIn(c.since, t.pub) && Precedes(r, u, t) ::
          u.change < CountIn(c.since, u.pub))
  }

  /** For changes committed already, one more action makes no difference. */
  lemma PrecedesIsStable(r: Run, u: Tag, t: Tag)
    requires r.Then? && IsRun(r) && t.change < Committed(End(r.before), t.pub)
    ensures Precedes(r, u, t) <==> Precedes(r.before, u, t)
  {
  }

  lemma {:induction false} LogIsCommitted(r: Run, ch: ChanId, i: nat)
    requires IsRun(r) && ch in End(r).channels && i < |Log(End(r).channels[ch])|
    ensures Log(End(r).channels[ch])[i].change < Committed(End(r), Log(End(r).channels[ch])[i].pub)
  {
    RunsKeepBroker(r);
    var b, c := End(r), End(r).channels[ch];
    assert ChannelOk(b, c) && CountsOk(b, c) && PubsOk(b);
  }

  lemma {:induction false} SinceIsPublished(r: Run, ch: ChanId, p: PubId)
    requires IsRun(r) && ch in End(r).channels
    ensures CountIn(End(r).channels[ch].since, p) <= Published(End(r), p) <= Committed(End(r), p)
  {
    RunsKeepBroker(r);
    assert CountsOk(End(r), End(r).channels[ch]);
  }

  /** Steps that neither open the channel nor offer to it. */
  lemma {:induction false} SameEventsStayOrdered(r: Run, ch: ChanId)
    requires r.Then? && IsRun(r) && ch in End(r.before).channels && ch in End(r).channels
    requires Ordered(r.before, End(r.before).channels[ch])
    requires Log(End(r).channels[ch]) == Log(End(r.before).channels[ch])
    requires End(r).channels[ch].since == End(r.before).channels[ch].since
    ensures Ordered(r, End(r).channels[ch])
  {
    var c := End(r).channels[ch];
    forall i, j | 0 <= i < j < |Log(c)|
      ensures !Precedes(r, Log(c)[j], Log(c)[i])
    {
      LogIsCommitted(r.before, ch, i);
      PrecedesIsStable(r, Log(c)[j], Log(c)[i]);
    }
    forall t: Tag, u: Tag | t.change < CountIn(c.since, t.pub) && Precedes(r, u, t)
      ensures u.change < CountIn(c.since, u.pub)
    {
      SinceIsPublished(r.before, ch, t.pub);
      PrecedesIsStable(r, u, t);
    }
  }

  /** An event offered now was unpublished until now, so it precedes nothing. */
  lemma OfferStaysOrdered(r: Run, ch: ChanId)
    requires r.Then? && IsRun(r) && r.action.Offer? && End(r.before).subs[r.action.fid] == ch
    requires Ordered(r.before, End(r.before).channels[ch])
    ensures ch in End(r).channels && Ordered(r, End(r).channels[ch])
  {
    var b, c, c' := End(r.before), End(r.before).channels[ch], End(r).channels[ch];
    var tag := Tag(r.action.pub, b.pubs[r.action.pub].published);
    SendForgetsNothing(c, tag);
    forall i, j | 0 <= i < j < |Log(c')|
      ensures !Precedes(r, Log(c')[j], Log(c')[i])
    {
      assert Log(c')[i] == Log(c)[i];
      LogIsCommitted(r.before, ch, i);
      PrecedesIsStable(r, Log(c')[j], Log(c')[i]);
      CommitsAreKnown(r.before, Log(c)[i]);
    }
    forall t: Tag, u: Tag | t.change < CountIn(c'.since, t.pub) && Precedes(r, u, t)
      ensures u.change < CountIn(c'.since, u.pub)
    {
      SinceIsPublished(r.before, ch, t.pub);
      PrecedesIsStable(r, u, t);
    }
  }

  lemma NewChannelIsOrdered(r: Run)
    requires r.Then? && IsRun(r) && r.action.Subscribe?
    ensures End(r.before).made in End(r).channels && Ordered(r, End(r).channels[End(r.before).made])
  {
    var c := End(r).channels[End(r.before).made];
    forall t: Tag, u: Tag | t.change < CountIn(c.since, t.pub) && Precedes(r, u, t)
      ensures u.change < CountIn(c.since, u.pub)
    {
      CommitsAreKnown(r, t);
    }
  }

  lemma {:induction false} ChannelsAreOrdered(r: Run, ch: ChanId)
    requires IsRun(r) && ch in End(r).channels
    ensures Ordered(r, End(r).channels[ch])
  {
    if r.Then? {
      var b, a := End(r.before), r.action;
      RunsKeepBroker(r.before);
      if ch !in b.channels {
        NewChannelIsOrdered(r);
      } else {
        ChannelsAreOrdered(r.before, ch);
        if a.Offer? && b.subs[a.fid] == ch {
          OfferStaysOrdered(r, ch);
        } else {
          EventsAreStable(b, a, ch);
          SameEventsStayOrdered(r, ch);
        }
      }
    }
  }

  /** Every other change about the job was published before this one was committed. */
  ghost predicate WritersDoNotOverlap(r: Run, t: Tag, about: Tag -> bool) {
    && AtCommit(r, t).Some? && about(t)
    && (forall u: Tag | about(u) && u != t && u.change < Committed(End(r), u.pub) :: Precedes(r, u, t))
  }

  /** When writers of a job do not overlap, a stream ends with its last change: no
      event about the job follows that change's; if that was published before the
      stream subscribed, the stream has no event about the job at all and its
      snapshot covers the change; and otherwise the event is there, or found the
      buffer full, or has not been published while the channel was open. */
  lemma {:induction false} StreamsEndCurrent(r: Run, ch: ChanId, t: Tag, about: Tag -> bool)
    requires IsRun(r) && ch in End(r).channels && WritersDoNotOverlap(r, t, about)
    ensures var c := End(r).channels[ch];
            && (forall k, i | 0 <= k < i < |Log(c)| && Log(c)[k] == t :: !about(Log(c)[i]))
            && (t.change < CountIn(c.since, t.pub) ==>
                  && (forall i | 0 <= i < |Log(c)| :: !about(Log(c)[i]))
                  && (c.seen.Some? ==> t.change < CountIn(c.seen.value, t.pub)))
            && (CountIn(c.since, t.pub) <= t.change < Due(End(r), c, t.pub) ==> t in Log(c) || Lost(c, t))
  {
    var b, c := End(r), End(r).channels[ch];
    RunsKeepBroker(r);
    ChannelsAreOrdered(r, ch);
    assert ChannelOk(b, c) && CountsOk(b, c);
    forall i | 0 <= i < |Log(c)| && about(Log(c)[i]) && Log(c)[i] != t
      ensures Precedes(r, Log(c)[i], t) && CountIn(c.since, Log(c)[i].pub) <= Log(c)[i].change
    {
      LogIsCommitted(r, ch, i);
    }
  }

  // ----- writers that overlap -----

  /** Two publishers change one job, and a stream listens. */
  function BothCommitted(): Run {
    Then(Then(Then(Start, Subscribe), Commit(0)), Commit(1))
  }

  /** The earlier change is published later. */
  function Crossed(): Run {
    Publishing(Publishing(BothCommitted(), 1, [0]), 0, [0])
  }

  lemma BothCommittedIsARun()
    ensures IsRun(BothCommitted())
    ensures var b := End(BothCommitted());
            && b.subs == map[0 := 0] && b.pubs == map[0 := Publisher(1, 0, None), 1 := Publisher(1, 0, None)]
            && b.channels.Keys == {0} && Log(b.channels[0]) == [] && b.channels[0].drops == []
            && b.channels[0].received == []
    ensures AtCommit(BothCommitted(), Tag(0, 0)) == Some(map[])
    ensures AtCommit(BothCommitted(), Tag(1, 0)) == Some(map[0 := 0])
  {
    var subscribed := Then(Start, Subscribe);
    var first := Then(subscribed, Commit(0));
    assert IsRun(subscribed) && End(subscribed).pubs == map[];
    assert IsRun(first) && End(first).pubs == map[0 := Publisher(1, 0, None)];
    assert PublishedCounts(End(first)) == map[0 := 0];
  }

  lemma {:induction false} PublishingCommitsNothing(r: Run, p: PubId, fids: seq<Fid>, t: Tag)
    ensures AtCommit(Visited(r, p, fids), t) == AtCommit(r, t)
  {
    if fids != [] {
      PublishingCommitsNothing(r, p, fids[..|fids| - 1], t);
    }
  }

  /** Otherwise the stream may end with a change that has been overwritten. */
  lemma OverlappingWritersCross()
    ensures IsRun(Crossed()) && End(Crossed()).channels.Keys == {0}
    ensures Log(End(Crossed()).channels[0]) == [Tag(1, 0), Tag(0, 0)] && End(Crossed()).channels[0].drops == []
    ensures AtCommit(Crossed(), Tag(1, 0)).Some? && AtCommit(Crossed(), Tag(0, 0)).Some?
    ensures !Precedes(Crossed(), Tag(0, 0), Tag(1, 0))
  {
    BothCommittedIsARun();
    var both := BothCommitted();
    var one := Publishing(both, 1, [0]);
    LoneStreamGains(both, 1);
    LoneStreamGains(one, 0);
    forall t
      ensures AtCommit(Crossed(), t) == AtCommit(both, t)
    {
      PublishingCommitsNothing(both, 1, [0], t);
      PublishingCommitsNothing(one, 0, [0], t);
    }
  }

  /** One publish, one stream, and room in its buffer. */
  lemma LoneStreamGains(r: Run, p: PubId)
    requires IsRun(r) && Enabled(End(r), Begin(p)) && End(r).subs == map[0 := 0] && End(r).channels.Keys == {0}
    requires |End(r).channels[0].buffer| < EVENT_BUFFER
    ensures var b, b' := End(r), End(Publishing(r, p, [0]));
            && IsRun(Publishing(r, p, [0])) && b'.subs == b.subs && b'.channels.Keys == {0}
            && b'.pubs == b.pubs[p := b.pubs[p].(published := b.pubs[p].published + 1)]
            && Log(b'.channels[0]) == Log(b.channels[0]) + [Tag(p, b.pubs[p].published)]
            && b'.channels[0].drops == b.channels[0].drops
            && |b'.channels[0].buffer| == |b.channels[0].buffer| + 1
  {
    assert Among([0]) == {0};
    PublishRefines(r, p, [0]);
    assert 0 in End(r).subs.Values by {
      assert End(r).subs[0] == 0;
    }
    SendForgetsNothing(End(r).channels[0], Tag(p, End(r).pubs[p].published));
  }
}
