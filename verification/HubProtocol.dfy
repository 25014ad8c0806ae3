/** The hub's methods, step by step in the protocol. */
module HubProtocol {
  import opened Wrappers
  import opened Broker
  import opened BrokerHub

  /** The protocol's state as a hub's subscribers see it. */
  function ViewOf(b: Broker): View<Tag> {
    View(b.next, map fid | fid in b.subs && b.subs[fid] in b.channels :: b.channels[b.subs[fid]].buffer, b.closed)
  }

  /** The protocol's steps of a publish under way: the lock taken and these
      subscriptions visited. */
  function Visited(r: Run, p: PubId, fids: seq<Fid>): Run {
    if fids == [] then Then(r, Begin(p)) else Then(Visited(r, p, fids[..|fids| - 1]), Offer(p, fids[|fids| - 1]))
  }

  function Publishing(r: Run, p: PubId, fids: seq<Fid>): Run {
    Then(Visited(r, p, fids), Done(p))
  }

  ghost predicate NoRepeats(fids: seq<Fid>) {
    forall i, j | 0 <= i < j < |fids| :: fids[i] != fids[j]
  }

  ghost function Among(fids: seq<Fid>): set<Fid> {
    set fid | fid in fids
  }

  /** What a channel is once these subscriptions have been visited. */
  function AfterVisit(b: Broker, p: PubId, c: Channel, fids: seq<Fid>): Channel
    requires p in b.pubs
  {
    if c.open && c.fid in fids then Send(c, Tag(p, b.pubs[p].published)) else c
  }

  ghost predicate HasVisited(b: Broker, b': Broker, p: PubId, fids: seq<Fid>)
    requires p in b.pubs
  {
    && b'.subs == b.subs && b'.closed == b.closed && b'.next == b.next
    && b'.pubs == b.pubs[p := b.pubs[p].(visiting := Some(b.subs.Keys - Among(fids)))]
    && b'.channels.Keys == b.channels.Keys
    && forall ch | ch in b.channels :: b'.channels[ch] == AfterVisit(b, p, b.channels[ch], fids)
  }

  lemma {:induction false} VisitingDelivers(r: Run, p: PubId, fids: seq<Fid>)
    requires IsRun(r) && Enabled(End(r), Begin(p)) && NoRepeats(fids)
    requires forall fid | fid in fids :: fid in End(r).subs
    ensures IsRun(Visited(r, p, fids)) && HasVisited(End(r), End(Visited(r, p, fids)), p, fids)
  {
    if fids == [] {
      LockIsTaken(End(r), p);
    } else {
      var before, fid := fids[..|fids| - 1], fids[|fids| - 1];
      assert before + [fid] == fids;
      VisitingDelivers(r, p, before);
      NextVisit(r, Visited(r, p, before), p, before, fid);
    }
  }

  lemma {:induction false} NextVisit(r: Run, r1: Run, p: PubId, before: seq<Fid>, fid: Fid)
    requires IsRun(r) && p in End(r).pubs && IsRun(r1) && HasVisited(End(r), End(r1), p, before)
    requires fid in End(r).subs && fid !in before
    ensures IsRun(Then(r1, Offer(p, fid))) && HasVisited(End(r), End(Then(r1, Offer(p, fid))), p, before + [fid])
  {
    RunsKeepBroker(r);
    VisitingOneMore(End(r), End(r1), p, before, fid);
  }

  lemma LockIsTaken(b: Broker, p: PubId)
    requires Enabled(b, Begin(p))
    ensures HasVisited(b, Apply(b, Begin(p)), p, [])
  {
    assert b.subs.Keys - Among([]) == b.subs.Keys;
  }

  lemma VisitingOneMore(b: Broker, b1: Broker, p: PubId, before: seq<Fid>, fid: Fid)
    requires SubsOk(b) && p in b.pubs && HasVisited(b, b1, p, before) && fid in b.subs && fid !in before
    ensures Enabled(b1, Offer(p, fid)) && HasVisited(b, Apply(b1, Offer(p, fid)), p, before + [fid])
  {
    var b2, fids := Apply(b1, Offer(p, fid)), before + [fid];
    assert b.subs.Keys - Among(before) - {fid} == b.subs.Keys - Among(fids);
    forall ch | ch in b.channels
      ensures b2.channels[ch] == AfterVisit(b, p, b.channels[ch], fids)
    {
      if ch != b.subs[fid] {
        assert b.channels[ch].open ==> b.channels[ch].fid != fid;
      }
    }
  }

  /** The protocol's state after a publish: every subscription has had the event
      offered, and nothing else has changed. */
  ghost predicate HasPublished(b: Broker, b': Broker, p: PubId)
    requires p in b.pubs
  {
    var tag := Tag(p, b.pubs[p].published);
    && b'.subs == b.subs
    && b'.pubs == b.pubs[p := b.pubs[p].(published := b.pubs[p].published + 1)]
    && b'.channels.Keys == b.channels.Keys
    && (forall ch | ch in b.channels ::
          b'.channels[ch] == if ch in b.subs.Values then Send(b.channels[ch], tag) else b.channels[ch])
    && ViewOf(b') == Delivered(ViewOf(b), tag)
  }

  /** Taking the lock, offering the event to each subscription in any order and
      letting go does to the protocol's state, as subscribers see it, what Publish
      does to the hub's. */
  lemma {:induction false} PublishRefines(r: Run, p: PubId, fids: seq<Fid>)
    requires IsRun(r) && Enabled(End(r), Begin(p)) && NoRepeats(fids) && Among(fids) == End(r).subs.Keys
    ensures IsRun(Publishing(r, p, fids)) && HasPublished(End(r), End(Publishing(r, p, fids)), p)
  {
    assert forall fid | fid in fids :: fid in Among(fids);
    VisitingDelivers(r, p, fids);
    LettingGo(r, Visited(r, p, fids), p, fids);
  }

  lemma LettingGo(r: Run, r1: Run, p: PubId, fids: seq<Fid>)
    requires IsRun(r) && IsRun(r1) && Enabled(End(r), Begin(p)) && HasVisited(End(r), End(r1), p, fids)
    requires Among(fids) == End(r).subs.Keys
    ensures IsRun(Then(r1, Done(p))) && HasPublished(End(r), End(Then(r1, Done(p))), p)
  {
    RunsKeepBroker(r);
    AllVisitedIsPublished(End(r), End(r1), p, fids);
  }

  lemma AllVisitedIsPublished(b: Broker, b1: Broker, p: PubId, fids: seq<Fid>)
    requires SubsOk(b) && Enabled(b, Begin(p)) && HasVisited(b, b1, p, fids) && Among(fids) == b.subs.Keys
    ensures Enabled(b1, Done(p)) && HasPublished(b, Apply(b1, Done(p)), p)
  {
    LockIsReleased(b, b1, p, fids);
    forall ch | ch in b.channels
      ensures b.channels[ch].open && b.channels[ch].fid in fids <==> ch in b.subs.Values
    {
      VisitsTheOpen(b, fids, ch);
    }
    SendingDelivers(b, Apply(b1, Done(p)), Tag(p, b.pubs[p].published));
  }

  lemma SendingDelivers(b: Broker, b': Broker, tag: Tag)
    requires b'.subs == b.subs && b'.next == b.next && b'.closed == b.closed && b'.channels.Keys == b.channels.Keys
    requires forall ch | ch in b.channels ::
               b'.channels[ch] == if ch in b.subs.Values then Send(b.channels[ch], tag) else b.channels[ch]
    ensures ViewOf(b') == Delivered(ViewOf(b), tag)
  {
    assert forall fid | fid in b.subs :: b.subs[fid] in b.subs.Values;
    assert ViewOf(b').buffers == Delivered(ViewOf(b), tag).buffers;
  }

  lemma LockIsReleased(b: Broker, b': Broker, p: PubId, fids: seq<Fid>)
    requires p in b.pubs && HasVisited(b, b', p, fids) && Among(fids) == b.subs.Keys
    requires b.pubs[p].visiting.None?
    ensures Enabled(b', Done(p)) && Apply(b', Done(p)).subs == b.subs && Apply(b', Done(p)).channels == b'.channels
    ensures Apply(b', Done(p)).next == b.next && Apply(b', Done(p)).closed == b.closed
    ensures Apply(b', Done(p)).pubs == b.pubs[p := b.pubs[p].(published := b.pubs[p].published + 1)]
  {
    assert b.subs.Keys - Among(fids) == {};
  }

  lemma VisitsTheOpen(b: Broker, fids: seq<Fid>, ch: ChanId)
    requires SubsOk(b) && Among(fids) == b.subs.Keys && ch in b.channels
    ensures b.channels[ch].open && b.channels[ch].fid in fids <==> ch in b.subs.Values
  {
    if b.channels[ch].open {
      assert b.channels[ch].fid in Among(fids);
    }
    if ch in b.subs.Values {
      var fid :| fid in b.subs && b.subs[fid] == ch;
      assert fid in Among(fids);
    }
  }

  /** Subscribing, cancelling and closing are single steps of the protocol. */
  lemma SubscribeRefines(b: Broker)
    requires SubsOk(b) && LockFree(b)
    ensures ViewOf(Apply(b, Subscribe)) == Joined(ViewOf(b))
    ensures b.made !in b.channels && (Apply(b, Subscribe).channels[b.made].open <==> !b.closed)
  {
    var b' := Apply(b, Subscribe);
    assert b.made !in b.channels && b.next !in b.subs;
    NewChannelJoins(b, b', b'.channels[b.made]);
  }

  lemma NewChannelJoins(b: Broker, b': Broker, c: Channel)
    requires SubsMatch(b) && b.made !in b.channels && c.buffer == [] && b'.closed == b.closed
    requires b'.channels == b.channels[b.made := c]
    requires b'.subs == if b.closed then b.subs else b.subs[b.next := b.made]
    requires b'.next == if b.closed then b.next else b.next + 1
    ensures ViewOf(b') == Joined(ViewOf(b))
  {
    assert ViewOf(b').buffers == Joined(ViewOf(b)).buffers;
  }

  lemma CancelRefines(b: Broker, fid: Fid)
    requires SubsOk(b) && LockFree(b)
    ensures ViewOf(Apply(b, Cancel(fid))) == Left(ViewOf(b), fid)
    ensures forall f | f in b.subs :: Apply(b, Cancel(fid)).channels[b.subs[f]].open <==> f != fid
  {
    assert fid !in b.subs ==> b.subs - {fid} == b.subs;
  }

  lemma CloseRefines(b: Broker)
    requires SubsOk(b) && LockFree(b)
    ensures ViewOf(Apply(b, CloseAll)) == Shut(ViewOf(b))
    ensures !b.closed ==> forall f | f in b.subs :: !Apply(b, CloseAll).channels[b.subs[f]].open
  {
  }
}
