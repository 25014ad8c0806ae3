/** Exactly when a change is the last a stream will hear about its job. */
module LastWord {
  import opened Wrappers
  import opened Broker
  import opened BrokerOrder

  /** Committed, and not yet offered to the channel. */
  ghost predicate IsDueTo(b: Broker, c: Channel, u: Tag) {
    Upto(b, c, u.pub) <= u.change < Committed(b, u.pub)
  }

  /** The action commits a change about the job. */
  predicate CommitsAbout(b: Broker, a: Action, about: Tag -> bool) {
    a.Commit? && about(Tag(a.pub, Committed(b, a.pub)))
  }

  /** `later` continues `r` without another change to the job. */
  ghost predicate ExtendsQuietly(later: Run, r: Run, about: Tag -> bool) {
    || later == r
    || (later.Then? && !CommitsAbout(End(later.before), later.action, about) && ExtendsQuietly(later.before, r, about))
  }

  lemma StepCommits(b: Broker, a: Action, u: Tag, about: Tag -> bool)
    requires Enabled(b, a) && about(u) && !CommitsAbout(b, a, about)
    ensures u.change < Committed(Apply(b, a), u.pub) ==> u.change < Committed(b, u.pub)
  {
  }

  lemma {:induction false} NothingNewIsCommitted(r: Run, later: Run, u: Tag, about: Tag -> bool)
    requires IsRun(later) && ExtendsQuietly(later, r, about) && about(u) && u.change < Committed(End(later), u.pub)
    ensures u.change < Committed(End(r), u.pub)
  {
    if later != r {
      StepCommits(End(later.before), later.action, u, about);
      NothingNewIsCommitted(r, later.before, u, about);
    }
  }

  /** What a channel gains, and how what it is owed moves, from one state to a later. */
  ghost predicate Gains(b: Broker, c: Channel, b': Broker, c': Channel) {
    && |Log(c)| <= |Log(c')| && Log(c) == Log(c')[..|Log(c)|]
    && (forall i | |Log(c)| <= i < |Log(c')| :: Upto(b, c, Log(c')[i].pub) <= Log(c')[i].change)
    && (forall q :: Upto(b, c, q) <= Upto(b', c', q))
  }

  lemma StepGains(b: Broker, a: Action, ch: ChanId)
    requires BrokerOk(b) && Enabled(b, a) && ch in b.channels
    ensures ch in Apply(b, a).channels && Gains(b, b.channels[ch], Apply(b, a), Apply(b, a).channels[ch])
  {
    if a.Offer? && b.subs[a.fid] == ch {
      OfferGains(b, a.pub, a.fid);
    } else {
      EventsAreStable(b, a, ch);
      forall q
        ensures Upto(b, b.channels[ch], q) == Upto(Apply(b, a), Apply(b, a).channels[ch], q)
      {
        UptoIsStable(b, a, ch, q);
      }
    }
  }

  lemma OfferGains(b: Broker, p: PubId, fid: Fid)
    requires BrokerOk(b) && Enabled(b, Offer(p, fid))
    ensures var b', ch := Apply(b, Offer(p, fid)), b.subs[fid];
            ch in b'.channels && Gains(b, b.channels[ch], b', b'.channels[ch])
  {
    var c, tag := b.channels[b.subs[fid]], Tag(p, b.pubs[p].published);
    SendForgetsNothing(c, tag);
    forall q
      ensures Upto(b, c, p) == tag.change
      ensures Upto(Apply(b, Offer(p, fid)), Send(c, tag), q) >= Upto(b, c, q)
    {
      OfferMovesOne(b, p, fid, q);
    }
    OfferMovesOne(b, p, fid, p);
  }

  lemma GainsAddUp(b: Broker, c: Channel, b1: Broker, c1: Channel, b2: Broker, c2: Channel)
    requires Gains(b, c, b1, c1) && Gains(b1, c1, b2, c2)
    ensures Gains(b, c, b2, c2)
  {
    forall i | |Log(c)| <= i < |Log(c2)|
      ensures Upto(b, c, Log(c2)[i].pub) <= Log(c2)[i].change
    {
      if i < |Log(c1)| {
        assert Log(c2)[i] == Log(c1)[i];
      }
    }
  }

  lemma {:induction false} ChannelsGain(r: Run, later: Run, ch: ChanId, about: Tag -> bool)
    requires IsRun(r) && IsRun(later) && ExtendsQuietly(later, r, about) && ch in End(r).channels
    ensures ch in End(later).channels && Gains(End(r), End(r).channels[ch], End(later), End(later).channels[ch])
  {
    if later != r {
      ChannelsGain(r, later.before, ch, about);
      RunsKeepBroker(later.before);
      StepGains(End(later.before), later.action, ch);
      GainsAddUp(End(r), End(r).channels[ch], End(later.before), End(later.before).channels[ch],
                 End(later), End(later).channels[ch]);
    }
  }

  /** No event about the job follows this change's in the channel. */
  ghost predicate HasLastWord(c: Channel, t: Tag, about: Tag -> bool) {
    forall k, i | 0 <= k < i < |Log(c)| && Log(c)[k] == t :: !about(Log(c)[i])
  }

  lemma {:induction false} SoleDueHasLastWord(r: Run, later: Run, ch: ChanId, t: Tag, about: Tag -> bool)
    requires IsRun(r) && IsRun(later) && ExtendsQuietly(later, r, about) && ch in End(r).channels
    requires IsDueTo(End(r), End(r).channels[ch], t)
    requires forall u: Tag | about(u) && u != t :: !IsDueTo(End(r), End(r).channels[ch], u)
    ensures ch in End(later).channels && HasLastWord(End(later).channels[ch], t, about)
  {
    ChannelsGain(r, later, ch, about);
    RunsKeepBroker(r);
    RunsKeepBroker(later);
    var b, c, c' := End(r), End(r).channels[ch], End(later).channels[ch];
    assert ChannelOk(b, c) && ChannelOk(End(later), c');
    forall k, i | 0 <= k < i < |Log(c')| && Log(c')[k] == t
      ensures !about(Log(c')[i])
    {
      DueIsNew(b, c, c', k);
      if about(Log(c')[i]) {
        LogIsCommitted(later, ch, i);
        NothingNewIsCommitted(r, later, Log(c')[i], about);
      }
    }
  }

  /** What had yet to be offered is not among the events there were. */
  lemma DueIsNew(b: Broker, c: Channel, c': Channel, k: nat)
    requires InRange(b, c) && |Log(c)| <= |Log(c')| && Log(c) == Log(c')[..|Log(c)|]
    requires k < |Log(c')| && Upto(b, c, Log(c')[k].pub) <= Log(c')[k].change
    ensures |Log(c)| <= k
  {
  }

  // ----- and otherwise a stream it does not have it in -----

  /** A stream that has caught up with its buffer. */
  lemma {:induction false} CatchesUp(r0: Run, r: Run, ch: ChanId, about: Tag -> bool) returns (r': Run)
    requires IsRun(r) && ExtendsQuietly(r, r0, about) && ch in End(r).channels
    ensures IsRun(r') && ExtendsQuietly(r', r0, about) && ch in End(r').channels
    ensures var c, c' := End(r).channels[ch], End(r').channels[ch];
            && c' == c.(received := Log(c), buffer := []) && Log(c') == Log(c)
            && End(r').pubs == End(r).pubs && End(r').subs == End(r).subs
    decreases |End(r).channels[ch].buffer|
  {
    var c := End(r).channels[ch];
    r' := r;
    if c.buffer == [] {
      assert Log(c) == c.received;
    } else {
      ReceivingMovesOne(c);
      r' := CatchesUp(r0, Then(r, Receive(ch)), ch, about);
    }
  }

  /** A due change whose publisher goes on reaches a stream with room. */
  lemma {:induction false} DueIsDelivered(r0: Run, r: Run, ch: ChanId, u: Tag, about: Tag -> bool) returns (r': Run)
    requires IsRun(r) && ExtendsQuietly(r, r0, about) && ch in End(r).channels && End(r).channels[ch].open
    requires |End(r).channels[ch].buffer| < EVENT_BUFFER && IsDueTo(End(r), End(r).channels[ch], u)
    ensures IsRun(r') && ExtendsQuietly(r', r0, about) && ch in End(r').channels && End(r').channels[ch].open
    ensures Log(End(r').channels[ch]) == Log(End(r).channels[ch]) + [u]
    ensures |End(r').channels[ch].buffer| == |End(r).channels[ch].buffer| + 1
    ensures forall v: Tag | v.pub != u.pub && IsDueTo(End(r), End(r).channels[ch], v) ::
              IsDueTo(End(r'), End(r').channels[ch], v)
  {
    RunsKeepBroker(r);
    var b, c := End(r), End(r).channels[ch];
    DueIsOffered(b, ch, u);
    var locked := if b.pubs[u.pub].visiting.None? then Then(r, Begin(u.pub)) else r;
    r' := Then(locked, Offer(u.pub, c.fid));
    assert End(locked) == Locked(b, u.pub);
    SendAppends(c, u);
    forall v: Tag | v.pub != u.pub && IsDueTo(b, c, v)
      ensures IsDueTo(End(r'), End(r').channels[ch], v)
    {
      OthersStayDue(b, End(r'), c, End(r').channels[ch], v);
    }
  }

  lemma SendAppends(c: Channel, u: Tag)
    requires |c.buffer| < EVENT_BUFFER
    ensures Log(Send(c, u)) == Log(c) + [u] && |Send(c, u).buffer| == |c.buffer| + 1
    ensures Send(c, u).open == c.open && Send(c, u).until == c.until && Send(c, u).fid == c.fid
  {
  }

  lemma OthersStayDue(b: Broker, b': Broker, c: Channel, c': Channel, v: Tag)
    requires IsDueTo(b, c, v) && v.pub in b.pubs && v.pub in b'.pubs && b'.pubs[v.pub] == b.pubs[v.pub]
    requires c'.until == c.until && c'.fid == c.fid
    ensures IsDueTo(b', c', v)
  {
  }

  /** The state once the publisher holds the lock. */
  function Locked(b: Broker, p: PubId): Broker {
    if p in b.pubs && b.pubs[p].visiting.None? && Enabled(b, Begin(p)) then Apply(b, Begin(p)) else b
  }

  lemma DueIsNext(b: Broker, ch: ChanId, u: Tag)
    requires SubsOk(b) && ch in b.channels && CountsOk(b, b.channels[ch]) && b.channels[ch].open
    requires IsDueTo(b, b.channels[ch], u)
    ensures u.pub in b.pubs && u.change == b.pubs[u.pub].published && b.pubs[u.pub].committed == u.change + 1
    ensures b.channels[ch].fid in b.subs && b.subs[b.channels[ch].fid] == ch
    ensures b.pubs[u.pub].visiting.Some? ==> b.channels[ch].fid in b.pubs[u.pub].visiting.value
  {
  }

  lemma DueIsOffered(b: Broker, ch: ChanId, u: Tag)
    requires BrokerOk(b) && ch in b.channels && b.channels[ch].open && IsDueTo(b, b.channels[ch], u)
    ensures u.pub in b.pubs && (b.pubs[u.pub].visiting.None? ==> Enabled(b, Begin(u.pub)))
    ensures Enabled(Locked(b, u.pub), Offer(u.pub, b.channels[ch].fid))
    ensures var b' := Apply(Locked(b, u.pub), Offer(u.pub, b.channels[ch].fid));
            && ch in b'.channels && b'.channels[ch] == Send(b.channels[ch], u)
            && (forall q | q in b.pubs && q != u.pub :: q in b'.pubs && b'.pubs[q] == b.pubs[q])
  {
    DueIsNext(b, ch, u);
  }

  /** Exactly when a change on its way to a stream will stay the last it hears about
      the job: when no other change about the job is on its way there. In every
      continuation in which the job is not changed again it is then the last, and
      otherwise there is one in which it is not. */
  lemma {:induction false} LastWordIff(r: Run, ch: ChanId, t: Tag, about: Tag -> bool)
    requires IsRun(r) && ch in End(r).channels && End(r).channels[ch].open
    requires about(t) && IsDueTo(End(r), End(r).channels[ch], t)
    ensures (forall u: Tag | about(u) && u != t :: !IsDueTo(End(r), End(r).channels[ch], u))
       <==> forall later | IsRun(later) && ExtendsQuietly(later, r, about) ::
              ch in End(later).channels && HasLastWord(End(later).channels[ch], t, about)
  {
    if u: Tag :| about(u) && u != t && IsDueTo(End(r), End(r).channels[ch], u) {
      var later := BothAreDelivered(r, ch, t, u, about);
    } else {
      forall later | IsRun(later) && ExtendsQuietly(later, r, about)
        ensures ch in End(later).channels && HasLastWord(End(later).channels[ch], t, about)
      {
        SoleDueHasLastWord(r, later, ch, t, about);
      }
    }
  }

  lemma {:induction false} BothAreDelivered(r: Run, ch: ChanId, t: Tag, u: Tag, about: Tag -> bool) returns (later: Run)
    requires IsRun(r) && ch in End(r).channels && End(r).channels[ch].open && u != t && about(u)
    requires IsDueTo(End(r), End(r).channels[ch], t) && IsDueTo(End(r), End(r).channels[ch], u)
    ensures IsRun(later) && ExtendsQuietly(later, r, about)
    ensures ch in End(later).channels && !HasLastWord(End(later).channels[ch], t, about)
  {
    RunsKeepBroker(r);
    DueIsNext(End(r), ch, t);
    DueIsNext(End(r), ch, u);
    var ready := CatchesUp(r, r, ch, about);
    assert IsDueTo(End(ready), End(ready).channels[ch], t) && IsDueTo(End(ready), End(ready).channels[ch], u);
    later := TwoAreDelivered(r, ready, ch, t, u, about);
    CrossedLog(End(later).channels[ch], Log(End(ready).channels[ch]), t, u, about);
  }

  lemma {:induction false} TwoAreDelivered(r0: Run, r: Run, ch: ChanId, t: Tag, u: Tag, about: Tag -> bool)
    returns (later: Run)
    requires IsRun(r) && ExtendsQuietly(r, r0, about) && ch in End(r).channels && End(r).channels[ch].open
    requires End(r).channels[ch].buffer == [] && t.pub != u.pub
    requires IsDueTo(End(r), End(r).channels[ch], t) && IsDueTo(End(r), End(r).channels[ch], u)
    ensures IsRun(later) && ExtendsQuietly(later, r0, about) && ch in End(later).channels
    ensures Log(End(later).channels[ch]) == Log(End(r).channels[ch]) + [t] + [u]
  {
    var first := DueIsDelivered(r0, r, ch, t, about);
    later := DueIsDelivered(r0, first, ch, u, about);
  }

  lemma CrossedLog(c: Channel, before: seq<Tag>, t: Tag, u: Tag, about: Tag -> bool)
    requires Log(c) == before + [t] + [u] && about(u)
    ensures !HasLastWord(c, t, about)
  {
    assert Log(c)[|before|] == t && Log(c)[|before| + 1] == u;
  }
}
