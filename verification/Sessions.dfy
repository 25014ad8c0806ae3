/** Login sessions: a lifetime that slides forward with use, and deletion that
    nothing undoes. Instants are nanoseconds, stored times milliseconds. */
module Sessions {
  import opened Wrappers
  import opened Clock
  import opened PasswordHash

  type SessionId = int
  type UserId = int

  /** A token's hash; hashing is taken to be free of collisions. */
  type Token = int

  datatype Session = Session(user: UserId, token: Token, lastSeen: int, expires: int)

  type Sessions = map<SessionId, Session>

  const EXTEND_AFTER := 24 * HOUR

  // ----- one session in time -----

  function NewSession(user: UserId, token: Token, now: int, ttl: int): Session {
    Session(user, token, Millis(now), Millis(now + ttl))
  }

  /** The filter of the lookup: expires_at > now. */
  predicate Unexpired(s: Session, now: int) {
    s.expires > Millis(now)
  }

  predicate DueForExtension(s: Session, now: int) {
    now - s.lastSeen * MILLISECOND > EXTEND_AFTER
  }

  function Extended(s: Session, now: int, ttl: int): Session {
    s.(lastSeen := Millis(now), expires := Millis(now + ttl))
  }

  /** Authenticating once, its extension write included. */
  function Used(s: Session, now: int, ttl: int): Option<Session> {
    if !Unexpired(s, now) then None
    else if DueForExtension(s, now) then Some(Extended(s, now, ttl))
    else Some(s)
  }

  /** Authenticating at each of a sequence of instants; None once one is refused. */
  function UsedAt(s: Session, uses: seq<int>, ttl: int): Option<Session> {
    if uses == [] then Some(s)
    else
      match UsedAt(s, uses[..|uses| - 1], ttl)
      case Some(before) => Used(before, uses[|uses| - 1], ttl)
      case None => None
  }

  function LastUse(created: int, uses: seq<int>): int {
    if uses == [] then created else uses[|uses| - 1]
  }

  /** Instants in order, each gap, the first from creation, below `gap`. */
  ghost predicate Gaps(created: int, uses: seq<int>, gap: int) {
    forall i | 0 <= i < |uses| :: 0 <= uses[i] - LastUse(created, uses[..i]) < gap
  }

  lemma GapsPrefix(created: int, uses: seq<int>, gap: int)
    requires uses != [] && Gaps(created, uses, gap)
    ensures Gaps(created, uses[..|uses| - 1], gap)
    ensures 0 <= uses[|uses| - 1] - LastUse(created, uses[..|uses| - 1]) < gap
  {
    var prefix := uses[..|uses| - 1];
    forall i | 0 <= i < |prefix|
      ensures 0 <= prefix[i] - LastUse(created, prefix[..i]) < gap
    {
      assert prefix[..i] == uses[..i];
    }
  }

  /** With a lifetime of whole milliseconds above a day, 86400 seconds, a session used
      with every gap below the lifetime less a day never expires, however the
      instants fall against the millisecond grid. */
  lemma {:induction false} SessionsInUseNeverExpire(user: UserId, token: Token, created: int, uses: seq<int>, ttl: int)
    requires 86_400_000_000_000 < ttl && ttl % MILLISECOND == 0
    requires Gaps(created, uses, ttl - 86_400_000_000_000)
    ensures var r := UsedAt(NewSession(user, token, created, ttl), uses, ttl);
            && r.Some?
            && r.value.user == user && r.value.token == token
            && r.value.expires == r.value.lastSeen + ttl / MILLISECOND
            && r.value.lastSeen * MILLISECOND <= LastUse(created, uses) <= r.value.lastSeen * MILLISECOND + EXTEND_AFTER
  {
    if uses != [] {
      GapsPrefix(created, uses, ttl - EXTEND_AFTER);
      SessionsInUseNeverExpire(user, token, created, uses[..|uses| - 1], ttl);
    }
  }

  /** A session whose last use lies a full lifetime back is refused, whatever the
      lifetime and however it was used before. */
  lemma {:induction false} IdleSessionsExpire(
      user: UserId, token: Token, created: int, uses: seq<int>, ttl: int, now: int)
    requires UsedAt(NewSession(user, token, created, ttl), uses, ttl).Some?
    requires forall i | 0 <= i < |uses| :: LastUse(created, uses[..i]) <= uses[i]
    requires LastUse(created, uses) + ttl <= now
    ensures !Unexpired(UsedAt(NewSession(user, token, created, ttl), uses, ttl).value, now)
  {
    MillisMonotone(LastUse(created, uses) + ttl, now);
    if uses != [] {
      var prefix := uses[..|uses| - 1];
      forall i | 0 <= i < |prefix|
        ensures LastUse(created, prefix[..i]) <= prefix[i]
      {
        assert prefix[..i] == uses[..i];
      }
      IdleSessionsExpire(user, token, created, prefix, ttl, now);
    }
  }

  // ----- why the lifetime must be whole milliseconds -----

  /** One use per nanosecond, from the first after creation at time zero. */
  ghost function EveryNanosecond(n: nat): seq<int> {
    seq(n, i requires 0 <= i < n => i + 1)
  }

  lemma {:induction false} EarlyUsesDoNotExtend(user: UserId, token: Token, n: nat, ttl: int)
    requires n <= EXTEND_AFTER && n / MILLISECOND < Millis(ttl)
    ensures var s := NewSession(user, token, 0, ttl);
            UsedAt(s, EveryNanosecond(n), ttl) == Some(s)
  {
    if n > 0 {
      var uses := EveryNanosecond(n);
      assert uses[..n - 1] == EveryNanosecond(n - 1);
      MillisMonotone(n - 1, n);
      EarlyUsesDoNotExtend(user, token, n - 1, ttl);
    }
  }

  lemma {:induction false} NanosecondGaps(n: nat, gap: int)
    requires 1 < gap
    ensures Gaps(0, EveryNanosecond(n), gap)
  {
    var uses := EveryNanosecond(n);
    forall i | 0 <= i < |uses|
      ensures 0 <= uses[i] - LastUse(0, uses[..i]) < gap
    {
      if i > 0 {
        assert uses[..i][i - 1] == uses[i - 1];
      }
    }
  }

  /** With any other lifetime some session in steady use does expire: truncation
      takes the fraction of a millisecond off its expiry but not off the gaps. */
  lemma FractionalLifetimesExpireInUse(user: UserId, token: Token, ttl: int)
    requires EXTEND_AFTER + 1 < ttl && ttl % MILLISECOND != 0
    ensures exists created, uses ::
              && Gaps(created, uses, ttl - EXTEND_AFTER)
              && UsedAt(NewSession(user, token, created, ttl), uses, ttl).None?
  {
    var whole := Millis(ttl) * MILLISECOND;
    assert EXTEND_AFTER <= whole < ttl;
    var s := NewSession(user, token, 0, ttl);
    var early := if whole == EXTEND_AFTER then EXTEND_AFTER - 1 else EXTEND_AFTER;
    assert early / MILLISECOND < Millis(ttl);
    EarlyUsesDoNotExtend(user, token, early, ttl);
    NanosecondGaps(early, ttl - EXTEND_AFTER);
    var uses := EveryNanosecond(early) + [whole];
    assert uses[..early] == EveryNanosecond(early);
    assert UsedAt(s, uses, ttl).None?;
    forall i | 0 <= i < |uses|
      ensures 0 <= uses[i] - LastUse(0, uses[..i]) < ttl - EXTEND_AFTER
    {
      if i < early {
        assert uses[..i] == EveryNanosecond(early)[..i];
      }
    }
    assert Gaps(0, uses, ttl - EXTEND_AFTER);
  }

  // ----- requests that overlap -----

  /** A session, the most time between two requests, and the most that an extension
      takes to be written. */
  datatype Setting = Setting(user: UserId, token: Token, created: int, ttl: int, gap: int, delay: int)

  /** One session with requests in flight: the instants of its creation and of each
      request since, and the requests that have yet to write their extension. */
  datatype Shared = Shared(session: Session, asked: seq<int>, pending: set<nat>)

  datatype Step = Ask(now: int) | Store(request: nat)

  /** A request reads the session; a late extension may overwrite a newer one. */
  function AfterStep(s: Shared, step: Step, ttl: int): Option<Shared> {
    match step
    case Ask(now) =>
      if !Unexpired(s.session, now) then None
      else
        var stores := if DueForExtension(s.session, now) then {|s.asked|} else {};
        Some(s.(asked := s.asked + [now], pending := s.pending + stores))
    case Store(i) =>
      if i in s.pending && i < |s.asked|
      then Some(s.(session := Extended(s.session, s.asked[i], ttl), pending := s.pending - {i}))
      else Some(s)
  }

  /** None once a request is refused. */
  function Overlapped(g: Setting, steps: seq<Step>): Option<Shared> {
    if steps == [] then Some(Shared(NewSession(g.user, g.token, g.created, g.ttl), [g.created], {}))
    else
      match Overlapped(g, steps[..|steps| - 1])
      case None => None
      case Some(s) => AfterStep(s, steps[|steps| - 1], g.ttl)
  }

  /** Requests come in order, each less than the gap after the one before it, and
      every extension is written within the delay of its request. */
  ghost predicate Punctual(g: Setting, steps: seq<Step>) {
    steps != [] ==>
      && Punctual(g, steps[..|steps| - 1])
      && (steps[|steps| - 1].Ask? ==>
            match Overlapped(g, steps[..|steps| - 1])
            case None => true
            case Some(s) => InTime(s, steps[|steps| - 1].now, g))
  }

  ghost predicate InTime(s: Shared, now: int, g: Setting) {
    && s.asked != [] && 0 <= now - s.asked[|s.asked| - 1] < g.gap
    && (forall i | i in s.pending && i < |s.asked| :: now <= s.asked[i] + g.delay)
  }

  /** How far back a request may leave the session seen: a day if it does not extend
      it, or a write delay, rounded to the millisecond, if an older extension is
      written over its own. */
  function Slack(delay: int): int {
    if EXTEND_AFTER < delay + MILLISECOND - 1 then delay + MILLISECOND - 1 else EXTEND_AFTER
  }

  /** Every request either has its extension still to write, or left the session
      seen no further back than that. */
  ghost predicate SharedOk(s: Shared, g: Setting) {
    var n := |s.asked|;
    && 0 < n && 0 !in s.pending
    && (forall i | i in s.pending :: i < n && s.asked[n - 1] <= s.asked[i] + g.delay)
    && (forall i | 0 <= i < n :: s.asked[i] <= s.asked[n - 1])
    && (forall i | 0 < i < n :: s.asked[i] - s.asked[i - 1] < g.gap)
    && s.session.expires == s.session.lastSeen + g.ttl / MILLISECOND
    && (forall i | 0 <= i < n :: i in s.pending || s.asked[i] - Slack(g.delay) <= s.session.lastSeen * MILLISECOND)
  }

  /** Looking back from a request, the latest one with nothing left to write. */
  lemma {:induction false} LatestSettled(s: Shared, g: Setting, now: int, k: nat) returns (j: nat)
    requires SharedOk(s, g) && InTime(s, now, g) && 0 <= g.delay
    requires k < |s.asked| && now - s.asked[k] < g.gap + g.delay
    ensures j < |s.asked| && j !in s.pending && now - s.asked[j] < g.gap + g.delay
  {
    if k in s.pending {
      j := LatestSettled(s, g, now, k - 1);
    } else {
      j := k;
    }
  }

  /** The gap, the delay and what a request may leave fit in the lifetime. */
  predicate Fits(g: Setting) {
    g.gap + g.delay + Slack(g.delay) <= g.ttl
  }

  lemma AskKeepsSession(s: Shared, now: int, g: Setting)
    requires g.ttl % MILLISECOND == 0 && 0 <= g.delay && Fits(g)
    requires SharedOk(s, g) && InTime(s, now, g)
    ensures AfterStep(s, Ask(now), g.ttl).Some? && SharedOk(AfterStep(s, Ask(now), g.ttl).value, g)
  {
    var j := LatestSettled(s, g, now, |s.asked| - 1);
    var seen := s.session.lastSeen * MILLISECOND;
    assert s.asked[j] - Slack(g.delay) <= seen;
    assert now < seen + g.ttl;
    assert Unexpired(s.session, now);
    var s' := AfterStep(s, Ask(now), g.ttl).value;
    var n := |s.asked|;
    forall i | 0 <= i < n + 1
      ensures s'.asked[i] <= now && (0 < i ==> s'.asked[i] - s'.asked[i - 1] < g.gap)
      ensures i in s'.pending || s'.asked[i] - Slack(g.delay) <= seen
    {
      if i < n {
        assert s'.asked[i] == s.asked[i];
      }
    }
  }

  lemma StoreKeepsSession(s: Shared, i: nat, g: Setting)
    requires g.ttl % MILLISECOND == 0 && 0 <= g.delay && SharedOk(s, g)
    ensures AfterStep(s, Store(i), g.ttl).Some? && SharedOk(AfterStep(s, Store(i), g.ttl).value, g)
  {
    if i in s.pending {
      var s' := AfterStep(s, Store(i), g.ttl).value;
      assert s'.asked == s.asked && s'.pending == s.pending - {i};
      assert s.asked[i] - MILLISECOND < s'.session.lastSeen * MILLISECOND;
      assert s'.session.expires == s'.session.lastSeen + g.ttl / MILLISECOND;
    }
  }

  lemma {:induction false} OverlapKeepsSessions(g: Setting, steps: seq<Step>)
    requires g.ttl % MILLISECOND == 0 && 0 <= g.delay && Fits(g) && Punctual(g, steps)
    ensures Overlapped(g, steps).Some? && SharedOk(Overlapped(g, steps).value, g)
  {
    if steps != [] {
      OverlapKeepsSessions(g, steps[..|steps| - 1]);
      var s := Overlapped(g, steps[..|steps| - 1]).value;
      match steps[|steps| - 1]
      case Ask(now) => AskKeepsSession(s, now, g);
      case Store(i) => StoreKeepsSession(s, i, g);
    }
  }

  // ----- and when they do not fit -----

  /** Punctual steps that have led here, no request refused. */
  ghost predicate Leads(g: Setting, steps: seq<Step>, s: Shared) {
    && Punctual(g, steps) && Overlapped(g, steps) == Some(s)
    && s.asked != [] && (forall i | i in s.pending :: i < |s.asked|)
    && s.session.expires == s.session.lastSeen + g.ttl / MILLISECOND
  }

  function Last(s: Shared): int
    requires s.asked != []
  {
    s.asked[|s.asked| - 1]
  }

  /** The instant from which the session is refused. */
  function Lapse(s: Shared): int {
    s.session.expires * MILLISECOND
  }

  lemma UnexpiredBeforeLapse(s: Shared, now: int)
    ensures Unexpired(s.session, now) <==> now < Lapse(s)
  {
  }

  lemma Asking(g: Setting, steps: seq<Step>, s: Shared, now: int) returns (s': Shared)
    requires Leads(g, steps, s) && InTime(s, now, g) && now < Lapse(s)
    ensures Leads(g, steps + [Ask(now)], s') && s'.session == s.session && s'.asked == s.asked + [now]
    ensures var due := EXTEND_AFTER < now - s.session.lastSeen * MILLISECOND;
            s'.pending == if due then s.pending + {|s.asked|} else s.pending
  {
    assert (steps + [Ask(now)])[..|steps|] == steps;
    UnexpiredBeforeLapse(s, now);
    s' := AfterStep(s, Ask(now), g.ttl).value;
    assert s.pending + {} == s.pending;
  }

  lemma Storing(g: Setting, steps: seq<Step>, s: Shared, i: nat) returns (s': Shared)
    requires Leads(g, steps, s) && i in s.pending && g.ttl % MILLISECOND == 0
    ensures Leads(g, steps + [Store(i)], s') && s'.asked == s.asked && s'.pending == s.pending - {i}
    ensures s'.session.lastSeen == Millis(s.asked[i])
  {
    assert (steps + [Store(i)])[..|steps|] == steps;
    s' := AfterStep(s, Store(i), g.ttl).value;
  }

  /** A request every nanosecond, none of them due for an extension. */
  lemma {:induction false} IdleAsks(g: Setting, steps: seq<Step>, s: Shared, until: int)
    returns (steps': seq<Step>, s': Shared)
    requires Leads(g, steps, s) && s.pending == {} && 2 <= g.gap && Last(s) <= until < Lapse(s)
    requires until - s.session.lastSeen * MILLISECOND <= EXTEND_AFTER
    ensures Leads(g, steps', s') && s'.session == s.session && s'.pending == {} && Last(s') == until
    decreases until - Last(s)
  {
    steps', s' := steps, s;
    if Last(s) < until {
      s' := Asking(g, steps, s, Last(s) + 1);
      steps', s' := IdleAsks(g, steps + [Ask(Last(s) + 1)], s', until);
    }
  }

  /** Requests from an instant on, all of them due, none written. */
  lemma {:induction false} StalledAsks(g: Setting, steps: seq<Step>, s: Shared, start: int, until: int)
    returns (steps': seq<Step>, s': Shared)
    requires Leads(g, steps, s) && s.pending == {} && 2 <= g.gap && 0 < start - Last(s) < g.gap
    requires EXTEND_AFTER < start - s.session.lastSeen * MILLISECOND && start <= until < Lapse(s)
    requires until <= start + g.delay
    ensures Leads(g, steps', s') && s'.session == s.session && Last(s') == until
    ensures |s'.asked| - 1 in s'.pending && forall i | i in s'.pending :: start <= s'.asked[i]
    decreases until - start
  {
    if until == start {
      s' := Asking(g, steps, s, until);
      steps' := steps + [Ask(until)];
    } else {
      var before, t := StalledAsks(g, steps, s, start, until - 1);
      s' := Asking(g, before, t, until);
      steps' := before + [Ask(until)];
    }
  }

  /** From here on no request's extension is written in time. */
  lemma Stall(g: Setting, steps: seq<Step>, s: Shared, start: int)
    requires Leads(g, steps, s) && s.pending == {} && 2 <= g.gap && 0 < start - Last(s) < g.gap
    requires EXTEND_AFTER < start - s.session.lastSeen * MILLISECOND && start <= Lapse(s) <= start + g.delay
    ensures exists all :: Punctual(g, all) && Overlapped(g, all).None?
  {
    var before, t := steps, s;
    if start < Lapse(s) {
      before, t := StalledAsks(g, steps, s, start, Lapse(s) - 1);
    }
    UnexpiredBeforeLapse(t, Lapse(s));
    var all := before + [Ask(Lapse(s))];
    assert all[..|before|] == before;
    assert InTime(t, Lapse(s), g);
    assert Punctual(g, all) && Overlapped(g, all).None?;
  }

  /** All extensions but one are written. */
  lemma {:induction false} AllButOneStored(g: Setting, steps: seq<Step>, s: Shared, keep: nat)
    returns (steps': seq<Step>, s': Shared)
    requires Leads(g, steps, s) && keep in s.pending && g.ttl % MILLISECOND == 0
    requires g.ttl <= Lapse(s) && forall i | i in s.pending :: 0 <= s.asked[i]
    ensures Leads(g, steps', s') && s'.asked == s.asked && s'.pending == {keep} && g.ttl <= Lapse(s')
    decreases s.pending
  {
    steps', s' := steps, s;
    if i :| i in s.pending && i != keep {
      s' := Storing(g, steps, s, i);
      MillisMonotone(0, s.asked[i]);
      steps', s' := AllButOneStored(g, steps + [Store(i)], s', keep);
    } else {
      assert s.pending == {keep};
    }
  }

  /** A request every nanosecond, each writing its extension at once if one is due,
      while one older extension has yet to be written. */
  lemma {:induction false} ServedAsks(g: Setting, steps: seq<Step>, s: Shared, keep: nat, until: int)
    returns (steps': seq<Step>, s': Shared)
    requires Leads(g, steps, s) && s.pending == {keep} && g.ttl % MILLISECOND == 0 && EXTEND_AFTER + 1 < g.ttl
    requires 2 <= g.gap && Last(s) <= until <= s.asked[keep] + g.delay && Last(s) + 1 < Lapse(s)
    ensures Leads(g, steps', s') && s'.pending == {keep} && s'.asked[keep] == s.asked[keep] && Last(s') == until
    decreases until - Last(s)
  {
    steps', s' := steps, s;
    if Last(s) < until {
      var now, n := Last(s) + 1, |s.asked|;
      s' := Asking(g, steps, s, now);
      steps' := steps + [Ask(now)];
      if n in s'.pending {
        s' := Storing(g, steps', s', n);
        steps' := steps' + [Store(n)];
        assert s'.pending == {keep};
      }
      assert now + 1 < Lapse(s');
      steps', s' := ServedAsks(g, steps', s', keep, until);
    }
  }

  /** A whole day of requests, then an extension that takes its full time to be
      written and is written over all newer ones. */
  lemma LateExtension(g: Setting) returns (steps: seq<Step>, s: Shared)
    requires g.created == 0 && g.ttl % MILLISECOND == 0 && 2 <= g.gap
    requires EXTEND_AFTER < g.delay + MILLISECOND - 1 && g.gap + g.delay + EXTEND_AFTER <= g.ttl
    ensures Leads(g, steps, s) && s.pending == {} && s.session.lastSeen * MILLISECOND == EXTEND_AFTER
    ensures Last(s) == EXTEND_AFTER + MILLISECOND - 1 + g.delay
  {
    var late := EXTEND_AFTER + MILLISECOND - 1;
    steps, s := Beginning(g);
    steps, s := IdleAsks(g, steps, s, EXTEND_AFTER);
    steps, s := StalledAsks(g, steps, s, EXTEND_AFTER + 1, late);
    var keep := |s.asked| - 1;
    steps, s := AllButOneStored(g, steps, s, keep);
    steps, s := ServedAsks(g, steps, s, keep, late + g.delay);
    var before := steps;
    s := Storing(g, before, s, keep);
    steps := before + [Store(keep)];
  }

  lemma Beginning(g: Setting) returns (steps: seq<Step>, s: Shared)
    requires g.created == 0 && g.ttl % MILLISECOND == 0
    ensures Leads(g, steps, s) && s.pending == {} && Last(s) == 0 && s.session.lastSeen == 0 && Lapse(s) == g.ttl
  {
    steps := [];
    s := Shared(NewSession(g.user, g.token, 0, g.ttl), [0], {});
  }

  lemma OverlapCanExpire(g: Setting)
    requires g.created == 0 && g.ttl % MILLISECOND == 0 && EXTEND_AFTER < g.ttl && 2 <= g.gap && 0 <= g.delay
    requires !Fits(g)
    ensures exists steps :: Punctual(g, steps) && Overlapped(g, steps).None?
  {
    var steps: seq<Step>, s: Shared;
    if g.ttl < g.gap + g.delay + EXTEND_AFTER {
      steps, s := Beginning(g);
      steps, s := IdleAsks(g, steps, s, EXTEND_AFTER);
    } else {
      steps, s := LateExtension(g);
    }
    Stall(g, steps, s, if Last(s) + g.gap - 1 < Lapse(s) then Last(s) + g.gap - 1 else Lapse(s));
  }

  /** Exactly when overlapping requests cannot log an active user out: when the gap
      between requests, the time an extension may take to be written, and how far
      back a request may leave the session seen, together fit in the lifetime. */
  lemma OverlapIsSafeIff(user: UserId, token: Token, ttl: int, gap: int, delay: int)
    requires ttl % MILLISECOND == 0 && EXTEND_AFTER < ttl && 2 <= gap && 0 <= delay
    ensures gap + delay + Slack(delay) <= ttl
       <==> forall created, steps | Punctual(Setting(user, token, created, ttl, gap, delay), steps) ::
              Overlapped(Setting(user, token, created, ttl, gap, delay), steps).Some?
  {
    if gap + delay + Slack(delay) <= ttl {
      forall created, steps | Punctual(Setting(user, token, created, ttl, gap, delay), steps)
        ensures Overlapped(Setting(user, token, created, ttl, gap, delay), steps).Some?
      {
        OverlapKeepsSessions(Setting(user, token, created, ttl, gap, delay), steps);
      }
    } else {
      OverlapCanExpire(Setting(user, token, 0, ttl, gap, delay));
    }
  }

  // ----- the table, with requests running concurrently -----

  /** An Authenticate that has read its session and is about to extend it. */
  datatype Extension = Extension(request: nat, id: SessionId, now: int)

  datatype Auth = Auth(ttl: int, sessions: Sessions, issued: set<Token>, usedIds: set<SessionId>,
                       requests: nat, pending: set<Extension>)

  datatype Action =
    | Create(id: SessionId, user: UserId, token: Token, now: int)
    | Read(id: SessionId, token: Token, now: int)
    | Write(extension: Extension)
    | WriteFails(extension: Extension)
    | Logout(token: Token)
    | RevokeAll(user: UserId)
    | Sweep(now: int)

  /** The lookup by token hash, expiry filtered in the query. */
  predicate Finds(t: Sessions, id: SessionId, token: Token, now: int) {
    id in t && t[id].token == token && Unexpired(t[id], now)
  }

  predicate Enabled(a: Auth, act: Action) {
    match act
    case Create(id, _, token, _) => id !in a.usedIds && token !in a.issued
    case Read(id, token, now) => Finds(a.sessions, id, token, now)
    case Write(x) => x in a.pending
    case WriteFails(x) => x in a.pending
    case _ => true
  }

  function DeleteByToken(t: Sessions, token: Token): Sessions {
    map id | id in t && t[id].token != token :: t[id]
  }

  function DeleteByUser(t: Sessions, user: UserId): Sessions {
    map id | id in t && t[id].user != user :: t[id]
  }

  function DeleteExpired(t: Sessions, now: int): Sessions {
    map id | id in t && t[id].expires > now :: t[id]
  }

  /** ExtendSession: no row is written when the session is gone. */
  function ExtendRow(t: Sessions, x: Extension, ttl: int): Sessions {
    if x.id in t then t[x.id := Extended(t[x.id], x.now, ttl)] else t
  }

  function Apply(a: Auth, act: Action): Auth
    requires Enabled(a, act)
  {
    match act
    case Create(id, user, token, now) =>
      a.(sessions := a.sessions[id := NewSession(user, token, now, a.ttl)],
         issued := a.issued + {token}, usedIds := a.usedIds + {id})
    case Read(id, _, now) =>
      var later := a.(requests := a.requests + 1);
      if DueForExtension(a.sessions[id], now)
      then later.(pending := a.pending + {Extension(a.requests, id, now)})
      else later
    case Write(x) => a.(sessions := ExtendRow(a.sessions, x, a.ttl), pending := a.pending - {x})
    case WriteFails(x) => a.(pending := a.pending - {x})
    case Logout(token) => a.(sessions := DeleteByToken(a.sessions, token))
    case RevokeAll(user) => a.(sessions := DeleteByUser(a.sessions, user))
    case Sweep(now) => a.(sessions := DeleteExpired(a.sessions, Millis(now)))
  }

  datatype Run = Start(ttl: int) | Then(before: Run, action: Action)

  function End(r: Run): Auth {
    match r
    case Start(ttl) => Auth(ttl, map[], {}, {}, 0, {})
    case Then(before, act) => if Enabled(End(before), act) then Apply(End(before), act) else End(before)
  }

  predicate IsRun(r: Run) {
    match r
    case Start(ttl) => 0 < ttl
    case Then(before, act) => IsRun(before) && Enabled(End(before), act)
  }

  ghost predicate Extends(later: Run, r: Run) {
    later == r || (later.Then? && Extends(later.before, r))
  }

  ghost predicate Gone(a: Auth, token: Token) {
    forall id | id in a.sessions :: a.sessions[id].token != token
  }

  /** Tokens in use were issued, once each, and extensions are of past requests. */
  ghost predicate AuthOk(a: Auth) {
    && (forall x | x in a.pending :: x.request < a.requests)
    && (forall id | id in a.sessions :: id in a.usedIds && a.sessions[id].token in a.issued)
    && (forall i, j | i in a.sessions && j in a.sessions && a.sessions[i].token == a.sessions[j].token :: i == j)
  }

  lemma {:induction false} RunsAreOk(r: Run)
    requires IsRun(r)
    ensures AuthOk(End(r))
  {
    if r.Then? {
      RunsAreOk(r.before);
    }
  }

  /** A session that is gone stays gone: no creation reuses its token, and an
      extension still in flight finds no row to write. */
  lemma {:induction false} GoneForGood(r: Run, later: Run, token: Token)
    requires IsRun(r) && IsRun(later) && Extends(later, r)
    requires token in End(r).issued && Gone(End(r), token)
    ensures token in End(later).issued && Gone(End(later), token)
  {
    if later != r {
      GoneForGood(r, later.before, token);
    }
  }

  /** Logging out, changing the password or a sweep ends a session for good:
      after it, in every continuation and at every instant, its token finds
      nothing, even if requests that had read the session earlier then write. */
  lemma DeletionIsFinal(before: Run, act: Action, later: Run, id: SessionId, found: SessionId, now: int)
    requires IsRun(Then(before, act)) && IsRun(later) && Extends(later, Then(before, act))
    requires act.Logout? || act.RevokeAll? || act.Sweep?
    requires id in End(before).sessions && id !in End(Then(before, act)).sessions
    ensures !Finds(End(later).sessions, found, End(before).sessions[id].token, now)
  {
    RunsAreOk(before);
    GoneForGood(Then(before, act), later, End(before).sessions[id].token);
  }

  /** What each of the three deletions takes from later requests: a logout its own
      token's session, a revocation the user's sessions, a sweep nothing at all. */
  lemma DeletionsAreExact(a: Auth, act: Action, id: SessionId, token: Token, at: int)
    requires act.Logout? || act.RevokeAll? || (act.Sweep? && act.now <= at)
    ensures Finds(Apply(a, act).sessions, id, token, at)
       <==> && Finds(a.sessions, id, token, at)
            && (act.Logout? ==> token != act.token)
            && (act.RevokeAll? ==> a.sessions[id].user != act.user)
  {
    if act.Sweep? {
      MillisMonotone(act.now, at);
    }
  }

  /** What a sweep deletes: exactly the sessions that have expired by its reading. */
  lemma SweepsAreExact(a: Auth, now: int, id: SessionId)
    ensures id in Apply(a, Sweep(now)).sessions <==> id in a.sessions && Unexpired(a.sessions[id], now)
    ensures id in Apply(a, Sweep(now)).sessions ==> Apply(a, Sweep(now)).sessions[id] == a.sessions[id]
  {
  }

  function ExpiredIds(t: Sessions, now: int): set<SessionId> {
    set id | id in t && !Unexpired(t[id], now)
  }

  /** The table while a sweep still has `rest` to look at. */
  ghost function Sweeping(t: Sessions, now: int, rest: set<SessionId>): Sessions {
    map id | id in t && (id in rest || Unexpired(t[id], now)) :: t[id]
  }

  lemma SweepingStarts(t: Sessions, now: int)
    ensures Sweeping(t, now, t.Keys) == t && ExpiredIds(t, now) - t.Keys == {}
  {
  }

  lemma SweepingStep(t: Sessions, now: int, rest: set<SessionId>, id: SessionId)
    requires id in rest && rest <= t.Keys
    ensures var part := Sweeping(t, now, rest);
            && id in part && part[id] == t[id]
            && Sweeping(t, now, rest - {id}) == (if Unexpired(t[id], now) then part else part - {id})
    ensures |ExpiredIds(t, now) - (rest - {id})|
         == |ExpiredIds(t, now) - rest| + (if Unexpired(t[id], now) then 0 else 1)
  {
    var one := if Unexpired(t[id], now) then {} else {id};
    assert ExpiredIds(t, now) - (rest - {id}) == ExpiredIds(t, now) - rest + one;
  }

  lemma SweepingEnds(t: Sessions, now: int)
    ensures Sweeping(t, now, {}) == DeleteExpired(t, Millis(now))
    ensures ExpiredIds(t, now) - {} == ExpiredIds(t, now)
    ensures forall id :: id in Sweeping(t, now, {}) <==> id in t && Unexpired(t[id], now)
  {
    assert forall id | id in t :: Unexpired(t[id], now) <==> t[id].expires > Millis(now);
    assert Sweeping(t, now, {}).Keys == DeleteExpired(t, Millis(now)).Keys;
  }

  /** Runs exist: a session can be created, used, extended and ended. */
  lemma SessionsComeAndGo(ttl: int, id: SessionId, user: UserId, token: Token, now: int)
    requires EXTEND_AFTER + MILLISECOND < ttl && ttl % MILLISECOND == 0
    ensures var at := now + EXTEND_AFTER + 1;
            var created := Then(Start(ttl), Create(id, user, token, now));
            var read := Then(created, Read(id, token, at));
            var written := Then(read, Write(Extension(0, id, at)));
            var ended := Then(written, Logout(token));
            && IsRun(ended) && id in End(created).sessions && Extension(0, id, at) in End(read).pending
            && id in End(written).sessions && End(written).sessions[id].lastSeen == Millis(at)
            && id !in End(ended).sessions
  {
    var at := now + EXTEND_AFTER + 1;
    var created := Then(Start(ttl), Create(id, user, token, now));
    assert End(created).sessions == map[id := NewSession(user, token, now, ttl)];
    MillisMonotone(at, now + ttl - MILLISECOND);
    assert Millis(now + ttl - MILLISECOND) == Millis(now + ttl) - 1;
    assert IsRun(created) && Finds(End(created).sessions, id, token, at);
    assert IsRun(Then(created, Read(id, token, at)));
  }

  // ----- the service -----

  /** The machine when nothing else is going on. */
  function Alone(t: Sessions, ttl: int): Auth {
    Auth(ttl, t, {}, {}, 0, {})
  }

  /** A request that reads a session and at once writes its extension, if one is due. */
  function Authenticated(a: Auth, id: SessionId, token: Token, now: int, writeSucceeds: bool): Auth
    requires Finds(a.sessions, id, token, now)
  {
    var read, x := Apply(a, Read(id, token, now)), Extension(a.requests, id, now);
    if x !in read.pending then read
    else if writeSucceeds then Apply(read, Write(x))
    else Apply(read, WriteFails(x))
  }

  /** Reading and then writing is one use of the session, leaves no extension behind,
      and does not depend on what other requests are up to. */
  lemma AuthenticatingIsOneUse(a: Auth, id: SessionId, token: Token, now: int, writeSucceeds: bool)
    requires AuthOk(a) && Finds(a.sessions, id, token, now)
    ensures var a' := Authenticated(a, id, token, now, writeSucceeds);
            && a'.sessions == Authenticated(Alone(a.sessions, a.ttl), id, token, now, writeSucceeds).sessions
            && a'.pending == a.pending
            && (writeSucceeds ==> Some(a'.sessions[id]) == Used(a.sessions[id], now, a.ttl))
            && (!writeSucceeds ==> a'.sessions == a.sessions)
  {
  }

  /** Nor do the service's other operations. */
  lemma OperationsIgnoreRequests(a: Auth, act: Action)
    requires Enabled(a, act) && (act.Create? || act.Logout? || act.RevokeAll? || act.Sweep?)
    requires act.Create? ==> act.id !in a.sessions
    ensures Enabled(Alone(a.sessions, a.ttl), act)
    ensures Apply(a, act).sessions == Apply(Alone(a.sessions, a.ttl), act).sessions
    ensures act.RevokeAll? ==> Apply(a, act).sessions == DeleteByUser(a.sessions, act.user)
  {
  }

  const MIN_PASSWORD_LENGTH := 10

  datatype ChangeError = WeakPassword | NoSession | InvalidCredentials | TransactionFailed

  class Service {
    const ttl: int
    var sessions: Sessions
    var hashes: map<UserId, string>

    constructor (ttl: int, hashes: map<UserId, string>)
      ensures this.ttl == ttl && sessions == map[] && this.hashes == hashes
    {
      this.ttl, sessions, this.hashes := ttl, map[], hashes;
    }

    method CreateSession(id: SessionId, user: UserId, token: Token, now: int)
      requires id !in sessions && forall other | other in sessions :: sessions[other].token != token
      modifies this`sessions
      ensures sessions == Apply(Alone(old(sessions), ttl), Create(id, user, token, now)).sessions
      ensures forall found, at :: Finds(sessions, found, token, at) <==> found == id && Millis(at) < Millis(now + ttl)
    {
      sessions := sessions[id := NewSession(user, token, now, ttl)];
    }

    /** Find the session behind a token; extend it when it has not been seen for a
        day. A failed extension does not fail the request. */
    method Authenticate(token: Token, now: int, writeSucceeds: bool)
      returns (found: Option<SessionId>, sess: Option<Session>)
      modifies this
      ensures found.None? <==> forall id | id in old(sessions) :: !Finds(old(sessions), id, token, now)
      ensures found.None? ==> sessions == old(sessions) && sess.None?
      ensures found.Some? ==>
                && Finds(old(sessions), found.value, token, now) && found.value in sessions
                && sess == (if writeSucceeds then Used(old(sessions)[found.value], now, ttl)
                            else Some(old(sessions)[found.value]))
                && sess == Some(sessions[found.value])
                && (var seen := old(sessions)[found.value];
                    var due := now - seen.lastSeen * 1_000_000 > 86_400_000_000_000;
                    sess == Some(if due && writeSucceeds
                                 then seen.(lastSeen := now / 1_000_000, expires := (now + ttl) / 1_000_000) else seen))
                && sessions
                   == Authenticated(Alone(old(sessions), ttl), found.value, token, now, writeSucceeds).sessions
    {
      found, sess := None, None;
      var rest := sessions.Keys;
      while rest != {}
        invariant sessions == old(sessions) && rest <= sessions.Keys
        invariant forall id | id in sessions && id !in rest :: !Finds(sessions, id, token, now)
        decreases |rest|
      {
        var id := Pick(rest);
        if Finds(sessions, id, token, now) {
          found, sess := Some(id), Some(sessions[id]);
          if DueForExtension(sessions[id], now) && writeSucceeds {
            sessions := ExtendRow(sessions, Extension(0, id, now), ttl);
            sess := Some(sessions[id]);
          }
          return;
        }
        rest := rest - {id};
      }
    }

    /** Afterwards the token finds nothing at any instant; nothing else changes. */
    method Logout(token: Token)
      modifies this`sessions
      ensures forall id, now :: !Finds(sessions, id, token, now)
      ensures forall id | id in old(sessions) && old(sessions)[id].token != token ::
                id in sessions && sessions[id] == old(sessions)[id]
      ensures forall id | id in sessions :: id in old(sessions) && old(sessions)[id].token != token
      ensures sessions == Apply(Alone(old(sessions), ttl), Action.Logout(token)).sessions
    {
      sessions := DeleteByToken(sessions, token);
    }

    /** Replace a user's password and end all the user's sessions, both or neither;
        afterwards the new password verifies. */
    method ChangePassword(kdf: Kdf, user: UserId, current: string, next: string, salt: Bytes, lanes: nat, commits: bool)
      returns (r: Result<(), ChangeError>)
      requires KdfLength(kdf) && |salt| == ARGON_SALT_LEN && 1 <= lanes <= 4
      modifies this
      ensures r.Ok? <==>
                && MIN_PASSWORD_LENGTH <= |next| && user in old(hashes)
                && (var v := VerifyPassword(kdf, old(hashes)[user], current); v.Ok? && v.value.ok)
                && commits
      ensures r.Err? ==> sessions == old(sessions) && hashes == old(hashes)
      ensures r == Err(WeakPassword) <==> |next| < 10
      ensures r == Err(NoSession) <==> 10 <= |next| && user !in old(hashes)
      ensures r == Err(TransactionFailed) ==> !commits
      ensures r.Ok? ==>
                && (forall id :: id in sessions <==> id in old(sessions) && old(sessions)[id].user != user)
                && (forall id | id in sessions :: sessions[id] == old(sessions)[id])
                && sessions == DeleteByUser(old(sessions), user)
                && hashes.Keys == old(hashes).Keys
                && (forall other | other in hashes && other != user :: hashes[other] == old(hashes)[other])
                && VerifyPassword(kdf, hashes[user], next) == Ok(Verdict(true, false))
    {
      if |next| < MIN_PASSWORD_LENGTH {
        return Err(WeakPassword);
      }
      if user !in hashes {
        return Err(NoSession);
      }
      var v := VerifyPassword(kdf, hashes[user], current);
      if v.Err? || !v.value.ok {
        return Err(InvalidCredentials);
      }
      var h := HashPassword(kdf, next, salt, lanes);
      FreshHashesVerify(kdf, next, next, salt, lanes);
      if !commits {
        return Err(TransactionFailed);
      }
      hashes := hashes[user := h.value];
      sessions := DeleteByUser(sessions, user);
      r := Ok(());
    }

    /** Delete sessions past their expiry, counting them. */
    method SweepExpired(now: int) returns (count: nat)
      modifies this
      ensures sessions == Apply(Alone(old(sessions), ttl), Sweep(now)).sessions
      ensures forall id :: id in sessions <==> id in old(sessions) && Unexpired(old(sessions)[id], now)
      ensures forall id | id in sessions :: sessions[id] == old(sessions)[id]
      ensures count == |ExpiredIds(old(sessions), now)|
    {
      ghost var before := sessions;
      count := 0;
      var rest := sessions.Keys;
      SweepingStarts(before, now);
      while rest != {}
        invariant rest <= before.Keys
        invariant sessions == Sweeping(before, now, rest)
        invariant count == |ExpiredIds(before, now) - rest|
        decreases |rest|
      {
        var id := Pick(rest);
        SweepingStep(before, now, rest, id);
        if !Unexpired(sessions[id], now) {
          sessions := sessions - {id};
          count := count + 1;
        }
        rest := rest - {id};
      }
      SweepingEnds(before, now);
    }
  }
}
