// Browser tabs that share one localStorage and refresh one session against a server that rotates tokens.
// Every localStorage access is its own step. Tokens are rotation indexes: the pair the server hands out n
// rotations after sign-in is (access n, refresh n).
module TokenTabs {
  import opened Wrappers

  type Tab = nat
  type Index = nat

  datatype Phase =
    | Idle
    | Asked(sent: Index)                            // the refresh request is on its way
    | Granted(next: Index)                          // the server rotated; nothing is stored yet
    | WroteAccess(next: Index)                      // halfway through setTokens
    | Raced(sent: Index, rounds: nat)               // answered REFRESH_RACE, polling
    | SawChange(sent: Index, seen: Option<Index>)   // the stored refresh token differs from the one sent
    | Took(sent: Index, seen: Option<Index>, token: Option<Index>)   // returned what the other tab stored
    | Returned(token: Option<Index>)

  // RACE_WAIT_MS / 100
  const MAX_ROUNDS := 50

  datatype State = State(
    access: Option<Index>,
    refresh: Option<Index>,
    current: Index,               // the refresh token the server will accept
    tabs: map<Tab, Phase>,
    clearing: set<Tab>)           // tabs halfway through clearSession

  datatype Step =
    | Begin(tab: Tab)
    | Answer(tab: Tab)
    | Lose(tab: Tab)
    | StoreAccess(tab: Tab)
    | StoreRefresh(tab: Tab)
    | Poll(tab: Tab)
    | Take(tab: Tab)
    | Finish(tab: Tab)
    | ClearAccess(tab: Tab)
    | ClearRefresh(tab: Tab)

  function PhaseOf(s: State, t: Tab): Phase {
    if t in s.tabs then s.tabs[t] else Idle
  }

  function At(s: State, t: Tab, p: Phase): State {
    s.(tabs := s.tabs[t := p])
  }

  // The server: the current refresh token rotates, the one just replaced is a race, anything else is refused.
  function Served(s: State, t: Tab, sent: Index): State {
    if sent == s.current then At(s, t, Granted(s.current + 1)).(current := s.current + 1)
    else if sent + 1 == s.current then At(s, t, Raced(sent, 0))
    else At(s, t, Returned(None))
  }

  function Next(s: State, step: Step): State {
    var p := PhaseOf(s, step.tab);
    match step
    case Begin(t) =>
      if !p.Idle? then s
      else if s.refresh.None? then At(s, t, Returned(None)) else At(s, t, Asked(s.refresh.value))
    case Answer(t) => if p.Asked? then Served(s, t, p.sent) else s
    case Lose(t) => if p.Asked? || p.Granted? then At(s, t, Idle) else s
    case StoreAccess(t) => if p.Granted? then At(s, t, WroteAccess(p.next)).(access := Some(p.next)) else s
    case StoreRefresh(t) =>
      if p.WroteAccess? then At(s, t, Returned(Some(p.next))).(refresh := Some(p.next)) else s
    case Poll(t) =>
      if !p.Raced? then s
      else if p.rounds >= MAX_ROUNDS then At(s, t, Returned(None))
      else if s.refresh != Some(p.sent) then At(s, t, SawChange(p.sent, s.refresh))
      else At(s, t, Raced(p.sent, p.rounds + 1))
    case Take(t) => if p.SawChange? then At(s, t, Took(p.sent, p.seen, s.access)) else s
    case Finish(t) => if p.Took? || p.Returned? then At(s, t, Idle) else s
    case ClearAccess(t) => s.(access := None, clearing := s.clearing + {t})
    case ClearRefresh(t) => if t in s.clearing then s.(refresh := None, clearing := s.clearing - {t}) else s
  }

  function Run(s: State, steps: seq<Step>): State
    decreases |steps|
  {
    if steps == [] then s else Run(Next(s, steps[0]), steps[1..])
  }

  // Signed in: one stored pair, which the server will accept.
  predicate SignedIn(s: State) {
    s.access == Some(s.current) && s.refresh == Some(s.current) && s.tabs == map[] && s.clearing == {}
  }

  predicate Holds(p: Phase) {
    p.Granted? || p.WroteAccess?
  }

  // The stored access token is at least as new a rotation as the stored refresh token, or removed.
  predicate Ordered(s: State) {
    s.access.Some? && s.refresh.Some? ==> s.access.value >= s.refresh.value
  }

  predicate PhaseOk(s: State, p: Phase) {
    match p
    case Asked(r) => r <= s.current && (s.refresh.Some? ==> r <= s.refresh.value)
    case Granted(k) => k == s.current
    case WroteAccess(k) => k == s.current && (s.access.None? || s.access.value == k)
    case Raced(r, _) => r < s.current && (s.refresh.Some? ==> r <= s.refresh.value)
    case SawChange(r, seen) =>
      r < s.current
      && (seen.Some? ==> r < seen.value <= s.current && (s.access.Some? ==> s.access.value >= seen.value))
    case Took(r, seen, token) => r < s.current && (seen.Some? && token.Some? ==> r < token.value)
    case _ => true
  }

  // While one tab holds the newest pair unstored, no other does, and nobody else has seen it.
  ghost predicate SoleHolder(s: State) {
    forall t <- s.tabs :: Holds(s.tabs[t]) ==>
      && (s.refresh.Some? ==> s.refresh.value < s.current)
      && (forall u <- s.tabs :: u != t ==> !Holds(s.tabs[u]) && (s.tabs[u].Asked? ==> s.tabs[u].sent < s.current))
  }

  ghost predicate Invariant(s: State) {
    && Ordered(s)
    && (s.access.Some? ==> s.access.value <= s.current)
    && (s.refresh.Some? ==> s.refresh.value <= s.current)
    && (forall t <- s.tabs :: PhaseOk(s, s.tabs[t]))
    && SoleHolder(s)
  }

  lemma PhaseKeepsInvariant(s: State, t: Tab, p: Phase)
    requires Invariant(s) && PhaseOk(s, p) && !Holds(p)
    requires p.Asked? ==> s.refresh == Some(p.sent)
    ensures Invariant(At(s, t, p))
  {
  }

  lemma GrantKeepsInvariant(s: State, t: Tab)
    requires Invariant(s) && PhaseOf(s, t) == Asked(s.current)
    ensures Invariant(Served(s, t, s.current))
  {
    assert forall u <- s.tabs :: !Holds(s.tabs[u]) by { assert s.tabs[t].Asked? && s.tabs[t].sent == s.current; }
  }

  lemma AnswerKeepsInvariant(s: State, t: Tab)
    requires Invariant(s) && PhaseOf(s, t).Asked?
    ensures Invariant(Served(s, t, PhaseOf(s, t).sent))
  {
    var sent := PhaseOf(s, t).sent;
    assert PhaseOk(s, s.tabs[t]);
    hide Invariant;
    if sent == s.current {
      GrantKeepsInvariant(s, t);
    } else {
      PhaseKeepsInvariant(s, t, if sent + 1 == s.current then Raced(sent, 0) else Returned(None));
    }
  }

  lemma StoreAccessKeepsInvariant(s: State, t: Tab)
    requires Invariant(s)
    ensures Invariant(Next(s, StoreAccess(t)))
  {
  }

  lemma StoreRefreshKeepsInvariant(s: State, t: Tab)
    requires Invariant(s)
    ensures Invariant(Next(s, StoreRefresh(t)))
  {
  }

  lemma ClearKeepsInvariant(s: State, step: Step)
    requires Invariant(s) && (step.ClearAccess? || step.ClearRefresh?)
    ensures Invariant(Next(s, step))
  {
  }

  lemma NextKeepsInvariant(s: State, step: Step)
    requires Invariant(s)
    ensures Invariant(Next(s, step))
  {
    match step
    case Answer(t) => if PhaseOf(s, t).Asked? { AnswerKeepsInvariant(s, t); }
    case StoreAccess(t) => StoreAccessKeepsInvariant(s, t);
    case StoreRefresh(t) => StoreRefreshKeepsInvariant(s, t);
    case ClearAccess(_) | ClearRefresh(_) => ClearKeepsInvariant(s, step);
    case Begin(_) | Lose(_) | Poll(_) | Take(_) | Finish(_) =>
      if Next(s, step) != s { PhaseKeepsInvariant(s, step.tab, Next(s, step).tabs[step.tab]); }
  }

  lemma {:induction false} RunKeepsInvariant(s: State, steps: seq<Step>)
    requires Invariant(s)
    ensures Invariant(Run(s, steps))
    decreases |steps|
  {
    if steps != [] {
      NextKeepsInvariant(s, steps[0]);
      RunKeepsInvariant(Next(s, steps[0]), steps[1..]);
    }
  }

  // In every interleaving the stored tokens stay in order, at most one tab holds an unstored pair, and a tab
  // that lost the race and saw another refresh token stored returns an access token newer than the refresh
  // token it sent.
  lemma TokensStayOrdered(s: State, steps: seq<Step>, t: Tab)
    requires SignedIn(s)
    ensures var end := Run(s, steps);
      && Ordered(end)
      && (forall u <- end.tabs, v <- end.tabs :: Holds(end.tabs[u]) && Holds(end.tabs[v]) ==> u == v)
      && (PhaseOf(end, t).Took? && PhaseOf(end, t).seen.Some? && PhaseOf(end, t).token.Some? ==>
            PhaseOf(end, t).token.value > PhaseOf(end, t).sent)
  {
    RunKeepsInvariant(s, steps);
  }

  // A tab that saw the refresh token removed is safe too, as long as no access token is stored inside a
  // clearSession; all else may happen there, other clears included.

  predicate Stores(s: State, step: Step) {
    step.StoreAccess? && PhaseOf(s, step.tab).Granted?
  }

  predicate NoStoreInsideClear(s: State, steps: seq<Step>)
    decreases |steps|
  {
    steps != [] ==> !(s.clearing != {} && Stores(s, steps[0])) && NoStoreInsideClear(Next(s, steps[0]), steps[1..])
  }

  ghost predicate RemovedTogether(s: State) {
    && (s.refresh.None? && s.access.Some? ==> exists t <- s.tabs :: s.tabs[t] == WroteAccess(s.access.value))
    && (s.clearing != {} ==> s.access.None?)
    && (forall t <- s.tabs ::
          && (s.tabs[t].SawChange? && s.access.Some? ==> s.tabs[t].sent < s.access.value)
          && (s.tabs[t].Took? && s.tabs[t].token.Some? ==> s.tabs[t].sent < s.tabs[t].token.value))
  }

  lemma PhaseKeepsRemoved(s: State, t: Tab, p: Phase)
    requires RemovedTogether(s) && !PhaseOf(s, t).WroteAccess?
    requires p.SawChange? && s.access.Some? ==> p.sent < s.access.value
    requires p.Took? && p.token.Some? ==> p.sent < p.token.value
    ensures RemovedTogether(At(s, t, p))
  {
    if s.refresh.None? && s.access.Some? {
      var u :| u in s.tabs && s.tabs[u] == WroteAccess(s.access.value);
      assert At(s, t, p).tabs[u] == s.tabs[u];
    }
  }

  lemma NextKeepsRemoved(s: State, step: Step)
    requires Invariant(s) && RemovedTogether(s) && !(s.clearing != {} && Stores(s, step))
    ensures RemovedTogether(Next(s, step))
  {
    var p := PhaseOf(s, step.tab);
    match step
    case Answer(t) =>
      if p.Asked? {
        var s' := Served(s, t, p.sent);
        PhaseKeepsRemoved(s, t, s'.tabs[t]);
        assert RemovedTogether(At(s, t, s'.tabs[t]).(current := s'.current));
      }
    case StoreAccess(t) => if p.Granted? { assert Next(s, step).tabs[t] == WroteAccess(p.next); }
    case StoreRefresh(_) | ClearAccess(_) | ClearRefresh(_) =>
    case Begin(_) | Lose(_) | Take(_) | Finish(_) =>
      if Next(s, step) != s { PhaseKeepsRemoved(s, step.tab, Next(s, step).tabs[step.tab]); }
    case Poll(t) =>
      if p.Raced? {
        if s.refresh.None? && s.access.Some? {
          var u :| u in s.tabs && s.tabs[u] == WroteAccess(s.access.value);
          assert s.access.value == s.current > p.sent;
        }
        PhaseKeepsRemoved(s, t, Next(s, step).tabs[t]);
      }
  }

  lemma {:induction false} RunKeepsRemoved(s: State, steps: seq<Step>)
    requires Invariant(s) && RemovedTogether(s) && NoStoreInsideClear(s, steps)
    ensures RemovedTogether(Run(s, steps))
    decreases |steps|
  {
    if steps != [] {
      NextKeepsInvariant(s, steps[0]);
      NextKeepsRemoved(s, steps[0]);
      RunKeepsRemoved(Next(s, steps[0]), steps[1..]);
    }
  }

  lemma RacedTabNeverReturnsStale(s: State, steps: seq<Step>, t: Tab)
    requires SignedIn(s) && NoStoreInsideClear(s, steps)
    requires PhaseOf(Run(s, steps), t).Took? && PhaseOf(Run(s, steps), t).token.Some?
    ensures PhaseOf(Run(s, steps), t).token.value > PhaseOf(Run(s, steps), t).sent
  {
    RunKeepsRemoved(s, steps);
  }

  // The exact form, from any reachable state: a racing tab may yet return a stale token exactly when one is
  // stored and its refresh token is gone, or about to go in a clearSession under way.

  predicate TookStale(s: State, t: Tab, sent: Index) {
    var p := PhaseOf(s, t);
    p.Took? && p.sent == sent && p.token.Some? && p.token.value <= sent
  }

  predicate StaleLeft(s: State, sent: Index) {
    s.access.Some? && s.access.value <= sent && (s.refresh.None? || s.clearing != {})
  }

  predicate SafeFrom(s: State, t: Tab, sent: Index) {
    && sent < s.current
    && (s.access.Some? && s.access.value <= sent ==>
          s.refresh.Some? && s.clearing == {} && !(PhaseOf(s, t).SawChange? && PhaseOf(s, t).sent == sent))
    && !TookStale(s, t, sent)
  }

  lemma NextKeepsSafe(s: State, step: Step, t: Tab, sent: Index)
    requires Invariant(s) && SafeFrom(s, t, sent)
    ensures SafeFrom(Next(s, step), t, sent)
  {
  }

  lemma {:induction false} RunKeepsSafe(s: State, steps: seq<Step>, t: Tab, sent: Index)
    requires Invariant(s) && SafeFrom(s, t, sent)
    ensures SafeFrom(Run(s, steps), t, sent)
    decreases |steps|
  {
    if steps != [] {
      NextKeepsInvariant(s, steps[0]);
      NextKeepsSafe(s, steps[0], t, sent);
      RunKeepsSafe(Next(s, steps[0]), steps[1..], t, sent);
    }
  }

  lemma RacedTabMayReturnStaleIff(s: State, t: Tab, sent: Index, rounds: nat)
    requires Invariant(s) && PhaseOf(s, t) == Raced(sent, rounds) && rounds < MAX_ROUNDS
    ensures (exists steps :: TookStale(Run(s, steps), t, sent)) <==> StaleLeft(s, sent)
  {
    if StaleLeft(s, sent) {
      StaleLeftIsTaken(s, t, sent, rounds);
    } else {
      forall steps ensures !TookStale(Run(s, steps), t, sent) { RunKeepsSafe(s, steps, t, sent); }
    }
  }

  lemma StaleLeftIsTaken(s: State, t: Tab, sent: Index, rounds: nat)
    requires Invariant(s) && PhaseOf(s, t) == Raced(sent, rounds) && rounds < MAX_ROUNDS && StaleLeft(s, sent)
    ensures exists steps :: TookStale(Run(s, steps), t, sent)
  {
    if s.refresh.None? {
      RunTwo(s, Poll(t), Take(t));
      assert TookStale(Run(s, [Poll(t), Take(t)]), t, sent);
    } else {
      var u :| u in s.clearing;
      RunThree(s, ClearRefresh(u), Poll(t), Take(t), []);
      assert TookStale(Run(s, [ClearRefresh(u), Poll(t), Take(t)] + []), t, sent);
    }
  }

  lemma RunTwo(s: State, a: Step, b: Step)
    ensures Run(s, [a, b]) == Next(Next(s, a), b)
  {
    assert [a, b][1..] == [b] && [b][1..] == [];
    assert Run(Next(s, a), [b]) == Run(Next(Next(s, a), b), []);
  }

  // When a clear leaves an access token behind with neither its refresh token nor a tab about to store one:
  // exactly when some tab stored a pair, both halves, since the access token was last removed.

  predicate Orphaned(s: State) {
    s.refresh.None? && s.access.Some? && forall t <- s.tabs :: s.tabs[t] != WroteAccess(s.access.value)
  }

  // The tab that last stored an access token no later step removed.
  function LastStore(s: State, steps: seq<Step>, last: Option<Tab>): Option<Tab>
    decreases |steps|
  {
    if steps == [] then last
    else
      var e := steps[0];
      LastStore(Next(s, e), steps[1..], if e.ClearAccess? then None else if Stores(s, e) then Some(e.tab) else last)
  }

  ghost predicate StoredBy(s: State, last: Option<Tab>) {
    && (s.access.Some? <==> last.Some?)
    && (last.Some? ==> forall t <- s.tabs :: s.tabs[t].WroteAccess? ==> t == last.value)
  }

  lemma {:induction false} LastStoreIs(s: State, steps: seq<Step>, last: Option<Tab>)
    requires Invariant(s) && StoredBy(s, last)
    ensures StoredBy(Run(s, steps), LastStore(s, steps, last)) && Invariant(Run(s, steps))
    decreases |steps|
  {
    if steps != [] {
      var e := steps[0];
      NextKeepsInvariant(s, e);
      LastStoreIs(Next(s, e), steps[1..], if e.ClearAccess? then None else if Stores(s, e) then Some(e.tab) else last);
    }
  }

  lemma ClearOrphansIff(s: State, steps: seq<Step>, t: Tab)
    requires Invariant(s) && s.access.None? && t in Run(s, steps).clearing
    ensures var last := LastStore(s, steps, None);
      Orphaned(Next(Run(s, steps), ClearRefresh(t))) <==>
        last.Some? && !PhaseOf(Run(s, steps), last.value).WroteAccess?
  {
    LastStoreIs(s, steps, None);
    var before, last := Run(s, steps), LastStore(s, steps, None);
    if last.Some? && PhaseOf(before, last.value).WroteAccess? {
      assert PhaseOk(before, before.tabs[last.value]);
      assert before.tabs[last.value] == WroteAccess(before.access.value);
    }
  }

  // A client wipes only while the stored token is the one refused. If no tab stores between that look and the
  // removals, what they remove is that pair or an older one.

  predicate NoStores(s: State, steps: seq<Step>)
    decreases |steps|
  {
    steps != [] ==> !Stores(s, steps[0]) && NoStores(Next(s, steps[0]), steps[1..])
  }

  ghost predicate NoneNewer(s: State, seen: Index) {
    && (s.access.Some? ==> s.access.value == seen)
    && (s.refresh.Some? ==> s.refresh.value <= seen)
    && (forall t <- s.tabs :: s.tabs[t].WroteAccess? ==> s.tabs[t].next == seen)
  }

  lemma NextKeepsNoneNewer(s: State, step: Step, seen: Index)
    requires NoneNewer(s, seen) && !Stores(s, step)
    ensures NoneNewer(Next(s, step), seen)
  {
  }

  lemma {:induction false} RunKeepsNoneNewer(s: State, steps: seq<Step>, seen: Index)
    requires NoneNewer(s, seen) && NoStores(s, steps)
    ensures NoneNewer(Run(s, steps), seen)
    decreases |steps|
  {
    if steps != [] {
      NextKeepsNoneNewer(s, steps[0], seen);
      RunKeepsNoneNewer(Next(s, steps[0]), steps[1..], seen);
    }
  }

  lemma WipeRemovesNothingNewer(s: State, steps: seq<Step>, seen: Index)
    requires Invariant(s) && s.access == Some(seen) && NoStores(s, steps)
    ensures var end := Run(s, steps);
      (end.access.Some? ==> end.access.value == seen) && (end.refresh.Some? ==> end.refresh.value <= seen)
  {
    assert NoneNewer(s, seen);
    RunKeepsNoneNewer(s, steps, seen);
  }

  // A tab is halfway through clearing exactly when that is the last it did of the two.
  function Halfway(steps: seq<Step>, t: Tab, before: bool): bool {
    if steps == [] then before
    else
      var e := steps[0];
      Halfway(steps[1..], t, if e == ClearAccess(t) then true else if e == ClearRefresh(t) then false else before)
  }

  lemma {:induction false} HalfwayIff(s: State, steps: seq<Step>, t: Tab)
    ensures t in Run(s, steps).clearing <==> Halfway(steps, t, t in s.clearing)
    decreases |steps|
  {
    if steps != [] { HalfwayIff(Next(s, steps[0]), steps[1..], t); }
  }

  // A tab that polls while nothing changes does so fifty times, then returns nothing.
  function Polls(t: Tab, n: nat): seq<Step> {
    if n == 0 then [] else [Poll(t)] + Polls(t, n - 1)
  }

  lemma {:induction false} PollingEnds(s: State, t: Tab, sent: Index, rounds: nat, n: nat)
    requires PhaseOf(s, t) == Raced(sent, rounds) && s.refresh == Some(sent) && rounds + n <= 51
    ensures PhaseOf(Run(s, Polls(t, n)), t) == if rounds + n == 51 && n > 0 then Returned(None) else Raced(sent, rounds + n)
    decreases n
  {
    if n > 0 {
      var rest := Polls(t, n - 1);
      assert ([Poll(t)] + rest)[1..] == rest;
      assert Run(s, Polls(t, n)) == Run(Next(s, Poll(t)), rest);
      if rounds < 50 { PollingEnds(Next(s, Poll(t)), t, sent, rounds + 1, n - 1); }
    }
  }

  // No tab holds the newest pair, and whatever is stored or on its way is older.
  ghost predicate Stranded(s: State) {
    && (s.refresh.Some? ==> s.refresh.value < s.current)
    && forall t <- s.tabs :: !Holds(s.tabs[t]) && (s.tabs[t].Asked? ==> s.tabs[t].sent < s.current)
  }

  lemma {:induction false} StrandedForGood(s: State, steps: seq<Step>)
    requires Stranded(s)
    ensures Stranded(Run(s, steps)) && Run(s, steps).current == s.current
    decreases |steps|
  {
    if steps != [] { StrandedForGood(Next(s, steps[0]), steps[1..]); }
  }

  // A tab that goes away after the server rotated and before it stores takes the session along: whatever the tabs do
  // then, none is granted a pair again.
  lemma LostGrantStrands(s: State, t: Tab, steps: seq<Step>)
    requires Invariant(s) && PhaseOf(s, t).Granted?
    ensures var end := Run(Next(s, Lose(t)), steps);
      && Stranded(end) && end.current == s.current
      && PhaseOf(Next(s, Lose(t)), t).Idle?
  {
    assert t in s.tabs && Holds(s.tabs[t]);
    StrandedForGood(Next(s, Lose(t)), steps);
  }

  // A tab that has returned may begin again, whatever it returned.
  lemma ReturnedBeginsAgain(s: State, t: Tab)
    requires PhaseOf(s, t).Took? || PhaseOf(s, t).Returned?
    ensures var p := PhaseOf(Next(Next(s, Finish(t)), Begin(t)), t);
      p == if s.refresh.Some? then Asked(s.refresh.value) else Returned(None)
  {
  }

  // Why the condition is there: a full refresh by tabs 1 and 2 inside the clearSession of tab 0 lets tab 3
  // return the very access token whose refresh token raced.
  function DisturbedSteps(): seq<Step> {
    [Begin(1), Answer(1), ClearAccess(0), StoreAccess(1), StoreRefresh(1),
     Begin(2), Begin(3), Answer(2), Answer(3), ClearRefresh(0), Poll(3), Take(3)]
  }

  lemma RunThree(s: State, a: Step, b: Step, c: Step, rest: seq<Step>)
    ensures Run(s, [a, b, c] + rest) == Run(Next(Next(Next(s, a), b), c), rest)
  {
    assert ([a, b, c] + rest)[1..] == [b, c] + rest && ([b, c] + rest)[1..] == [c] + rest && ([c] + rest)[1..] == rest;
    assert Run(s, [a, b, c] + rest) == Run(Next(s, a), [b, c] + rest);
    assert Run(Next(s, a), [b, c] + rest) == Run(Next(Next(s, a), b), [c] + rest);
  }

  lemma DisturbedClearReturnsStale()
    ensures var end := Run(State(Some(0), Some(0), 0, map[], {}), DisturbedSteps());
      PhaseOf(end, 3) == Took(1, None, Some(1))
  {
    hide Next;
    var s0 := State(Some(0), Some(0), 0, map[], {});
    var s3 := DisturbedStart();
    var s6 := DisturbedMiddle();
    DisturbedEnd(s6);
    var rest := [Begin(3), Answer(2), Answer(3), ClearRefresh(0), Poll(3), Take(3)];
    RunThree(s3, StoreAccess(1), StoreRefresh(1), Begin(2), rest);
    RunThree(s0, Begin(1), Answer(1), ClearAccess(0), [StoreAccess(1), StoreRefresh(1), Begin(2)] + rest);
    assert DisturbedSteps() == [Begin(1), Answer(1), ClearAccess(0)] + ([StoreAccess(1), StoreRefresh(1), Begin(2)] + rest);
  }

  lemma DisturbedStart() returns (s3: State)
    ensures s3 == State(None, Some(0), 1, map[1 := Granted(1)], {0})
    ensures s3 == Next(Next(Next(State(Some(0), Some(0), 0, map[], {}), Begin(1)), Answer(1)), ClearAccess(0))
  {
    s3 := Next(Next(Next(State(Some(0), Some(0), 0, map[], {}), Begin(1)), Answer(1)), ClearAccess(0));
    assert s3.tabs == map[1 := Granted(1)];
  }

  lemma DisturbedMiddle() returns (s6: State)
    ensures s6 == State(Some(1), Some(1), 1, map[1 := Returned(Some(1)), 2 := Asked(1)], {0})
    ensures s6 == Next(Next(Next(State(None, Some(0), 1, map[1 := Granted(1)], {0}), StoreAccess(1)), StoreRefresh(1)), Begin(2))
  {
    s6 := Next(Next(Next(State(None, Some(0), 1, map[1 := Granted(1)], {0}), StoreAccess(1)), StoreRefresh(1)), Begin(2));
    assert s6.tabs == map[1 := Returned(Some(1)), 2 := Asked(1)];
  }

  lemma DisturbedEnd(s: State)
    requires s == State(Some(1), Some(1), 1, map[1 := Returned(Some(1)), 2 := Asked(1)], {0})
    ensures PhaseOf(Run(s, [Begin(3), Answer(2), Answer(3), ClearRefresh(0), Poll(3), Take(3)]), 3)
            == Took(1, None, Some(1))
  {
    var s' := Next(Next(Next(s, Begin(3)), Answer(2)), Answer(3));
    assert s' == State(Some(1), Some(1), 2, map[1 := Returned(Some(1)), 2 := Granted(2), 3 := Raced(1, 0)], {0});
    var t := Next(Next(Next(s', ClearRefresh(0)), Poll(3)), Take(3));
    assert PhaseOf(t, 3) == Took(1, None, Some(1));
    hide Next;
    RunThree(s, Begin(3), Answer(2), Answer(3), [ClearRefresh(0), Poll(3), Take(3)]);
    RunThree(s', ClearRefresh(0), Poll(3), Take(3), []);
    assert [ClearRefresh(0), Poll(3), Take(3)] == [ClearRefresh(0), Poll(3), Take(3)] + [];
    assert [Begin(3), Answer(2), Answer(3)] + [ClearRefresh(0), Poll(3), Take(3)]
        == [Begin(3), Answer(2), Answer(3), ClearRefresh(0), Poll(3), Take(3)];
  }
}
