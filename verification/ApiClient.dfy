// The shared web client: one refresh in flight per client, requests retried once, sessions wiped with care.
// Each method is one stretch of code between two awaits.
module ApiClient {
  import opened Wrappers

  const RACE_WAIT_MS := 5000
  const RACE_POLL_MS := 100

  // What refreshSession resolves to; an absent or empty token is NoToken.
  datatype Outcome = Token(value: string) | NoToken | Threw

  datatype Refresh =
    | Asking(sent: string)
    | Racing(sent: string, waited: nat)
    | Settled(result: Outcome)

  datatype Reply = Granted(token: string, refreshToken: string) | Race | RefreshRefused | NetworkError

  datatype Call =
    | InFlight(token: Option<string>, retry: bool)
    | Waiting(failed: string, refresh: nat)     // failed: the token that got the 401
    | Finished(status: int)

  datatype Client = Client(
    token: Option<string>,          // localStorage, shared with other tabs
    refreshToken: Option<string>,
    slot: Option<nat>,              // refreshInFlight
    refreshes: seq<Refresh>,        // every refresh ever started by this client
    calls: map<nat, Call>,
    issued: map<nat, nat>)          // how often each request went out

  function Stored(t: Option<string>): Outcome {
    if t.Some? && t.value != "" then Token(t.value) else NoToken
  }

  function Issue(c: Client, id: nat, retry: bool): Client {
    c.(calls := c.calls[id := InFlight(c.token, retry)],
       issued := c.issued[id := (if id in c.issued then c.issued[id] else 0) + 1])
  }

  // refreshSession: join the refresh in flight or start one.
  function Join(c: Client): (Client, nat) {
    if c.slot.Some? then (c, c.slot.value)
    else
      var started := match Stored(c.refreshToken)
        case Token(r) => Asking(r)
        case _ => Settled(NoToken);
      (c.(slot := Some(|c.refreshes|), refreshes := c.refreshes + [started]), |c.refreshes|)
  }

  function Respond(c: Client, id: nat, status: int): Client {
    if id !in c.calls || !c.calls[id].InFlight? then c
    else
      var call := c.calls[id];
      if status == 401 && Stored(call.token).Token? && !call.retry then
        var (c', p) := Join(c);
        c'.(calls := c'.calls[id := Waiting(call.token.value, p)])
      else c.(calls := c.calls[id := Finished(status)])
  }

  function WithRefresh(c: Client, p: nat, r: Refresh): Client
    requires p < |c.refreshes|
  {
    c.(refreshes := c.refreshes[p := r])
  }

  function Answered(c: Client, p: nat, reply: Reply): Client {
    if p >= |c.refreshes| || !c.refreshes[p].Asking? then c
    else match reply
      case Granted(t, r) => WithRefresh(c, p, Settled(Stored(Some(t)))).(token := Some(t), refreshToken := Some(r))
      case Race => WithRefresh(c, p, Racing(c.refreshes[p].sent, 0))
      case RefreshRefused => WithRefresh(c, p, Settled(NoToken))
      case NetworkError => WithRefresh(c, p, Settled(Threw))
  }

  function Ticked(c: Client, p: nat): Client {
    if p >= |c.refreshes| || !c.refreshes[p].Racing? then c
    else
      var Racing(sent, waited) := c.refreshes[p];
      if waited >= RACE_WAIT_MS then WithRefresh(c, p, Settled(NoToken))
      else if c.refreshToken != Some(sent) then WithRefresh(c, p, Settled(Stored(c.token)))
      else WithRefresh(c, p, Racing(sent, waited + RACE_POLL_MS))
  }

  // The finally handler: the slot empties before anyone who waited goes on.
  function Emptied(c: Client): Client {
    if c.slot.Some? && c.slot.value < |c.refreshes| && c.refreshes[c.slot.value].Settled? then c.(slot := None) else c
  }

  predicate CanResume(c: Client, id: nat) {
    && id in c.calls && c.calls[id].Waiting?
    && c.calls[id].refresh < |c.refreshes| && c.refreshes[c.calls[id].refresh].Settled?
    && c.slot != Some(c.calls[id].refresh)
  }

  function Resumed(c: Client, id: nat): Client {
    if !CanResume(c, id) then c
    else match c.refreshes[c.calls[id].refresh].result
      case Threw => c.(calls := c.calls[id := Finished(401)])
      case Token(_) => Issue(c, id, true)
      case NoToken =>
        var done := c.(calls := c.calls[id := Finished(401)]);
        if c.token == Some(c.calls[id].failed) then done.(token := None, refreshToken := None) else done
  }

  datatype Event =
    | Fetch(id: nat)
    | Response(id: nat, status: int)
    | Arrives(refresh: nat, reply: Reply)
    | Tick(refresh: nat)
    | Finally
    | Resume(id: nat)
    | Logout
    | OtherTab(token: Option<string>, refreshToken: Option<string>)

  function Next(c: Client, e: Event): Client {
    match e
    case Fetch(id) => if id in c.calls then c else Issue(c, id, false)
    case Response(id, status) => Respond(c, id, status)
    case Arrives(p, reply) => Answered(c, p, reply)
    case Tick(p) => Ticked(c, p)
    case Finally => Emptied(c)
    case Resume(id) => Resumed(c, id)
    case Logout => c.(token := None, refreshToken := None)
    case OtherTab(t, r) => c.(token := t, refreshToken := r)
  }

  // The client as the object the program builds.
  class Session {
    var token: Option<string>
    var refreshToken: Option<string>
    var slot: Option<nat>
    var refreshes: seq<Refresh>
    var calls: map<nat, Call>
    var issued: map<nat, nat>

    function Contents(): Client
      reads this
    {
      Client(token, refreshToken, slot, refreshes, calls, issued)
    }

    constructor (storedToken: Option<string>, storedRefresh: Option<string>)
      ensures Contents() == Client(storedToken, storedRefresh, None, [], map[], map[])
    {
      token, refreshToken, slot, refreshes, calls, issued := storedToken, storedRefresh, None, [], map[], map[];
    }

    method SetTokens(t: string, r: string)
      modifies this`token, this`refreshToken
      ensures token == Some(t) && refreshToken == Some(r)
    {
      token := Some(t);
      refreshToken := Some(r);
    }

    method ClearSession()
      modifies this`token, this`refreshToken
      ensures token == None && refreshToken == None
    {
      token := None;
      refreshToken := None;
    }

    method ApiFetch(id: nat, retry: bool)
      modifies this`calls, this`issued
      ensures Contents() == Issue(old(Contents()), id, retry)
    {
      calls := calls[id := InFlight(token, retry)];
      issued := issued[id := (if id in issued then issued[id] else 0) + 1];
    }

    method RefreshSession() returns (p: nat)
      modifies this`slot, this`refreshes
      ensures (Contents(), p) == Join(old(Contents()))
    {
      if slot.None? {
        slot := Some(|refreshes|);
        if refreshToken.None? || refreshToken.value == "" {
          refreshes := refreshes + [Settled(NoToken)];
        } else {
          refreshes := refreshes + [Asking(refreshToken.value)];
        }
      }
      p := slot.value;
    }

    method OnResponse(id: nat, status: int)
      requires id in calls && calls[id].InFlight?
      modifies this`slot, this`refreshes, this`calls
      ensures Contents() == Respond(old(Contents()), id, status)
    {
      var call := calls[id];
      if status == 401 && call.token.Some? && call.token.value != "" && !call.retry {
        var p := RefreshSession();
        calls := calls[id := Waiting(call.token.value, p)];
      } else {
        calls := calls[id := Finished(status)];
      }
    }

    method OnReply(p: nat, reply: Reply)
      requires p < |refreshes| && refreshes[p].Asking?
      modifies this`token, this`refreshToken, this`refreshes
      ensures Contents() == Answered(old(Contents()), p, reply)
    {
      match reply {
        case Granted(t, r) =>
          SetTokens(t, r);
          refreshes := refreshes[p := Settled(Stored(Some(t)))];
        case Race => refreshes := refreshes[p := Racing(refreshes[p].sent, 0)];
        case RefreshRefused => refreshes := refreshes[p := Settled(NoToken)];
        case NetworkError => refreshes := refreshes[p := Settled(Threw)];
      }
    }

    method OnResume(id: nat)
      requires CanResume(Contents(), id)
      modifies this
      ensures Contents() == Resumed(old(Contents()), id)
    {
      var call := calls[id];
      match refreshes[call.refresh].result {
        case Threw => calls := calls[id := Finished(401)];
        case Token(_) => ApiFetch(id, true);
        case NoToken =>
          if token == Some(call.failed) { ClearSession(); }
          calls := calls[id := Finished(401)];
      }
    }
  }

  // The polling loop on its own, against whatever the shared storage shows at each look.

  datatype Look = Look(refreshToken: Option<string>, token: Option<string>)

  predicate Changed(looks: seq<Look>, sent: string, k: nat) {
    k < |looks| && looks[k].refreshToken != Some(sent)
  }

  function PollResult(sent: string, looks: seq<Look>, k: nat): Outcome
    requires |looks| >= RACE_WAIT_MS / RACE_POLL_MS && k <= RACE_WAIT_MS / RACE_POLL_MS
    decreases RACE_WAIT_MS / RACE_POLL_MS - k
  {
    if k == RACE_WAIT_MS / RACE_POLL_MS then NoToken
    else if Changed(looks, sent, k) then Stored(looks[k].token)
    else PollResult(sent, looks, k + 1)
  }

  // It returns at the first look that shows another refresh token, and gives up after fifty looks.
  method RaceWait(sent: string, looks: seq<Look>) returns (result: Outcome, rounds: nat)
    requires |looks| >= RACE_WAIT_MS / RACE_POLL_MS
    ensures rounds <= RACE_WAIT_MS / RACE_POLL_MS
    ensures forall k | 0 <= k < rounds :: !Changed(looks, sent, k)
    ensures rounds < RACE_WAIT_MS / RACE_POLL_MS ==> Changed(looks, sent, rounds) && result == Stored(looks[rounds].token)
    ensures rounds == RACE_WAIT_MS / RACE_POLL_MS ==> result == NoToken
    ensures result == PollResult(sent, looks, 0)
  {
    var waited := 0;
    rounds := 0;
    while waited < RACE_WAIT_MS
      invariant waited == rounds * RACE_POLL_MS && rounds <= RACE_WAIT_MS / RACE_POLL_MS
      invariant forall k | 0 <= k < rounds :: !Changed(looks, sent, k)
      invariant PollResult(sent, looks, 0) == PollResult(sent, looks, rounds)
    {
      if looks[rounds].refreshToken != Some(sent) { return Stored(looks[rounds].token), rounds; }
      waited, rounds := waited + RACE_POLL_MS, rounds + 1;
    }
    result := NoToken;
  }

  // Whole runs.

  function Run(c: Client, events: seq<Event>): Client
    decreases |events|
  {
    if events == [] then c else Run(Next(c, events[0]), events[1..])
  }

  predicate CallOk(c: Client, id: nat) {
    && id in c.calls && id in c.issued
    && match c.calls[id]
       case InFlight(_, retry) => c.issued[id] == if retry then 2 else 1
       case Waiting(_, p) => c.issued[id] == 1 && p < |c.refreshes| && (c.refreshes[p].Settled? || c.slot == Some(p))
       case Finished(_) => c.issued[id] <= 2
  }

  predicate InTime(waited: nat) {
    waited <= RACE_WAIT_MS && waited % RACE_POLL_MS == 0
  }

  ghost predicate Valid(c: Client) {
    && c.calls.Keys == c.issued.Keys
    && (forall id <- c.calls :: CallOk(c, id))
    && (c.slot.Some? ==> c.slot.value < |c.refreshes|)
    && (forall p :: 0 <= p < |c.refreshes| && !c.refreshes[p].Settled? ==> c.slot == Some(p))
    && (forall p :: 0 <= p < |c.refreshes| && c.refreshes[p].Racing? ==> InTime(c.refreshes[p].waited))
  }

  lemma CallsStayOk(c: Client, c': Client, id: nat)
    requires Valid(c)
    requires c'.calls.Keys == c.calls.Keys + {id} && c'.issued.Keys == c.issued.Keys + {id}
    requires forall k <- c.calls :: k != id ==> c'.calls[k] == c.calls[k] && c'.issued[k] == c.issued[k]
    requires |c.refreshes| <= |c'.refreshes|
    requires forall p | 0 <= p < |c.refreshes| :: c'.refreshes[p] == c.refreshes[p]
    requires c.slot.Some? ==> c'.slot == c.slot
    requires CallOk(c', id)
    ensures forall k <- c'.calls :: CallOk(c', k)
  {
    forall k | k in c'.calls ensures CallOk(c', k) {
      if k != id { assert CallOk(c, k); }
    }
  }

  lemma RespondKeepsValid(c: Client, id: nat, status: int)
    requires Valid(c)
    ensures Valid(Respond(c, id, status))
  {
    var c' := Respond(c, id, status);
    if c' != c {
      assert CallOk(c, id);
      assert c'.issued.Keys == c.issued.Keys + {id};
      CallsStayOk(c, c', id);
    }
  }

  lemma ResumeKeepsValid(c: Client, id: nat)
    requires Valid(c)
    ensures Valid(Resumed(c, id))
  {
    var c' := Resumed(c, id);
    if CanResume(c, id) {
      assert CallOk(c, id);
      CallsStayOk(c, c', id);
    }
  }

  lemma WithRefreshKeepsValid(c: Client, p: nat, r: Refresh)
    requires Valid(c) && p < |c.refreshes| && !c.refreshes[p].Settled?
    requires r.Racing? ==> InTime(r.waited)
    ensures Valid(WithRefresh(c, p, r))
  {
    var c' := WithRefresh(c, p, r);
    forall id | id in c'.calls ensures CallOk(c', id) { assert CallOk(c, id); }
  }

  lemma StorageIsFree(c: Client, t: Option<string>, r: Option<string>)
    requires Valid(c)
    ensures Valid(c.(token := t, refreshToken := r))
  {
    var c' := c.(token := t, refreshToken := r);
    forall id | id in c'.calls ensures CallOk(c', id) { assert CallOk(c, id); }
  }

  lemma RefreshKeepsValid(c: Client, c': Client, p: nat)
    requires Valid(c) && p < |c.refreshes| && !c.refreshes[p].Settled? && p < |c'.refreshes|
    requires c' == WithRefresh(c, p, c'.refreshes[p]).(token := c'.token, refreshToken := c'.refreshToken)
    requires c'.refreshes[p].Racing? ==> InTime(c'.refreshes[p].waited)
    ensures Valid(c')
  {
    WithRefreshKeepsValid(c, p, c'.refreshes[p]);
    StorageIsFree(WithRefresh(c, p, c'.refreshes[p]), c'.token, c'.refreshToken);
  }

  lemma AnsweredKeepsValid(c: Client, p: nat, reply: Reply)
    requires Valid(c)
    ensures Valid(Answered(c, p, reply))
  {
    if Answered(c, p, reply) != c { RefreshKeepsValid(c, Answered(c, p, reply), p); }
  }

  lemma TickedKeepsValid(c: Client, p: nat)
    requires Valid(c)
    ensures Valid(Ticked(c, p))
  {
    if Ticked(c, p) != c { RefreshKeepsValid(c, Ticked(c, p), p); }
  }

  lemma EmptiedKeepsValid(c: Client)
    requires Valid(c)
    ensures Valid(Emptied(c))
  {
    forall id | id in c.calls ensures CallOk(Emptied(c), id) { assert CallOk(c, id); }
  }

  lemma FetchKeepsValid(c: Client, id: nat)
    requires Valid(c) && id !in c.calls
    ensures Valid(Issue(c, id, false))
  {
    CallsStayOk(c, Issue(c, id, false), id);
  }

  lemma NextKeepsValid(c: Client, e: Event)
    requires Valid(c)
    ensures Valid(Next(c, e))
  {
    hide Valid, Issue, Respond, Answered, Ticked, Emptied, Resumed;
    match e
    case Fetch(id) => if id !in c.calls { FetchKeepsValid(c, id); }
    case Response(id, status) => RespondKeepsValid(c, id, status);
    case Arrives(p, reply) => AnsweredKeepsValid(c, p, reply);
    case Tick(p) => TickedKeepsValid(c, p);
    case Finally => EmptiedKeepsValid(c);
    case Resume(id) => ResumeKeepsValid(c, id);
    case Logout => StorageIsFree(c, None, None);
    case OtherTab(t, r) => StorageIsFree(c, t, r);
  }

  lemma {:induction false} RunKeepsValid(c: Client, events: seq<Event>)
    requires Valid(c)
    ensures Valid(Run(c, events))
    decreases |events|
  {
    if events != [] {
      NextKeepsValid(c, events[0]);
      RunKeepsValid(Next(c, events[0]), events[1..]);
    }
  }

  // From a fresh page: never two refreshes unsettled, a request goes out at most twice, and whoever waits
  // waits for the refresh in flight or for one that has settled.
  lemma SingleFlight(token: Option<string>, refreshToken: Option<string>, events: seq<Event>)
    ensures var c := Run(Client(token, refreshToken, None, [], map[], map[]), events);
      && (forall p, q | 0 <= p < q < |c.refreshes| :: c.refreshes[p].Settled? || c.refreshes[q].Settled?)
      && (forall id <- c.issued :: c.issued[id] <= 2)
      && (forall id <- c.calls :: c.calls[id].Waiting? ==>
            c.slot == Some(c.calls[id].refresh) || CanResume(c, id))
      && (forall p :: 0 <= p < |c.refreshes| && c.refreshes[p].Racing? ==> c.refreshes[p].waited <= RACE_WAIT_MS)
  {
    var c0 := Client(token, refreshToken, None, [], map[], map[]);
    RunKeepsValid(c0, events);
    var c := Run(c0, events);
    forall id | id in c.issued ensures c.issued[id] <= 2 { assert CallOk(c, id); }
    forall id | id in c.calls && c.calls[id].Waiting? ensures c.slot == Some(c.calls[id].refresh) || CanResume(c, id) {
      assert CallOk(c, id);
    }
  }

  // A settled refresh keeps its result, so everyone who waited for it gets the same one.
  lemma {:induction false} ResultsAreFinal(c: Client, events: seq<Event>, p: nat)
    requires p < |c.refreshes| && c.refreshes[p].Settled?
    ensures p < |Run(c, events).refreshes| && Run(c, events).refreshes[p] == c.refreshes[p]
    decreases |events|
  {
    if events != [] { ResultsAreFinal(Next(c, events[0]), events[1..], p); }
  }

  // Short of a logout the client drops the stored tokens, both at once, exactly for a request whose refresh came
  // back empty and whose own token is still the one stored.
  lemma WipesAreGuarded(c: Client, e: Event)
    requires c.token.Some? && !e.OtherTab?
    ensures Next(c, e).token.None? <==>
      || e.Logout?
      || (&& e.Resume? && CanResume(c, e.id)
          && c.refreshes[c.calls[e.id].refresh] == Settled(NoToken) && c.calls[e.id].failed == c.token.value)
    ensures Next(c, e).token.None? ==> Next(c, e).refreshToken.None?
  {
  }

  // A response waits for a refresh exactly when it is the 401 of a first try that carried a token; else it is final.
  lemma WaitsIff(c: Client, id: nat, status: int)
    requires id in c.calls && c.calls[id].InFlight?
    ensures var call, after := c.calls[id], Next(c, Response(id, status));
      && id in after.calls
      && (after.calls[id].Waiting? <==>
            status == 401 && call.token.Some? && call.token.value != "" && !call.retry)
      && (after.calls[id].Waiting? ==>
            after.calls[id].failed == call.token.value && after.slot == Some(after.calls[id].refresh))
      && (!after.calls[id].Waiting? ==> after == c.(calls := c.calls[id := Finished(status)]))
  {
  }

  // Whoever waits goes on once its refresh has settled and left the slot: with another try if that gave a token,
  // which carries what is then stored, and with the 401 if not.
  lemma GoesOnIff(c: Client, id: nat)
    requires Valid(c) && id in c.calls && c.calls[id].Waiting?
    ensures var p, after := c.calls[id].refresh, Next(c, Resume(id));
      && p < |c.refreshes| && id in after.calls
      && (after.calls[id].Waiting? <==> !c.refreshes[p].Settled? || c.slot == Some(p))
      && (!after.calls[id].Waiting? ==>
            after.calls[id] == if c.refreshes[p].result.Token? then InFlight(c.token, true) else Finished(401))
  {
    assert CallOk(c, id);
  }

  // A request goes out again only when the refresh it waited for returned a token.
  lemma SecondIssueNeedsToken(c: Client, e: Event, id: nat)
    requires Valid(c) && id in c.issued && id in Next(c, e).issued && Next(c, e).issued[id] != c.issued[id]
    ensures e == Resume(id) && CanResume(c, id) && c.refreshes[c.calls[id].refresh].result.Token?
    ensures Next(c, e).issued[id] == 2 && Next(c, e).calls[id] == InFlight(c.token, true)
  {
    assert CallOk(c, id);
  }

  // And once it has, or is finished, it is never issued again and never waits for a refresh again, whatever
  // happens: so it can neither be retried twice nor wipe the session.
  predicate Retried(c: Client, id: nat) {
    id in c.calls && id in c.issued && (c.calls[id].Finished? || (c.calls[id].InFlight? && c.calls[id].retry))
  }

  lemma {:induction false} RetriesAreFinal(c: Client, events: seq<Event>, id: nat)
    requires Retried(c, id)
    ensures Retried(Run(c, events), id) && Run(c, events).issued[id] == c.issued[id]
    ensures c.calls[id].Finished? ==> Run(c, events).calls[id] == c.calls[id]
    decreases |events|
  {
    if events != [] { RetriesAreFinal(Next(c, events[0]), events[1..], id); }
  }

  // Which token goes where, in a client no other tab writes beside: told by the grants that arrive alone.

  datatype Pair = Pair(access: Option<string>, refresh: Option<string>)

  // The pair granted last, or the initial one; what each refresh was granted; and every access token there was.
  datatype Log = Log(last: Pair, grants: map<nat, Pair>, accesses: set<string>)

  predicate Grants(c: Client, e: Event) {
    e.Arrives? && e.reply.Granted? && e.refresh < |c.refreshes| && c.refreshes[e.refresh].Asking?
  }

  function Logged(log: Log, c: Client, e: Event): Log {
    if !Grants(c, e) then log
    else
      var pair := Pair(Some(e.reply.token), Some(e.reply.refreshToken));
      Log(pair, log.grants[e.refresh := pair], log.accesses + {e.reply.token})
  }

  function LogOf(log: Log, c: Client, events: seq<Event>): Log
    decreases |events|
  {
    if events == [] then log else LogOf(Logged(log, c, events[0]), Next(c, events[0]), events[1..])
  }

  predicate RefreshFits(r: Refresh, p: nat, log: Log) {
    match r
    case Asking(sent) => log.last.refresh == Some(sent) && p !in log.grants
    case Racing(sent, _) => log.last.refresh == Some(sent) && p !in log.grants
    case Settled(result) =>
      if p in log.grants then result == Stored(log.grants[p].access) else !result.Token?
  }

  predicate CallFits(call: Call, log: Log) {
    match call
    case InFlight(token, _) => token.Some? ==> token.value in log.accesses
    case Waiting(failed, _) => failed in log.accesses
    case Finished(_) => true
  }

  ghost predicate Fits(c: Client, log: Log) {
    && ((c.token == log.last.access && c.refreshToken == log.last.refresh) || (c.token.None? && c.refreshToken.None?))
    && (log.last.access.Some? ==> log.last.access.value in log.accesses)
    && (forall p | 0 <= p < |c.refreshes| :: RefreshFits(c.refreshes[p], p, log))
    && (forall p <- log.grants :: p < |c.refreshes|)
    && (forall id <- c.calls :: CallFits(c.calls[id], log))
  }

  lemma GrantKeepsFits(c: Client, log: Log, e: Event)
    requires Valid(c) && Fits(c, log) && Grants(c, e)
    ensures Fits(Next(c, e), Logged(log, c, e))
  {
    var log', c' := Logged(log, c, e), Next(c, e);
    forall p | 0 <= p < |c'.refreshes| ensures RefreshFits(c'.refreshes[p], p, log') {
      assert RefreshFits(c.refreshes[p], p, log);
      if p != e.refresh { assert c.refreshes[p].Settled?; }
    }
    forall id | id in c'.calls ensures CallFits(c'.calls[id], log') { assert CallFits(c.calls[id], log); }
  }

  lemma CallEventsKeepFits(c: Client, log: Log, e: Event)
    requires Fits(c, log) && (e.Fetch? || e.Response? || e.Resume?)
    ensures Fits(Next(c, e), log)
  {
    var c' := Next(c, e);
    forall p | 0 <= p < |c'.refreshes| ensures RefreshFits(c'.refreshes[p], p, log) {
      if p < |c.refreshes| { assert RefreshFits(c.refreshes[p], p, log); }
    }
    forall id | id in c'.calls ensures CallFits(c'.calls[id], log) {
      if id in c.calls { assert CallFits(c.calls[id], log); }
    }
  }

  lemma RefreshEventsKeepFits(c: Client, log: Log, e: Event)
    requires Fits(c, log) && !Grants(c, e) && (e.Arrives? || e.Tick? || e.Finally? || e.Logout?)
    ensures Fits(Next(c, e), log)
  {
    var c' := Next(c, e);
    forall p | 0 <= p < |c'.refreshes| ensures RefreshFits(c'.refreshes[p], p, log) {
      assert RefreshFits(c.refreshes[p], p, log);
    }
    forall id | id in c'.calls ensures CallFits(c'.calls[id], log) { assert CallFits(c.calls[id], log); }
  }

  lemma {:induction false} RunKeepsFits(c: Client, log: Log, events: seq<Event>)
    requires Valid(c) && Fits(c, log) && forall e <- events :: !e.OtherTab?
    ensures Fits(Run(c, events), LogOf(log, c, events))
    decreases |events|
  {
    if events != [] {
      var e := events[0];
      NextKeepsValid(c, e);
      if Grants(c, e) { GrantKeepsFits(c, log, e); } else {
        assert e in events;
        hide Fits, Next;
        if e.Fetch? || e.Response? || e.Resume? { CallEventsKeepFits(c, log, e); } else { RefreshEventsKeepFits(c, log, e); }
      }
      RunKeepsFits(Next(c, e), Logged(log, c, e), events[1..]);
    }
  }

  // From a fresh page, at every moment: what is stored is the pair granted last, each half in its place, or gone;
  // the refresh under way sent the refresh half of that pair; a refresh that gave a token gave the access half of
  // the pair it was granted; and every request carries the access half of some pair.
  lemma TokensAreGranted(token: Option<string>, refreshToken: Option<string>, events: seq<Event>)
    requires forall e <- events :: !e.OtherTab?
    ensures
      var start := Client(token, refreshToken, None, [], map[], map[]);
      var log := Log(Pair(token, refreshToken), map[], if token.Some? then {token.value} else {});
      Fits(Run(start, events), LogOf(log, start, events))
  {
    var start := Client(token, refreshToken, None, [], map[], map[]);
    RunKeepsFits(start, Log(Pair(token, refreshToken), map[], if token.Some? then {token.value} else {}), events);
  }

  // The polling loop is what the ticks of a racing refresh come to, storage showing each look in turn.

  function Polls(p: nat, looks: seq<Look>, k: nat): seq<Event>
    requires |looks| >= RACE_WAIT_MS / RACE_POLL_MS && k <= RACE_WAIT_MS / RACE_POLL_MS
    decreases RACE_WAIT_MS / RACE_POLL_MS - k
  {
    if k == RACE_WAIT_MS / RACE_POLL_MS then [Tick(p)]
    else [OtherTab(looks[k].token, looks[k].refreshToken), Tick(p)] + Polls(p, looks, k + 1)
  }

  lemma {:induction false} TicksPoll(c: Client, p: nat, sent: string, looks: seq<Look>, k: nat)
    requires |looks| >= RACE_WAIT_MS / RACE_POLL_MS && k <= RACE_WAIT_MS / RACE_POLL_MS
    requires p < |c.refreshes| && c.refreshes[p] == Racing(sent, k * RACE_POLL_MS)
    ensures var end := Run(c, Polls(p, looks, k));
      p < |end.refreshes| && end.refreshes[p] == Settled(PollResult(sent, looks, k))
    decreases RACE_WAIT_MS / RACE_POLL_MS - k
  {
    if k == RACE_WAIT_MS / RACE_POLL_MS {
      assert Run(c, [Tick(p)]) == Run(Next(c, Tick(p)), []);
    } else {
      var look, rest := OtherTab(looks[k].token, looks[k].refreshToken), Polls(p, looks, k + 1);
      var c' := Next(Next(c, look), Tick(p));
      RunTwo(c, look, Tick(p), rest);
      if Changed(looks, sent, k) {
        ResultsAreFinal(c', rest, p);
      } else {
        TicksPoll(c', p, sent, looks, k + 1);
      }
    }
  }

  lemma RunTwo(c: Client, d: Event, e: Event, rest: seq<Event>)
    ensures Run(c, [d, e] + rest) == Run(Next(Next(c, d), e), rest)
  {
    assert ([d, e] + rest)[1..] == [e] + rest && ([e] + rest)[1..] == rest;
    assert Run(Next(c, d), [e] + rest) == Run(Next(Next(c, d), e), rest);
  }
}
