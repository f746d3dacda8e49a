// The mobile client's handling of failed responses: when a request is replayed and when the session is wiped.
module MobileAuth {
  import opened Wrappers

  // What refreshSession gave: a token, null, or an exception (network failure or REFRESH_RACE).
  datatype Refresh = Renewed | Gone | Thrown

  // The flags an axios config carries between its tries.
  datatype Config = Config(authorized: bool, retried: bool, refreshed: bool)

  // status is None when no response arrived at all.
  datatype Verdict = Replay | Reject(wipe: bool)

  predicate Refreshes(c: Config, status: Option<int>) {
    status == Some(401) && !c.retried && c.authorized
  }

  function Handled(c: Config, status: Option<int>, refresh: Refresh): (Config, Verdict) {
    if Refreshes(c, status) && refresh.Renewed? then (c.(retried := true, refreshed := true), Replay)
    else
      var keep := c.refreshed || (Refreshes(c, status) && refresh.Thrown?);
      (if Refreshes(c, status) then c.(retried := true) else c, Reject(status == Some(401) && !keep))
  }

  // The interceptor, changing the config object as it goes.
  class Request {
    var authorized: bool
    var retried: bool
    var refreshed: bool

    function Contents(): Config
      reads this
    {
      Config(authorized, retried, refreshed)
    }

    constructor (hasToken: bool)
      ensures Contents() == Config(hasToken, false, false)
    {
      authorized, retried, refreshed := hasToken, false, false;
    }

    method OnError(status: Option<int>, refresh: Refresh) returns (verdict: Verdict)
      modifies this
      ensures (Contents(), verdict) == Handled(old(Contents()), status, refresh)
    {
      var keepSession := false;
      if refreshed { keepSession := true; }
      if status == Some(401) && !retried && authorized {
        retried := true;
        match refresh {
          case Renewed =>
            authorized, refreshed := true, true;
            return Replay;
          case Gone =>
          case Thrown => keepSession := true;
        }
      }
      verdict := Reject(status == Some(401) && !keepSession);
    }
  }

  // Exactly which failures wipe the stored session.
  lemma WipesIff(c: Config, status: Option<int>, refresh: Refresh)
    requires c.refreshed ==> c.retried
    ensures Handled(c, status, refresh).1 == Reject(true)
       <==> status == Some(401) && !c.refreshed && (!c.authorized || c.retried || refresh.Gone?)
  {
  }

  // Exactly which failures are replayed, and what the request then says of itself: that it was retried, once it has
  // been refreshed for, and that it was refreshed, once it has been replayed.
  lemma ReplaysIff(c: Config, status: Option<int>, refresh: Refresh)
    ensures var (after, verdict) := Handled(c, status, refresh);
      && (verdict.Replay? <==> status == Some(401) && c.authorized && !c.retried && refresh.Renewed?)
      && (after.retried <==> c.retried || (status == Some(401) && c.authorized))
      && (after.refreshed <==> c.refreshed || verdict.Replay?)
      && after.authorized == c.authorized
  {
  }

  // Any number of requests in flight at once.

  datatype World = World(configs: map<nat, Config>, sends: map<nat, nat>, wipes: nat)

  datatype Event =
    | Send(id: nat, hasToken: bool)
    | Fail(id: nat, status: Option<int>, refresh: Refresh)
    | Succeed(id: nat)

  function Next(w: World, e: Event): World {
    match e
    case Send(id, hasToken) =>
      if id in w.sends then w
      else w.(configs := w.configs[id := Config(hasToken, false, false)], sends := w.sends[id := 1])
    case Succeed(id) => w.(configs := w.configs - {id})
    case Fail(id, status, refresh) =>
      if id !in w.configs || id !in w.sends then w
      else
        var (c, verdict) := Handled(w.configs[id], status, refresh);
        match verdict
        case Replay => w.(configs := w.configs[id := c], sends := w.sends[id := w.sends[id] + 1])
        case Reject(wipe) => w.(configs := w.configs - {id}, wipes := w.wipes + if wipe then 1 else 0)
  }

  function Run(w: World, events: seq<Event>): World
    decreases |events|
  {
    if events == [] then w else Run(Next(w, events[0]), events[1..])
  }

  // Failures after which the session must go: the refresh token no longer works, or no token was sent.
  function Justified(w: World, events: seq<Event>): nat
    decreases |events|
  {
    if events == [] then 0
    else
      var e := events[0];
      (if e.Fail? && e.id in w.configs && e.id in w.sends && e.status == Some(401)
          && (if w.configs[e.id].authorized then !w.configs[e.id].retried && e.refresh.Gone? else true)
       then 1 else 0)
      + Justified(Next(w, e), events[1..])
  }

  // A request is sent when it starts, and again for each 401 of a first try with a token whose refresh renewed it.
  predicate GoesOut(w: World, e: Event, id: nat) {
    match e
    case Send(k, _) => k == id && id !in w.sends
    case Fail(k, status, refresh) =>
      && k == id && id in w.configs && id in w.sends
      && status == Some(401) && w.configs[id].authorized && !w.configs[id].retried && refresh.Renewed?
    case Succeed(_) => false
  }

  function SendsOf(w: World, events: seq<Event>, id: nat): nat
    decreases |events|
  {
    if events == [] then 0
    else (if GoesOut(w, events[0], id) then 1 else 0) + SendsOf(Next(w, events[0]), events[1..], id)
  }

  function SentSoFar(w: World, id: nat): nat {
    if id in w.sends then w.sends[id] else 0
  }

  lemma {:induction false} SendsAreCounted(w: World, events: seq<Event>, id: nat)
    ensures SentSoFar(Run(w, events), id) == SentSoFar(w, id) + SendsOf(w, events, id)
    decreases |events|
  {
    if events != [] { SendsAreCounted(Next(w, events[0]), events[1..], id); }
  }

  // It is in flight from when it starts until it succeeds or fails for good.
  lemma InFlightIff(w: World, e: Event, id: nat)
    requires Valid(w)
    ensures id in Next(w, e).configs <==>
      || GoesOut(w, e, id)
      || (id in w.configs && !(e.Succeed? && e.id == id) && !(e.Fail? && e.id == id))
  {
  }

  ghost predicate Valid(w: World) {
    && (forall id <- w.configs ::
          && id in w.sends
          && (w.configs[id].retried <==> w.configs[id].refreshed)
          && w.sends[id] == (if w.configs[id].retried then 2 else 1)
          && (w.configs[id].retried ==> w.configs[id].authorized))
    && (forall id <- w.sends :: w.sends[id] <= 2)
  }

  lemma NextKeepsValid(w: World, e: Event)
    requires Valid(w)
    ensures Valid(Next(w, e))
  {
  }

  // Over every run, a request goes out at most twice, and the session is wiped once for each failure that
  // justifies it and never otherwise: not for a refresh that threw, not for a replay that fails again.
  lemma {:induction false} RunsAreJustified(w: World, events: seq<Event>)
    requires Valid(w)
    ensures Valid(Run(w, events)) && Run(w, events).wipes == w.wipes + Justified(w, events)
    decreases |events|
  {
    if events != [] {
      NextKeepsValid(w, events[0]);
      RunsAreJustified(Next(w, events[0]), events[1..]);
    }
  }
}
