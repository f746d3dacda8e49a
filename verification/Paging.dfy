// Paged loading of the bookings list while the server's list grows at its head and loads overlap.
module Paging {
  import opened Wrappers

  const LIMIT: nat := 20

  // A page as the server serves it: ids of its rows, its number, and the number of pages there are.
  datatype Page = Page(ids: seq<string>, page: nat, pages: nat)

  predicate HasMore(p: Page) {
    p.page < p.pages
  }

  predicate Distinct(ids: seq<string>) {
    forall i, j | 0 <= i < j < |ids| :: ids[i] != ids[j]
  }

  // uniqueNew: the incoming rows that are not in the list yet.
  function UniqueNew(incoming: seq<string>, existing: seq<string>): seq<string> {
    if incoming == [] then []
    else (if incoming[0] in existing then [] else [incoming[0]]) + UniqueNew(incoming[1..], existing)
  }

  lemma {:induction false} UnseenMembers(incoming: seq<string>, existing: seq<string>)
    ensures forall x :: x in UniqueNew(incoming, existing) <==> x in incoming && x !in existing
  {
    if incoming != [] { UnseenMembers(incoming[1..], existing); }
  }

  lemma {:induction false} UniqueNewIsDistinct(incoming: seq<string>, existing: seq<string>)
    requires Distinct(incoming)
    ensures Distinct(UniqueNew(incoming, existing))
  {
    if incoming != [] {
      UniqueNewIsDistinct(incoming[1..], existing);
      UnseenMembers(incoming[1..], existing);
      assert incoming[0] !in incoming[1..];
    }
  }

  lemma AppendedIsDistinct(list: seq<string>, incoming: seq<string>)
    requires Distinct(list) && Distinct(incoming)
    ensures Distinct(list + UniqueNew(incoming, list))
  {
    UniqueNewIsDistinct(incoming, list);
    UnseenMembers(incoming, list);
    var all := list + UniqueNew(incoming, list);
    forall i, j | 0 <= i < j < |all| ensures all[i] != all[j] {
      if i < |list| <= j { assert all[j] in UniqueNew(incoming, list); }
    }
  }

  // The part of the store that paging uses, and the requests on their way.

  datatype State = State(
    bookings: seq<string>,
    page: nat,
    hasMore: bool,
    loadingMore: bool,
    loads: nat,                // loadBookings calls waiting for their page
    more: seq<nat>)            // for each loadMoreBookings call waiting, the page number it read

  datatype Event =
    | StartLoad
    | LoadArrives(result: Option<Page>)
    | StartMore
    | MoreArrives(call: nat, result: Option<Page>)

  function Without(s: seq<nat>, k: nat): seq<nat>
    requires k < |s|
  {
    s[..k] + s[k + 1..]
  }

  function Next(s: State, e: Event): State {
    match e
    case StartLoad => s.(loads := s.loads + 1)
    case LoadArrives(result) =>
      if s.loads == 0 then s
      else if result.None? then s.(loads := s.loads - 1)
      else s.(loads := s.loads - 1, bookings := result.value.ids, page := 1, hasMore := HasMore(result.value))
    case StartMore =>
      if !s.hasMore || s.loadingMore then s else s.(loadingMore := true, more := s.more + [s.page])
    case MoreArrives(k, result) =>
      if k >= |s.more| then s
      else
        var done := s.(loadingMore := false, more := Without(s.more, k));
        if result.None? || s.page != s.more[k] then done
        else done.(bookings := s.bookings + UniqueNew(result.value.ids, s.bookings),
                   page := s.more[k] + 1,
                   hasMore := HasMore(result.value))
  }

  // The store itself; each method is the stretch of an action between two awaits.
  class Store {
    var bookings: seq<string>
    var bookingsPage: nat
    var bookingsHasMore: bool
    var bookingsLoadingMore: bool
    ghost var loads: nat
    ghost var more: seq<nat>

    ghost function Contents(): State
      reads this
    {
      State(bookings, bookingsPage, bookingsHasMore, bookingsLoadingMore, loads, more)
    }

    constructor ()
      ensures Contents() == State([], 1, false, false, 0, [])
    {
      bookings, bookingsPage, bookingsHasMore, bookingsLoadingMore, loads, more := [], 1, false, false, 0, [];
    }

    method LoadBookings()
      modifies this`loads
      ensures Contents() == Next(old(Contents()), StartLoad)
    {
      loads := loads + 1;
    }

    method BookingsLoaded(result: Option<Page>)
      requires loads > 0
      modifies this
      ensures Contents() == Next(old(Contents()), LoadArrives(result))
    {
      loads := loads - 1;
      if result.Some? {
        bookings, bookingsPage, bookingsHasMore := result.value.ids, 1, result.value.page < result.value.pages;
      }
    }

    // Returns the page to ask for, or none when the guard turns the call away.
    method LoadMoreBookings() returns (ask: Option<nat>)
      modifies this`bookingsLoadingMore, this`more
      ensures Contents() == Next(old(Contents()), StartMore)
      ensures ask == if old(bookingsHasMore && !bookingsLoadingMore) then Some(bookingsPage + 1) else None
    {
      if !bookingsHasMore || bookingsLoadingMore { return None; }
      bookingsLoadingMore := true;
      more := more + [bookingsPage];
      ask := Some(bookingsPage + 1);
    }

    method MoreLoaded(page: nat, ghost call: nat, result: Option<Page>)
      requires call < |more| && more[call] == page
      modifies this
      ensures Contents() == Next(old(Contents()), MoreArrives(call, result))
    {
      if result.Some? && bookingsPage == page {
        var unseen := Filter(result.value.ids, bookings);
        bookings := bookings + unseen;
        bookingsPage, bookingsHasMore := page + 1, result.value.page < result.value.pages;
      }
      bookingsLoadingMore := false;
      more := Without(more, call);
    }
  }

  method Filter(incoming: seq<string>, existing: seq<string>) returns (unseen: seq<string>)
    ensures unseen == UniqueNew(incoming, existing)
  {
    var seen := set x | x in existing;
    unseen := [];
    for i := 0 to |incoming|
      invariant unseen + UniqueNew(incoming[i..], existing) == UniqueNew(incoming, existing)
    {
      assert incoming[i..][1..] == incoming[i + 1..];
      if incoming[i] !in seen { unseen := unseen + [incoming[i]]; }
    }
    assert incoming[|incoming|..] == [];
  }

  function Run(s: State, events: seq<Event>): State
    decreases |events|
  {
    if events == [] then s else Run(Next(s, events[0]), events[1..])
  }

  // No two rows share an id, and at most one page is being fetched by loadMoreBookings.

  predicate PageDistinct(e: Event) {
    (e.LoadArrives? || e.MoreArrives?) && e.result.Some? ==> Distinct(e.result.value.ids)
  }

  predicate Valid(s: State) {
    Distinct(s.bookings) && |s.more| == (if s.loadingMore then 1 else 0)
  }

  lemma {:induction false} RunsStayDistinct(s: State, events: seq<Event>)
    requires Valid(s) && forall i | 0 <= i < |events| :: PageDistinct(events[i])
    ensures Valid(Run(s, events))
    decreases |events|
  {
    if events != [] {
      var e := events[0];
      if e.MoreArrives? && e.result.Some? { AppendedIsDistinct(s.bookings, e.result.value.ids); }
      RunsStayDistinct(Next(s, e), events[1..]);
    }
  }

  // A server whose list only grows at its head.

  function PageOf(list: seq<string>, page: nat): Page
    requires page >= 1
  {
    var from := if LIMIT * (page - 1) <= |list| then LIMIT * (page - 1) else |list|;
    var to := if LIMIT * page <= |list| then LIMIT * page else |list|;
    Page(list[from..to], page, (|list| + LIMIT - 1) / LIMIT)
  }

  // One loadBookings, then loadMoreBookings again and again; heads[k] arrives at the server before the k-th
  // further page is served, and None is a fetch that failed.
  datatype Turn = Turn(heads: seq<string>, served: bool)

  datatype Session = Session(list: seq<string>, store: State)

  function Turned(s: Session, t: Turn): Session {
    var list := t.heads + s.list;
    var started := Next(s.store, StartMore);
    if |started.more| == 0 then Session(list, started)
    else
      Session(list, Next(started, MoreArrives(0,
        if t.served then Some(PageOf(list, started.more[0] + 1)) else None)))
  }

  function Turns(s: Session, turns: seq<Turn>): Session
    decreases |turns|
  {
    if turns == [] then s else Turns(Turned(s, turns[0]), turns[1..])
  }

  function Loaded(list: seq<string>): Session {
    Session(list, Next(Next(State([], 1, false, false, 0, []), StartLoad), LoadArrives(Some(PageOf(list, 1)))))
  }

  // The loaded rows that were on the server at the first load, in the order they are shown.
  function OldRows(shown: seq<string>, first: seq<string>): seq<string> {
    if shown == [] then []
    else (if shown[0] in first then [shown[0]] else []) + OldRows(shown[1..], first)
  }

  lemma {:induction false} OldRowsConcat(a: seq<string>, b: seq<string>, first: seq<string>)
    ensures OldRows(a + b, first) == OldRows(a, first) + OldRows(b, first)
  {
    if a == [] {
      assert a + b == b;
    } else {
      var head := if a[0] in first then [a[0]] else [];
      assert (a + b)[1..] == a[1..] + b;
      assert OldRows(a + b, first) == head + OldRows(a[1..] + b, first);
      assert OldRows(a, first) == head + OldRows(a[1..], first);
      hide OldRows;
      OldRowsConcat(a[1..], b, first);
    }
  }

  lemma {:induction false} NoOldRows(a: seq<string>, first: seq<string>)
    requires forall x <- a :: x !in first
    ensures OldRows(a, first) == []
  {
    if a != [] {
      assert a[0] in a;
      NoOldRows(a[1..], first);
    }
  }

  lemma {:induction false} AllOldRows(a: seq<string>, first: seq<string>)
    requires forall x <- a :: x in first
    ensures OldRows(a, first) == a
  {
    if a != [] {
      assert a[0] in a;
      AllOldRows(a[1..], first);
    }
  }

  lemma {:induction false} OldRowsMembers(a: seq<string>, first: seq<string>)
    ensures forall x :: x in OldRows(a, first) <==> x in a && x in first
  {
    if a != [] { OldRowsMembers(a[1..], first); }
  }

  lemma {:induction false} OldRowsOfUnseen(ids: seq<string>, shown: seq<string>, first: seq<string>)
    ensures OldRows(UniqueNew(ids, shown), first) == UniqueNew(OldRows(ids, first), shown)
  {
    if ids != [] {
      var head := if ids[0] in shown then [] else [ids[0]];
      OldRowsOfUnseen(ids[1..], shown, first);
      OldRowsConcat(head, UniqueNew(ids[1..], shown), first);
      UnseenConcat(if ids[0] in first then [ids[0]] else [], OldRows(ids[1..], first), shown);
    }
  }

  lemma {:induction false} UnseenConcat(a: seq<string>, b: seq<string>, shown: seq<string>)
    ensures UniqueNew(a + b, shown) == UniqueNew(a, shown) + UniqueNew(b, shown)
  {
    if a == [] {
      assert a + b == b;
    } else {
      assert (a + b)[1..] == a[1..] + b;
      UnseenConcat(a[1..], b, shown);
    }
  }

  lemma {:induction false} AllUnseen(a: seq<string>, shown: seq<string>)
    requires forall x <- a :: x !in shown
    ensures UniqueNew(a, shown) == a
  {
    if a != [] {
      assert a[0] in a;
      AllUnseen(a[1..], shown);
    }
  }

  function Clip(x: int, n: nat): nat {
    if x < 0 then 0 else if x > n then n else x
  }

  function Max(a: nat, b: nat): nat {
    if a < b then b else a
  }

  // The part of a served slice that was there at the first load is a slice of the first list.
  lemma SliceOfGrownList(heads: seq<string>, first: seq<string>, from: nat, to: nat)
    requires from <= to <= |heads + first| && Distinct(heads + first)
    ensures OldRows((heads + first)[from..to], first) == first[Clip(from - |heads|, |first|)..Clip(to - |heads|, |first|)]
  {
    var h0, h1 := Clip(from, |heads|), Clip(to, |heads|);
    var a, b := Clip(from - |heads|, |first|), Clip(to - |heads|, |first|);
    assert (heads + first)[from..to] == heads[h0..h1] + first[a..b];
    forall x | x in heads[h0..h1] ensures x !in first { HeadIsNew(heads, first, x); }
    hide Distinct, Clip;
    NoOldRows(heads[h0..h1], first);
    AllOldRows(first[a..b], first);
    OldRowsConcat(heads[h0..h1], first[a..b], first);
  }

  lemma HeadIsNew(heads: seq<string>, first: seq<string>, x: string)
    requires Distinct(heads + first) && x in heads
    ensures x !in first
  {
    var i :| 0 <= i < |heads| && heads[i] == x;
    assert (heads + first)[i] == x;
    forall j | 0 <= j < |first| ensures first[j] != x { assert (heads + first)[|heads| + j] == first[j]; }
  }

  lemma UnseenOfSlice(shown: seq<string>, first: seq<string>, n: nat, a: nat, b: nat)
    requires Distinct(first) && a <= n <= |first| && a <= b <= |first|
    requires forall i | 0 <= i < |first| :: first[i] in shown <==> i < n
    ensures UniqueNew(first[a..b], shown) == if b < n then [] else first[n..b]
  {
    var m := if b < n then b else n;
    assert first[a..b] == first[a..m] + first[m..b];
    UnseenConcat(first[a..m], first[m..b], shown);
    AllSeen(first[a..m], shown);
    AllUnseen(first[m..b], shown);
  }

  lemma {:induction false} AllSeen(a: seq<string>, shown: seq<string>)
    requires forall x <- a :: x in shown
    ensures UniqueNew(a, shown) == []
  {
    if a != [] {
      assert a[0] in a;
      AllSeen(a[1..], shown);
    }
  }

  lemma PrefixMembers(shown: seq<string>, first: seq<string>, n: nat)
    requires Distinct(first) && n <= |first| && OldRows(shown, first) == first[..n]
    ensures forall i | 0 <= i < |first| :: first[i] in shown <==> i < n
  {
    OldRowsMembers(shown, first);
    forall i | 0 <= i < |first| ensures first[i] in shown <==> i < n {
      if i < n { assert first[..n][i] == first[i]; }
      else { assert forall j | 0 <= j < n :: first[..n][j] == first[j] != first[i]; }
    }
  }

  lemma UnseenAfterPrefix(shown: seq<string>, first: seq<string>, n: nat, a: nat, b: nat)
    requires Distinct(first) && n <= |first| && OldRows(shown, first) == first[..n]
    requires a <= n && a <= b <= |first|
    ensures UniqueNew(first[a..b], shown) == if b < n then [] else first[n..b]
  {
    PrefixMembers(shown, first, n);
    UnseenOfSlice(shown, first, n, a, b);
  }

  // A further page extends the loaded prefix of the first list, without a gap.
  lemma PageExtendsPrefix(shown: seq<string>, first: seq<string>, n: nat, ids: seq<string>, a: nat, b: nat)
    requires Distinct(first) && n <= |first| && OldRows(shown, first) == first[..n]
    requires a <= n && a <= b <= |first| && OldRows(ids, first) == first[a..b]
    ensures OldRows(shown + UniqueNew(ids, shown), first) == first[..Max(n, b)]
  {
    hide OldRows, UniqueNew, Distinct;
    UnseenAfterPrefix(shown, first, n, a, b);
    OldRowsOfUnseen(ids, shown, first);
    OldRowsConcat(shown, UniqueNew(ids, shown), first);
    if n <= b { assert first[..n] + first[n..b] == first[..b]; }
  }

  // After some turns: heads arrived on top of the first list, and n of its rows are loaded.
  ghost predicate Progress(s: Session, first: seq<string>, heads: seq<string>, n: nat) {
    && s.list == heads + first
    && s.store.more == [] && !s.store.loadingMore && s.store.page >= 1
    && Clip(LIMIT * s.store.page - |heads|, |first|) <= n <= |first|
    && OldRows(s.store.bookings, first) == first[..n]
    && (!s.store.hasMore ==> n == |first|)
  }

  lemma TurnOf(s: Session, t: Turn)
    requires s.store.more == [] && !s.store.loadingMore && s.store.page >= 1
    ensures var list, p := t.heads + s.list, s.store.page;
      Turned(s, t) == Session(list,
        if !s.store.hasMore || !t.served then s.store
        else s.store.(
          bookings := s.store.bookings + UniqueNew(PageOf(list, p + 1).ids, s.store.bookings),
          page := p + 1,
          hasMore := HasMore(PageOf(list, p + 1))))
  {
    var started := Next(s.store, StartMore);
    if s.store.hasMore { assert started.more == [s.store.page] && Without(started.more, 0) == []; }
  }

  // What a served page adds to the rows of the first list.
  lemma ServedExtends(shown: seq<string>, first: seq<string>, heads: seq<string>, n: nat, page: nat)
    requires Distinct(heads + first) && n <= |first| && OldRows(shown, first) == first[..n]
    requires Clip(LIMIT * page - |heads|, |first|) <= n
    ensures var served := PageOf(heads + first, page + 1);
      var b := Clip(LIMIT * (page + 1) - |heads|, |first|);
      && OldRows(shown + UniqueNew(served.ids, shown), first) == first[..Max(n, b)]
      && (!HasMore(served) ==> b == |first|)
  {
    var list := heads + first;
    var from, to := Clip(LIMIT * page, |list|), Clip(LIMIT * (page + 1), |list|);
    var a, b := Clip(from - |heads|, |first|), Clip(to - |heads|, |first|);
    SliceOfGrownList(heads, first, from, to);
    DistinctSuffix(heads, first);
    PageExtendsPrefix(shown, first, n, list[from..to], a, b);
    assert PageOf(list, page + 1).ids == list[from..to];
  }

  lemma TurnProgresses(s: Session, first: seq<string>, heads: seq<string>, n: nat, t: Turn) returns (n': nat)
    requires Progress(s, first, heads, n) && Distinct(t.heads + s.list)
    ensures Progress(Turned(s, t), first, t.heads + heads, n') && n <= n'
  {
    hide Turned, PageOf, UniqueNew, Distinct, OldRows;
    var grown := t.heads + heads;
    assert t.heads + s.list == grown + first;
    TurnOf(s, t);
    if !s.store.hasMore || !t.served {
      n' := n;
      assert Turned(s, t) == Session(grown + first, s.store);
    } else {
      ServedExtends(s.store.bookings, first, grown, n, s.store.page);
      var b := Clip(LIMIT * (s.store.page + 1) - |grown|, |first|);
      n' := Max(n, b);
    }
  }

  function Heads(turns: seq<Turn>): seq<string> {
    if turns == [] then [] else Heads(turns[1..]) + turns[0].heads
  }

  lemma {:induction false} TurnsProgress(s: Session, first: seq<string>, heads: seq<string>, n: nat, turns: seq<Turn>)
    returns (n': nat)
    requires Progress(s, first, heads, n) && Distinct(Heads(turns) + s.list)
    ensures Progress(Turns(s, turns), first, Heads(turns) + heads, n')
    decreases |turns|
  {
    if turns == [] {
      assert Heads(turns) + heads == heads;
      n' := n;
    } else {
      var t, rest := turns[0], turns[1..];
      assert Heads(turns) + s.list == Heads(rest) + (t.heads + s.list);
      DistinctSuffix(Heads(rest), t.heads + s.list);
      n' := TurnProgresses(s, first, heads, n, t);
      n' := TurnsProgress(Turned(s, t), first, t.heads + heads, n', rest);
      assert Heads(rest) + (t.heads + heads) == Heads(turns) + heads;
    }
  }

  lemma DistinctSuffix(a: seq<string>, b: seq<string>)
    requires Distinct(a + b)
    ensures Distinct(b)
  {
    forall i, j | 0 <= i < j < |b| ensures b[i] != b[j] {
      assert (a + b)[|a| + i] == b[i] && (a + b)[|a| + j] == b[j];
    }
  }

  lemma LoadedProgresses(first: seq<string>)
    requires Distinct(first)
    ensures Progress(Loaded(first), first, [], Clip(LIMIT, |first|)) && Loaded(first).list == first
  {
    var s, n := Loaded(first), Clip(LIMIT, |first|);
    assert s.store.bookings == first[..n];
    AllOldRows(first[..n], first);
    assert s.list == [] + first;
  }

  // Whatever is inserted at the head between fetches and whichever fetches fail, the rows of the first list
  // appear in order and without a gap, and all of them once the store believes there is no more.
  lemma PagingLosesNothing(first: seq<string>, turns: seq<Turn>)
    requires Distinct(Heads(turns) + first)
    ensures var end := Turns(Loaded(first), turns).store;
      && OldRows(end.bookings, first) <= first
      && (!end.hasMore ==> OldRows(end.bookings, first) == first)
  {
    DistinctSuffix(Heads(turns), first);
    LoadedProgresses(first);
    hide Loaded, Distinct, Clip;
    var n' := TurnsProgress(Loaded(first), first, [], Clip(LIMIT, |first|), turns);
    assert first[..|first|] == first;
  }

  // And with nothing created and no fetch failing, asking again and again shows the whole list and then stops.

  ghost predicate ShowsPages(s: Session, list: seq<string>, page: nat) {
    && s.list == list && s.store.more == [] && !s.store.loadingMore
    && s.store.page == page >= 1
    && s.store.bookings == list[..Clip(LIMIT * page, |list|)]
    && (s.store.hasMore <==> LIMIT * page < |list|)
  }

  lemma NextPageIsNew(list: seq<string>, page: nat)
    requires Distinct(list) && LIMIT * page < |list|
    ensures var shown, next := list[..LIMIT * page], PageOf(list, page + 1);
      && shown + UniqueNew(next.ids, shown) == list[..Clip(LIMIT * (page + 1), |list|)]
      && (HasMore(next) <==> LIMIT * (page + 1) < |list|)
  {
    var shown, to := list[..LIMIT * page], Clip(LIMIT * (page + 1), |list|);
    var ids := list[LIMIT * page..to];
    assert PageOf(list, page + 1).ids == ids;
    assert UniqueNew(ids, shown) == ids by { LaterIsUnseen(list, LIMIT * page, to); }
    assert shown + ids == list[..to];
  }

  lemma LaterIsUnseen(list: seq<string>, from: nat, to: nat)
    requires Distinct(list) && from <= to <= |list|
    ensures UniqueNew(list[from..to], list[..from]) == list[from..to]
  {
    var shown, ids := list[..from], list[from..to];
    forall x | x in ids ensures x !in shown {
      var i :| 0 <= i < |ids| && ids[i] == x;
      assert list[from + i] == x;
    }
    AllUnseen(ids, shown);
  }

  lemma TurnShowsNext(s: Session, list: seq<string>, page: nat)
    requires Distinct(list) && ShowsPages(s, list, page) && s.store.hasMore
    ensures ShowsPages(Turned(s, Turn([], true)), list, page + 1)
  {
    hide Turned, PageOf, UniqueNew, HasMore, Distinct;
    assert [] + s.list == list;
    TurnOf(s, Turn([], true));
    NextPageIsNew(list, page);
  }

  lemma {:induction false} PagingShowsAll(s: Session, list: seq<string>, page: nat, turns: seq<Turn>)
    requires Distinct(list) && ShowsPages(s, list, page) && LIMIT * (page + |turns|) >= |list|
    requires forall i | 0 <= i < |turns| :: turns[i] == Turn([], true)
    ensures Turns(s, turns).store.bookings == list && !Turns(s, turns).store.hasMore
    decreases |turns|
  {
    hide Turned, Distinct;
    if !s.store.hasMore {
      assert list[..|list|] == list;
      AllShownAlready(s, list, turns);
    } else {
      assert turns != [];
      TurnShowsNext(s, list, page);
      hide ShowsPages;
      PagingShowsAll(Turned(s, turns[0]), list, page + 1, turns[1..]);
    }
  }

  lemma {:induction false} AllShownAlready(s: Session, list: seq<string>, turns: seq<Turn>)
    requires s.list == list && s.store.more == [] && !s.store.loadingMore && s.store.page >= 1 && !s.store.hasMore
    requires forall i | 0 <= i < |turns| :: turns[i] == Turn([], true)
    ensures Turns(s, turns).store == s.store
    decreases |turns|
  {
    if turns != [] {
      assert turns[0].heads + s.list == list;
      TurnOf(s, turns[0]);
      AllShownAlready(Turned(s, turns[0]), list, turns[1..]);
    }
  }

  lemma PagingEnds(list: seq<string>, n: nat)
    requires Distinct(list) && LIMIT * (n + 1) >= |list|
    ensures var end := Turns(Loaded(list), seq(n, _ => Turn([], true))).store;
      end.bookings == list && !end.hasMore
  {
    assert ShowsPages(Loaded(list), list, 1);
    PagingShowsAll(Loaded(list), list, 1, seq(n, _ => Turn([], true)));
  }

  // Refreshes at any moment: pages are served at one time and arrive at another, loads overlap, and the
  // server's list grows at its head all the while.

  // list is the server's; loads holds for each loadBookings under way the list its page was served from, once
  // it was; more the same for the further page under way; first is the list the load that last landed saw.
  datatype Web = Web(
    list: seq<string>,
    store: State,
    loads: seq<Option<seq<string>>>,
    more: Option<seq<string>>,
    first: seq<string>)

  datatype Happening =
    | Grow(heads: seq<string>)
    | AskFirst
    | ServeFirst(k: nat)
    | FirstLands(k: nat)
    | FirstFails(k: nat)
    | AskMore
    | ServeMore
    | MoreLands
    | MoreFails

  function Dropped(loads: seq<Option<seq<string>>>, k: nat): seq<Option<seq<string>>>
    requires k < |loads|
  {
    loads[..k] + loads[k + 1..]
  }

  function Happens(w: Web, h: Happening): Web {
    match h
    case Grow(heads) => w.(list := heads + w.list)
    case AskFirst => w.(store := Next(w.store, StartLoad), loads := w.loads + [None])
    case ServeFirst(k) => if k < |w.loads| then w.(loads := w.loads[k := Some(w.list)]) else w
    case FirstLands(k) =>
      if k < |w.loads| && w.loads[k].Some? then
        var seen := w.loads[k].value;
        w.(store := Next(w.store, LoadArrives(Some(PageOf(seen, 1)))), loads := Dropped(w.loads, k), first := seen)
      else w
    case FirstFails(k) =>
      if k < |w.loads| then w.(store := Next(w.store, LoadArrives(None)), loads := Dropped(w.loads, k)) else w
    case AskMore =>
      if w.store.hasMore && !w.store.loadingMore then w.(store := Next(w.store, StartMore), more := None) else w
    case ServeMore => if w.store.more != [] then w.(more := Some(w.list)) else w
    case MoreLands =>
      if w.store.more != [] && w.more.Some? then
        w.(store := Next(w.store, MoreArrives(0, Some(PageOf(w.more.value, w.store.more[0] + 1)))), more := None)
      else w
    case MoreFails =>
      if w.store.more != [] then w.(store := Next(w.store, MoreArrives(0, None)), more := None) else w
  }

  function Happened(w: Web, hs: seq<Happening>): Web
    decreases |hs|
  {
    if hs == [] then w else Happened(Happens(w, hs[0]), hs[1..])
  }

  predicate Suffix(a: seq<string>, b: seq<string>) {
    |a| <= |b| && b[|b| - |a|..] == a
  }

  // Undisturbed, asking for a further page, its being served and its landing or failing are one turn.
  lemma RoundIsTurn(w: Web, heads: seq<string>, served: bool)
    requires w.store.more == [] && !w.store.loadingMore && w.store.page >= 1 && w.more.None?
    ensures var end := Happened(w, [Grow(heads), AskMore, ServeMore, if served then MoreLands else MoreFails]);
      && Session(end.list, end.store) == Turned(Session(w.list, w.store), Turn(heads, served))
      && end.more.None? && end.loads == w.loads && end.first == w.first
  {
    var last := if served then MoreLands else MoreFails;
    var w1 := Happens(w, Grow(heads));
    var w2 := Happens(w1, AskMore);
    var w3 := Happens(w2, ServeMore);
    assert [Grow(heads), AskMore, ServeMore, last][1..] == [AskMore, ServeMore, last];
    assert [AskMore, ServeMore, last][1..] == [ServeMore, last] && [ServeMore, last][1..] == [last];
    assert Happened(w2, [ServeMore, last]) == Happened(w3, [last]) == Happened(Happens(w3, last), []);
    assert Happened(w, [Grow(heads), AskMore, ServeMore, last]) == Happened(w1, [AskMore, ServeMore, last]);
    hide PageOf, UniqueNew;
  }

  // A further page lands that was served before the load that landed last, from a list without its newest rows,
  // while the page number, back at 1, still matches.
  predicate Stale(w: Web, h: Happening) {
    && h.MoreLands?
    && w.store.more != [] && w.more.Some?
    && w.store.more[0] == w.store.page
    && !Suffix(w.first, w.more.value)
  }

  predicate NeverStale(w: Web, hs: seq<Happening>)
    decreases |hs|
  {
    hs != [] ==> !Stale(w, hs[0]) && NeverStale(Happens(w, hs[0]), hs[1..])
  }

  // Of the rows of the list last loaded those shown are its first ones, and all of them if there is no more.
  predicate Gapless(w: Web) {
    && OldRows(w.store.bookings, w.first) <= w.first
    && (!w.store.hasMore ==> OldRows(w.store.bookings, w.first) == w.first)
  }

  predicate AlwaysGapless(w: Web, hs: seq<Happening>)
    decreases |hs|
  {
    Gapless(w) && (hs != [] ==> AlwaysGapless(Happens(w, hs[0]), hs[1..]))
  }

  // Of the rows of first, as many are loaded as the pages so far reach, seen from a list that has first at its end.
  ghost predicate Reaches(list: seq<string>, first: seq<string>, bookings: seq<string>, page: nat) {
    && Suffix(first, list)
    && OldRows(bookings, first) <= first
    && Clip(LIMIT * page - (|list| - |first|), |first|) <= |OldRows(bookings, first)|
  }

  // What a page served from a list may find when it lands: that list has first at its end, or a first page has just
  // been shown and the page is stale.
  ghost predicate Awaits(served: seq<string>, first: seq<string>, bookings: seq<string>, page: nat) {
    if Suffix(first, served) then Reaches(served, first, bookings, page)
    else page == 1 && bookings == PageOf(first, 1).ids
  }

  ghost predicate Consistent(w: Web) {
    && Reaches(w.list, w.first, w.store.bookings, w.store.page)
    && w.store.page >= 1
    && (if w.store.hasMore then |w.list| > LIMIT * w.store.page
        else OldRows(w.store.bookings, w.first) == w.first)
    && w.store.loads == |w.loads|
    && (forall k | 0 <= k < |w.loads| :: w.loads[k].Some? ==> Suffix(w.loads[k].value, w.list))
    && |w.store.more| == (if w.store.loadingMore then 1 else 0)
    && (w.store.more != [] ==> w.store.more[0] >= 1 && |w.list| > LIMIT * w.store.more[0])
    && (w.store.more != [] && w.more.Some? ==>
          && Suffix(w.more.value, w.list) && |w.more.value| > LIMIT * w.store.more[0]
          && (w.store.more[0] == w.store.page ==>
                Awaits(w.more.value, w.first, w.store.bookings, w.store.page)))
  }

  lemma SuffixGrows(a: seq<string>, b: seq<string>, heads: seq<string>)
    requires Suffix(a, b)
    ensures Suffix(a, heads + b)
  {
    assert (heads + b)[|heads + b| - |a|..] == b[|b| - |a|..];
  }

  lemma SuffixIsDistinct(a: seq<string>, b: seq<string>)
    requires Suffix(a, b) && Distinct(b)
    ensures Distinct(a) && b == b[..|b| - |a|] + a
  {
    assert b == b[..|b| - |a|] + a;
    DistinctSuffix(b[..|b| - |a|], a);
  }

  lemma GrowKeepsConsistent(w: Web, heads: seq<string>)
    requires Consistent(w)
    ensures Consistent(Happens(w, Grow(heads)))
  {
    SuffixGrows(w.first, w.list, heads);
    forall k | 0 <= k < |w.loads| && w.loads[k].Some? ensures Suffix(w.loads[k].value, heads + w.list) {
      SuffixGrows(w.loads[k].value, w.list, heads);
    }
    if w.more.Some? && Suffix(w.more.value, w.list) { SuffixGrows(w.more.value, w.list, heads); }
  }

  lemma FirstPageReaches(seen: seq<string>, list: seq<string>)
    requires Suffix(seen, list) && Distinct(list)
    ensures var page := PageOf(seen, 1);
      && Reaches(list, seen, page.ids, 1)
      && (if HasMore(page) then |list| > LIMIT else OldRows(page.ids, seen) == seen)
  {
    var n := Clip(LIMIT, |seen|);
    assert PageOf(seen, 1).ids == seen[..n];
    AllOldRows(seen[..n], seen);
    assert seen[..|seen|] == seen;
  }

  lemma FirstKeepsConsistent(w: Web, k: nat)
    requires Consistent(w) && Distinct(w.list)
    ensures Consistent(Happens(w, FirstLands(k)))
  {
    hide Reaches, Suffix, PageOf, OldRows, UniqueNew;
    if k < |w.loads| && w.loads[k].Some? {
      var seen := w.loads[k].value;
      FirstPageReaches(seen, w.list);
      if w.store.more != [] && w.more.Some? && Suffix(seen, w.more.value) {
        SuffixIsDistinct(w.more.value, w.list);
        FirstPageReaches(seen, w.more.value);
      }
    }
  }

  lemma PageReaches(served: seq<string>, first: seq<string>, shown: seq<string>, page: nat)
    requires Distinct(served) && Reaches(served, first, shown, page)
    ensures var next := PageOf(served, page + 1);
      var after := shown + UniqueNew(next.ids, shown);
      && Reaches(served, first, after, page + 1)
      && (if HasMore(next) then |served| > LIMIT * (page + 1) else OldRows(after, first) == first)
  {
    SuffixIsDistinct(first, served);
    var heads, n := served[..|served| - |first|], |OldRows(shown, first)|;
    assert OldRows(shown, first) == first[..n];
    ServedExtends(shown, first, heads, n, page);
    var b := Clip(LIMIT * (page + 1) - |heads|, |first|);
    assert first[..|first|] == first;
  }

  lemma ReachesStill(served: seq<string>, list: seq<string>, first: seq<string>, shown: seq<string>, page: nat)
    requires Suffix(served, list) && Reaches(served, first, shown, page)
    ensures |served| <= |list| && Reaches(list, first, shown, page)
  {
    assert list[|list| - |first|..] == served[|served| - |first|..];
  }

  lemma MoreKeepsConsistent(w: Web)
    requires Consistent(w) && Distinct(w.list) && !Stale(w, MoreLands)
    ensures Consistent(Happens(w, MoreLands))
  {
    hide Reaches, Suffix, PageOf, OldRows, Distinct, UniqueNew;
    if w.store.more != [] && w.more.Some? && w.store.more[0] == w.store.page {
      var served, first, shown, page := w.more.value, w.first, w.store.bookings, w.store.page;
      SuffixIsDistinct(served, w.list);
      PageReaches(served, first, shown, page);
      var after := shown + UniqueNew(PageOf(served, page + 1).ids, shown);
      ReachesStill(served, w.list, first, after, page + 1);
    }
  }

  lemma HappensKeepsConsistent(w: Web, h: Happening)
    requires Consistent(w) && Distinct(w.list) && !Stale(w, h)
    ensures Consistent(Happens(w, h))
  {
    hide PageOf, OldRows, UniqueNew;
    match h
    case Grow(heads) => GrowKeepsConsistent(w, heads);
    case FirstLands(k) => FirstKeepsConsistent(w, k);
    case MoreLands => MoreKeepsConsistent(w);
    case _ =>
  }

  // A stale page shows a row of the list last loaded that does not come next.

  lemma LaterRowUnseen(list: seq<string>, heads: seq<string>, i: nat)
    requires Distinct(heads + list) && LIMIT <= |heads| + i && i < |list|
    ensures list[i] !in (heads + list)[..LIMIT]
  {
    var grown := heads + list;
    assert grown[|heads| + i] == list[i];
    forall j | 0 <= j < LIMIT ensures grown[..LIMIT][j] != list[i] { assert grown[j] != grown[|heads| + i]; }
  }

  lemma StalePage(list: seq<string>, heads: seq<string>)
    requires Distinct(heads + list) && |list| > LIMIT
    ensures var shown, page := PageOf(heads + list, 1).ids, PageOf(list, 2).ids;
      && shown == (heads + list)[..LIMIT] && UniqueNew(page, shown) == page
      && (shown + page <= heads + list <==> heads == [])
  {
    var grown, shown, page := heads + list, (heads + list)[..LIMIT], PageOf(list, 2).ids;
    var to := Clip(2 * LIMIT, |list|);
    assert PageOf(grown, 1).ids == shown && page == list[LIMIT..to];
    hide PageOf;
    forall k | 0 <= k < |page| ensures page[k] !in shown { LaterRowUnseen(list, heads, LIMIT + k); }
    AllUnseen(page, shown);
    if heads == [] {
      assert grown == list && shown + page == list[..to];
    } else {
      assert (shown + page)[LIMIT] == list[LIMIT] == grown[|heads| + LIMIT] != grown[LIMIT];
    }
  }

  lemma StaleRowsAreNoPrefix(first: seq<string>, served: seq<string>)
    requires Distinct(first) && Suffix(served, first) && served != first && |served| > LIMIT
    ensures var shown := PageOf(first, 1).ids;
      !(OldRows(shown + UniqueNew(PageOf(served, 2).ids, shown), first) <= first)
  {
    var heads, ids := first[..|first| - |served|], PageOf(served, 2).ids;
    assert first == heads + served;
    StalePage(served, heads);
    assert [] + served == served;
    var after := first[..LIMIT] + ids;
    forall x | x in after ensures x in first { if x in ids { assert x in served; } }
    hide PageOf, Distinct;
    AllOldRows(after, first);
  }

  lemma SuffixesNest(a: seq<string>, b: seq<string>, list: seq<string>)
    requires Suffix(a, list) && Suffix(b, list) && !Suffix(a, b)
    ensures Suffix(b, a) && a != b
  {
    if |a| > |b| { assert a[|a| - |b|..] == list[|list| - |b|..]; }
  }

  lemma StaleLandingLeavesGap(w: Web, h: Happening)
    requires Consistent(w) && Distinct(w.list) && Stale(w, h)
    ensures !Gapless(Happens(w, h))
  {
    hide Suffix, OldRows, UniqueNew, PageOf, Distinct;
    SuffixIsDistinct(w.first, w.list);
    SuffixesNest(w.first, w.more.value, w.list);
    StaleRowsAreNoPrefix(w.first, w.more.value);
  }

  // What the server holds in the end holds what it held before.
  lemma {:induction false} ListGrows(w: Web, hs: seq<Happening>)
    ensures Suffix(w.list, Happened(w, hs).list)
    decreases |hs|
  {
    if hs != [] {
      var w' := Happens(w, hs[0]);
      ListGrows(w', hs[1..]);
      var end := Happened(w', hs[1..]).list;
      if hs[0].Grow? {
        assert w'.list[|hs[0].heads|..] == w.list;
        assert end[|end| - |w.list|..] == end[|end| - |w'.list|..][|hs[0].heads|..];
      }
    }
  }

  lemma {:induction false} GaplessIff(w: Web, hs: seq<Happening>)
    requires Consistent(w) && Distinct(Happened(w, hs).list)
    ensures AlwaysGapless(w, hs) <==> NeverStale(w, hs)
    decreases |hs|
  {
    if hs != [] {
      var w', rest := Happens(w, hs[0]), hs[1..];
      ListGrows(w, hs);
      SuffixIsDistinct(w.list, Happened(w, hs).list);
      hide Happens, Stale, Distinct;
      if Stale(w, hs[0]) {
        StaleLandingLeavesGap(w, hs[0]);
        assert !AlwaysGapless(w', rest);
      } else {
        HappensKeepsConsistent(w, hs[0]);
        GaplessIff(w', rest);
      }
    }
  }

  // Under every interleaving of refreshes and further pages, from an empty store on: the rows of the list last
  // loaded appear in order and without a gap at every moment, and all of them while the store believes there is no
  // more, exactly when no further page lands that was served before that load.
  lemma RefreshedPagingLosesNothingIff(list: seq<string>, hs: seq<Happening>)
    requires Distinct(Happened(Web(list, State([], 1, false, false, 0, []), [], None, []), hs).list)
    ensures var start := Web(list, State([], 1, false, false, 0, []), [], None, []);
      AlwaysGapless(start, hs) <==> NeverStale(start, hs)
  {
    var start := Web(list, State([], 1, false, false, 0, []), [], None, []);
    assert Consistent(start);
    GaplessIff(start, hs);
  }

  lemma OvertakenEnd(s: State, newer: Page, late: Page)
    requires s.more == [1]
    ensures var reloaded := Next(Next(s, StartLoad), LoadArrives(Some(newer)));
      Next(reloaded, MoreArrives(0, Some(late))).bookings == newer.ids + UniqueNew(late.ids, newer.ids)
  {
  }

  // Page 2 asked for, served, and overtaken by a whole load: what is shown then is a stretch of the server's list
  // exactly when nothing arrived on it in between.
  lemma StalePageLeavesGapIff(list: seq<string>, heads: seq<string>, s: State)
    requires Distinct(heads + list) && |list| > LIMIT && s.more == [1]
    ensures var reloaded := Next(Next(s, StartLoad), LoadArrives(Some(PageOf(heads + list, 1))));
      var end := Next(reloaded, MoreArrives(0, Some(PageOf(list, 2))));
      end.bookings <= heads + list <==> heads == []
  {
    StalePage(list, heads);
    OvertakenEnd(s, PageOf(heads + list, 1), PageOf(list, 2));
    hide Next, PageOf, UniqueNew, Distinct;
  }

  // So one row created in between already leaves out a row of the list: the last of its first page.
  lemma StalePageLeavesGap(list: seq<string>, heads: seq<string>, s: State)
    requires Distinct(heads + list) && |list| > LIMIT && heads != [] && s.more == [1]
    ensures var reloaded := Next(Next(s, StartLoad), LoadArrives(Some(PageOf(heads + list, 1))));
      var end := Next(reloaded, MoreArrives(0, Some(PageOf(list, 2))));
      list[LIMIT] in end.bookings && list[LIMIT - 1] !in end.bookings
  {
    var page := PageOf(list, 2).ids;
    StalePage(list, heads);
    OvertakenEnd(s, PageOf(heads + list, 1), PageOf(list, 2));
    LaterRowUnseen(list, heads, LIMIT - 1);
    DistinctSuffix(heads, list);
    assert page[0] == list[LIMIT];
    forall j | 0 <= j < |page| ensures page[j] != list[LIMIT - 1] { assert page[j] == list[LIMIT + j]; }
  }
}
