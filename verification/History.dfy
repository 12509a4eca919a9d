/**
 Paged thread history (src/imcodex/appserver/thread_backend.py): walking the server's cursors against
 slicing the full list. Turns are opaque; a history lists them oldest first.
 */
module History {
  import opened Prelude

  datatype Error = UnsupportedMethod | RepeatedCursor

  // What `turns/list` answers: newest first, and the cursor of the next page or "" at the end.
  datatype Payload<T> = Payload(turns: seq<T>, nextCursor: string)

  /**
   A server with an unchanging history. `cursorAt(p)` names the page that skips the p newest turns;
   an old server does not have the paging method.
   */
  datatype Server<T> = Server(history: seq<T>, supported: bool, cursorAt: nat -> string)

  ghost predicate GoodCursors<T>(server: Server<T>) {
    && (forall p: nat :: server.cursorAt(p) != "")
    && (forall p: nat, q: nat ::
          p < |server.history| && q < |server.history| && server.cursorAt(p) == server.cursorAt(q) ==> p == q)
  }

  function Reversed<T>(turns: seq<T>): (r: seq<T>)
    ensures |r| == |turns|
    ensures forall i :: 0 <= i < |r| ==> r[i] == turns[|turns| - 1 - i]
  {
    if turns == [] then [] else Reversed(turns[1..]) + [turns[0]]
  }

  // How many turns a cursor skips.
  function Position<T>(server: Server<T>, cursor: string, p: nat): (q: nat)
    requires p <= |server.history|
    ensures q <= |server.history|
    ensures forall i: nat :: p <= i < q ==> server.cursorAt(i) != cursor
    ensures q < |server.history| ==> server.cursorAt(q) == cursor
    decreases |server.history| - p
  {
    if p == |server.history| || server.cursorAt(p) == cursor then p else Position(server, cursor, p + 1)
  }

  // The server's side of `list_thread_turns` with `sort_direction: desc`.
  function ListTurns<T>(server: Server<T>, cursor: Option<string>, limit: nat): Result<Payload<T>, Error> {
    if !server.supported then Err(UnsupportedMethod)
    else
      var skipped := match cursor case None => 0 case Some(c) => Position(server, c, 0);
      var end := |server.history| - skipped;
      var start := if end > limit then end - limit else 0;
      Ok(Payload(Reversed(server.history[start..end]), if start > 0 then server.cursorAt(skipped + limit) else ""))
  }

  datatype Page<T> = Page(turns: seq<T>, page: int, hasOlder: bool)

  function Max(a: int, b: int): int {
    if a >= b then a else b
  }

  // How many turns the pages before this one hold.
  function Skip(page: int, limit: int): int {
    (page - 1) * limit
  }

  // The page of the full list, counted from its newest end.
  function FullListPage<T>(turns: seq<T>, limit: int, page: int): Page<T>
    requires limit >= 1 && page >= 1
  {
    SkipGrows(1, page, limit);
    PageAfter(turns, limit, Skip(page, limit), page)
  }

  function PageAfter<T>(turns: seq<T>, limit: int, skip: int, page: int): Page<T>
    requires limit >= 1 && skip >= 0
  {
    var end := Max(0, |turns| - skip);
    var start := Max(0, end - limit);
    Page(turns[start..end], page, start > 0)
  }

  lemma SkipStep(page: int, limit: int)
    ensures Skip(1, limit) == 0
    ensures Skip(page + 1, limit) == Skip(page, limit) + limit
  {
  }

  lemma SkipGrows(a: int, b: int, limit: int)
    requires 1 <= a <= b && limit >= 1
    ensures 0 <= Skip(a, limit) <= Skip(b, limit)
    decreases b
  {
    hide Skip;
    if a == b {
      if a > 1 {
        SkipGrows(1, a - 1, limit);
        SkipStep(a - 1, limit);
      } else {
        SkipStep(a, limit);
      }
    } else {
      SkipGrows(a, b - 1, limit);
      SkipStep(b - 1, limit);
    }
  }

  // `read_thread_history`: both ways of reading give the same page, for every limit and page.
  method ReadThreadHistory<T>(server: Server<T>, limit: int, page: int) returns (r: Result<Page<T>, Error>)
    requires GoodCursors(server)
    ensures r == Ok(FullListPage(server.history, Max(1, limit), Max(1, page)))
  {
    var safeLimit := Max(1, limit);
    var safePage := Max(1, page);
    r := WalkCursors(server, safeLimit, safePage);
    if r == Err(UnsupportedMethod) {
      var turns := server.history;
      SkipGrows(1, safePage, safeLimit);
      var end := Max(0, |turns| - (safePage - 1) * safeLimit);
      var start := Max(0, end - safeLimit);
      r := Ok(Page(turns[start..end], safePage, start > 0));
    }
  }

  method WalkCursors<T>(server: Server<T>, limit: nat, page: nat) returns (r: Result<Page<T>, Error>)
    requires GoodCursors(server) && limit >= 1 && page >= 1
    ensures r == if server.supported then Ok(FullListPage(server.history, limit, page)) else Err(UnsupportedMethod)
  {
    hide Reversed, Skip, GoodCursors, ListTurns, AfterCursor;
    var cursor: Option<string> := None;
    var seenCursors: set<string> := {};
    ghost var skipped := 0;
    SkipStep(1, limit);
    var pageNumber := 1;
    while pageNumber <= page
      invariant 1 <= pageNumber <= page
      invariant skipped == Skip(pageNumber, limit)
      invariant AtCursor(server, cursor, skipped)
      invariant forall c :: c in seenCursors ==> AfterCursor(server, c, skipped)
      decreases page - pageNumber
    {
      var answer := ListTurns(server, cursor, limit);
      if !server.supported {
        UnsupportedAnswer(server, cursor, limit);
        return Err(answer.error);
      }
      AnswerIsPage(server, cursor, limit, skipped, pageNumber);
      var turns := Reversed(answer.value.turns);
      var nextCursor := answer.value.nextCursor;
      if pageNumber == page {
        return Ok(Page(turns, page, nextCursor != ""));
      }
      SkipStep(pageNumber, limit);
      if nextCursor == "" {
        SkipGrows(pageNumber + 1, page, limit);
        return Ok(Page([], page, false));
      }
      CursorsAdvance(server, seenCursors, skipped, skipped + limit);
      if nextCursor in seenCursors {
        return Err(RepeatedCursor);
      }
      seenCursors := seenCursors + {nextCursor};
      cursor := Some(nextCursor);
      skipped := skipped + limit;
      pageNumber := pageNumber + 1;
    }
    assert false;
  }

  ghost predicate AtCursor<T>(server: Server<T>, cursor: Option<string>, skipped: nat) {
    && (skipped == 0 || skipped < |server.history|)
    && cursor == if skipped == 0 then None else Some(server.cursorAt(skipped))
  }

  // c names a page the walk has already asked for.
  ghost predicate AfterCursor<T>(server: Server<T>, c: string, skipped: nat) {
    exists q: nat :: 0 < q <= skipped && c == server.cursorAt(q)
  }

  lemma CursorsAdvance<T>(server: Server<T>, seen: set<string>, skipped: nat, later: nat)
    requires GoodCursors(server) && skipped < later < |server.history|
    requires forall c :: c in seen ==> AfterCursor(server, c, skipped)
    ensures server.cursorAt(later) !in seen
    ensures forall c :: c in seen ==> AfterCursor(server, c, later)
    ensures AfterCursor(server, server.cursorAt(later), later)
  {
  }

  lemma UnsupportedAnswer<T>(server: Server<T>, cursor: Option<string>, limit: nat)
    requires !server.supported
    ensures ListTurns(server, cursor, limit) == Err(UnsupportedMethod)
  {
  }

  // A page of the server is the page of the full list.
  lemma AnswerIsPage<T>(server: Server<T>, cursor: Option<string>, limit: nat, skipped: nat, page: int)
    requires GoodCursors(server) && server.supported && limit >= 1 && AtCursor(server, cursor, skipped)
    ensures var answer := ListTurns(server, cursor, limit);
            var wanted := PageAfter(server.history, limit, skipped, page);
            && answer.Ok?
            && Reversed(answer.value.turns) == wanted.turns
            && (answer.value.nextCursor != "" <==> wanted.hasOlder)
            && (wanted.hasOlder <==> skipped + limit < |server.history|)
            && (wanted.hasOlder ==> answer.value.nextCursor == server.cursorAt(skipped + limit))
  {
    hide ListTurns, Reversed;
    var end := |server.history| - skipped;
    var start := Max(0, end - limit);
    AnswerAt(server, cursor, limit, skipped, start, end);
    ReversedTwice(server.history[start..end]);
  }

  lemma AnswerAt<T>(server: Server<T>, cursor: Option<string>, limit: nat, skipped: nat, start: nat, end: nat)
    requires GoodCursors(server) && server.supported && limit >= 1 && AtCursor(server, cursor, skipped)
    requires end == |server.history| - skipped && start == Max(0, end - limit)
    ensures ListTurns(server, cursor, limit)
         == Ok(Payload(Reversed(server.history[start..end]),
                       if start > 0 then server.cursorAt(skipped + limit) else ""))
  {
    hide Position, Reversed;
    if skipped > 0 {
      PositionFound(server, skipped);
    }
  }

  // The server finds the place its own cursor names.
  lemma PositionFound<T>(server: Server<T>, skipped: nat)
    requires GoodCursors(server) && skipped < |server.history|
    ensures Position(server, server.cursorAt(skipped), 0) == skipped
  {
    hide Position;
    assert Position(server, server.cursorAt(skipped), 0) <= skipped;
  }

  lemma ReversedTwice<T>(turns: seq<T>)
    ensures Reversed(Reversed(turns)) == turns
  {
  }

  // ---- The pages of a history ----

  // Pages m to 1, oldest page first.
  function FirstPages<T>(history: seq<T>, limit: nat, m: nat): seq<T>
    requires limit >= 1
  {
    if m == 0 then [] else FullListPage(history, limit, m).turns + FirstPages(history, limit, m - 1)
  }

  // Together the pages are the newest turns in order, each turn on exactly one page, and a page has
  // older turns exactly when the pages up to it leave some out.
  lemma {:induction false} PagesCoverHistory<T>(history: seq<T>, limit: nat, m: nat)
    requires limit >= 1
    ensures FirstPages(history, limit, m) == history[Max(0, |history| - m * limit)..]
    ensures m >= 1 ==> (FullListPage(history, limit, m).hasOlder <==> m * limit < |history|)
    ensures m >= 1 ==> FullListPage(history, limit, m).page == m
  {
    if m > 0 {
      hide FullListPage;
      PagesCoverHistory(history, limit, m - 1);
      var middle := Max(0, |history| - (m - 1) * limit);
      var start := Max(0, |history| - m * limit);
      PageIs(history, limit, m, start, middle);
      JoinSlices(history, start, middle);
    }
  }

  lemma PageIs<T>(history: seq<T>, limit: nat, m: nat, start: nat, middle: nat)
    requires limit >= 1 && m >= 1
    requires middle == Max(0, |history| - (m - 1) * limit) && start == Max(0, |history| - m * limit)
    ensures start <= middle <= |history|
    ensures FullListPage(history, limit, m).turns == history[start..middle]
    ensures FullListPage(history, limit, m).hasOlder <==> m * limit < |history|
    ensures FullListPage(history, limit, m).page == m
  {
    SkipIs(m, limit);
    SkipGrows(1, m, limit);
    hide Skip;
    assert m * limit == (m - 1) * limit + limit;
  }

  lemma SkipIs(m: nat, limit: nat)
    requires m >= 1
    ensures Skip(m, limit) == (m - 1) * limit && (m - 1) * limit >= 0
  {
  }

  lemma JoinSlices<T>(s: seq<T>, start: nat, middle: nat)
    requires start <= middle <= |s|
    ensures s[start..middle] + s[middle..] == s[start..]
  {
  }
}
