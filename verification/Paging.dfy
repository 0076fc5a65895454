/**
 * The paging loops: draining the global feed in pages, and reading a scored index in
 * pages. Against an arbitrary store they terminate because the cursor must advance;
 * against a fixed index they return exactly what one unlimited read would.
 */
module Paging {
  import opened Common
  import opened EventLog

  const GLOBAL_REPLAY_PAGE_SIZE: nat := 500
  const SEQUENCE_PAGE_SIZE: nat := 500

  /** An arbitrary store: its answer may depend on the call number, the cursor and the limit. */
  type Feed<!Id, !E, !R> = (nat, Option<nat>, nat) -> Result<seq<Envelope<Id, E>>, R>

  ghost predicate BoundedPage<Id, E>(page: Log<Id, E>) {
    forall i | 0 <= i < |page| && page[i].sequence.Some? :: page[i].sequence.value <= U64_MAX
  }

  /** Sequences are 64-bit unsigned. */
  ghost predicate SixtyFourBit<Id(!new), E(!new), R(!new)>(feed: Feed<Id, E, R>) {
    forall call, cursor, limit | feed(call, cursor, limit).Ok? :: BoundedPage(feed(call, cursor, limit).value)
  }

  /** A store whose feed is `log` and does not change between calls. */
  ghost predicate Serves<Id(!new), E(!new), R(!new)>(feed: Feed<Id, E, R>, log: Log<Id, E>) {
    forall call, cursor, limit :: feed(call, cursor, limit) == Ok(Take(After(log, cursor), limit))
  }

  /** Feed order: every event has a sequence, strictly increasing. */
  ghost predicate FeedOrdered<Id, E>(log: Log<Id, E>) {
    && (forall i | 0 <= i < |log| :: log[i].sequence.Some?)
    && (forall i, j | 0 <= i < j < |log| :: log[i].sequence.value < log[j].sequence.value)
  }

  /** In feed order, what lies after a position is a suffix of the log. */
  lemma AfterIsTail<Id, E>(log: Log<Id, E>, after: Option<nat>) returns (start: nat)
    requires FeedOrdered(log)
    ensures start <= |log| && After(log, after) == log[start..]
    ensures forall i | 0 <= i < start :: !IsAfter(log[i], after)
    ensures forall i | start <= i < |log| :: IsAfter(log[i], after)
  {
    start := 0;
    while start < |log| && !IsAfter(log[start], after)
      invariant start <= |log|
      invariant forall i | 0 <= i < start :: !IsAfter(log[i], after)
    {
      start := start + 1;
    }
    forall i | start <= i < |log| ensures IsAfter(log[i], after) {
      if i > start { assert log[start].sequence.value < log[i].sequence.value; }
    }
    FilterIsTail(log, (e: Envelope<Id, E>) => IsAfter(e, after), start);
  }

  /** Events `from..to` have been read; everything from `to` on lies past the cursor. */
  ghost predicate LogRead<Id, E>(log: Log<Id, E>, from: nat, to: nat, cursor: Option<nat>, all: Log<Id, E>) {
    && from <= to <= |log|
    && all == log[from..to]
    && (forall i | 0 <= i < |log| :: (IsAfter(log[i], cursor) <==> i >= to))
  }

  /** The page a fixed feed serves at this point. */
  lemma LogPageAt<Id, E>(log: Log<Id, E>, from: nat, to: nat, cursor: Option<nat>, all: Log<Id, E>, size: nat)
    requires FeedOrdered(log) && LogRead(log, from, to, cursor, all)
    ensures Take(After(log, cursor), size) == log[to..if |log| <= to + size then |log| else to + size]
  {
    FilterIsTail(log, (e: Envelope<Id, E>) => IsAfter(e, cursor), to);
  }

  function LastSequence<Id, E>(page: Log<Id, E>): Option<nat> {
    if page == [] then None else page[|page| - 1].sequence
  }

  /** After a page of a fixed feed: the cursor moved to its last event, and a short page was the end. */
  ghost predicate PageMoved<Id, E>(
    log: Log<Id, E>, from: nat, to: nat, cursor: Option<nat>, all: Log<Id, E>, page: Log<Id, E>, size: nat)
  {
    && LogRead(log, from, to + |page|, if page == [] then cursor else LastSequence(page), all + page)
    && (|page| < size ==> to + |page| == |log|)
    && (page != [] ==> LastSequence(page).Some? && (cursor.Some? ==> LastSequence(page).value > cursor.value))
  }

  lemma LogPageMoves<Id, E>(
    log: Log<Id, E>, from: nat, to: nat, cursor: Option<nat>, all: Log<Id, E>, page: Log<Id, E>, size: nat)
    requires FeedOrdered(log) && LogRead(log, from, to, cursor, all)
    requires page == Take(After(log, cursor), size)
    ensures PageMoved(log, from, to, cursor, all, page, size)
  {
    LogPageAt(log, from, to, cursor, all, size);
    assert all + page == log[from..to + |page|];
    if page != [] {
      assert LastSequence(page) == log[to + |page| - 1].sequence;
      assert IsAfter(log[to + |page| - 1], cursor);
    }
  }

  /** Distance of a cursor from the end of the 64-bit range: the loops' measure. */
  function Left(cursor: Option<nat>): nat {
    if cursor.None? then U64_MAX + 1 else if cursor.value <= U64_MAX then U64_MAX - cursor.value else 0
  }

  /** One call to the store, with what it means if the store serves `log`. */
  method FetchPage<Id(!new), E(!new), R(!new)>(
    feed: Feed<Id, E, R>, call: nat, cursor: Option<nat>, size: nat,
    ghost log: Log<Id, E>, ghost from: nat, ghost to: nat, ghost all: Log<Id, E>)
    returns (answer: Result<Log<Id, E>, R>)
    requires SixtyFourBit(feed)
    requires FeedOrdered(log) && Serves(feed, log) ==> LogRead(log, from, to, cursor, all)
    ensures answer == feed(call, cursor, size)
    ensures answer.Ok? ==> BoundedPage(answer.value)
    ensures FeedOrdered(log) && Serves(feed, log) ==>
      answer.Ok? && PageMoved(log, from, to, cursor, all, answer.value, size)
  {
    answer := feed(call, cursor, size);
    if FeedOrdered(log) && Serves(feed, log) {
      LogPageMoves(log, from, to, cursor, all, answer.value, size);
    }
  }

  /** The pages one after the other. */
  function Joined<T>(pages: seq<seq<T>>): seq<T> {
    if pages == [] then [] else Joined(pages[..|pages| - 1]) + pages[|pages| - 1]
  }

  /** Where the call for page `k` starts reading. */
  function CursorAt<Id, E>(sequence: Option<nat>, pages: seq<Log<Id, E>>, k: nat): Option<nat>
    requires k <= |pages|
  {
    if k == 0 then sequence else LastSequence(pages[k - 1])
  }

  /** A full page that moved the position asks for another one. */
  predicate AsksForMore<Id, E>(page: Log<Id, E>, cursor: Option<nat>) {
    && |page| >= GLOBAL_REPLAY_PAGE_SIZE && LastSequence(page).Some?
    && (cursor.Some? ==> LastSequence(page).value > cursor.value)
  }

  /** Page `k` is what the store answered behind the pages before it. */
  ghost predicate IsAnswer<Id, E, R>(feed: Feed<Id, E, R>, sequence: Option<nat>, pages: seq<Log<Id, E>>, k: nat) {
    k < |pages| && feed(k, CursorAt(sequence, pages, k), GLOBAL_REPLAY_PAGE_SIZE) == Ok(pages[k])
  }

  ghost predicate HasNext<Id, E>(sequence: Option<nat>, pages: seq<Log<Id, E>>, k: nat) {
    k < |pages| && AsksForMore(pages[k], CursorAt(sequence, pages, k))
  }

  /** All pages are answers of the store, and the first `n` each ask for the next. */
  ghost predicate Drained<Id, E, R>(feed: Feed<Id, E, R>, sequence: Option<nat>, pages: seq<Log<Id, E>>, n: nat) {
    && n <= |pages|
    && (forall k | 0 <= k < |pages| :: IsAnswer(feed, sequence, pages, k))
    && (forall k | 0 <= k < n :: HasNext(sequence, pages, k))
  }

  lemma DrainsNothing<Id, E, R>(feed: Feed<Id, E, R>, sequence: Option<nat>)
    ensures Drained(feed, sequence, [], 0) && CursorAt<Id, E>(sequence, [], 0) == sequence
    ensures Joined<Envelope<Id, E>>([]) == []
  {
  }

  lemma DrainsOneMore<Id, E, R>(
    feed: Feed<Id, E, R>, sequence: Option<nat>, pages: seq<Log<Id, E>>, page: Log<Id, E>)
    requires Drained(feed, sequence, pages, |pages|)
    requires feed(|pages|, CursorAt(sequence, pages, |pages|), GLOBAL_REPLAY_PAGE_SIZE) == Ok(page)
    ensures Drained(feed, sequence, pages + [page], |pages|)
    ensures AsksForMore(page, CursorAt(sequence, pages, |pages|)) ==>
      Drained(feed, sequence, pages + [page], |pages| + 1)
    ensures CursorAt(sequence, pages + [page], |pages|) == CursorAt(sequence, pages, |pages|)
    ensures CursorAt(sequence, pages + [page], |pages| + 1) == LastSequence(page)
  {
    hide LastSequence, AsksForMore;
    var more := pages + [page];
    forall k | 0 <= k < |pages| ensures IsAnswer(feed, sequence, more, k) && HasNext(sequence, more, k) {
      assert IsAnswer(feed, sequence, pages, k) && HasNext(sequence, pages, k);
      assert more[k] == pages[k];
    }
  }

  lemma JoinedPush<T>(pages: seq<seq<T>>, page: seq<T>)
    ensures Joined(pages + [page]) == Joined(pages) + page
  {
    assert (pages + [page])[..|pages|] == pages;
  }

  /**
   * Drains the feed in pages; a full page that does not advance the cursor ends the loop.
   * Against any store the answer is the pages it was given, up to the first one that does
   * not ask for more, or the error of the first call that failed. `log` is any log the feed
   * may turn out to serve.
   */
  method LoadGlobalAfter<Id(!new), E(!new), R(!new)>(feed: Feed<Id, E, R>, sequence: Option<nat>, ghost log: Log<Id, E>)
    returns (result: Result<Log<Id, E>, R>, ghost pages: seq<Log<Id, E>>)
    requires SixtyFourBit(feed)
    ensures FeedOrdered(log) && Serves(feed, log) ==> result == Ok(After(log, sequence))
    ensures match result
            case Ok(all) =>
              && pages != [] && all == Joined(pages) && Drained(feed, sequence, pages, |pages| - 1)
              && !AsksForMore(pages[|pages| - 1], CursorAt(sequence, pages, |pages| - 1))
            case Err(error) =>
              && Drained(feed, sequence, pages, |pages|)
              && feed(|pages|, CursorAt(sequence, pages, |pages|), GLOBAL_REPLAY_PAGE_SIZE) == Err(error)
  {
    hide Drained, Joined, CursorAt, FeedOrdered, Serves, After;
    DrainsNothing(feed, sequence);
    pages := [];
    var cursor := sequence;
    var all: Log<Id, E> := [];
    var calls := 0;
    ghost var served := FeedOrdered(log) && Serves(feed, log);
    ghost var from: nat, to: nat := 0, 0;
    if served {
      from := AfterIsTail(log, sequence);
      to := from;
    }
    ghost var goal := After(log, sequence);
    while true
      invariant served ==> from <= |log| && goal == log[from..]
      invariant served ==> LogRead(log, from, to, cursor, all)
      invariant calls == |pages| && all == Joined(pages) && cursor == CursorAt(sequence, pages, |pages|)
      invariant Drained(feed, sequence, pages, |pages|)
      decreases Left(cursor)
    {
      var answer := FetchPage(feed, calls, cursor, GLOBAL_REPLAY_PAGE_SIZE, log, from, to, all);
      if answer.Err? {
        return Err(answer.error), pages;
      }
      var page := answer.value;
      DrainsOneMore(feed, sequence, pages, page);
      JoinedPush(pages, page);
      pages := pages + [page];
      calls, all, to := calls + 1, all + page, to + |page|;
      if |page| < GLOBAL_REPLAY_PAGE_SIZE {
        assert log[from..|log|] == log[from..] || !served;
        return Ok(all), pages;
      }
      var last := LastSequence(page);
      if last.None? || (cursor.Some? && last.value <= cursor.value) {
        return Ok(all), pages;
      }
      cursor := last;
    }
  }

  // ---- scored indexes ----

  /** One `(member, score)` pair of a sorted-set index. */
  type Scored = (nat, nat)

  type ScoredFeed<!R> = (nat, nat, nat) -> Result<seq<Scored>, R>

  ghost predicate BoundedScores(page: seq<Scored>) {
    forall i | 0 <= i < |page| :: page[i].1 <= U64_MAX
  }

  ghost predicate ScoresSixtyFourBit<R(!new)>(feed: ScoredFeed<R>) {
    forall call, cursor, limit | feed(call, cursor, limit).Ok? :: BoundedScores(feed(call, cursor, limit).value)
  }

  function ScoresAfter(index: seq<Scored>, cursor: nat): seq<Scored> {
    Filter(index, (p: Scored) => p.1 > cursor)
  }

  ghost predicate ServesIndex<R(!new)>(feed: ScoredFeed<R>, index: seq<Scored>) {
    forall call, cursor, limit :: feed(call, cursor, limit) == Ok(Take(ScoresAfter(index, cursor), limit))
  }

  ghost predicate AscendingScores(index: seq<Scored>) {
    forall i, j | 0 <= i < j < |index| :: index[i].1 < index[j].1
  }

  function Members(pairs: seq<Scored>): (r: seq<nat>)
    ensures |r| == |pairs|
  {
    seq(|pairs|, i requires 0 <= i < |pairs| => pairs[i].0)
  }

  /** With ascending unique scores, the pairs after a score are a suffix of the index. */
  lemma ScoresAfterIsTail(index: seq<Scored>, cursor: nat) returns (start: nat)
    requires AscendingScores(index)
    ensures start <= |index| && ScoresAfter(index, cursor) == index[start..]
    ensures forall i | 0 <= i < |index| :: (index[i].1 > cursor <==> i >= start)
  {
    start := 0;
    while start < |index| && index[start].1 <= cursor
      invariant start <= |index|
      invariant forall i | 0 <= i < start :: index[i].1 <= cursor
    {
      start := start + 1;
    }
    FilterIsTail(index, (p: Scored) => p.1 > cursor, start);
  }

  /** The sequences one unlimited (or limited) read of the index returns. */
  ghost function OneShot(index: seq<Scored>, after: nat, limit: Option<nat>): seq<nat> {
    var all := Members(ScoresAfter(index, after));
    if limit.Some? then Take(all, limit.value) else all
  }

  /** `sequences` lists the members of pairs `from..to` of the index. */
  ghost predicate ListsSlice(index: seq<Scored>, from: nat, to: nat, sequences: seq<nat>) {
    && from <= to <= |index|
    && |sequences| == to - from
    && (forall i | from <= i < to :: sequences[i - from] == index[i].0)
  }

  /** Pairs `from..to` of the index have been read; everything from `to` on lies past the cursor. */
  ghost predicate ReadUpTo(index: seq<Scored>, from: nat, to: nat, cursor: nat, sequences: seq<nat>) {
    && ListsSlice(index, from, to, sequences)
    && (forall i | 0 <= i < |index| :: (index[i].1 > cursor <==> i >= to))
  }

  /** After a page of a fixed index: the cursor moved to its last score, and a short page was the end. */
  ghost predicate ScoredPageMoved(
    index: seq<Scored>, from: nat, to: nat, cursor: nat, sequences: seq<nat>, page: seq<Scored>, size: nat)
  {
    && |page| <= size
    && ReadUpTo(index, from, to + |page|, if page == [] then cursor else page[|page| - 1].1, sequences + Members(page))
    && (|page| < size ==> to + |page| == |index|)
    && (page != [] ==> page[|page| - 1].1 > cursor)
  }

  lemma PageExtends(index: seq<Scored>, from: nat, to: nat, sequences: seq<nat>, page: seq<Scored>)
    requires ListsSlice(index, from, to, sequences)
    requires to + |page| <= |index| && page == index[to..to + |page|]
    ensures ListsSlice(index, from, to + |page|, sequences + Members(page))
  {
    forall i | from <= i < to + |page| ensures (sequences + Members(page))[i - from] == index[i].0 {
      if i >= to {
        assert page[i - to] == index[i];
      }
    }
  }

  lemma SameSlice(index: seq<Scored>, from: nat, to: nat, a: seq<nat>, b: seq<nat>)
    requires ListsSlice(index, from, to, a) && ListsSlice(index, from, to, b)
    ensures a == b
  {
    forall i | 0 <= i < |a| ensures a[i] == b[i] {
      assert a[from + i - from] == index[from + i].0;
      assert b[from + i - from] == index[from + i].0;
    }
  }

  /** A page past the cursor is the next stretch of the index, cut at its size or at the end. */
  lemma ScoredPageAt(
    index: seq<Scored>, from: nat, to: nat, cursor: nat, sequences: seq<nat>, page: seq<Scored>, size: nat)
    requires ReadUpTo(index, from, to, cursor, sequences)
    requires page == Take(ScoresAfter(index, cursor), size)
    ensures to + |page| <= |index| && page == index[to..to + |page|]
    ensures |page| <= size && (|page| < size ==> to + |page| == |index|)
  {
    FilterIsTail(index, (p: Scored) => p.1 > cursor, to);
  }

  lemma ScoredPageMoves(
    index: seq<Scored>, from: nat, to: nat, cursor: nat, sequences: seq<nat>, page: seq<Scored>, size: nat)
    requires AscendingScores(index) && ReadUpTo(index, from, to, cursor, sequences)
    requires page == Take(ScoresAfter(index, cursor), size)
    ensures ScoredPageMoved(index, from, to, cursor, sequences, page, size)
  {
    ScoredPageAt(index, from, to, cursor, sequences, page, size);
    hide ScoresAfter, Take, Members, ListsSlice;
    PageExtends(index, from, to, sequences, page);
    assert page != [] ==> page[|page| - 1] == index[to + |page| - 1];
  }

  /** Where a read that starts at `from` stops. */
  function ReadEnd(index: seq<Scored>, from: nat, limit: Option<nat>): nat {
    if limit.Some? && from + limit.value <= |index| then from + limit.value else |index|
  }

  lemma OneShotIsSlice(index: seq<Scored>, after: nat, limit: Option<nat>) returns (from: nat)
    requires AscendingScores(index)
    ensures ReadUpTo(index, from, from, after, [])
    ensures ListsSlice(index, from, ReadEnd(index, from, limit), OneShot(index, after, limit))
  {
    from := ScoresAfterIsTail(index, after);
  }

  /** Members asked for in the next page: what the limit leaves, at most a page. */
  function PageSize(limit: Option<nat>, done: nat): nat {
    match limit
    case None => SEQUENCE_PAGE_SIZE
    case Some(n) =>
      var remaining := if done >= n then 0 else n - done;
      if remaining < SEQUENCE_PAGE_SIZE then remaining else SEQUENCE_PAGE_SIZE
  }

  /** Pages never run past the end of the read, and a page short of what was asked reaches it. */
  lemma PageReachesEnd(
    index: seq<Scored>, from: nat, to: nat, cursor: nat, sequences: seq<nat>, page: seq<Scored>, limit: Option<nat>)
    requires ListsSlice(index, from, to, sequences) && to <= ReadEnd(index, from, limit)
    requires ScoredPageMoved(index, from, to, cursor, sequences, page, PageSize(limit, |sequences|))
    ensures to + |page| <= ReadEnd(index, from, limit)
    ensures |page| < PageSize(limit, |sequences|) || PageSize(limit, |sequences|) == 0 ==>
      to + |page| == ReadEnd(index, from, limit)
  {
  }

  method FetchScores<R(!new)>(
    feed: ScoredFeed<R>, call: nat, cursor: nat, limit: Option<nat>,
    ghost index: seq<Scored>, ghost from: nat, ghost to: nat, ghost sequences: seq<nat>, size: nat)
    returns (answer: Result<seq<Scored>, R>)
    requires ScoresSixtyFourBit(feed) && size == PageSize(limit, |sequences|)
    requires AscendingScores(index) && ServesIndex(feed, index) ==>
      ReadUpTo(index, from, to, cursor, sequences) && to <= ReadEnd(index, from, limit)
    ensures answer == feed(call, cursor, size)
    ensures answer.Ok? ==> BoundedScores(answer.value)
    ensures AscendingScores(index) && ServesIndex(feed, index) ==>
      && answer.Ok?
      && ScoredPageMoved(index, from, to, cursor, sequences, answer.value, size)
      && to + |answer.value| <= ReadEnd(index, from, limit)
      && (|answer.value| < size ==> to + |answer.value| == ReadEnd(index, from, limit))
  {
    answer := feed(call, cursor, size);
    if AscendingScores(index) && ServesIndex(feed, index) {
      ScoredPageMoves(index, from, to, cursor, sequences, answer.value, size);
      PageReachesEnd(index, from, to, cursor, sequences, answer.value, limit);
    }
  }

  /** How many pairs the first `k` pages hold. */
  function CountTo(pages: seq<seq<Scored>>, k: nat): nat
    requires k <= |pages|
  {
    if k == 0 then 0 else CountTo(pages, k - 1) + |pages[k - 1]|
  }

  /** The score behind which page `k` starts. */
  function ScoreAt(after: nat, pages: seq<seq<Scored>>, k: nat): nat
    requires k <= |pages|
  {
    if k == 0 || pages[k - 1] == [] then after else pages[k - 1][|pages[k - 1]| - 1].1
  }

  /** Page `k` is what the server answered when asked for what the limit left. */
  ghost predicate IsScoredAnswer<R>(
    feed: ScoredFeed<R>, after: nat, limit: Option<nat>, pages: seq<seq<Scored>>, k: nat)
  {
    && k < |pages|
    && feed(k, ScoreAt(after, pages, k), PageSize(limit, CountTo(pages, k))) == Ok(pages[k])
  }

  /** Page `k` was full and went past its cursor. */
  ghost predicate HasScoredNext(after: nat, limit: Option<nat>, pages: seq<seq<Scored>>, k: nat) {
    && k < |pages| && pages[k] != [] && |pages[k]| >= PageSize(limit, CountTo(pages, k))
    && pages[k][|pages[k]| - 1].1 > ScoreAt(after, pages, k)
  }

  /** All pages are answers of the server, and the first `n` each ask for the next. */
  ghost predicate ScoresDrained<R>(
    feed: ScoredFeed<R>, after: nat, limit: Option<nat>, pages: seq<seq<Scored>>, n: nat)
  {
    && n <= |pages|
    && (forall k | 0 <= k < |pages| :: IsScoredAnswer(feed, after, limit, pages, k))
    && (forall k | 0 <= k < n :: HasScoredNext(after, limit, pages, k))
  }

  lemma {:induction false} CountKept(pages: seq<seq<Scored>>, page: seq<Scored>, k: nat)
    requires k <= |pages|
    ensures CountTo(pages + [page], k) == CountTo(pages, k)
  {
    if k > 0 {
      CountKept(pages, page, k - 1);
    }
  }

  lemma CountPush(pages: seq<seq<Scored>>, page: seq<Scored>)
    ensures CountTo(pages + [page], |pages| + 1) == CountTo(pages, |pages|) + |page|
  {
    CountKept(pages, page, |pages|);
    assert (pages + [page])[|pages|] == page;
  }

  lemma {:induction false} CountIsTotal(pages: seq<seq<Scored>>)
    ensures CountTo(pages, |pages|) == |Joined(pages)|
  {
    if pages != [] {
      var init := pages[..|pages| - 1];
      CountIsTotal(init);
      CountKept(init, pages[|pages| - 1], |init|);
      assert pages == init + [pages[|pages| - 1]];
    }
  }

  /** Another page changes nothing of the pages before it. */
  lemma PagesKept(after: nat, pages: seq<seq<Scored>>, page: seq<Scored>, k: nat)
    requires k <= |pages|
    ensures ScoreAt(after, pages + [page], k) == ScoreAt(after, pages, k)
    ensures CountTo(pages + [page], k) == CountTo(pages, k)
    ensures k < |pages| ==> (pages + [page])[k] == pages[k]
  {
    CountKept(pages, page, k);
  }

  lemma LastScoredPage(after: nat, limit: Option<nat>, pages: seq<seq<Scored>>, page: seq<Scored>)
    ensures HasScoredNext(after, limit, pages + [page], |pages|) <==>
      && page != [] && |page| >= PageSize(limit, CountTo(pages, |pages|))
      && page[|page| - 1].1 > ScoreAt(after, pages, |pages|)
    ensures page != [] ==> ScoreAt(after, pages + [page], |pages| + 1) == page[|page| - 1].1
    ensures CountTo(pages + [page], |pages| + 1) == CountTo(pages, |pages|) + |page|
  {
    hide PageSize, CountTo;
    PagesKept(after, pages, page, |pages|);
    CountPush(pages, page);
    assert (pages + [page])[|pages|] == page;
  }

  lemma AnswerKept<R>(
    feed: ScoredFeed<R>, after: nat, limit: Option<nat>, pages: seq<seq<Scored>>, page: seq<Scored>, k: nat)
    requires k <= |pages|
    requires if k < |pages|
      then IsScoredAnswer(feed, after, limit, pages, k) && HasScoredNext(after, limit, pages, k)
      else feed(k, ScoreAt(after, pages, k), PageSize(limit, CountTo(pages, k))) == Ok(page)
    ensures IsScoredAnswer(feed, after, limit, pages + [page], k)
    ensures k < |pages| ==> HasScoredNext(after, limit, pages + [page], k)
  {
    hide PageSize, ScoreAt, CountTo;
    PagesKept(after, pages, page, k);
  }

  lemma ScoresDrainOneMore<R>(
    feed: ScoredFeed<R>, after: nat, limit: Option<nat>, pages: seq<seq<Scored>>, page: seq<Scored>)
    requires ScoresDrained(feed, after, limit, pages, |pages|)
    requires feed(|pages|, ScoreAt(after, pages, |pages|), PageSize(limit, CountTo(pages, |pages|))) == Ok(page)
    ensures ScoresDrained(feed, after, limit, pages + [page], |pages|)
    ensures HasScoredNext(after, limit, pages + [page], |pages|) ==>
      ScoresDrained(feed, after, limit, pages + [page], |pages| + 1)
    ensures HasScoredNext(after, limit, pages + [page], |pages|) <==>
      && page != [] && |page| >= PageSize(limit, CountTo(pages, |pages|))
      && page[|page| - 1].1 > ScoreAt(after, pages, |pages|)
    ensures page != [] ==> ScoreAt(after, pages + [page], |pages| + 1) == page[|page| - 1].1
    ensures CountTo(pages + [page], |pages| + 1) == CountTo(pages, |pages|) + |page|
  {
    hide PageSize, ScoreAt, CountTo, HasScoredNext, IsScoredAnswer;
    LastScoredPage(after, limit, pages, page);
    forall k | 0 <= k <= |pages|
      ensures IsScoredAnswer(feed, after, limit, pages + [page], k)
      ensures k < |pages| ==> HasScoredNext(after, limit, pages + [page], k)
    {
      AnswerKept(feed, after, limit, pages, page, k);
    }
  }

  lemma LimitReached(index: seq<Scored>, from: nat, to: nat, sequences: seq<nat>, limit: Option<nat>)
    requires ListsSlice(index, from, to, sequences) && to <= ReadEnd(index, from, limit)
    requires PageSize(limit, |sequences|) == 0
    ensures to == ReadEnd(index, from, limit)
  {
  }

  lemma DrainedLess<R>(feed: ScoredFeed<R>, after: nat, limit: Option<nat>, pages: seq<seq<Scored>>)
    requires ScoresDrained(feed, after, limit, pages, |pages|)
    ensures pages != [] ==> ScoresDrained(feed, after, limit, pages, |pages| - 1)
  {
  }

  lemma MembersPush(pages: seq<seq<Scored>>, page: seq<Scored>)
    ensures Members(Joined(pages + [page])) == Members(Joined(pages)) + Members(page)
  {
    JoinedPush(pages, page);
  }

  lemma ScoresDrainNothing<R>(feed: ScoredFeed<R>, after: nat, limit: Option<nat>)
    ensures ScoresDrained(feed, after, limit, [], 0)
    ensures ScoreAt(after, [], 0) == after && CountTo([], 0) == 0 && Joined<Scored>([]) == []
  {
  }

  /** Why a read of the index ended with these pages: nothing left to ask for, or the last page asks for no other. */
  ghost predicate ScoresEnd(after: nat, limit: Option<nat>, pages: seq<seq<Scored>>) {
    || PageSize(limit, CountTo(pages, |pages|)) == 0
    || (pages != [] && !HasScoredNext(after, limit, pages, |pages| - 1))
  }

  /**
   * Reads an index in pages. Against any server the answer is the members of the pages it
   * was given, or the error of the first call that failed. `index` is any index the server
   * may turn out to hold.
   */
  method LoadIndexedSequences<R(!new)>(feed: ScoredFeed<R>, after: nat, limit: Option<nat>, ghost index: seq<Scored>)
    returns (result: Result<seq<nat>, R>, ghost pages: seq<seq<Scored>>)
    requires ScoresSixtyFourBit(feed)
    ensures AscendingScores(index) && ServesIndex(feed, index) ==> result == Ok(OneShot(index, after, limit))
    ensures match result
            case Ok(sequences) =>
              && sequences == Members(Joined(pages)) && ScoresEnd(after, limit, pages)
              && (pages != [] ==> ScoresDrained(feed, after, limit, pages, |pages| - 1))
            case Err(error) =>
              && ScoresDrained(feed, after, limit, pages, |pages|)
              && feed(|pages|, ScoreAt(after, pages, |pages|), PageSize(limit, CountTo(pages, |pages|))) == Err(error)
  {
    hide ScoresDrained, HasScoredNext, CountTo, ScoreAt, Joined, AscendingScores, ServesIndex, OneShot, PageSize;
    ScoresDrainNothing(feed, after, limit);
    pages := [];
    var sequences: seq<nat> := [];
    var cursor := after;
    var calls := 0;
    ghost var served := AscendingScores(index) && ServesIndex(feed, index);
    ghost var from: nat, to: nat := 0, 0;
    if served {
      from := OneShotIsSlice(index, after, limit);
      to := from;
    }
    ghost var goal := OneShot(index, after, limit);
    ghost var end := ReadEnd(index, from, limit);
    while true
      invariant served ==> to <= end && ListsSlice(index, from, end, goal)
      invariant served ==> ReadUpTo(index, from, to, cursor, sequences)
      invariant calls == |pages| && cursor == ScoreAt(after, pages, |pages|) && sequences == Members(Joined(pages))
      invariant |sequences| == CountTo(pages, |pages|)
      invariant ScoresDrained(feed, after, limit, pages, |pages|)
      decreases Left(Some(cursor))
    {
      var pageSize := PageSize(limit, |sequences|);
      if pageSize == 0 {
        if served {
          LimitReached(index, from, to, sequences, limit);
          SameSlice(index, from, end, sequences, goal);
        }
        DrainedLess(feed, after, limit, pages);
        return Ok(sequences), pages;
      }
      var answer := FetchScores(feed, calls, cursor, limit, index, from, to, sequences, pageSize);
      if answer.Err? {
        return Err(answer.error), pages;
      }
      var page := answer.value;
      ScoresDrainOneMore(feed, after, limit, pages, page);
      MembersPush(pages, page);
      pages := pages + [page];
      calls, sequences, to := calls + 1, sequences + Members(page), to + |page|;
      if |page| < pageSize || page[|page| - 1].1 <= cursor {
        if served {
          SameSlice(index, from, end, sequences, goal);
        }
        return Ok(sequences), pages;
      }
      cursor := page[|page| - 1].1;
    }
  }
}
