/**
 * The batch dispatcher and the daily cycle driver. The dispatcher collects up
 * to three consecutive positions from a user's cursor, asks for explanations,
 * formats one message, delivers it and only then commits the cursor. The
 * explanation service and the messaging transport are oracles: the model's
 * answer text (or its failure) and the outcome of each send.
 */
module Scheduler {
  import opened Wrappers
  import opened QuranData
  import opened Database
  import opened OpenAiService

  /** How a call to the messaging transport ends. */
  datatype SendOutcome = Delivered | TelegramFailure | OtherFailure

  /**
   * What the outside world answers during one dispatch: the explanation
   * service's response text (None when the call fails), and the outcomes of
   * the main send and of the completion notice.
   */
  datatype DispatchOracle = DispatchOracle(answer: Option<string>, mainSend: SendOutcome, noticeSend: SendOutcome)

  /** The collected verse descriptors, and where the cursor stood when collection stopped. */
  datatype Batch = Batch(verses: seq<VerseRef>, cursor: Position)

  /** The dispatcher's reply (success and the returned cursor) and the cursor it committed, if any. */
  datatype DispatchResult = DispatchResult(success: bool, final: Position, commit: Option<Position>)

  /** The position a descriptor names. */
  function At(v: VerseRef): Position
  {
    Position(v.surah, v.verse)
  }

  // ---------------------------------------------------------------------
  // Batch collection.
  // ---------------------------------------------------------------------

  /** The descriptor the loop appends for a position whose surah exists. */
  function Item(p: Position): VerseRef
    requires 1 <= p.surah <= SurahCount
  {
    VerseRef(p.surah, SurahEntry(p.surah - 1).name, p.verse)
  }

  /**
   * The collection loop, run for at most `n` steps from `p`: stop before a
   * position whose surah does not exist, and stop after a position that has
   * no successor, leaving the cursor on it.
   */
  function CollectBatch(p: Position, n: nat): (b: Batch)
    ensures |b.verses| <= n
    // The cursor is part of the measure so that a literal step count alone
    // does not make the verifier unfold the whole collection.
    decreases n, p.surah
  {
    if n == 0 || GetSurahInfo(p.surah).None? then Batch([], p)
    else match Next(p)
      case None => Batch([Item(p)], p)
      case Some(q) =>
        var rest := CollectBatch(q, n - 1);
        Batch([Item(p)] + rest.verses, rest.cursor)
  }

  /** Every descriptor names an existing surah and carries that surah's table name. */
  predicate Named(vs: seq<VerseRef>)
  {
    forall i :: 0 <= i < |vs| ==> 1 <= vs[i].surah <= SurahCount && vs[i] == Item(At(vs[i]))
  }

  /** Each descriptor after the first is the successor of the one before. */
  predicate Chained(vs: seq<VerseRef>)
  {
    forall i :: 0 < i < |vs| ==> Next(At(vs[i - 1])) == Some(At(vs[i]))
  }

  /** The descriptors are valid positions at places k, k + 1, ... */
  predicate Consecutive(vs: seq<VerseRef>, k: int)
  {
    forall i :: 0 <= i < |vs| ==> ValidPosition(At(vs[i])) && Ordinal(At(vs[i])) == k + i
  }

  lemma NamedCons(p: Position, rest: seq<VerseRef>)
    requires 1 <= p.surah <= SurahCount && Named(rest)
    ensures Named([Item(p)] + rest)
  {
    var vs := [Item(p)] + rest;
    forall i | 0 < i < |vs|
      ensures 1 <= vs[i].surah <= SurahCount && vs[i] == Item(At(vs[i]))
    {
      assert vs[i] == rest[i - 1];
    }
  }

  lemma ChainedCons(p: Position, rest: seq<VerseRef>)
    requires 1 <= p.surah <= SurahCount && Chained(rest)
    requires |rest| > 0 ==> Next(p) == Some(At(rest[0]))
    ensures Chained([Item(p)] + rest)
  {
    var vs := [Item(p)] + rest;
    forall i | 1 < i < |vs|
      ensures Next(At(vs[i - 1])) == Some(At(vs[i]))
    {
      assert vs[i - 1] == rest[i - 2] && vs[i] == rest[i - 1];
    }
  }

  lemma ConsecutiveCons(p: Position, rest: seq<VerseRef>)
    requires 1 <= p.surah <= SurahCount && ValidPosition(p) && Consecutive(rest, Ordinal(p) + 1)
    ensures Consecutive([Item(p)] + rest, Ordinal(p))
  {
    var vs := [Item(p)] + rest;
    forall i | 0 < i < |vs|
      ensures ValidPosition(At(vs[i])) && Ordinal(At(vs[i])) == Ordinal(p) + i
    {
      assert vs[i] == rest[i - 1];
    }
  }

  /**
   * The shape of a batch: at most `n` descriptors, empty exactly when no step
   * is allowed or the starting surah does not exist, starting at `p`, each
   * descriptor carrying its surah's table name, each later one the successor
   * of the one before, and the cursor either the successor of the last one or,
   * when there is none, the last one itself.
   */
  lemma {:induction false} CollectBatchShape(p: Position, n: nat)
    ensures |CollectBatch(p, n).verses| <= n
    ensures |CollectBatch(p, n).verses| == 0 <==> n == 0 || !(1 <= p.surah <= SurahCount)
    ensures |CollectBatch(p, n).verses| == 0 ==> CollectBatch(p, n).cursor == p
    ensures |CollectBatch(p, n).verses| > 0 ==> At(CollectBatch(p, n).verses[0]) == p
    ensures Named(CollectBatch(p, n).verses) && Chained(CollectBatch(p, n).verses)
    ensures |CollectBatch(p, n).verses| > 0 ==>
      var b := CollectBatch(p, n);
      var last := At(b.verses[|b.verses| - 1]);
      if Next(last).None? then b.cursor == last
      else |b.verses| == n && b.cursor == Next(last).value
    decreases n
  {
    if n > 0 && 1 <= p.surah <= SurahCount {
      var q := Next(p);
      if q.None? {
        assert CollectBatch(p, n) == Batch([Item(p)], p);
        NamedCons(p, []);
        ChainedCons(p, []);
        assert [Item(p)] + [] == [Item(p)];
      } else {
        CollectBatchShape(q.value, n - 1);
        var rest := CollectBatch(q.value, n - 1);
        assert CollectBatch(p, n) == Batch([Item(p)] + rest.verses, rest.cursor);
        assert |CollectBatch(p, n).verses| == 1 + |rest.verses|;
        NamedCons(p, rest.verses);
        ChainedCons(p, rest.verses);
        if |rest.verses| > 0 {
          assert ([Item(p)] + rest.verses)[|rest.verses|] == rest.verses[|rest.verses| - 1];
        }
      }
    }
  }

  /**
   * From a valid position the batch holds the next min(n, 6236 - place)
   * verses, and the cursor is the valid position n places on, or the last
   * verse when that lies beyond the end.
   */
  lemma {:induction false} CollectFromValid(p: Position, n: nat)
    requires ValidPosition(p)
    ensures Ordinal(p) >= 0
    ensures |CollectBatch(p, n).verses| == if n <= TotalVerses - Ordinal(p) then n else TotalVerses - Ordinal(p)
    ensures ValidPosition(CollectBatch(p, n).cursor)
    ensures Ordinal(CollectBatch(p, n).cursor) == if Ordinal(p) + n < TotalVerses then Ordinal(p) + n else TotalVerses - 1
    decreases n
  {
    OrdinalRange(p);
    if n > 0 {
      NextOfValid(p);
      var q := Next(p);
      if q.None? {
        TerminalOrdinal();
      } else {
        CollectFromValid(q.value, n - 1);
      }
    }
  }

  /** From a valid position the batch lists valid positions at consecutive places, in reading order. */
  lemma {:induction false} CollectInReadingOrder(p: Position, n: nat)
    requires ValidPosition(p)
    ensures Consecutive(CollectBatch(p, n).verses, Ordinal(p))
    decreases n
  {
    if n > 0 {
      NextOfValid(p);
      var q := Next(p);
      if q.None? {
        ConsecutiveCons(p, []);
      } else {
        CollectInReadingOrder(q.value, n - 1);
        ConsecutiveCons(p, CollectBatch(q.value, n - 1).verses);
      }
    }
  }

  // ---------------------------------------------------------------------
  // The dispatch protocol.
  // ---------------------------------------------------------------------

  /**
   * What send_three_verses_to_user decides: every failure before delivery
   * answers (false, starting cursor) and commits nothing; after delivery the
   * collection's cursor is committed and returned, unless the completion
   * notice fails, which answers (false, starting cursor) after the commit.
   */
  function Dispatch(start: Position, oracle: DispatchOracle): (r: DispatchResult)
    ensures !r.success ==> r.final == start
    ensures r.success ==> r.commit == Some(r.final)
    ensures r.commit.Some? ==>
      r.commit.value == CollectBatch(start, 3).cursor && oracle.answer.Some? && oracle.mainSend == Delivered
  {
    var b := CollectBatch(start, 3);
    var failure := DispatchResult(false, start, None);
    if |b.verses| == 0 then failure
    else
      var explanations := GenerateThreeVersesExplanation(b.verses, oracle.answer);
      if explanations.None? then failure
      else if FormatThreeVersesMessage(b.verses, explanations.value) == "" then failure
      else if oracle.mainSend != Delivered then failure
      else if |b.verses| < 3 && Next(b.cursor).None? && oracle.noticeSend != Delivered then
        DispatchResult(false, start, Some(b.cursor))
      else DispatchResult(true, b.cursor, Some(b.cursor))
  }

  /** The table after a dispatch: its committed cursor, if any, written with update_user_progress. */
  function CommitProgress(t: Table, uid: UserId, commit: Option<Position>, now: Day): Table
  {
    match commit
    case None => t
    case Some(p) => UpdateProgressTable(t, uid, p.surah, p.verse, now)
  }

  /**
   * The exactly-three guard decides the protocol: a cursor is committed
   * exactly when three verses were collected, the service answered and the
   * main send was delivered, and then the dispatch succeeds, so the
   * completion notice (which needs fewer than three) can never fail a
   * dispatch. Otherwise the result is (false, start) with no commit.
   */
  lemma DispatchCommitsExactly(start: Position, oracle: DispatchOracle)
    ensures Dispatch(start, oracle).commit.Some? <==>
      |CollectBatch(start, 3).verses| == 3 && oracle.answer.Some? && oracle.mainSend == Delivered
    ensures Dispatch(start, oracle).success <==> Dispatch(start, oracle).commit.Some?
    ensures !Dispatch(start, oracle).success ==> Dispatch(start, oracle) == DispatchResult(false, start, None)
    ensures Dispatch(start, oracle).success ==>
      Dispatch(start, oracle) == DispatchResult(true, CollectBatch(start, 3).cursor, Some(CollectBatch(start, 3).cursor))
  {
  }

  /** A batch shorter than three (at an invalid surah or near the end) always fails and commits nothing. */
  lemma ShortBatchFails(start: Position, oracle: DispatchOracle)
    requires |CollectBatch(start, 3).verses| < 3
    ensures Dispatch(start, oracle) == DispatchResult(false, start, None)
  {
    DispatchCommitsExactly(start, oracle);
  }

  /**
   * From a valid position: the dispatch succeeds exactly when at least three
   * verses remain, the service answered and the main send was delivered; a
   * success moves the cursor three places on, or onto the last verse when
   * the third collected verse is the last one.
   */
  lemma DispatchFromValid(start: Position, oracle: DispatchOracle)
    requires ValidPosition(start)
    ensures Dispatch(start, oracle).success <==>
      Ordinal(start) <= TotalVerses - 3 && oracle.answer.Some? && oracle.mainSend == Delivered
    ensures Dispatch(start, oracle).success ==>
      ValidPosition(Dispatch(start, oracle).final)
      && Ordinal(Dispatch(start, oracle).final) == if Ordinal(start) + 3 < TotalVerses then Ordinal(start) + 3 else TotalVerses - 1
  {
    CollectFromValid(start, 3);
    DispatchCommitsExactly(start, oracle);
  }

  /** The committed cursor never moves past (114, 6): from (114, 4) a success lands on it, and from there every dispatch fails. */
  lemma TerminalCursorStays(oracle: DispatchOracle)
    ensures Dispatch(Position(SurahCount, 4), oracle).success ==> Dispatch(Position(SurahCount, 4), oracle).final == Terminal
    ensures Dispatch(Terminal, oracle) == DispatchResult(false, Terminal, None)
  {
    TerminalOrdinal();
    var p := Position(SurahCount, 4);
    assert ValidPosition(p) && Ordinal(p) == TotalVerses - 3;
    DispatchFromValid(p, oracle);
    if Dispatch(p, oracle).success {
      OrdinalMonotone(Dispatch(p, oracle).final, Terminal);
    }
    DispatchFromValid(Terminal, oracle);
    DispatchCommitsExactly(Terminal, oracle);
  }

  /** Two worked dispatches: (1, 1) moves to (1, 4), and (1, 6) crosses into surah 2 at (2, 2). */
  lemma DispatchExamples(oracle: DispatchOracle)
    requires oracle.answer.Some? && oracle.mainSend == Delivered
    ensures Dispatch(Position(1, 1), oracle) == DispatchResult(true, Position(1, 4), Some(Position(1, 4)))
    ensures Dispatch(Position(1, 6), oracle) == DispatchResult(true, Position(2, 2), Some(Position(2, 2)))
  {
    EntryIsRow(0);
    EntryIsRow(1);
    DispatchFromValid(Position(1, 1), oracle);
    DispatchFromValid(Position(1, 6), oracle);
    DispatchCommitsExactly(Position(1, 1), oracle);
    DispatchCommitsExactly(Position(1, 6), oracle);
    OrdinalMonotone(Dispatch(Position(1, 1), oracle).final, Position(1, 4));
    OrdinalMonotone(Dispatch(Position(1, 6), oracle).final, Position(2, 2));
  }

  /** The cursor after `k` dispatches in a row, all answered by `oracle`. */
  function Repeated(p: Position, k: nat, oracle: DispatchOracle): Position
  {
    if k == 0 then p else Dispatch(Repeated(p, k - 1, oracle), oracle).final
  }

  /** Reading from (1, 1) with every dispatch succeeding, the k-th cursor is the verse at place 3k, for k up to 2078. */
  lemma {:induction false} ReadingFromStart(k: nat, oracle: DispatchOracle)
    requires oracle.answer.Some? && oracle.mainSend == Delivered
    requires 3 * k < TotalVerses
    ensures ValidPosition(Repeated(Start, k, oracle)) && Ordinal(Repeated(Start, k, oracle)) == 3 * k
  {
    if k > 0 {
      ReadingFromStart(k - 1, oracle);
      DispatchFromValid(Repeated(Start, k - 1, oracle), oracle);
    }
  }

  /**
   * Reading from (1, 1), the cursor reaches (114, 5) after 2078 dispatches
   * and stays there: from it only two verses remain, so every later dispatch
   * fails, and the last two verses are never delivered.
   */
  lemma {:induction false} ReadingStallsBeforeTheEnd(k: nat, oracle: DispatchOracle)
    requires oracle.answer.Some? && oracle.mainSend == Delivered
    requires k >= 2078
    ensures Repeated(Start, k, oracle) == Position(SurahCount, 5)
    ensures !Dispatch(Repeated(Start, k, oracle), oracle).success
  {
    var stall := Position(SurahCount, 5);
    TerminalOrdinal();
    assert ValidPosition(stall) && Ordinal(stall) == TotalVerses - 2;
    if k == 2078 {
      ReadingFromStart(k, oracle);
      OrdinalMonotone(Repeated(Start, k, oracle), stall);
    } else {
      ReadingStallsBeforeTheEnd(k - 1, oracle);
    }
    DispatchFromValid(stall, oracle);
  }

  /** One step of the collection from a position whose surah exists. */
  lemma CollectStep(p: Position, m: nat)
    requires 0 < m && 1 <= p.surah <= SurahCount
    ensures Next(p).None? ==> CollectBatch(p, m) == Batch([Item(p)], p)
    ensures Next(p).Some? ==>
      CollectBatch(p, m) == Batch([Item(p)] + CollectBatch(Next(p).value, m - 1).verses, CollectBatch(Next(p).value, m - 1).cursor)
  {
  }

  /** The collection loop of send_three_verses_to_user: the batch and the final cursor that CollectBatch gives. */
  method CollectVerses(currentSurah: int, currentVerse: int) returns (verses: seq<VerseRef>, surah: int, verse: int)
    ensures CollectBatch(Position(currentSurah, currentVerse), 3) == Batch(verses, Position(surah, verse))
  {
    ghost var start := Position(currentSurah, currentVerse);
    verses := [];
    surah, verse := currentSurah, currentVerse;
    assert [] + CollectBatch(start, 3).verses == CollectBatch(start, 3).verses;
    for i := 0 to 3
      invariant CollectBatch(start, 3) ==
        Batch(verses + CollectBatch(Position(surah, verse), 3 - i).verses, CollectBatch(Position(surah, verse), 3 - i).cursor)
    {
      ghost var here := Position(surah, verse);
      var info := GetSurahInfo(surah);
      if info.None? {
        assert CollectBatch(here, 3 - i) == Batch([], here);
        assert verses + [] == verses;
        break;
      }
      CollectStep(here, 3 - i);
      ghost var before := verses;
      assert VerseRef(surah, info.value.name, verse) == Item(here);
      verses := verses + [VerseRef(surah, info.value.name, verse)];
      var next := GetNextVerse(surah, verse);
      if next.None? {
        break;
      }
      ghost var rest := CollectBatch(next.value, 3 - i - 1).verses;
      assert before + ([Item(here)] + rest) == verses + rest;
      surah, verse := next.value.surah, next.value.verse;
    }
  }

  /**
   * send_three_verses_to_user: collect, explain, format, deliver, then commit.
   * The answer and the new table are those Dispatch and CommitProgress give.
   */
  method SendThreeVersesToUser(store: UserStore, uid: UserId, chatId: ChatId, currentSurah: int, currentVerse: int,
                               now: Day, oracle: DispatchOracle)
    returns (success: bool, finalSurah: int, finalVerse: int)
    requires store.Valid()
    modifies store
    ensures store.Valid()
    ensures success == Dispatch(Position(currentSurah, currentVerse), oracle).success
    ensures Position(finalSurah, finalVerse) == Dispatch(Position(currentSurah, currentVerse), oracle).final
    ensures store.users == CommitProgress(old(store.users), uid, Dispatch(Position(currentSurah, currentVerse), oracle).commit, now)
    ensures store.order == old(store.order)
  {
    var verses, surah, verse := CollectVerses(currentSurah, currentVerse);
    success, finalSurah, finalVerse := false, currentSurah, currentVerse;
    if |verses| == 0 {
      return;
    }
    var explanations := GenerateThreeVersesExplanation(verses, oracle.answer);
    if explanations.None? {
      return;
    }
    var message := FormatThreeVersesMessage(verses, explanations.value);
    if message != "" && oracle.mainSend == Delivered {
      var updated := store.UpdateUserProgress(uid, surah, verse, now);
      success, finalSurah, finalVerse := true, surah, verse;
      if |verses| < 3 && GetNextVerse(surah, verse).None? && oracle.noticeSend != Delivered {
        success, finalSurah, finalVerse := false, currentSurah, currentVerse;
      }
    }
  }

  // ---------------------------------------------------------------------
  // The daily cycle.
  // ---------------------------------------------------------------------

  /**
   * One user of the daily snapshot: skipped when the quota gate refuses,
   * otherwise dispatched from the snapshot's cursor, with the request
   * recorded only when the dispatch reports success.
   */
  function DailyStep(t: Table, row: ActiveUser, today: Day, now: Day, oracle: DispatchOracle): (t': Table)
    ensures t'.Keys == t.Keys
  {
    if !CanRequestVerses(t, row.userId, today, DefaultMaxRequests) then t
    else
      var r := Dispatch(Position(row.surah, row.verse), oracle);
      var committed := CommitProgress(t, row.userId, r.commit, now);
      if r.success then IncrementTable(committed, row.userId, today) else committed
  }

  /** send_daily_verses over the snapshot `rows`, in order; `oracles` answers each user's dispatch. */
  function DailyCycle(t: Table, rows: seq<ActiveUser>, today: Day, now: Day, oracles: UserId -> DispatchOracle): (t': Table)
    ensures t'.Keys == t.Keys
    decreases |rows|
  {
    if |rows| == 0 then t
    else
      var last := rows[|rows| - 1];
      DailyStep(DailyCycle(t, rows[..|rows| - 1], today, now, oracles), last, today, now, oracles(last.userId))
  }

  /**
   * send_daily_verses: take the snapshot of active users once, then for each
   * apply the quota gate, dispatch, and record the request on success.
   */
  method SendDailyVerses(store: UserStore, today: Day, now: Day, oracles: UserId -> DispatchOracle)
    requires store.Valid()
    modifies store
    ensures store.Valid()
    ensures store.users == DailyCycle(old(store.users), ActiveUsers(old(store.users), old(store.order)), today, now, oracles)
    ensures store.order == old(store.order)
  {
    var activeUsers := ActiveUsers(store.users, store.order);
    for i := 0 to |activeUsers|
      invariant store.Valid() && store.order == old(store.order)
      invariant store.users == DailyCycle(old(store.users), activeUsers[..i], today, now, oracles)
    {
      var row := activeUsers[i];
      ghost var before := store.users;
      assert activeUsers[..i + 1][..i] == activeUsers[..i] && activeUsers[..i + 1][i] == row;
      assert DailyCycle(old(store.users), activeUsers[..i + 1], today, now, oracles)
        == DailyStep(before, row, today, now, oracles(row.userId));
      if !CanRequestVerses(store.users, row.userId, today, DefaultMaxRequests) {
        continue;
      }
      var success, finalSurah, finalVerse :=
        SendThreeVersesToUser(store, row.userId, row.chatId, row.surah, row.verse, now, oracles(row.userId));
      if success {
        var incremented := store.IncrementRequestCount(row.userId, today);
      }
      assert store.users == DailyStep(before, row, today, now, oracles(row.userId));
    }
    assert activeUsers[..|activeUsers|] == activeUsers;
  }

  /** One daily step changes only its own user's row and keeps the keys. */
  lemma DailyStepFrame(t: Table, row: ActiveUser, today: Day, now: Day, oracle: DispatchOracle, u: UserId)
    ensures DailyStep(t, row, today, now, oracle).Keys == t.Keys
    ensures u != row.userId && u in t ==> DailyStep(t, row, today, now, oracle)[u] == t[u]
  {
  }

  /**
   * The effect of one daily step on its user: nothing when the quota gate
   * refuses or the dispatch fails; otherwise the committed cursor, the send
   * day and exactly one recorded request.
   */
  lemma DailyStepOutcome(t: Table, row: ActiveUser, today: Day, now: Day, oracle: DispatchOracle)
    requires row.userId in t
    ensures var r := Dispatch(Position(row.surah, row.verse), oracle);
      DailyStep(t, row, today, now, oracle)[row.userId] ==
        if CanRequestVerses(t, row.userId, today, DefaultMaxRequests) && r.success then
          RecordRequest(t[row.userId].(surah := r.final.surah, verse := r.final.verse, lastSentDay := Some(now)), today)
        else t[row.userId]
  {
    DispatchCommitsExactly(Position(row.surah, row.verse), oracle);
  }

  /** A daily step's effect on its user depends only on that user's row. */
  lemma DailyStepLocal(t: Table, t': Table, row: ActiveUser, today: Day, now: Day, oracle: DispatchOracle)
    requires row.userId in t && row.userId in t' && t[row.userId] == t'[row.userId]
    ensures DailyStep(t, row, today, now, oracle)[row.userId] == DailyStep(t', row, today, now, oracle)[row.userId]
  {
  }

  /** Rows of users outside the snapshot are left as they were, and no row is added or removed. */
  lemma {:induction false} DailyCycleUntouched(t: Table, rows: seq<ActiveUser>, today: Day, now: Day,
                                               oracles: UserId -> DispatchOracle, u: UserId)
    ensures DailyCycle(t, rows, today, now, oracles).Keys == t.Keys
    ensures u !in IdsOf(rows) && u in t ==> DailyCycle(t, rows, today, now, oracles)[u] == t[u]
    decreases |rows|
  {
    if |rows| > 0 {
      var front := rows[..|rows| - 1];
      DailyCycleUntouched(t, front, today, now, oracles, u);
      var last := rows[|rows| - 1];
      DailyStepFrame(DailyCycle(t, front, today, now, oracles), last, today, now, oracles(last.userId), u);
      if u !in IdsOf(rows) {
        assert u != IdsOf(rows)[|rows| - 1];
        forall j | 0 <= j < |front|
          ensures IdsOf(front)[j] != u
        {
          assert IdsOf(front)[j] == IdsOf(rows)[j];
        }
      }
    }
  }

  /**
   * Users are isolated: when the snapshot lists each user once, a user's row
   * after the whole cycle is what their own step makes of their row before
   * it, whatever happened to the users around them.
   */
  lemma {:induction false} DailyCycleIsolated(t: Table, rows: seq<ActiveUser>, i: int, today: Day, now: Day,
                                              oracles: UserId -> DispatchOracle)
    requires Distinct(IdsOf(rows)) && 0 <= i < |rows| && rows[i].userId in t
    ensures DailyCycle(t, rows, today, now, oracles)[rows[i].userId] ==
      DailyStep(t, rows[i], today, now, oracles(rows[i].userId))[rows[i].userId]
    decreases |rows|
  {
    var front := rows[..|rows| - 1];
    var last := rows[|rows| - 1];
    var uid := rows[i].userId;
    var before := DailyCycle(t, front, today, now, oracles);
    DailyCycleUntouched(t, front, today, now, oracles, uid);
    if i == |rows| - 1 {
      forall j | 0 <= j < |front|
        ensures IdsOf(front)[j] != uid
      {
        assert IdsOf(front)[j] == IdsOf(rows)[j];
      }
      DailyStepLocal(before, t, last, today, now, oracles(uid));
    } else {
      assert IdsOf(rows)[i] != IdsOf(rows)[|rows| - 1];
      assert Distinct(IdsOf(front)) by {
        forall j | 0 <= j < |front|
          ensures IdsOf(front)[j] == IdsOf(rows)[j]
        {
        }
      }
      assert front[i] == rows[i];
      DailyCycleIsolated(t, front, i, today, now, oracles);
      DailyStepFrame(before, last, today, now, oracles(last.userId), uid);
    }
  }

  /**
   * The daily cycle consults only the quota gate: a user who was already
   * sent verses today, so that the cadence gate refuses, is still dispatched
   * when the quota gate allows, and is sent the next batch again.
   */
  lemma CadenceGateIgnored(t: Table, row: ActiveUser, today: Day, oracle: DispatchOracle)
    requires row.userId in t && t[row.userId].lastSentDay == Some(today)
    requires CanRequestVerses(t, row.userId, today, DefaultMaxRequests)
    requires Dispatch(Position(row.surah, row.verse), oracle).success
    ensures !ShouldSendToday(t, row.userId, today)
    ensures Position(DailyStep(t, row, today, today, oracle)[row.userId].surah, DailyStep(t, row, today, today, oracle)[row.userId].verse)
      == Dispatch(Position(row.surah, row.verse), oracle).final
    ensures DailyStep(t, row, today, today, oracle)[row.userId].lastRequestDay == Some(today)
  {
    DailyStepOutcome(t, row, today, today, oracle);
  }
}
