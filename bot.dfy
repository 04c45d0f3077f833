/**
 * The command handlers' effect on the subscriber store: /start subscribes or
 * resubscribes, /stop unsubscribes, and /anotherone sends the next batch on
 * demand, checking the subscription, then the daily quota, then dispatching
 * and recording the request on success. Reply texts are not modelled.
 */
module Bot {
  import opened Wrappers
  import opened QuranData
  import opened Database
  import opened Scheduler

  /** Which reply /anotherone ends with. */
  datatype AnotherOneOutcome = NotSubscribed | LimitReached | Sent | SendFailed

  /** The reply /anotherone chooses and the table it leaves. */
  datatype CommandResult = CommandResult(outcome: AnotherOneOutcome, users: Table)

  /**
   * /anotherone on table `t`: refuse users without an active row, then users
   * whose quota is used up, then dispatch from the stored cursor and record
   * the request only when the dispatch succeeds.
   */
  function AnotherOne(t: Table, uid: UserId, today: Day, now: Day, oracle: DispatchOracle): (r: CommandResult)
    ensures r.users.Keys == t.Keys
    ensures r.outcome == NotSubscribed <==> !(uid in t && t[uid].active)
  {
    match GetUserProgress(t, uid)
    case None => CommandResult(NotSubscribed, t)
    case Some(p) =>
      if !CanRequestVerses(t, uid, today, DefaultMaxRequests) then CommandResult(LimitReached, t)
      else
        var r := Dispatch(p, oracle);
        var committed := CommitProgress(t, uid, r.commit, now);
        if r.success then CommandResult(Sent, IncrementTable(committed, uid, today))
        else CommandResult(SendFailed, committed)
  }

  /**
   * The outcomes of /anotherone: not subscribed exactly when there is no
   * active row, limit reached exactly when the quota gate refuses an active
   * row, sent exactly when the dispatch from the stored cursor succeeds. Each
   * refusal and each failure leaves the table as it was; a send commits the
   * new cursor and send day and records exactly one request.
   */
  lemma AnotherOneOutcomes(t: Table, uid: UserId, today: Day, now: Day, oracle: DispatchOracle)
    ensures AnotherOne(t, uid, today, now, oracle).outcome == NotSubscribed <==> !(uid in t && t[uid].active)
    ensures AnotherOne(t, uid, today, now, oracle).outcome == LimitReached <==>
      uid in t && t[uid].active && !CanRequestVerses(t, uid, today, DefaultMaxRequests)
    ensures AnotherOne(t, uid, today, now, oracle).outcome == Sent <==>
      uid in t && t[uid].active && CanRequestVerses(t, uid, today, DefaultMaxRequests)
      && Dispatch(Position(t[uid].surah, t[uid].verse), oracle).success
    ensures AnotherOne(t, uid, today, now, oracle).outcome != Sent ==> AnotherOne(t, uid, today, now, oracle).users == t
    ensures AnotherOne(t, uid, today, now, oracle).outcome == Sent ==>
      var final := Dispatch(Position(t[uid].surah, t[uid].verse), oracle).final;
      AnotherOne(t, uid, today, now, oracle).users ==
        t[uid := RecordRequest(t[uid].(surah := final.surah, verse := final.verse, lastSentDay := Some(now)), today)]
  {
    if uid in t && t[uid].active {
      DispatchCommitsExactly(Position(t[uid].surah, t[uid].verse), oracle);
    }
  }

  /** /anotherone never consults the cadence gate: the day of the last send does not change its outcome. */
  lemma AnotherOneIgnoresCadence(t: Table, uid: UserId, today: Day, now: Day, oracle: DispatchOracle, lastSent: Option<Day>)
    requires uid in t
    ensures AnotherOne(t[uid := t[uid].(lastSentDay := lastSent)], uid, today, now, oracle).outcome
      == AnotherOne(t, uid, today, now, oracle).outcome
  {
  }

  /** With an active row that has never requested, the first /anotherone that the service and transport answer is sent. */
  lemma AnotherOneAfterStart(t: Table, uid: UserId, chatId: ChatId, today: Day, now: Day, oracle: DispatchOracle)
    requires uid !in t
    requires oracle.answer.Some? && oracle.mainSend == Delivered
    ensures AnotherOne(AddUserTable(t, uid, chatId), uid, today, now, oracle).outcome == Sent
    ensures AnotherOne(AddUserTable(t, uid, chatId), uid, today, now, oracle).users[uid].surah == 1
    ensures AnotherOne(AddUserTable(t, uid, chatId), uid, today, now, oracle).users[uid].verse == 4
    ensures AnotherOne(AddUserTable(t, uid, chatId), uid, today, now, oracle).users[uid].requestsToday == Some(1)
  {
    var t' := AddUserTable(t, uid, chatId);
    AddUserInserts(t, uid, chatId, uid);
    DispatchExamples(oracle);
    AnotherOneOutcomes(t', uid, today, now, oracle);
  }

  /** start_command: subscribe, and for a returning user read back the stored cursor for the reply. */
  method StartCommand(store: UserStore, uid: UserId, chatId: ChatId) returns (isNew: bool, progress: Option<Position>)
    requires store.Valid()
    modifies store
    ensures store.Valid()
    ensures isNew <==> uid !in old(store.users)
    ensures store.users == AddUserTable(old(store.users), uid, chatId)
    ensures store.order == if isNew then old(store.order) + [uid] else old(store.order)
    ensures isNew ==> progress == None
    ensures !isNew ==> progress == Some(Position(old(store.users)[uid].surah, old(store.users)[uid].verse))
  {
    isNew := store.AddUser(uid, chatId);
    progress := None;
    if !isNew {
      AddUserReactivates(old(store.users), uid, chatId);
      progress := GetUserProgress(store.users, uid);
    }
  }

  /** stop_command: unsubscribe; the answer says whether a row existed. */
  method StopCommand(store: UserStore, uid: UserId) returns (wasSubscribed: bool)
    requires store.Valid()
    modifies store
    ensures store.Valid()
    ensures wasSubscribed <==> uid in old(store.users)
    ensures store.users == DeactivateTable(old(store.users), uid) && store.order == old(store.order)
  {
    wasSubscribed := store.DeactivateUser(uid);
  }

  /** anotherone_command: the checks in order, the dispatch, and the request recorded on success. */
  method AnotherOneCommand(store: UserStore, uid: UserId, chatId: ChatId, today: Day, now: Day, oracle: DispatchOracle)
    returns (outcome: AnotherOneOutcome)
    requires store.Valid()
    modifies store
    ensures store.Valid()
    ensures outcome == AnotherOne(old(store.users), uid, today, now, oracle).outcome
    ensures store.users == AnotherOne(old(store.users), uid, today, now, oracle).users
    ensures store.order == old(store.order)
  {
    var progress := GetUserProgress(store.users, uid);
    if progress.None? {
      return NotSubscribed;
    }
    if !CanRequestVerses(store.users, uid, today, DefaultMaxRequests) {
      return LimitReached;
    }
    var currentSurah, currentVerse := progress.value.surah, progress.value.verse;
    var success, finalSurah, finalVerse := SendThreeVersesToUser(store, uid, chatId, currentSurah, currentVerse, now, oracle);
    if success {
      var incremented := store.IncrementRequestCount(uid, today);
      outcome := Sent;
    } else {
      outcome := SendFailed;
    }
  }
}
