/**
 * The subscriber store: the `users` table as a map from user id to record,
 * together with the insertion order that the table's autoincrement `id`
 * column gives, the operations that change rows, and the three read-only
 * gates (cadence, quota and allowance). Dates are day numbers in the
 * configured time zone, supplied by the caller.
 */
module Database {
  import opened Wrappers
  import opened QuranData

  type UserId = int
  type ChatId = int
  /** A calendar day in the configured zone, as a day number. */
  type Day = int

  /** The daily allowance both callers use when they pass none. */
  const DefaultMaxRequests: int := 10

  /**
   * One row of the `users` table. `lastSentDay` is the day of `last_sent_at`,
   * `requestsToday` may be NULL in a row written before the column existed,
   * and `lastRequestDay` is `last_request_date`.
   */
  datatype UserRecord = UserRecord(
    chatId: ChatId,
    surah: int,
    verse: int,
    active: bool,
    lastSentDay: Option<Day>,
    requestsToday: Option<nat>,
    lastRequestDay: Option<Day>)

  type Table = map<UserId, UserRecord>

  /** A row of the active-users listing: (user_id, chat_id, current_surah, current_verse). */
  datatype ActiveUser = ActiveUser(userId: UserId, chatId: ChatId, surah: int, verse: int)

  /** The row a first subscription inserts: active, at (1, 1), nothing sent or requested yet. */
  function NewRecord(chatId: ChatId): (r: UserRecord)
    ensures r.active && Position(r.surah, r.verse) == Start && ValidPosition(Position(r.surah, r.verse))
    ensures r.lastSentDay.None? && r.requestsToday == Some(0) && r.lastRequestDay.None?
  {
    UserRecord(chatId, 1, 1, true, None, Some(0), None)
  }

  /** A stored request count, with NULL read as zero. */
  function CountOf(r: UserRecord): nat
  {
    if r.requestsToday.None? then 0 else r.requestsToday.value
  }

  /** Whether a stored request date starts a fresh allowance today: it is NULL or an earlier day. */
  predicate IsNewDay(last: Option<Day>, today: Day)
  {
    last.None? || last.value < today
  }

  // ---------------------------------------------------------------------
  // Row updates, as functions of the table before the statement.
  // ---------------------------------------------------------------------

  /** add_user: reactivate and re-point an existing row, or insert a fresh one. */
  function AddUserTable(t: Table, uid: UserId, chatId: ChatId): (t': Table)
    ensures t'.Keys == t.Keys + {uid}
    ensures t'[uid].active && t'[uid].chatId == chatId
    ensures forall u :: u in t && u != uid ==> t'[u] == t[u]
  {
    if uid in t then t[uid := t[uid].(active := true, chatId := chatId)]
    else t[uid := NewRecord(chatId)]
  }

  /** deactivate_user: clear the active flag of the row, if there is one. */
  function DeactivateTable(t: Table, uid: UserId): (t': Table)
    ensures t'.Keys == t.Keys
    ensures uid in t ==> !t'[uid].active
    ensures forall u :: u in t && u != uid ==> t'[u] == t[u]
  {
    if uid in t then t[uid := t[uid].(active := false)] else t
  }

  /** update_user_progress: move the cursor and stamp the send day, active or not. */
  function UpdateProgressTable(t: Table, uid: UserId, surah: int, verse: int, now: Day): (t': Table)
    ensures t'.Keys == t.Keys
    ensures uid in t ==> t'[uid].surah == surah && t'[uid].verse == verse && t'[uid].lastSentDay == Some(now)
    ensures forall u :: u in t && u != uid ==> t'[u] == t[u]
  {
    if uid in t then t[uid := t[uid].(surah := surah, verse := verse, lastSentDay := Some(now))] else t
  }

  /** The request bookkeeping of one row: restart the count at 1 on a new day, else add one. */
  function RecordRequest(r: UserRecord, today: Day): (r': UserRecord)
    ensures r'.lastRequestDay == Some(today)
    ensures r'.requestsToday == Some(if IsNewDay(r.lastRequestDay, today) then 1 else CountOf(r) + 1)
    ensures r' == r.(requestsToday := r'.requestsToday, lastRequestDay := r'.lastRequestDay)
  {
    var newCount := if IsNewDay(r.lastRequestDay, today) then 1 else CountOf(r) + 1;
    r.(requestsToday := Some(newCount), lastRequestDay := Some(today))
  }

  /** increment_request_count: the bookkeeping on the row, whether or not it is active. */
  function IncrementTable(t: Table, uid: UserId, today: Day): (t': Table)
    ensures t'.Keys == t.Keys
    ensures uid in t ==> t'[uid].lastRequestDay == Some(today)
    ensures forall u :: u in t && u != uid ==> t'[u] == t[u]
  {
    if uid in t then t[uid := RecordRequest(t[uid], today)] else t
  }

  // ---------------------------------------------------------------------
  // Read-only queries and gates.
  // ---------------------------------------------------------------------

  /** The row that a query restricted to `active = 1` finds. */
  function FetchActive(t: Table, uid: UserId): (r: Option<UserRecord>)
    ensures r.Some? <==> uid in t && t[uid].active
    ensures r.Some? ==> r.value == t[uid]
  {
    if uid in t && t[uid].active then Some(t[uid]) else None
  }

  /** get_user_progress: the cursor of an active row. */
  function GetUserProgress(t: Table, uid: UserId): (p: Option<Position>)
    ensures p.Some? <==> uid in t && t[uid].active
    ensures p.Some? ==> p.value == Position(t[uid].surah, t[uid].verse)
  {
    match FetchActive(t, uid)
    case None => None
    case Some(r) => Some(Position(r.surah, r.verse))
  }

  /** should_send_today: an active row that was never sent to, or was last sent to on an earlier day. */
  function ShouldSendToday(t: Table, uid: UserId, today: Day): (b: bool)
    ensures b ==> uid in t && t[uid].active
  {
    match FetchActive(t, uid)
    case None => false
    case Some(r) => r.lastSentDay.None? || r.lastSentDay.value < today
  }

  /** can_request_verses: an active row with a fresh allowance or with fewer than `maxRequests` requests today. */
  function CanRequestVerses(t: Table, uid: UserId, today: Day, maxRequests: int): (b: bool)
    ensures b ==> uid in t && t[uid].active
  {
    match FetchActive(t, uid)
    case None => false
    case Some(r) =>
      if r.lastRequestDay.None? then true
      else if r.lastRequestDay.value < today then true
      else CountOf(r) < maxRequests
  }

  /** get_requests_remaining: the allowance left today. */
  function GetRequestsRemaining(t: Table, uid: UserId, today: Day, maxRequests: int): (n: int)
    ensures maxRequests >= 0 ==> 0 <= n <= maxRequests
  {
    match FetchActive(t, uid)
    case None => 0
    case Some(r) =>
      if r.lastRequestDay.None? then maxRequests
      else if r.lastRequestDay.value < today then maxRequests
      else if maxRequests - CountOf(r) > 0 then maxRequests - CountOf(r) else 0
  }

  /** get_active_users: the active rows, listed in the order the rows were inserted. */
  function ActiveUsers(t: Table, order: seq<UserId>): (rows: seq<ActiveUser>)
    ensures |rows| <= |order|
  {
    if |order| == 0 then []
    else
      var rest := ActiveUsers(t, order[..|order| - 1]);
      var uid := order[|order| - 1];
      if uid in t && t[uid].active then
        rest + [ActiveUser(uid, t[uid].chatId, t[uid].surah, t[uid].verse)]
      else rest
  }

  /** The user ids of a listing, in order. */
  function IdsOf(rows: seq<ActiveUser>): (ids: seq<UserId>)
    ensures |ids| == |rows|
    ensures forall i :: 0 <= i < |rows| ==> ids[i] == rows[i].userId
  {
    if |rows| == 0 then [] else IdsOf(rows[..|rows| - 1]) + [rows[|rows| - 1].userId]
  }

  /** No id occurs twice. */
  predicate Distinct(ids: seq<UserId>)
  {
    forall i, j :: 0 <= i < j < |ids| ==> ids[i] != ids[j]
  }

  // ---------------------------------------------------------------------
  // The store object.
  // ---------------------------------------------------------------------

  /** The `users` table: rows by user id, and the user ids in insertion (`id`) order. */
  class UserStore {
    var users: Table
    var order: seq<UserId>

    /** `user_id` is unique, and every row appears exactly once in the insertion order. */
    ghost predicate Valid()
      reads this
    {
      Distinct(order) && (forall u :: u in users <==> u in order)
    }

    /** An empty table. */
    constructor()
      ensures Valid() && users == map[] && order == []
    {
      users := map[];
      order := [];
    }

    /** add_user: true exactly when a new row was inserted. */
    method AddUser(uid: UserId, chatId: ChatId) returns (isNew: bool)
      requires Valid()
      modifies this
      ensures Valid()
      ensures isNew <==> uid !in old(users)
      ensures users == AddUserTable(old(users), uid, chatId)
      ensures order == if isNew then old(order) + [uid] else old(order)
    {
      if uid in users {
        users := users[uid := users[uid].(active := true, chatId := chatId)];
        isNew := false;
      } else {
        users := users[uid := NewRecord(chatId)];
        order := order + [uid];
        isNew := true;
      }
    }

    /** deactivate_user: true exactly when a row was updated. */
    method DeactivateUser(uid: UserId) returns (success: bool)
      requires Valid()
      modifies this
      ensures Valid()
      ensures success <==> uid in old(users)
      ensures users == DeactivateTable(old(users), uid) && order == old(order)
    {
      success := uid in users;
      if success {
        users := users[uid := users[uid].(active := false)];
      }
    }

    /** update_user_progress: true exactly when a row was updated. */
    method UpdateUserProgress(uid: UserId, surah: int, verse: int, now: Day) returns (success: bool)
      requires Valid()
      modifies this
      ensures Valid()
      ensures success <==> uid in old(users)
      ensures users == UpdateProgressTable(old(users), uid, surah, verse, now) && order == old(order)
    {
      success := uid in users;
      if success {
        users := users[uid := users[uid].(surah := surah, verse := verse, lastSentDay := Some(now))];
      }
    }

    /** increment_request_count: true exactly when a row was updated. */
    method IncrementRequestCount(uid: UserId, today: Day) returns (success: bool)
      requires Valid()
      modifies this
      ensures Valid()
      ensures success <==> uid in old(users)
      ensures users == IncrementTable(old(users), uid, today) && order == old(order)
    {
      if uid !in users {
        return false;
      }
      var r := users[uid];
      var isNewDay := true;
      if r.lastRequestDay.Some? {
        isNewDay := r.lastRequestDay.value < today;
      }
      var newCount := if isNewDay then 1 else CountOf(r) + 1;
      users := users[uid := r.(requestsToday := Some(newCount), lastRequestDay := Some(today))];
      success := true;
    }
  }

  // ---------------------------------------------------------------------
  // Properties of the row updates.
  // ---------------------------------------------------------------------

  /** A first subscription inserts an active row at (1, 1) with empty history and touches no other row. */
  lemma AddUserInserts(t: Table, uid: UserId, chatId: ChatId, other: UserId)
    requires uid !in t
    ensures AddUserTable(t, uid, chatId).Keys == t.Keys + {uid}
    ensures AddUserTable(t, uid, chatId)[uid] == UserRecord(chatId, 1, 1, true, None, Some(0), None)
    ensures other != uid && other in t ==> AddUserTable(t, uid, chatId)[other] == t[other]
  {
  }

  /** A returning subscriber is reactivated with the new chat; cursor and history stay as they were. */
  lemma AddUserReactivates(t: Table, uid: UserId, chatId: ChatId)
    requires uid in t
    ensures AddUserTable(t, uid, chatId).Keys == t.Keys
    ensures AddUserTable(t, uid, chatId)[uid] == t[uid].(active := true, chatId := chatId)
    ensures GetUserProgress(AddUserTable(t, uid, chatId), uid) == Some(Position(t[uid].surah, t[uid].verse))
  {
  }

  /** Unsubscribing clears only the active flag, and the row stops being visible to the gates. */
  lemma DeactivateEffects(t: Table, uid: UserId, today: Day, maxRequests: int)
    ensures DeactivateTable(t, uid).Keys == t.Keys
    ensures uid in t ==> DeactivateTable(t, uid)[uid] == t[uid].(active := false)
    ensures GetUserProgress(DeactivateTable(t, uid), uid) == None
    ensures !ShouldSendToday(DeactivateTable(t, uid), uid, today)
    ensures !CanRequestVerses(DeactivateTable(t, uid), uid, today, maxRequests)
    ensures GetRequestsRemaining(DeactivateTable(t, uid), uid, today, maxRequests) == 0
  {
  }

  /** After /stop and a later /start the subscriber resumes from the cursor they had. */
  lemma StopThenStartResumes(t: Table, uid: UserId, chatId: ChatId)
    requires uid in t
    ensures GetUserProgress(AddUserTable(DeactivateTable(t, uid), uid, chatId), uid)
         == Some(Position(t[uid].surah, t[uid].verse))
    ensures AddUserTable(DeactivateTable(t, uid), uid, chatId)[uid] == t[uid].(active := true, chatId := chatId)
  {
  }

  /**
   * A progress commit moves the cursor and stamps the day, does not look at
   * the active flag, and leaves the flag and the quota fields alone; on the
   * same day the cadence gate is then closed, and on any later day open again.
   */
  lemma UpdateProgressEffects(t: Table, uid: UserId, surah: int, verse: int, now: Day, later: Day)
    requires uid in t
    ensures UpdateProgressTable(t, uid, surah, verse, now).Keys == t.Keys
    ensures UpdateProgressTable(t, uid, surah, verse, now)[uid]
         == t[uid].(surah := surah, verse := verse, lastSentDay := Some(now))
    ensures !ShouldSendToday(UpdateProgressTable(t, uid, surah, verse, now), uid, now)
    ensures now < later ==> (ShouldSendToday(UpdateProgressTable(t, uid, surah, verse, now), uid, later) <==> t[uid].active)
  {
  }

  /** A request restarts the count at 1 on a new day and otherwise adds one; the date becomes today; it needs no active flag. */
  lemma IncrementEffects(t: Table, uid: UserId, today: Day)
    ensures IncrementTable(t, uid, today).Keys == t.Keys
    ensures uid !in t ==> IncrementTable(t, uid, today) == t
    ensures uid in t ==> IncrementTable(t, uid, today)[uid].lastRequestDay == Some(today)
    ensures uid in t && IsNewDay(t[uid].lastRequestDay, today) ==> IncrementTable(t, uid, today)[uid].requestsToday == Some(1)
    ensures uid in t && !IsNewDay(t[uid].lastRequestDay, today) ==> IncrementTable(t, uid, today)[uid].requestsToday == Some(CountOf(t[uid]) + 1)
    ensures uid in t ==> IncrementTable(t, uid, today)[uid].active == t[uid].active
    ensures uid in t ==> IncrementTable(t, uid, today)[uid].chatId == t[uid].chatId
    ensures uid in t ==> IncrementTable(t, uid, today)[uid].surah == t[uid].surah
    ensures uid in t ==> IncrementTable(t, uid, today)[uid].verse == t[uid].verse
    ensures uid in t ==> IncrementTable(t, uid, today)[uid].lastSentDay == t[uid].lastSentDay
  {
  }

  // ---------------------------------------------------------------------
  // Properties of the gates.
  // ---------------------------------------------------------------------

  /** The cadence gate: closed for unknown and inactive users, open when nothing was sent, else open exactly on a later day. */
  lemma ShouldSendCases(t: Table, uid: UserId, today: Day)
    ensures !(uid in t && t[uid].active) ==> !ShouldSendToday(t, uid, today)
    ensures uid in t && t[uid].active && t[uid].lastSentDay.None? ==> ShouldSendToday(t, uid, today)
    ensures uid in t && t[uid].active && t[uid].lastSentDay.Some? ==>
      (ShouldSendToday(t, uid, today) <==> t[uid].lastSentDay.value < today)
  {
  }

  /** The quota gate: closed for unknown and inactive users, open on a new day, else open exactly below the allowance. */
  lemma CanRequestCases(t: Table, uid: UserId, today: Day, maxRequests: int)
    ensures !(uid in t && t[uid].active) ==> !CanRequestVerses(t, uid, today, maxRequests)
    ensures uid in t && t[uid].active && IsNewDay(t[uid].lastRequestDay, today) ==> CanRequestVerses(t, uid, today, maxRequests)
    ensures uid in t && t[uid].active && !IsNewDay(t[uid].lastRequestDay, today) ==>
      (CanRequestVerses(t, uid, today, maxRequests) <==> CountOf(t[uid]) < maxRequests)
  {
  }

  /** The allowance lies between 0 and the maximum, and is the full maximum on a new day. */
  lemma RemainingBounds(t: Table, uid: UserId, today: Day, maxRequests: int)
    requires maxRequests >= 0
    ensures 0 <= GetRequestsRemaining(t, uid, today, maxRequests) <= maxRequests
    ensures !(uid in t && t[uid].active) ==> GetRequestsRemaining(t, uid, today, maxRequests) == 0
    ensures uid in t && t[uid].active && IsNewDay(t[uid].lastRequestDay, today) ==>
      GetRequestsRemaining(t, uid, today, maxRequests) == maxRequests
    ensures uid in t && t[uid].active && !IsNewDay(t[uid].lastRequestDay, today) ==>
      GetRequestsRemaining(t, uid, today, maxRequests) == if CountOf(t[uid]) < maxRequests then maxRequests - CountOf(t[uid]) else 0
  {
  }

  /** With a positive maximum, a request is allowed exactly when some allowance remains. */
  lemma CanRequestIffRemaining(t: Table, uid: UserId, today: Day, maxRequests: int)
    requires maxRequests >= 1
    ensures CanRequestVerses(t, uid, today, maxRequests) <==> GetRequestsRemaining(t, uid, today, maxRequests) > 0
  {
  }

  /** The table after `n` requests by `uid` on day `today`. */
  function RequestsOn(t: Table, uid: UserId, today: Day, n: nat): Table
  {
    if n == 0 then t else IncrementTable(RequestsOn(t, uid, today, n - 1), uid, today)
  }

  /**
   * `n` requests on one day: from a fresh allowance the count is `n`, and
   * from a count `c` already recorded that day it is `c + n`; the row is
   * otherwise what it was.
   */
  lemma {:induction false} RequestsAccumulate(t: Table, uid: UserId, today: Day, n: nat)
    requires uid in t && n >= 1
    ensures RequestsOn(t, uid, today, n).Keys == t.Keys
    ensures RequestsOn(t, uid, today, n)[uid].lastRequestDay == Some(today)
    ensures RequestsOn(t, uid, today, n)[uid].requestsToday
         == Some(if IsNewDay(t[uid].lastRequestDay, today) then n else CountOf(t[uid]) + n)
    ensures RequestsOn(t, uid, today, n)[uid].active == t[uid].active
  {
    if n > 1 {
      RequestsAccumulate(t, uid, today, n - 1);
    }
  }

  /**
   * Quota exhaustion: starting from a fresh allowance, after `n` requests on
   * one day a further request is allowed exactly when `n` is below the
   * maximum; on any later day it is allowed again.
   */
  lemma QuotaExhaustion(t: Table, uid: UserId, today: Day, n: nat, maxRequests: int, later: Day)
    requires uid in t && t[uid].active && IsNewDay(t[uid].lastRequestDay, today) && n >= 1
    ensures CanRequestVerses(RequestsOn(t, uid, today, n), uid, today, maxRequests) <==> n < maxRequests
    ensures today < later ==> CanRequestVerses(RequestsOn(t, uid, today, n), uid, later, maxRequests)
  {
    RequestsAccumulate(t, uid, today, n);
  }

  // ---------------------------------------------------------------------
  // Properties of the active-users listing.
  // ---------------------------------------------------------------------

  /** The listing holds exactly the active rows, each with its stored chat and cursor, in insertion order. */
  lemma {:induction false} ActiveUsersExact(t: Table, order: seq<UserId>)
    ensures forall i :: 0 <= i < |ActiveUsers(t, order)| ==>
      var row := ActiveUsers(t, order)[i];
      row.userId in t && t[row.userId].active && row.userId in order
      && row == ActiveUser(row.userId, t[row.userId].chatId, t[row.userId].surah, t[row.userId].verse)
    ensures forall u :: u in order && u in t && t[u].active ==> u in IdsOf(ActiveUsers(t, order))
  {
    if |order| > 0 {
      ActiveUsersExact(t, order[..|order| - 1]);
      var rest := ActiveUsers(t, order[..|order| - 1]);
      var uid := order[|order| - 1];
      assert order == order[..|order| - 1] + [uid];
      if uid in t && t[uid].active {
        var rows := rest + [ActiveUser(uid, t[uid].chatId, t[uid].surah, t[uid].verse)];
        assert IdsOf(rows) == IdsOf(rest) + [uid] by {
          assert rows[..|rows| - 1] == rest;
        }
      }
    }
  }

  /** The ids of a listing appear in insertion order: the listing's ids form a subsequence of it. */
  predicate SubsequenceOf(xs: seq<UserId>, ys: seq<UserId>)
    decreases |ys|
  {
    if |xs| == 0 then true
    else if |ys| == 0 then false
    else if xs[|xs| - 1] == ys[|ys| - 1] then SubsequenceOf(xs[..|xs| - 1], ys[..|ys| - 1])
    else SubsequenceOf(xs, ys[..|ys| - 1])
  }

  /** The listing follows insertion order: its ids form a subsequence of the inserted ids. */
  lemma {:induction false} ActiveUsersOrdered(t: Table, order: seq<UserId>)
    ensures SubsequenceOf(IdsOf(ActiveUsers(t, order)), order)
  {
    if |order| > 0 {
      ActiveUsersOrdered(t, order[..|order| - 1]);
      var rest := ActiveUsers(t, order[..|order| - 1]);
      var uid := order[|order| - 1];
      if uid in t && t[uid].active {
        var rows := rest + [ActiveUser(uid, t[uid].chatId, t[uid].surah, t[uid].verse)];
        assert rows[..|rows| - 1] == rest;
        assert IdsOf(rows) == IdsOf(rest) + [uid];
      } else if |rest| > 0 {
        ActiveUsersExact(t, order[..|order| - 1]);
        assert IdsOf(rest)[|rest| - 1] != uid;
      }
    }
  }

  /** With unique inserted ids the listing names every user at most once. */
  lemma {:induction false} ActiveUsersDistinct(t: Table, order: seq<UserId>)
    requires Distinct(order)
    ensures Distinct(IdsOf(ActiveUsers(t, order)))
  {
    if |order| > 0 {
      var front := order[..|order| - 1];
      ActiveUsersDistinct(t, front);
      ActiveUsersExact(t, front);
      var rest := ActiveUsers(t, front);
      var uid := order[|order| - 1];
      if uid in t && t[uid].active {
        var rows := rest + [ActiveUser(uid, t[uid].chatId, t[uid].surah, t[uid].verse)];
        assert rows[..|rows| - 1] == rest;
        assert IdsOf(rows) == IdsOf(rest) + [uid];
        forall i | 0 <= i < |rest|
          ensures IdsOf(rest)[i] != uid
        {
          assert rest[i].userId in front;
        }
      }
    }
  }
}
