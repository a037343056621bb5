/**
 * The bot's SQLite database (database/db_manager.py) as in-memory tables.
 *
 * `levels` and `economy` are keyed by (user_id, guild_id) as their PRIMARY KEY
 * declares; `user_profiles` by user_id alone. `events` and
 * `residential_access_codes` are AUTOINCREMENT tables: they are sequences in
 * insertion order whose row with id n sits at index n - 1 (EventIds, CodeIds).
 * `warnings` and `access_code_history` are append-only logs. Timestamps are
 * integer seconds supplied by the caller as `now`.
 */
module Store {
  import opened Wrappers
  import opened Text

  /** (user_id, guild_id) */
  type Key = (int, int)

  /** A row of `levels`; a fresh row takes the column defaults level = 1, total_messages = 1. */
  datatype LevelRow = LevelRow(xp: int, level: int, totalMessages: int, lastXpTime: Option<int>)

  /** A row of `economy`; balance defaults to 0, both timestamps to NULL. */
  datatype EconomyRow = EconomyRow(balance: int, lastDaily: Option<int>, lastWork: Option<int>)

  /** The last_daily and last_work stamps of k read the same in both tables; a missing row reads as no stamps. */
  predicate StampsKept(before: map<Key, EconomyRow>, after: map<Key, EconomyRow>, k: Key)
  {
    && (if k in after then after[k].lastDaily else None) == (if k in before then before[k].lastDaily else None)
    && (if k in after then after[k].lastWork else None) == (if k in before then before[k].lastWork else None)
  }

  datatype WarningRow = WarningRow(user: int, guild: int, moderator: int, reason: string, timestamp: int)

  /** A row of `user_profiles`: the comma-separated list of a user's games. */
  datatype ProfileRow = ProfileRow(guild: int, games: string, updatedAt: int)

  datatype EventRow = EventRow(
    id: int, guild: int, creator: int, title: string, description: string,
    eventDate: int, createdAt: int, notified: bool)

  datatype AccessCodeRow = AccessCodeRow(
    id: int, guild: int, code: string, residentName: string, codeType: string,
    createdBy: int, createdAt: int, expiryDate: Option<int>,
    location: Option<string>, notes: Option<string>,
    isActive: bool, revokedAt: Option<int>, useCount: int)

  /** A row of `access_code_history`. */
  datatype CodeUse = CodeUse(codeId: int, usedBy: int, usedAt: int)

  /** An event is announced during the hour before it starts. */
  const NotifyLead := 3600

  /** The WHERE clause of get_events_to_notify. */
  predicate IsDue(e: EventRow, now: int)
  {
    !e.notified && e.eventDate - NotifyLead <= now < e.eventDate
  }

  /** The due events, in id order. */
  function DueEvents(es: seq<EventRow>, now: int): (due: seq<EventRow>)
    ensures |due| <= |es|
    ensures forall e :: e in due <==> e in es && IsDue(e, now)
  {
    if es == [] then []
    else (if IsDue(es[0], now) then [es[0]] else []) + DueEvents(es[1..], now)
  }

  /** The warnings recorded for one (user, guild), oldest first. */
  function WarningsOf(ws: seq<WarningRow>, user: int, guild: int): (r: seq<WarningRow>)
    ensures |r| <= |ws|
    ensures forall w :: w in r <==> w in ws && w.user == user && w.guild == guild
  {
    if ws == [] then []
    else
      var last := ws[|ws| - 1];
      WarningsOf(ws[..|ws| - 1], user, guild) + (if last.user == user && last.guild == guild then [last] else [])
  }

  /** Recording a warning adds it to its own (user, guild) list and to no other. */
  lemma WarningsOfAppend(ws: seq<WarningRow>, w: WarningRow, user: int, guild: int)
    ensures WarningsOf(ws + [w], user, guild)
      == WarningsOf(ws, user, guild) + (if w.user == user && w.guild == guild then [w] else [])
  {
    assert (ws + [w])[..|ws + [w]| - 1] == ws;
  }

  function Reversed<T(!new)>(s: seq<T>): (r: seq<T>)
    ensures |r| == |s|
    ensures forall i :: 0 <= i < |s| ==> r[i] == s[|s| - 1 - i]
    ensures forall x :: x in r <==> x in s
  {
    if s == [] then [] else Reversed(s[1..]) + [s[0]]
  }

  predicate CodeMatches(c: AccessCodeRow, guild: int, code: string)
  {
    c.guild == guild && c.code == code
  }

  /** The index of the first row SELECT ... WHERE guild_id = ? AND code = ? returns, if any. */
  function FindCode(codes: seq<AccessCodeRow>, guild: int, code: string, from: nat := 0): (r: Option<nat>)
    requires from <= |codes|
    ensures r.Some? ==> from <= r.value < |codes| && CodeMatches(codes[r.value], guild, code)
    ensures r.Some? ==> forall j :: from <= j < r.value ==> !CodeMatches(codes[j], guild, code)
    ensures r.None? ==> forall j :: from <= j < |codes| ==> !CodeMatches(codes[j], guild, code)
    decreases |codes| - from
  {
    if from == |codes| then None
    else if CodeMatches(codes[from], guild, code) then Some(from)
    else FindCode(codes, guild, code, from + 1)
  }

  /** Appending a row leaves earlier matches first; otherwise the new row is found when it matches. */
  lemma {:induction false} FindCodeAppend(codes: seq<AccessCodeRow>, row: AccessCodeRow, guild: int, code: string, from: nat)
    requires from <= |codes|
    ensures FindCode(codes + [row], guild, code, from) ==
      if FindCode(codes, guild, code, from).Some? then FindCode(codes, guild, code, from)
      else if CodeMatches(row, guild, code) then Some(|codes|)
      else None
    decreases |codes| - from
  {
    if from < |codes| {
      assert (codes + [row])[from] == codes[from];
      FindCodeAppend(codes, row, guild, code, from + 1);
    }
  }

  /** get_expired_codes: active codes of the guild whose expiry lies strictly before now. */
  function ExpiredCodes(codes: seq<AccessCodeRow>, guild: int, now: int): (r: seq<AccessCodeRow>)
    ensures |r| <= |codes|
    ensures forall c :: c in r <==>
      c in codes && c.guild == guild && c.isActive && c.expiryDate.Some? && c.expiryDate.value < now
  {
    if codes == [] then []
    else
      var c := codes[0];
      (if c.guild == guild && c.isActive && c.expiryDate.Some? && c.expiryDate.value < now then [c] else [])
        + ExpiredCodes(codes[1..], guild, now)
  }

  class Database {
    var levels: map<Key, LevelRow>
    var economy: map<Key, EconomyRow>
    var warnings: seq<WarningRow>
    var profiles: map<int, ProfileRow>
    var events: seq<EventRow>
    var accessCodes: seq<AccessCodeRow>
    var codeHistory: seq<CodeUse>

    /** initialize: every table exists and is empty. */
    constructor ()
      ensures levels == map[] && economy == map[] && warnings == [] && profiles == map[]
      ensures events == [] && accessCodes == [] && codeHistory == []
    {
      levels, economy, warnings, profiles := map[], map[], [], map[];
      events, accessCodes, codeHistory := [], [], [];
    }

    /** Row ids of `events` are 1, 2, ... in insertion order. */
    ghost predicate EventIds()
      reads this
    {
      forall i :: 0 <= i < |events| ==> events[i].id == i + 1
    }

    /** Row ids of `residential_access_codes` are 1, 2, ... in insertion order. */
    ghost predicate CodeIds()
      reads this
    {
      forall i :: 0 <= i < |accessCodes| ==> accessCodes[i].id == i + 1
    }

    /** No economy row holds a negative balance. */
    ghost predicate BalancesNonNegative()
      reads this
    {
      forall k :: k in economy ==> economy[k].balance >= 0
    }

    // ===== warnings =====

    method AddWarning(user: int, guild: int, moderator: int, reason: string, now: int)
      modifies this`warnings
      ensures warnings == old(warnings) + [WarningRow(user, guild, moderator, reason, now)]
      ensures WarningCount(user, guild) == old(WarningCount(user, guild)) + 1
      ensures forall u, g :: (u, g) != (user, guild) ==> WarningCount(u, g) == old(WarningCount(u, g))
    {
      var w := WarningRow(user, guild, moderator, reason, now);
      forall u, g ensures WarningsOf(warnings + [w], u, g)
        == WarningsOf(warnings, u, g) + (if w.user == u && w.guild == g then [w] else [])
      {
        WarningsOfAppend(warnings, w, u, g);
      }
      warnings := warnings + [w];
    }

    /** get_warnings: ORDER BY timestamp DESC, read as newest insertion first. */
    function GetWarnings(user: int, guild: int): (r: seq<WarningRow>)
      reads this
      ensures |r| == WarningCount(user, guild)
      ensures forall w :: w in r <==> w in warnings && w.user == user && w.guild == guild
    {
      Reversed(WarningsOf(warnings, user, guild))
    }

    /** get_warning_count: SELECT COUNT(*) for (user, guild). */
    function WarningCount(user: int, guild: int): nat
      reads this
    {
      |WarningsOf(warnings, user, guild)|
    }

    // ===== user profiles =====

    /** update_user_games: an upsert on user_id alone; an existing row keeps its guild_id. */
    method UpdateUserGames(user: int, guild: int, games: string, now: int)
      modifies this`profiles
      ensures profiles == old(profiles)[user :=
        if user in old(profiles) then old(profiles)[user].(games := games, updatedAt := now)
        else ProfileRow(guild, games, now)]
    {
      if user in profiles {
        profiles := profiles[user := profiles[user].(games := games, updatedAt := now)];
      } else {
        profiles := profiles[user := ProfileRow(guild, games, now)];
      }
    }

    function GetUserProfile(user: int): Option<ProfileRow>
      reads this
    {
      if user in profiles then Some(profiles[user]) else None
    }

    // ===== events =====

    /** create_event: a new row with the next id and notified = 0. */
    method CreateEvent(guild: int, creator: int, title: string, description: string, eventDate: int, now: int)
      returns (id: int)
      requires EventIds()
      modifies this`events
      ensures EventIds()
      ensures id == |old(events)| + 1
      ensures events == old(events) + [EventRow(id, guild, creator, title, description, eventDate, now, false)]
    {
      id := |events| + 1;
      events := events + [EventRow(id, guild, creator, title, description, eventDate, now, false)];
    }

    /** get_events_to_notify */
    function GetEventsToNotify(now: int): (due: seq<EventRow>)
      reads this
      ensures forall e :: e in due <==> e in events && IsDue(e, now)
    {
      DueEvents(events, now)
    }

    /** mark_event_notified: UPDATE events SET notified = 1 WHERE id = ? */
    method MarkEventNotified(id: int)
      requires EventIds()
      modifies this`events
      ensures EventIds()
      ensures |events| == |old(events)|
      ensures forall i :: 0 <= i < |events| ==>
        events[i] == (if i == id - 1 then old(events)[i].(notified := true) else old(events)[i])
      ensures 1 <= id <= |old(events)| && old(events)[id - 1].notified ==> events == old(events)
    {
      if 1 <= id <= |events| {
        events := events[id - 1 := events[id - 1].(notified := true)];
      }
    }

    // ===== levels =====

    /**
     * add_xp: INSERT (xp = amount, total_messages = 1, level by default 1)
     * ON CONFLICT add amount to xp and 1 to total_messages; level is never touched
     * on an existing row; last_xp_time is stamped in both cases.
     */
    method AddXp(user: int, guild: int, amount: int, now: int)
      modifies this`levels
      ensures levels == old(levels)[(user, guild) :=
        if (user, guild) in old(levels) then
          old(levels)[(user, guild)].(
            xp := old(levels)[(user, guild)].xp + amount,
            totalMessages := old(levels)[(user, guild)].totalMessages + 1,
            lastXpTime := Some(now))
        else LevelRow(amount, 1, 1, Some(now))]
    {
      var k := (user, guild);
      if k in levels {
        var row := levels[k];
        levels := levels[k := row.(xp := row.xp + amount, totalMessages := row.totalMessages + 1, lastXpTime := Some(now))];
      } else {
        levels := levels[k := LevelRow(amount, 1, 1, Some(now))];
      }
    }

    function GetUserLevelData(user: int, guild: int): Option<LevelRow>
      reads this
    {
      if (user, guild) in levels then Some(levels[(user, guild)]) else None
    }

    /** update_level: an UPDATE, so a missing row stays missing. */
    method UpdateLevel(user: int, guild: int, newLevel: int)
      modifies this`levels
      ensures levels == if (user, guild) in old(levels)
        then old(levels)[(user, guild) := old(levels)[(user, guild)].(level := newLevel)]
        else old(levels)
    {
      var k := (user, guild);
      if k in levels {
        levels := levels[k := levels[k].(level := newLevel)];
      }
    }

    // ===== economy =====

    /** get_balance: 0 when the user has no economy row. */
    function GetBalance(user: int, guild: int): (b: int)
      reads this
      ensures (user, guild) !in economy ==> b == 0
      ensures (user, guild) in economy ==> b == economy[(user, guild)].balance
    {
      if (user, guild) in economy then economy[(user, guild)].balance else 0
    }

    /** add_money: INSERT with balance = amount, ON CONFLICT balance + amount; timestamps untouched. */
    method AddMoney(user: int, guild: int, amount: int)
      modifies this`economy
      ensures (user, guild) in economy
      ensures GetBalance(user, guild) == old(GetBalance(user, guild)) + amount
      ensures economy == old(economy)[(user, guild) :=
        if (user, guild) in old(economy) then old(economy)[(user, guild)].(balance := old(economy)[(user, guild)].balance + amount)
        else EconomyRow(amount, None, None)]
    {
      var k := (user, guild);
      if k in economy {
        economy := economy[k := economy[k].(balance := economy[k].balance + amount)];
      } else {
        economy := economy[k := EconomyRow(amount, None, None)];
      }
    }

    /**
     * remove_money: read the balance, refuse when it is below amount, otherwise
     * UPDATE balance - amount (which changes nothing when the row is missing).
     */
    method RemoveMoney(user: int, guild: int, amount: int) returns (ok: bool)
      modifies this`economy
      ensures ok == (old(GetBalance(user, guild)) >= amount)
      ensures !ok || (user, guild) !in old(economy) ==> economy == old(economy)
      ensures ok && (user, guild) in old(economy) ==>
        economy == old(economy)[(user, guild) := old(economy)[(user, guild)].(balance := old(economy)[(user, guild)].balance - amount)]
    {
      var balance := GetBalance(user, guild);
      if balance < amount {
        return false;
      }
      var k := (user, guild);
      if k in economy {
        economy := economy[k := economy[k].(balance := economy[k].balance - amount)];
      }
      return true;
    }

    /** get_last_daily: None for a missing row or a NULL column. */
    function GetLastDaily(user: int, guild: int): Option<int>
      reads this
    {
      if (user, guild) in economy then economy[(user, guild)].lastDaily else None
    }

    function GetLastWork(user: int, guild: int): Option<int>
      reads this
    {
      if (user, guild) in economy then economy[(user, guild)].lastWork else None
    }

    /** update_last_daily: stamps last_daily only; a new row gets balance 0. */
    method UpdateLastDaily(user: int, guild: int, now: int)
      modifies this`economy
      ensures economy == old(economy)[(user, guild) :=
        if (user, guild) in old(economy) then old(economy)[(user, guild)].(lastDaily := Some(now))
        else EconomyRow(0, Some(now), None)]
    {
      var k := (user, guild);
      if k in economy {
        economy := economy[k := economy[k].(lastDaily := Some(now))];
      } else {
        economy := economy[k := EconomyRow(0, Some(now), None)];
      }
    }

    /** update_last_work: stamps last_work only; a new row gets balance 0. */
    method UpdateLastWork(user: int, guild: int, now: int)
      modifies this`economy
      ensures economy == old(economy)[(user, guild) :=
        if (user, guild) in old(economy) then old(economy)[(user, guild)].(lastWork := Some(now))
        else EconomyRow(0, None, Some(now))]
    {
      var k := (user, guild);
      if k in economy {
        economy := economy[k := economy[k].(lastWork := Some(now))];
      } else {
        economy := economy[k := EconomyRow(0, None, Some(now))];
      }
    }

    // ===== residential access codes =====

    /** create_access_code: the code is stored upper-cased, active, with use_count 0. */
    method CreateAccessCode(guild: int, code: string, residentName: string, codeType: string, createdBy: int,
                            expiryDate: Option<int>, location: Option<string>, notes: Option<string>, now: int)
      returns (id: int)
      requires CodeIds()
      modifies this`accessCodes
      ensures CodeIds()
      ensures id == |old(accessCodes)| + 1
      ensures accessCodes == old(accessCodes) + [AccessCodeRow(id, guild, Upper(code), residentName, codeType,
        createdBy, now, expiryDate, location, notes, true, None, 0)]
    {
      id := |accessCodes| + 1;
      accessCodes := accessCodes + [AccessCodeRow(id, guild, Upper(code), residentName, codeType,
        createdBy, now, expiryDate, location, notes, true, None, 0)];
    }

    /** get_access_code_by_code: the argument is upper-cased before the lookup. */
    function GetAccessCodeByCode(guild: int, code: string): (r: Option<AccessCodeRow>)
      reads this
      ensures r.Some? ==> r.value in accessCodes && r.value.guild == guild && r.value.code == Upper(code)
      ensures r.None? ==> forall c :: c in accessCodes ==> !CodeMatches(c, guild, Upper(code))
    {
      match FindCode(accessCodes, guild, Upper(code))
      case Some(i) => Some(accessCodes[i])
      case None => None
    }

    /** revoke_access_code: is_active = 0 and revoked_at = now on the row with that id, nothing else. */
    method RevokeAccessCode(id: int, now: int)
      requires CodeIds()
      modifies this`accessCodes
      ensures CodeIds()
      ensures |accessCodes| == |old(accessCodes)|
      ensures forall i :: 0 <= i < |accessCodes| ==>
        accessCodes[i] == (if i == id - 1 then old(accessCodes)[i].(isActive := false, revokedAt := Some(now)) else old(accessCodes)[i])
    {
      if 1 <= id <= |accessCodes| {
        accessCodes := accessCodes[id - 1 := accessCodes[id - 1].(isActive := false, revokedAt := Some(now))];
      }
    }

    /** register_access_code_use: use_count + 1 on the row, and one history row (inserted even for an unknown id). */
    method RegisterAccessCodeUse(id: int, usedBy: int, now: int)
      requires CodeIds()
      modifies this`accessCodes, this`codeHistory
      ensures CodeIds()
      ensures codeHistory == old(codeHistory) + [CodeUse(id, usedBy, now)]
      ensures |accessCodes| == |old(accessCodes)|
      ensures forall i :: 0 <= i < |accessCodes| ==>
        accessCodes[i] == (if i == id - 1 then old(accessCodes)[i].(useCount := old(accessCodes)[i].useCount + 1) else old(accessCodes)[i])
    {
      if 1 <= id <= |accessCodes| {
        accessCodes := accessCodes[id - 1 := accessCodes[id - 1].(useCount := accessCodes[id - 1].useCount + 1)];
      }
      codeHistory := codeHistory + [CodeUse(id, usedBy, now)];
    }

    function GetExpiredCodes(guild: int, now: int): seq<AccessCodeRow>
      reads this
    {
      ExpiredCodes(accessCodes, guild, now)
    }
  }
}
