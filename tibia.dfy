/**
 * Tibia loot sessions (cogs/tibia.py). The cog calls a per-channel session store
 * (get_active_tibia_session, create_tibia_loot_session, add_tibia_participant,
 * add_tibia_loot_item, get_tibia_loot_items, get_tibia_participants,
 * close_tibia_session) that database/db_manager.py does not define; SessionStore
 * is an abstract version of it. Its assumptions: session ids are allocated 1, 2,
 * ...; a user joins a session at most once (joining again changes nothing);
 * items are kept in insertion order; closing only clears the active flag.
 */
module Tibia {
  import opened Wrappers

  /** One loot line; `value` is the total for the line, not a unit price. */
  datatype LootItem = LootItem(name: string, quantity: int, value: int, addedBy: int)

  datatype LootSession = LootSession(
    id: int, guild: int, channel: int, creator: int, active: bool,
    items: seq<LootItem>, participants: seq<int>)

  /** sum(item['value'] for item in items) */
  function Total(items: seq<LootItem>): (total: int)
    ensures (forall i :: 0 <= i < |items| ==> items[i].value > 0) ==> total >= 0
    ensures |items| > 0 && (forall i :: 0 <= i < |items| ==> items[i].value > 0) ==> total > 0
  {
    if |items| == 0 then 0 else items[0].value + Total(items[1..])
  }

  /** Adding a line raises the total by that line's value, whatever its quantity. */
  lemma {:induction false} TotalAppend(items: seq<LootItem>, item: LootItem)
    ensures Total(items + [item]) == Total(items) + item.value
  {
    if |items| == 0 {
      assert items + [item] == [item];
    } else {
      assert (items + [item])[1..] == items[1..] + [item];
      TotalAppend(items[1..], item);
    }
  }

  /**
   * total // n. For a positive divisor Python's floor division and Dafny's
   * Euclidean division agree, so every participant gets the same share and
   * what is left over is less than one share per participant.
   */
  function PerPerson(total: int, n: int): (share: int)
    requires n > 0
    ensures share * n <= total < (share + 1) * n
    ensures total >= 0 ==> share >= 0
  {
    total / n
  }

  predicate ActiveIn(s: LootSession, channel: int)
  {
    s.active && s.channel == channel
  }

  /** The active session of a channel, as an index into the store. */
  function FindActive(sessions: seq<LootSession>, channel: int, from: nat := 0): (r: Option<nat>)
    requires from <= |sessions|
    ensures r.Some? ==> from <= r.value < |sessions| && ActiveIn(sessions[r.value], channel)
    ensures r.None? ==> forall j :: from <= j < |sessions| ==> !ActiveIn(sessions[j], channel)
    decreases |sessions| - from
  {
    if from == |sessions| then None
    else if ActiveIn(sessions[from], channel) then Some(from)
    else FindActive(sessions, channel, from + 1)
  }

  /** FindActive returns the first active session of the channel. */
  lemma {:induction false} FindActiveIsFirst(sessions: seq<LootSession>, channel: int, k: nat, from: nat)
    requires from <= k < |sessions|
    requires ActiveIn(sessions[k], channel)
    requires forall j :: from <= j < k ==> !ActiveIn(sessions[j], channel)
    ensures FindActive(sessions, channel, from) == Some(k)
    decreases k - from
  {
    if from < k {
      FindActiveIsFirst(sessions, channel, k, from + 1);
    }
  }

  predicate Distinct(xs: seq<int>)
  {
    forall i, j :: 0 <= i < j < |xs| ==> xs[i] != xs[j]
  }

  class SessionStore {
    var sessions: seq<LootSession>

    constructor()
      ensures sessions == []
      ensures Valid()
    {
      sessions := [];
    }

    /** Ids follow positions, a channel has at most one active session, nobody joins twice. */
    ghost predicate Valid()
      reads this
    {
      && (forall i :: 0 <= i < |sessions| ==> sessions[i].id == i + 1)
      && (forall i, j :: 0 <= i < j < |sessions| && ActiveIn(sessions[i], sessions[j].channel) ==> !sessions[j].active)
      && (forall i :: 0 <= i < |sessions| ==> Distinct(sessions[i].participants))
    }

    /** get_active_tibia_session */
    function GetActiveSession(channel: int): (r: Option<nat>)
      reads this
      ensures r.Some? ==> r.value < |sessions| && ActiveIn(sessions[r.value], channel)
      ensures r.None? ==> forall j :: 0 <= j < |sessions| ==> !ActiveIn(sessions[j], channel)
    {
      FindActive(sessions, channel)
    }

    /** create_tibia_loot_session: a new active session with no items and no participants. */
    method CreateSession(guild: int, channel: int, creator: int) returns (id: int)
      requires Valid()
      requires GetActiveSession(channel).None?
      modifies this
      ensures Valid()
      ensures id == |old(sessions)| + 1
      ensures sessions == old(sessions) + [LootSession(id, guild, channel, creator, true, [], [])]
    {
      id := |sessions| + 1;
      sessions := sessions + [LootSession(id, guild, channel, creator, true, [], [])];
    }

    /** add_tibia_participant: record the user once; an unknown id changes nothing. */
    method AddParticipant(id: int, user: int)
      requires Valid()
      modifies this
      ensures Valid()
      ensures |sessions| == |old(sessions)|
      ensures forall i :: 0 <= i < |sessions| ==>
        sessions[i] == (if i == id - 1 && user !in old(sessions)[i].participants
                        then old(sessions)[i].(participants := old(sessions)[i].participants + [user])
                        else old(sessions)[i])
    {
      if 1 <= id <= |sessions| && user !in sessions[id - 1].participants {
        sessions := sessions[id - 1 := sessions[id - 1].(participants := sessions[id - 1].participants + [user])];
      }
    }

    /** add_tibia_loot_item: append a line to the session's items. */
    method AddItem(id: int, item: LootItem)
      requires Valid()
      modifies this
      ensures Valid()
      ensures |sessions| == |old(sessions)|
      ensures forall i :: 0 <= i < |sessions| ==>
        sessions[i] == (if i == id - 1 then old(sessions)[i].(items := old(sessions)[i].items + [item]) else old(sessions)[i])
    {
      if 1 <= id <= |sessions| {
        sessions := sessions[id - 1 := sessions[id - 1].(items := sessions[id - 1].items + [item])];
      }
    }

    /** close_tibia_session: clear the active flag. */
    method CloseSession(id: int)
      requires Valid()
      modifies this
      ensures Valid()
      ensures |sessions| == |old(sessions)|
      ensures forall i :: 0 <= i < |sessions| ==>
        sessions[i] == (if i == id - 1 then old(sessions)[i].(active := false) else old(sessions)[i])
    {
      if 1 <= id <= |sessions| {
        sessions := sessions[id - 1 := sessions[id - 1].(active := false)];
      }
    }
  }

  /** Every stored line went through the positive quantity and value guard of tibia_loot_add. */
  ghost predicate ItemsPositive(s: SessionStore)
    reads s
  {
    forall i, j :: 0 <= i < |s.sessions| && 0 <= j < |s.sessions[i].items| ==>
      s.sessions[i].items[j].quantity > 0 && s.sessions[i].items[j].value > 0
  }

  datatype StartOutcome = AlreadyActive(id: int) | Started(id: int)

  /** tibia_loot_start: refuse when the channel has an active session; otherwise create one and add the creator. */
  method Start(s: SessionStore, guild: int, channel: int, user: int) returns (outcome: StartOutcome)
    requires s.Valid()
    modifies s
    ensures s.Valid()
    ensures old(ItemsPositive(s)) ==> ItemsPositive(s)
    ensures outcome.AlreadyActive? <==> old(s.GetActiveSession(channel)).Some?
    ensures outcome.AlreadyActive? ==>
      s.sessions == old(s.sessions) && outcome.id == old(s.sessions)[old(s.GetActiveSession(channel)).value].id
    ensures outcome.Started? ==>
      && outcome.id == |old(s.sessions)| + 1
      && s.sessions == old(s.sessions) + [LootSession(outcome.id, guild, channel, user, true, [], [user])]
      && s.GetActiveSession(channel) == Some(|old(s.sessions)|)
  {
    var existing := s.GetActiveSession(channel);
    if existing.Some? {
      return AlreadyActive(s.sessions[existing.value].id);
    }
    ghost var before := s.sessions;
    var id := s.CreateSession(guild, channel, user);
    s.AddParticipant(id, user);
    assert s.sessions[|before|] == LootSession(id, guild, channel, user, true, [], [user]);
    assert s.sessions == before + [LootSession(id, guild, channel, user, true, [], [user])];
    FindActiveIsFirst(s.sessions, channel, |before|, 0);
    return Started(id);
  }

  datatype JoinOutcome = JoinNoSession | Joined(id: int, participants: int)

  /** tibia_loot_join: add the user to the channel's active session and report the head count. */
  method Join(s: SessionStore, channel: int, user: int) returns (outcome: JoinOutcome)
    requires s.Valid()
    modifies s
    ensures s.Valid()
    ensures old(ItemsPositive(s)) ==> ItemsPositive(s)
    ensures outcome.JoinNoSession? <==> old(s.GetActiveSession(channel)).None?
    ensures outcome.JoinNoSession? ==> s.sessions == old(s.sessions)
    ensures outcome.Joined? ==>
      var i := old(s.GetActiveSession(channel)).value;
      var before := old(s.sessions)[i];
      && outcome.id == before.id
      && s.sessions == old(s.sessions)[i := before.(participants :=
           if user in before.participants then before.participants else before.participants + [user])]
      && user in s.sessions[i].participants
      && outcome.participants == |s.sessions[i].participants|
  {
    var session := s.GetActiveSession(channel);
    if session.None? {
      return JoinNoSession;
    }
    var i := session.value;
    var id := s.sessions[i].id;
    s.AddParticipant(id, user);
    return Joined(id, |s.sessions[i].participants|);
  }

  datatype AddOutcome = InvalidValues | AddNoSession | Added(id: int, total: int)

  /**
   * tibia_loot_add: reject a quantity or value <= 0 before looking at the session,
   * then append the line and report the new total, which grows by `value` alone.
   */
  method AddLoot(s: SessionStore, channel: int, user: int, item: string, quantity: int, value: int)
    returns (outcome: AddOutcome)
    requires s.Valid()
    modifies s
    ensures s.Valid()
    ensures old(ItemsPositive(s)) ==> ItemsPositive(s)
    ensures outcome.InvalidValues? <==> quantity <= 0 || value <= 0
    ensures outcome.AddNoSession? <==> quantity > 0 && value > 0 && old(s.GetActiveSession(channel)).None?
    ensures !outcome.Added? ==> s.sessions == old(s.sessions)
    ensures outcome.Added? ==>
      var i := old(s.GetActiveSession(channel)).value;
      var before := old(s.sessions)[i];
      && outcome.id == before.id
      && s.sessions == old(s.sessions)[i := before.(items := before.items + [LootItem(item, quantity, value, user)])]
      && outcome.total == Total(s.sessions[i].items)
      && outcome.total == Total(before.items) + value
  {
    if quantity <= 0 || value <= 0 {
      return InvalidValues;
    }
    var session := s.GetActiveSession(channel);
    if session.None? {
      return AddNoSession;
    }
    var i := session.value;
    var id := s.sessions[i].id;
    ghost var before := s.sessions[i];
    s.AddItem(id, LootItem(item, quantity, value, user));
    TotalAppend(before.items, LootItem(item, quantity, value, user));
    return Added(id, Total(s.sessions[i].items));
  }

  datatype SplitOutcome =
    | SplitNoSession
    | NoItems
    | NoParticipants
    | Settled(total: int, participants: int, perPerson: int)

  /**
   * tibia_loot_split: with no items, then with no participants, refuse and keep the
   * session open; otherwise divide the total with floor division and close it.
   */
  method Split(s: SessionStore, channel: int) returns (outcome: SplitOutcome)
    requires s.Valid()
    modifies s
    ensures s.Valid()
    ensures old(ItemsPositive(s)) ==> ItemsPositive(s)
    ensures outcome.SplitNoSession? <==> old(s.GetActiveSession(channel)).None?
    ensures outcome.NoItems? <==>
      old(s.GetActiveSession(channel)).Some? && old(s.sessions)[old(s.GetActiveSession(channel)).value].items == []
    ensures outcome.NoParticipants? <==>
      && old(s.GetActiveSession(channel)).Some?
      && old(s.sessions)[old(s.GetActiveSession(channel)).value].items != []
      && old(s.sessions)[old(s.GetActiveSession(channel)).value].participants == []
    ensures !outcome.Settled? ==> s.sessions == old(s.sessions)
    ensures outcome.Settled? ==>
      var i := old(s.GetActiveSession(channel)).value;
      var before := old(s.sessions)[i];
      && outcome.total == Total(before.items)
      && outcome.participants == |before.participants| > 0
      && outcome.perPerson * outcome.participants <= outcome.total
      && outcome.total < (outcome.perPerson + 1) * outcome.participants
      && s.sessions == old(s.sessions)[i := before.(active := false)]
      && s.GetActiveSession(channel).None?
    ensures outcome.Settled? && old(ItemsPositive(s)) ==> outcome.total > 0 && outcome.perPerson >= 0
  {
    var session := s.GetActiveSession(channel);
    if session.None? {
      return SplitNoSession;
    }
    var i := session.value;
    var items := s.sessions[i].items;
    var participants := s.sessions[i].participants;
    if items == [] {
      return NoItems;
    }
    if participants == [] {
      return NoParticipants;
    }
    var total := Total(items);
    var perPerson := PerPerson(total, |participants|);
    s.CloseSession(s.sessions[i].id);
    return Settled(total, |participants|, perPerson);
  }

  datatype CancelOutcome = CancelNoSession | NotAllowed | Cancelled(id: int)

  /** tibia_loot_cancel: only the creator or a holder of manage_messages may close the session. */
  method Cancel(s: SessionStore, channel: int, user: int, canManageMessages: bool) returns (outcome: CancelOutcome)
    requires s.Valid()
    modifies s
    ensures s.Valid()
    ensures old(ItemsPositive(s)) ==> ItemsPositive(s)
    ensures outcome.CancelNoSession? <==> old(s.GetActiveSession(channel)).None?
    ensures outcome.NotAllowed? <==>
      && old(s.GetActiveSession(channel)).Some?
      && user != old(s.sessions)[old(s.GetActiveSession(channel)).value].creator
      && !canManageMessages
    ensures !outcome.Cancelled? ==> s.sessions == old(s.sessions)
    ensures outcome.Cancelled? ==>
      var i := old(s.GetActiveSession(channel)).value;
      && outcome.id == old(s.sessions)[i].id
      && s.sessions == old(s.sessions)[i := old(s.sessions)[i].(active := false)]
      && s.GetActiveSession(channel).None?
  {
    var session := s.GetActiveSession(channel);
    if session.None? {
      return CancelNoSession;
    }
    var i := session.value;
    if user != s.sessions[i].creator && !canManageMessages {
      return NotAllowed;
    }
    var id := s.sessions[i].id;
    s.CloseSession(id);
    return Cancelled(id);
  }

  datatype InfoOutcome =
    | InfoNoSession
    | Summary(id: int, creator: int, itemCount: int, total: int, participants: seq<int>, perPerson: int)

  /** tibia_loot_info: a read-only summary; the share is 0 when nobody has joined. */
  function Info(s: SessionStore, channel: int): (info: InfoOutcome)
    reads s
    ensures info.InfoNoSession? <==> s.GetActiveSession(channel).None?
    ensures info.Summary? ==>
      var session := s.sessions[s.GetActiveSession(channel).value];
      && info.id == session.id
      && info.creator == session.creator
      && info.itemCount == |session.items|
      && info.total == Total(session.items)
      && info.participants == session.participants
      && (session.participants == [] ==> info.perPerson == 0)
      && (session.participants != [] ==>
            info.perPerson * |session.participants| <= info.total < (info.perPerson + 1) * |session.participants|)
  {
    var session := s.GetActiveSession(channel);
    if session.None? then InfoNoSession
    else
      var current := s.sessions[session.value];
      var total := Total(current.items);
      var perPerson := if current.participants != [] then PerPerson(total, |current.participants|) else 0;
      Summary(current.id, current.creator, |current.items|, total, current.participants, perPerson)
  }
}
