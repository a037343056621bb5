/**
 * Events (cogs/events.py): creating an event only for a future date, and the
 * periodic tick that announces each event during the hour before it starts,
 * choosing a channel per guild and marking the event once the announcement has
 * been sent.
 */
module Events {
  import opened Wrappers
  import opened Text
  import opened Store

  datatype EventOutcome = BadFormat | NotInFuture | Created(id: int)

  /**
   * evento: `date` is the parsed DD/MM/YYYY HH:MM value, None when it does not
   * parse. A date not after `now` is refused; otherwise the event is stored,
   * not yet notified.
   */
  method Evento(db: Database, guild: int, creator: int, title: string, description: string, date: Option<int>, now: int)
    returns (outcome: EventOutcome)
    requires db.EventIds()
    modifies db`events
    ensures db.EventIds()
    ensures outcome.BadFormat? <==> date.None?
    ensures outcome.NotInFuture? <==> date.Some? && date.value <= now
    ensures !outcome.Created? ==> db.events == old(db.events)
    ensures outcome.Created? ==>
      && outcome.id == |old(db.events)| + 1
      && db.events == old(db.events) + [EventRow(outcome.id, guild, creator, title, description, date.value, now, false)]
  {
    if date.None? {
      return BadFormat;
    }
    if date.value <= now {
      return NotInFuture;
    }
    var id := db.CreateEvent(guild, creator, title, description, date.value, now);
    return Created(id);
  }

  /** A text channel of a guild, in the guild's order. */
  datatype Channel = Channel(id: int, name: string, botCanSend: bool)

  datatype Guild = Guild(textChannels: seq<Channel>)

  /** Channel names preferred for announcements, compared lower-cased. */
  predicate IsAnnouncementName(name: string)
  {
    var n := Lower(name);
    n == "general" || n == "eventos" || n == "announcements" || n == "anuncios"
  }

  /** The index of the first channel satisfying the rule's first or its second test. */
  function FirstNamed(chs: seq<Channel>, from: nat := 0): (r: Option<nat>)
    requires from <= |chs|
    ensures r.Some? ==> from <= r.value < |chs| && IsAnnouncementName(chs[r.value].name)
    ensures r.Some? ==> forall j :: from <= j < r.value ==> !IsAnnouncementName(chs[j].name)
    ensures r.None? ==> forall j :: from <= j < |chs| ==> !IsAnnouncementName(chs[j].name)
    decreases |chs| - from
  {
    if from == |chs| then None
    else if IsAnnouncementName(chs[from].name) then Some(from)
    else FirstNamed(chs, from + 1)
  }

  function FirstSendable(chs: seq<Channel>, from: nat := 0): (r: Option<nat>)
    requires from <= |chs|
    ensures r.Some? ==> from <= r.value < |chs| && chs[r.value].botCanSend
    ensures r.Some? ==> forall j :: from <= j < r.value ==> !chs[j].botCanSend
    ensures r.None? ==> forall j :: from <= j < |chs| ==> !chs[j].botCanSend
    decreases |chs| - from
  {
    if from == |chs| then None
    else if chs[from].botCanSend then Some(from)
    else FirstSendable(chs, from + 1)
  }

  /**
   * The channel rule: the first channel with an announcement name, whether or not
   * the bot may write there; failing that, the first channel the bot may write in.
   */
  function ChosenChannel(g: Guild): (ch: Option<Channel>)
    ensures ch.Some? ==> ch.value in g.textChannels
    ensures ch.None? <==>
      (forall j :: 0 <= j < |g.textChannels| ==> !IsAnnouncementName(g.textChannels[j].name) && !g.textChannels[j].botCanSend)
    ensures (exists j :: 0 <= j < |g.textChannels| && IsAnnouncementName(g.textChannels[j].name)) ==>
      ch.Some? && IsAnnouncementName(ch.value.name)
  {
    var named := FirstNamed(g.textChannels);
    if named.Some? then Some(g.textChannels[named.value])
    else
      var sendable := FirstSendable(g.textChannels);
      if sendable.Some? then Some(g.textChannels[sendable.value]) else None
  }

  /** The two searches of check_event_notifications, each stopping at its first hit. */
  method SelectChannel(g: Guild) returns (ch: Option<Channel>)
    ensures ch == ChosenChannel(g)
  {
    var chs := g.textChannels;
    ch := None;
    var i := 0;
    while i < |chs|
      invariant 0 <= i <= |chs|
      invariant FirstNamed(chs) == FirstNamed(chs, i)
    {
      if IsAnnouncementName(chs[i].name) {
        return Some(chs[i]);
      }
      i := i + 1;
    }
    i := 0;
    while i < |chs|
      invariant 0 <= i <= |chs|
      invariant FirstSendable(chs) == FirstSendable(chs, i)
    {
      if chs[i].botCanSend {
        return Some(chs[i]);
      }
      i := i + 1;
    }
  }

  /**
   * Whether the tick delivers an event: its guild is known to the bot, a channel
   * is chosen, the bot may write in it (a named channel is chosen without that
   * check, and a send there raises), and the send (an external call, given as
   * `sendOk`, the set of event ids whose send succeeds) does not fail.
   */
  predicate Delivered(e: EventRow, guilds: map<int, Guild>, sendOk: set<int>)
  {
    e.guild in guilds && CanAnnounce(guilds[e.guild]) && e.id in sendOk
  }

  /** A channel is chosen and the bot may write in it. */
  predicate CanAnnounce(g: Guild)
  {
    ChosenChannel(g).Some? && ChosenChannel(g).value.botCanSend
  }

  /** The ids of the delivered events, in the order the tick visits them. */
  function DeliveredIds(due: seq<EventRow>, guilds: map<int, Guild>, sendOk: set<int>): (ids: seq<int>)
    ensures |ids| <= |due|
    ensures forall id :: id in ids <==> exists e :: e in due && Delivered(e, guilds, sendOk) && e.id == id
  {
    if due == [] then []
    else
      var last := due[|due| - 1];
      DeliveredIds(due[..|due| - 1], guilds, sendOk) + (if Delivered(last, guilds, sendOk) then [last.id] else [])
  }

  /** The tick reports one more id exactly when the next due event is delivered. */
  lemma DeliveredIdsStep(due: seq<EventRow>, j: nat, guilds: map<int, Guild>, sendOk: set<int>)
    requires j < |due|
    ensures DeliveredIds(due[..j + 1], guilds, sendOk) ==
      DeliveredIds(due[..j], guilds, sendOk) + (if Delivered(due[j], guilds, sendOk) then [due[j].id] else [])
  {
    assert due[..j + 1][..j] == due[..j];
  }

  lemma TakeOneMore<T>(s: seq<T>, j: nat)
    requires j < |s|
    ensures s[..j + 1] == s[..j] + [s[j]]
  {
  }

  /** The events table after the tick has visited `visited`, starting from `before`. */
  ghost function AfterVisits(before: seq<EventRow>, visited: seq<EventRow>, guilds: map<int, Guild>, sendOk: set<int>)
    : (after: seq<EventRow>)
    ensures |after| == |before|
  {
    seq(|before|, i requires 0 <= i < |before| =>
      if before[i] in visited && Delivered(before[i], guilds, sendOk) then before[i].(notified := true) else before[i])
  }

  /** Visiting one more event marks at most that event's own row, and only when it is delivered. */
  lemma AfterVisitsStep(before: seq<EventRow>, visited: seq<EventRow>, e: EventRow, guilds: map<int, Guild>,
                        sendOk: set<int>, delivered: bool, after: seq<EventRow>)
    requires forall i :: 0 <= i < |before| ==> before[i].id == i + 1
    requires e in before
    requires delivered == Delivered(e, guilds, sendOk)
    requires var current := AfterVisits(before, visited, guilds, sendOk);
      after == if delivered && 1 <= e.id <= |current| then current[e.id - 1 := current[e.id - 1].(notified := true)] else current
    ensures after == AfterVisits(before, visited + [e], guilds, sendOk)
  {
    var k :| 0 <= k < |before| && before[k] == e;
    assert e.id == k + 1;
    var next := AfterVisits(before, visited + [e], guilds, sendOk);
    forall i | 0 <= i < |before|
      ensures after[i] == next[i]
    {
      if i != k {
        assert before[i] != e;
      }
    }
  }

  /** Having visited exactly the due events, the marked rows are the due and delivered ones. */
  lemma AfterVisitsDue(before: seq<EventRow>, now: int, guilds: map<int, Guild>, sendOk: set<int>)
    ensures var after := AfterVisits(before, DueEvents(before, now), guilds, sendOk);
      forall i :: 0 <= i < |before| ==>
        after[i] == (if IsDue(before[i], now) && Delivered(before[i], guilds, sendOk)
                     then before[i].(notified := true)
                     else before[i])
  {
  }

  /** One iteration of the tick: deliver `e` if its guild, a channel and the send allow. */
  method DeliverOne(db: Database, e: EventRow, guilds: map<int, Guild>, sendOk: set<int>) returns (delivered: bool)
    requires db.EventIds()
    modifies db`events
    ensures db.EventIds()
    ensures delivered == Delivered(e, guilds, sendOk)
    ensures db.events == (if delivered && 1 <= e.id <= |old(db.events)|
                          then old(db.events)[e.id - 1 := old(db.events)[e.id - 1].(notified := true)]
                          else old(db.events))
  {
    delivered := false;
    if e.guild in guilds {
      var channel := SelectChannel(guilds[e.guild]);
      if channel.Some? && channel.value.botCanSend && e.id in sendOk {
        db.MarkEventNotified(e.id);
        delivered := true;
      }
    }
  }

  /**
   * check_event_notifications, one tick: visit every due event; a missing guild,
   * no usable channel or a failed send skips that event only, leaving it unmarked
   * for the next tick; a delivered event is marked notified. Nothing else changes.
   */
  method NotifyTick(db: Database, guilds: map<int, Guild>, sendOk: set<int>, now: int) returns (sent: seq<int>)
    requires db.EventIds()
    modifies db`events
    ensures db.EventIds()
    ensures |db.events| == |old(db.events)|
    ensures forall i :: 0 <= i < |db.events| ==>
      db.events[i] == (if IsDue(old(db.events)[i], now) && Delivered(old(db.events)[i], guilds, sendOk)
                       then old(db.events)[i].(notified := true)
                       else old(db.events)[i])
    ensures sent == DeliveredIds(DueEvents(old(db.events), now), guilds, sendOk)
  {
    ghost var before := db.events;
    var due := db.GetEventsToNotify(now);
    assert due == DueEvents(before, now);
    sent := DeliverAll(db, due, guilds, sendOk);
    AfterVisitsDue(before, now, guilds, sendOk);
  }

  /** The loop of the tick over the due events, visited in order. */
  method DeliverAll(db: Database, due: seq<EventRow>, guilds: map<int, Guild>, sendOk: set<int>) returns (sent: seq<int>)
    requires db.EventIds()
    requires forall e :: e in due ==> e in db.events
    modifies db`events
    ensures db.EventIds()
    ensures db.events == AfterVisits(old(db.events), due, guilds, sendOk)
    ensures sent == DeliveredIds(due, guilds, sendOk)
  {
    ghost var before := db.events;
    sent := [];
    var j := 0;
    assert AfterVisits(before, due[..0], guilds, sendOk) == before;
    while j < |due|
      invariant 0 <= j <= |due|
      invariant db.EventIds()
      invariant forall i :: 0 <= i < |before| ==> before[i].id == i + 1
      invariant db.events == AfterVisits(before, due[..j], guilds, sendOk)
      invariant sent == DeliveredIds(due[..j], guilds, sendOk)
    {
      var e := due[j];
      TakeOneMore(due, j);
      var delivered := DeliverOne(db, e, guilds, sendOk);
      AfterVisitsStep(before, due[..j], e, guilds, sendOk, delivered, db.events);
      DeliveredIdsStep(due, j, guilds, sendOk);
      if delivered {
        sent := sent + [e.id];
      }
      j := j + 1;
    }
    assert due[..j] == due;
  }

  /** Once marked, an event is never due again, at any later tick. */
  lemma MarkedNeverDue(es: seq<EventRow>, k: nat, later: int)
    requires k < |es|
    ensures es[k].(notified := true) !in DueEvents(es[k := es[k].(notified := true)], later)
  {
  }
}
