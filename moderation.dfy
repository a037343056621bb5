/**
 * Moderation commands (cogs/moderation.py): the guards each command checks,
 * in order, before it acts, the warning that is stored and counted, and the
 * warnings listing. The actions themselves (kick, ban, purge, timeout, DMs,
 * the log channel) are Discord calls; a decision names the action to take.
 */
module Moderation {
  import opened Wrappers
  import opened Store

  /** A guild member as the guards see it: its id and the position of its top role. */
  datatype Member = Member(id: int, topRole: int)

  datatype Rejection =
    | MissingPermission
    | TargetIsOwner
    | TargetNotBelow
    | DeleteDaysOutOfRange
    | AmountOutOfRange
    | DurationOutOfRange

  datatype Action =
    | Kick(target: int)
    | Ban(target: int, deleteDays: int)
    | Purge(limit: int)
    | Timeout(target: int, minutes: int)

  datatype Decision = Reject(reason: Rejection) | Act(action: Action)

  const MaxDeleteDays := 7
  const MaxPurge := 100
  const DefaultMuteMinutes := 10
  /** Discord's longest timeout, 28 days, in minutes. */
  const MaxMuteMinutes := 40320

  /** A guard: whether it passes, and the rejection it reports when it does not. */
  datatype Guard = Guard(passes: bool, reason: Rejection)

  /** The reference reading of an if-chain with early return: the first failing guard rejects. */
  function FirstFailure(guards: seq<Guard>): (r: Option<Rejection>)
    ensures r.None? <==> forall i :: 0 <= i < |guards| ==> guards[i].passes
    ensures r.Some? ==> exists i :: 0 <= i < |guards| && !guards[i].passes && guards[i].reason == r.value &&
                                    (forall j :: 0 <= j < i ==> guards[j].passes)
  {
    if guards == [] then None
    else if !guards[0].passes then Some(guards[0].reason)
    else
      var rest := FirstFailure(guards[1..]);
      assert forall i :: 1 <= i < |guards| ==> guards[i] == guards[1..][i - 1];
      rest
  }

  /** The guards kick and ban share: the issuer's permission, then the owner, then the role hierarchy. */
  function HierarchyGuards(hasPermission: bool, issuer: Member, target: Member, ownerId: int): seq<Guard>
  {
    [Guard(hasPermission, MissingPermission),
     Guard(target.id != ownerId, TargetIsOwner),
     Guard(target.topRole < issuer.topRole, TargetNotBelow)]
  }

  function Decide(guards: seq<Guard>, action: Action): (d: Decision)
  {
    var failure := FirstFailure(guards);
    if failure.Some? then Reject(failure.value) else Act(action)
  }

  /**
   * kick: refuse an issuer without kick_members, a target who owns the guild and
   * a target whose top role is not strictly below the issuer's, in that order.
   */
  function KickDecision(canKick: bool, issuer: Member, target: Member, ownerId: int): (d: Decision)
    ensures d.Act? <==> canKick && target.id != ownerId && target.topRole < issuer.topRole
    ensures d.Act? ==> d.action == Kick(target.id)
  {
    if !canKick then Reject(MissingPermission)
    else if target.id == ownerId then Reject(TargetIsOwner)
    else if target.topRole >= issuer.topRole then Reject(TargetNotBelow)
    else Act(Kick(target.id))
  }

  /** ban: the kick guards with ban_members, and then the message days in [0, 7]. */
  function BanDecision(canBan: bool, issuer: Member, target: Member, ownerId: int, deleteDays: int := 0): (d: Decision)
    ensures d.Act? <==>
      canBan && target.id != ownerId && target.topRole < issuer.topRole && 0 <= deleteDays <= MaxDeleteDays
    ensures d.Act? ==> d.action == Ban(target.id, deleteDays)
  {
    if !canBan then Reject(MissingPermission)
    else if target.id == ownerId then Reject(TargetIsOwner)
    else if target.topRole >= issuer.topRole then Reject(TargetNotBelow)
    else if deleteDays < 0 || deleteDays > MaxDeleteDays then Reject(DeleteDaysOutOfRange)
    else Act(Ban(target.id, deleteDays))
  }

  /** clear: manage_messages, then an amount in [1, 100]. */
  function ClearDecision(canManage: bool, amount: int): (d: Decision)
    ensures d.Act? <==> canManage && 1 <= amount <= MaxPurge
    ensures d.Act? ==> d.action == Purge(amount)
    ensures !canManage ==> d == Reject(MissingPermission)
    ensures canManage && !(1 <= amount <= MaxPurge) ==> d == Reject(AmountOutOfRange)
  {
    if !canManage then Reject(MissingPermission)
    else if amount < 1 || amount > MaxPurge then Reject(AmountOutOfRange)
    else Act(Purge(amount))
  }

  /** mute: moderate_members, then minutes in [1, 40320]; the minutes default to 10. */
  function MuteDecision(canModerate: bool, target: Member, minutes: int := DefaultMuteMinutes): (d: Decision)
    ensures d.Act? <==> canModerate && 1 <= minutes <= MaxMuteMinutes
    ensures d.Act? ==> d.action == Timeout(target.id, minutes) && minutes * 60 <= 28 * 86400
    ensures !canModerate ==> d == Reject(MissingPermission)
    ensures canModerate && !(1 <= minutes <= MaxMuteMinutes) ==> d == Reject(DurationOutOfRange)
  {
    if !canModerate then Reject(MissingPermission)
    else if minutes < 1 || minutes > MaxMuteMinutes then Reject(DurationOutOfRange)
    else Act(Timeout(target.id, minutes))
  }

  lemma FirstFailureCons(g: Guard, rest: seq<Guard>)
    ensures FirstFailure([g] + rest) == if !g.passes then Some(g.reason) else FirstFailure(rest)
  {
    assert ([g] + rest)[1..] == rest;
  }

  /** A chain of guards given as a list, first to last. */
  lemma FirstFailureOfList(g0: Guard, g1: Guard, g2: Guard, more: seq<Guard>)
    ensures FirstFailure([g0, g1, g2] + more) ==
      if !g0.passes then Some(g0.reason)
      else if !g1.passes then Some(g1.reason)
      else if !g2.passes then Some(g2.reason)
      else FirstFailure(more)
  {
    assert [g0, g1, g2] + more == [g0] + ([g1] + ([g2] + more));
    FirstFailureCons(g0, [g1] + ([g2] + more));
    FirstFailureCons(g1, [g2] + more);
    FirstFailureCons(g2, more);
  }

  /** kick rejects with the first failing guard of permission, owner, hierarchy, and acts when none fails. */
  lemma KickFollowsGuardOrder(canKick: bool, issuer: Member, target: Member, ownerId: int)
    ensures KickDecision(canKick, issuer, target, ownerId) ==
      Decide(HierarchyGuards(canKick, issuer, target, ownerId), Kick(target.id))
  {
    var gs := HierarchyGuards(canKick, issuer, target, ownerId);
    FirstFailureOfList(gs[0], gs[1], gs[2], []);
    assert gs == [gs[0], gs[1], gs[2]] + [];
  }

  /** ban checks the same guards as kick, then the delete-days range as a fourth. */
  lemma BanFollowsGuardOrder(canBan: bool, issuer: Member, target: Member, ownerId: int, deleteDays: int)
    ensures BanDecision(canBan, issuer, target, ownerId, deleteDays) ==
      Decide(HierarchyGuards(canBan, issuer, target, ownerId) +
             [Guard(0 <= deleteDays <= MaxDeleteDays, DeleteDaysOutOfRange)], Ban(target.id, deleteDays))
  {
    var gs := HierarchyGuards(canBan, issuer, target, ownerId);
    var days := Guard(0 <= deleteDays <= MaxDeleteDays, DeleteDaysOutOfRange);
    FirstFailureOfList(gs[0], gs[1], gs[2], [days]);
    FirstFailureCons(days, []);
    assert [days] == [days] + [];
    assert gs + [days] == [gs[0], gs[1], gs[2]] + [days];
  }

  /** With a permitted delete-days value, ban decides exactly as kick does. */
  lemma BanExtendsKick(canIssue: bool, issuer: Member, target: Member, ownerId: int, deleteDays: int)
    requires 0 <= deleteDays <= MaxDeleteDays
    ensures BanDecision(canIssue, issuer, target, ownerId, deleteDays).Act? <==>
            KickDecision(canIssue, issuer, target, ownerId).Act?
    ensures KickDecision(canIssue, issuer, target, ownerId).Reject? ==>
            BanDecision(canIssue, issuer, target, ownerId, deleteDays) == KickDecision(canIssue, issuer, target, ownerId)
  {
  }

  /** A bad delete-days value is reported only once every earlier guard passed. */
  lemma DeleteDaysCheckedLast(canBan: bool, issuer: Member, target: Member, ownerId: int, deleteDays: int)
    ensures BanDecision(canBan, issuer, target, ownerId, deleteDays) == Reject(DeleteDaysOutOfRange) <==>
      KickDecision(canBan, issuer, target, ownerId).Act? && !(0 <= deleteDays <= MaxDeleteDays)
  {
  }

  /**
   * The hierarchy guard is strict: of two members with the permission, at most
   * one may kick the other, and a member of equal rank may not be kicked.
   */
  lemma HierarchyAntisymmetric(a: Member, b: Member, ownerId: int)
    ensures !(KickDecision(true, a, b, ownerId).Act? && KickDecision(true, b, a, ownerId).Act?)
    ensures a.topRole == b.topRole ==> KickDecision(true, a, b, ownerId) == Reject(if b.id == ownerId then TargetIsOwner else TargetNotBelow)
  {
  }

  /** The owner can never be kicked or banned, whatever the issuer's rank and permissions. */
  lemma OwnerIsProtected(can: bool, issuer: Member, owner: Member, days: int)
    ensures KickDecision(can, issuer, owner, owner.id).Reject?
    ensures BanDecision(can, issuer, owner, owner.id, days).Reject?
  {
  }

  /** The default mute is accepted by any member with moderate_members. */
  lemma DefaultMuteAccepted(target: Member)
    ensures MuteDecision(true, target) == Act(Timeout(target.id, 10))
  {
  }

  datatype WarnOutcome = WarnRefused | Warned(count: nat)

  /**
   * warn: without moderate_members nothing is stored; otherwise the warning is
   * stored and the count reported is the count after the insert.
   */
  method Warn(db: Database, canModerate: bool, user: int, guild: int, moderator: int, reason: string, now: int)
    returns (outcome: WarnOutcome)
    modifies db`warnings
    ensures !canModerate ==> outcome == WarnRefused && db.warnings == old(db.warnings)
    ensures canModerate ==>
      && db.warnings == old(db.warnings) + [WarningRow(user, guild, moderator, reason, now)]
      && outcome == Warned(old(db.WarningCount(user, guild)) + 1)
      && outcome.count == db.WarningCount(user, guild)
      && db.GetWarnings(user, guild)[0] == WarningRow(user, guild, moderator, reason, now)
  {
    if !canModerate {
      return WarnRefused;
    }
    db.AddWarning(user, guild, moderator, reason, now);
    var count := db.WarningCount(user, guild);
    WarningsOfAppend(old(db.warnings), WarningRow(user, guild, moderator, reason, now), user, guild);
    return Warned(count);
  }

  const PageSize := 10

  /** One field of the listing: its 1-based number and the warning shown. */
  datatype Entry = Entry(number: nat, warning: WarningRow)

  datatype WarningsView =
    | NoWarnings
    | Listing(total: nat, entries: seq<Entry>, footer: bool)

  /**
   * warnings: no warnings gives the empty notice; otherwise the total, the first
   * ten warnings in the order given (numbered from 1), and a footer when some
   * are not shown.
   */
  function WarningsPage(ws: seq<WarningRow>): (v: WarningsView)
    ensures v.NoWarnings? <==> ws == []
    ensures v.Listing? ==>
      && v.total == |ws|
      && |v.entries| == (if |ws| < PageSize then |ws| else PageSize)
      && (forall i :: 0 <= i < |v.entries| ==> v.entries[i] == Entry(i + 1, ws[i]))
      && (v.footer <==> |ws| > PageSize)
  {
    if ws == [] then NoWarnings
    else
      var shown := if |ws| < PageSize then ws else ws[..PageSize];
      Listing(|ws|, seq(|shown|, i requires 0 <= i < |shown| => Entry(i + 1, shown[i])), |ws| > PageSize)
  }

  /** Right after a warn, the listing leads with the new warning and counts it. */
  lemma ListingAfterWarn(before: seq<WarningRow>, w: WarningRow)
    ensures var v := WarningsPage(Reversed(WarningsOf(before + [w], w.user, w.guild)));
      && v.Listing?
      && v.total == |WarningsOf(before, w.user, w.guild)| + 1
      && v.entries[0] == Entry(1, w)
  {
    WarningsOfAppend(before, w, w.user, w.guild);
  }
}
