/**
 * XP and levels (cogs/levels.py): the XP curve, the level it implies, the
 * per-message grant with its cooldown, the level-up bonus and milestone roles,
 * the `nivel` progress figures and the admin `setxp`.
 */
module Levels {
  import opened Wrappers
  import opened Store

  const XpPerMessageMin := 15
  const XpPerMessageMax := 25
  /** Seconds between two messages that earn XP. */
  const XpCooldown := 60
  /** Coins credited on every level-up, however many levels were gained. */
  const LevelUpBonus := 100

  /** calculate_xp_for_level: total XP needed to reach a level. */
  function XpForLevel(level: int): int
  {
    level * 50 + 50
  }

  /** Consecutive thresholds are always 50 XP apart. */
  lemma LevelSpan(level: int)
    ensures XpForLevel(level + 1) - XpForLevel(level) == 50
  {
  }

  /**
   * The value of calculate_level_from_xp: 0 below the level-1 threshold, and
   * otherwise the largest level whose threshold the XP reaches.
   */
  function LevelOf(xp: int): (level: nat)
    ensures level == 0 <==> xp < XpForLevel(1)
    ensures level >= 1 ==> XpForLevel(level) <= xp < XpForLevel(level + 1)
    ensures forall l :: 1 <= l && XpForLevel(l) <= xp ==> l <= level
  {
    if xp < XpForLevel(1) then 0 else (xp - 50) / 50
  }

  /** More XP never means a lower level. */
  lemma LevelMonotone(a: int, b: int)
    requires a <= b
    ensures LevelOf(a) <= LevelOf(b)
  {
  }

  /** Every XP value in a level's band maps to that level. */
  lemma LevelStableOnBand(level: int, xp: int)
    requires level >= 1
    requires XpForLevel(level) <= xp < XpForLevel(level + 1)
    ensures LevelOf(xp) == level
  {
  }

  /** calculate_level_from_xp: count levels up from 1 while their threshold is reached. */
  method CalculateLevelFromXp(xp: int) returns (result: int)
    ensures result == LevelOf(xp)
  {
    var level := 1;
    while XpForLevel(level) <= xp
      invariant level >= 1
      invariant level > 1 ==> XpForLevel(level - 1) <= xp
      decreases xp - XpForLevel(level)
    {
      level := level + 1;
    }
    result := level - 1;
  }

  /** LEVEL_ROLES */
  const LevelRoles: map<int, string> := map[5 := "Activo", 10 := "Veterano", 20 := "Leyenda", 50 := "Dios"]

  /** The role a new level earns, if it is a milestone. */
  function MilestoneRole(level: int): (role: Option<string>)
    ensures role.Some? <==> level == 5 || level == 10 || level == 20 || level == 50
  {
    if level in LevelRoles then Some(LevelRoles[level]) else None
  }

  /**
   * The stored level agrees with the curve. A row that add_xp has just created
   * keeps the column default 1 while its XP is still below 100 (level 0 on the
   * curve); every other row holds exactly LevelOf(xp).
   */
  ghost predicate LevelAgrees(row: LevelRow)
  {
    row.level == LevelOf(row.xp) || (row.level == 1 && row.xp < XpForLevel(1))
  }

  ghost predicate LevelsConsistent(db: Database)
    reads db
  {
    forall k :: k in db.levels ==> LevelAgrees(db.levels[k])
  }

  /** XP and level a row has before a grant; a missing row reads as the INSERT defaults. */
  function XpBefore(row: Option<LevelRow>): int
  {
    if row.Some? then row.value.xp else 0
  }

  function LevelBefore(row: Option<LevelRow>): int
  {
    if row.Some? then row.value.level else 1
  }

  function MessagesBefore(row: Option<LevelRow>): int
  {
    if row.Some? then row.value.totalMessages else 0
  }

  /** The cooldown test of on_message: a stamped grant less than XpCooldown seconds ago. */
  predicate OnCooldown(row: Option<LevelRow>, now: int)
  {
    row.Some? && row.value.lastXpTime.Some? && now - row.value.lastXpTime.value < XpCooldown
  }

  datatype LevelUp = LevelUp(newLevel: int, totalXp: int, milestoneRole: Option<string>)

  datatype MessageOutcome =
    | Ignored                                           // a bot, or a message outside a guild
    | CoolingDown                                       // within XpCooldown of the last grant
    | Granted(amount: int, levelUp: Option<LevelUp>)

  /**
   * on_message: grant `xpGained` (the random draw in [15, 25]) unless the author is
   * a bot, the message has no guild, or the cooldown is running; then re-read the
   * row, and when the curve's level exceeds the stored one store it, credit
   * LevelUpBonus coins once and report the milestone role, if any.
   */
  method OnMessage(db: Database, author: int, authorIsBot: bool, guild: Option<int>, now: int, xpGained: int)
    returns (outcome: MessageOutcome)
    requires XpPerMessageMin <= xpGained <= XpPerMessageMax
    requires LevelsConsistent(db)
    modifies db`levels, db`economy
    ensures LevelsConsistent(db)
    ensures old(db.BalancesNonNegative()) ==> db.BalancesNonNegative()
    ensures outcome.Ignored? <==> authorIsBot || guild.None?
    ensures outcome.CoolingDown? <==>
      !authorIsBot && guild.Some? && OnCooldown(old(db.GetUserLevelData(author, guild.value)), now)
    ensures !outcome.Granted? ==> db.levels == old(db.levels) && db.economy == old(db.economy)
    ensures outcome.Granted? ==>
      var k := (author, guild.value);
      var before := old(db.GetUserLevelData(author, guild.value));
      var xp := XpBefore(before) + xpGained;
      && outcome.amount == xpGained
      && k in db.levels
      && db.levels == old(db.levels)[k := db.levels[k]]
      && db.levels[k].xp == xp
      && db.levels[k].totalMessages == MessagesBefore(before) + 1
      && db.levels[k].lastXpTime == Some(now)
      && (outcome.levelUp.Some? <==> LevelOf(xp) > LevelBefore(before))
      && (outcome.levelUp.Some? ==>
            && outcome.levelUp.value == LevelUp(LevelOf(xp), xp, MilestoneRole(LevelOf(xp)))
            && db.levels[k].level == LevelOf(xp)
            && k in db.economy
            && db.economy == old(db.economy)[k := db.economy[k]]
            && StampsKept(old(db.economy), db.economy, k)
            && db.GetBalance(author, guild.value) == old(db.GetBalance(author, guild.value)) + LevelUpBonus)
      && (outcome.levelUp.None? ==> db.levels[k].level == LevelBefore(before) && db.economy == old(db.economy))
  {
    if authorIsBot || guild.None? {
      return Ignored;
    }
    var g := guild.value;
    var k := (author, g);
    var userData := db.GetUserLevelData(author, g);
    if OnCooldown(userData, now) {
      return CoolingDown;
    }
    db.AddXp(author, g, xpGained, now);
    var row := db.levels[k];
    var newLevel := CalculateLevelFromXp(row.xp);
    if userData.Some? {
      LevelMonotone(userData.value.xp, row.xp);
    }
    if newLevel > row.level {
      db.UpdateLevel(author, g, newLevel);
      db.AddMoney(author, g, LevelUpBonus);
      return Granted(xpGained, Some(LevelUp(newLevel, row.xp, MilestoneRole(newLevel))));
    }
    return Granted(xpGained, None);
  }

  /** What `nivel` shows; the progress bar itself is floating point and not modelled. */
  datatype LevelCard =
    | NoData
    | Card(level: int, xp: int, messages: int, xpProgress: int, xpForNext: int)

  /**
   * nivel: XP gained inside the stored level and the span to the next one. The
   * span is always 50; the progress lies in [0, 50) when the stored level is the
   * curve's level, and is negative for a default level-1 row below 100 XP.
   */
  function Nivel(row: Option<LevelRow>): (card: LevelCard)
    ensures card.NoData? <==> row.None?
    ensures card.Card? ==> card.xpForNext == 50 && card.level == row.value.level && card.xp == row.value.xp
    ensures card.Card? ==>
      card.xpProgress == row.value.xp - XpForLevel(row.value.level) && card.messages == row.value.totalMessages
    ensures card.Card? && row.value.level >= 1 && row.value.level == LevelOf(row.value.xp) ==>
      0 <= card.xpProgress < card.xpForNext
    ensures card.Card? && row.value.level == 1 && row.value.xp < XpForLevel(1) ==> card.xpProgress < 0
  {
    match row
    case None => NoData
    case Some(r) =>
      var xpNeeded := XpForLevel(r.level + 1);
      var xpProgress := r.xp - XpForLevel(r.level);
      var xpForNext := xpNeeded - XpForLevel(r.level);
      Card(r.level, r.xp, r.totalMessages, xpProgress, xpForNext)
  }

  /**
   * setxp: add the difference to the stored XP through add_xp (or add the target
   * to a fresh row), then store the curve's level for the target. Going through
   * add_xp also counts one message and stamps last_xp_time.
   */
  method SetXp(db: Database, user: int, guild: int, target: int, now: int) returns (newLevel: int)
    modifies db`levels
    ensures newLevel == LevelOf(target)
    ensures (user, guild) in db.levels
    ensures db.levels == old(db.levels)[(user, guild) := db.levels[(user, guild)]]
    ensures db.levels[(user, guild)] ==
      LevelRow(target, LevelOf(target), MessagesBefore(old(db.GetUserLevelData(user, guild))) + 1, Some(now))
    ensures old(LevelsConsistent(db)) ==> LevelsConsistent(db)
  {
    var userData := db.GetUserLevelData(user, guild);
    if userData.Some? {
      var difference := target - userData.value.xp;
      db.AddXp(user, guild, difference, now);
    } else {
      db.AddXp(user, guild, target, now);
    }
    newLevel := CalculateLevelFromXp(target);
    db.UpdateLevel(user, guild, newLevel);
  }
}
