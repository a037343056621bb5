/**
 * Zero Coins economy (cogs/economy.py): balance, the daily and work claims with
 * their cooldowns, transfers, the coin flip and the admin set-balance.
 */
module Economy {
  import opened Wrappers
  import opened Text
  import opened Store

  const DailyReward := 100
  const WorkRewardMin := 50
  const WorkRewardMax := 150
  const WorkCooldown := 3600
  const DailyCooldown := 86400

  /**
   * Seconds still to wait when the last claim lies within the cooldown; None when
   * there was no claim (or its stamp could not be read) or the cooldown is over.
   */
  function CooldownRemaining(last: Option<int>, now: int, cooldown: int): (r: Option<int>)
    ensures r.Some? <==> last.Some? && now - last.value < cooldown
    ensures r.Some? ==> r.value > 0 && now + r.value == last.value + cooldown
  {
    if last.Some? && now - last.value < cooldown then Some(cooldown - (now - last.value)) else None
  }

  /** The hours and minutes `daily` shows for a wait. */
  function HoursMinutes(remaining: nat): (hm: (nat, nat))
    ensures hm.1 < 60
    ensures hm.0 * 3600 + hm.1 * 60 <= remaining < hm.0 * 3600 + hm.1 * 60 + 60
  {
    (remaining / 3600, (remaining % 3600) / 60)
  }

  /** The minutes and seconds `work` shows for a wait. */
  function MinutesSeconds(remaining: nat): (ms: (nat, nat))
    ensures ms.1 < 60
    ensures ms.0 * 60 + ms.1 == remaining
  {
    (remaining / 60, remaining % 60)
  }

  /** Every other (user, guild) row of the economy table is as it was. */
  ghost predicate OthersUnchanged(before: map<Key, EconomyRow>, after: map<Key, EconomyRow>, keys: set<Key>)
  {
    forall k :: k !in keys ==> (k in after <==> k in before) && (k in after ==> after[k] == before[k])
  }

  datatype BalanceCard = BalanceCard(coins: int, level: Option<int>)

  /** balance: the stored balance (0 without a row) and the level when a level row exists. */
  function Balance(db: Database, user: int, guild: int): (card: BalanceCard)
    reads db
    ensures db.BalancesNonNegative() ==> card.coins >= 0
    ensures (user, guild) !in db.economy ==> card.coins == 0
    ensures (user, guild) in db.economy ==> card.coins == db.economy[(user, guild)].balance
    ensures card.level.Some? <==> (user, guild) in db.levels
    ensures card.level.Some? ==> card.level.value == db.levels[(user, guild)].level
  {
    var level := db.GetUserLevelData(user, guild);
    BalanceCard(db.GetBalance(user, guild), if level.Some? then Some(level.value.level) else None)
  }

  datatype ClaimOutcome = Claimed(amount: int) | Wait(remaining: int)

  /** daily: inside the cooldown nothing changes; otherwise credit DailyReward and stamp last_daily. */
  method Daily(db: Database, user: int, guild: int, now: int) returns (outcome: ClaimOutcome)
    modifies db`economy
    ensures var wait := CooldownRemaining(old(db.GetLastDaily(user, guild)), now, DailyCooldown);
      && (outcome.Wait? <==> wait.Some?)
      && (outcome.Wait? ==> outcome.remaining == wait.value && db.economy == old(db.economy))
    ensures outcome.Claimed? ==>
      && outcome.amount == DailyReward
      && (user, guild) in db.economy
      && OthersUnchanged(old(db.economy), db.economy, {(user, guild)})
      && db.GetBalance(user, guild) == old(db.GetBalance(user, guild)) + DailyReward
      && db.GetLastDaily(user, guild) == Some(now)
      && db.GetLastWork(user, guild) == old(db.GetLastWork(user, guild))
    ensures old(db.BalancesNonNegative()) ==> db.BalancesNonNegative()
  {
    var lastDaily := db.GetLastDaily(user, guild);
    var wait := CooldownRemaining(lastDaily, now, DailyCooldown);
    if wait.Some? {
      return Wait(wait.value);
    }
    db.AddMoney(user, guild, DailyReward);
    db.UpdateLastDaily(user, guild, now);
    return Claimed(DailyReward);
  }

  /** work: inside the cooldown nothing changes; otherwise credit the drawn earnings and stamp last_work. */
  method Work(db: Database, user: int, guild: int, now: int, earnings: int) returns (outcome: ClaimOutcome)
    requires WorkRewardMin <= earnings <= WorkRewardMax
    modifies db`economy
    ensures var wait := CooldownRemaining(old(db.GetLastWork(user, guild)), now, WorkCooldown);
      && (outcome.Wait? <==> wait.Some?)
      && (outcome.Wait? ==> outcome.remaining == wait.value && db.economy == old(db.economy))
    ensures outcome.Claimed? ==>
      && outcome.amount == earnings
      && (user, guild) in db.economy
      && OthersUnchanged(old(db.economy), db.economy, {(user, guild)})
      && db.GetBalance(user, guild) == old(db.GetBalance(user, guild)) + earnings
      && db.GetLastWork(user, guild) == Some(now)
      && db.GetLastDaily(user, guild) == old(db.GetLastDaily(user, guild))
    ensures old(db.BalancesNonNegative()) ==> db.BalancesNonNegative()
  {
    var lastWork := db.GetLastWork(user, guild);
    var wait := CooldownRemaining(lastWork, now, WorkCooldown);
    if wait.Some? {
      return Wait(wait.value);
    }
    db.AddMoney(user, guild, earnings);
    db.UpdateLastWork(user, guild, now);
    return Claimed(earnings);
  }

  datatype TransferOutcome =
    | ToBot
    | ToSelf
    | NonPositive
    | Insufficient(balance: int)
    | Transferred

  /**
   * transfer: reject a bot recipient, then a self-transfer, then a non-positive
   * amount, then a sender balance below the amount; otherwise debit the sender
   * and, once the debit has succeeded, credit the recipient.
   */
  method Transfer(db: Database, sender: int, recipient: int, recipientIsBot: bool, guild: int, amount: int)
    returns (outcome: TransferOutcome)
    modifies db`economy
    ensures outcome.ToBot? <==> recipientIsBot
    ensures outcome.ToSelf? <==> !recipientIsBot && recipient == sender
    ensures outcome.NonPositive? <==> !recipientIsBot && recipient != sender && amount <= 0
    ensures outcome.Insufficient? <==>
      !recipientIsBot && recipient != sender && amount > 0 && old(db.GetBalance(sender, guild)) < amount
    ensures outcome.Insufficient? ==> outcome.balance == old(db.GetBalance(sender, guild))
    ensures !outcome.Transferred? ==> db.economy == old(db.economy)
    ensures outcome.Transferred? ==>
      && db.GetBalance(sender, guild) == old(db.GetBalance(sender, guild)) - amount
      && db.GetBalance(recipient, guild) == old(db.GetBalance(recipient, guild)) + amount
      && db.GetBalance(sender, guild) + db.GetBalance(recipient, guild)
         == old(db.GetBalance(sender, guild)) + old(db.GetBalance(recipient, guild))
      && OthersUnchanged(old(db.economy), db.economy, {(sender, guild), (recipient, guild)})
      && StampsKept(old(db.economy), db.economy, (sender, guild))
      && StampsKept(old(db.economy), db.economy, (recipient, guild))
    ensures old(db.BalancesNonNegative()) ==> db.BalancesNonNegative()
  {
    if recipientIsBot {
      return ToBot;
    }
    if recipient == sender {
      return ToSelf;
    }
    if amount <= 0 {
      return NonPositive;
    }
    var senderBalance := db.GetBalance(sender, guild);
    if senderBalance < amount {
      return Insufficient(senderBalance);
    }
    var success := db.RemoveMoney(sender, guild, amount);
    // remove_money repeats the balance check just passed, so the debit cannot be refused here
    assert success;
    db.AddMoney(recipient, guild, amount);
    return Transferred;
  }

  /** The two sides the coin flip accepts, after lower-casing. */
  predicate IsSide(s: string)
  {
    s == "cara" || s == "cruz"
  }

  datatype FlipOutcome =
    | BadSide
    | BadStake
    | CannotCover(balance: int)
    | Won(amount: int)
    | Lost(amount: int)

  /**
   * coinflip: lower-case the chosen side and reject anything but cara/cruz, then a
   * stake <= 0, then a balance below the stake; `result` is the drawn side. A win
   * credits the stake, a loss debits it.
   */
  method Coinflip(db: Database, user: int, guild: int, side: string, stake: int, result: string)
    returns (outcome: FlipOutcome)
    requires IsSide(result)
    modifies db`economy
    ensures outcome.BadSide? <==> !IsSide(Lower(side))
    ensures outcome.BadStake? <==> IsSide(Lower(side)) && stake <= 0
    ensures outcome.CannotCover? <==>
      IsSide(Lower(side)) && stake > 0 && old(db.GetBalance(user, guild)) < stake
    ensures outcome.Won? ==> Lower(side) == result && outcome.amount == stake
    ensures outcome.Lost? ==> Lower(side) != result && outcome.amount == stake
    ensures outcome.Won? || outcome.Lost? ==> OthersUnchanged(old(db.economy), db.economy, {(user, guild)})
    ensures StampsKept(old(db.economy), db.economy, (user, guild))
    ensures outcome.Won? ==> db.GetBalance(user, guild) == old(db.GetBalance(user, guild)) + stake
    ensures outcome.Lost? ==> db.GetBalance(user, guild) == old(db.GetBalance(user, guild)) - stake
    ensures !(outcome.Won? || outcome.Lost?) ==> db.economy == old(db.economy)
    ensures old(db.BalancesNonNegative()) ==> db.BalancesNonNegative()
  {
    var lado := Lower(side);
    if !IsSide(lado) {
      return BadSide;
    }
    if stake <= 0 {
      return BadStake;
    }
    var balance := db.GetBalance(user, guild);
    if balance < stake {
      return CannotCover(balance);
    }
    if result == lado {
      db.AddMoney(user, guild, stake);
      return Won(stake);
    }
    var _ := db.RemoveMoney(user, guild, stake);
    return Lost(stake);
  }

  /**
   * The balance setmoney leaves: the target, except that a negative target below
   * the current balance is refused by remove_money and the balance stays.
   */
  function SetMoneyResult(current: int, target: int): (b: int)
    ensures target >= 0 ==> b == target
    ensures current >= 0 && target < 0 ==> b == current
  {
    if target >= 0 || target >= current then target else current
  }

  /**
   * setmoney: compute target - balance and apply it through add_money when
   * positive or remove_money of its magnitude when negative.
   */
  method SetMoney(db: Database, user: int, guild: int, target: int)
    modifies db`economy
    ensures db.GetBalance(user, guild) == SetMoneyResult(old(db.GetBalance(user, guild)), target)
    ensures OthersUnchanged(old(db.economy), db.economy, {(user, guild)})
    ensures StampsKept(old(db.economy), db.economy, (user, guild))
    ensures old(db.BalancesNonNegative()) && target < 0 ==> db.economy == old(db.economy)
    ensures old(db.BalancesNonNegative()) ==> db.BalancesNonNegative()
  {
    var current := db.GetBalance(user, guild);
    var difference := target - current;
    if difference > 0 {
      db.AddMoney(user, guild, difference);
    } else if difference < 0 {
      var _ := db.RemoveMoney(user, guild, -difference);
    }
  }
}
