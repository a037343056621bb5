/**
 * Looking-for-group commands (cogs/lfg.py): the validation of `lfg`, `lfg_lol`
 * and `lfg_wow`, and the autocomplete filters. The membership checks as written
 * reject options the catalogue itself offers; each is modelled as written with a
 * lemma exhibiting the rejection, and the commands use the corrected check,
 * a case-insensitive match against the catalogue.
 */
module Lfg {
  import opened Wrappers
  import opened Text
  import opened Settings

  /** Discord shows at most 25 autocomplete choices. */
  const MaxChoices := 25

  // ----- the checks as written -----

  /** lfg as written: `juego.upper() in GAMES`. */
  predicate GameAcceptedAsWritten(juego: string)
  {
    Upper(juego) in GameKeys()
  }

  /** Every key but LOL has a lower-case second letter, which `upper` never yields. */
  lemma OnlyLolAcceptedAsWritten(juego: string)
    ensures GameAcceptedAsWritten(juego) <==> Upper(juego) == "LOL"
  {
    assert GameKeys() == ["LOL", "WoW", "Minecraft", "Tibia", "PokéXGames"];
    if |juego| > 1 {
      UpperHasNoLower(juego, 1);
    }
  }

  /** lfg_lol as written: `rol.capitalize()` in the LoL roles. */
  predicate LolRoleAcceptedAsWritten(rol: string)
  {
    Capitalize(rol) in LeagueOfLegends.roles
  }

  /** "ADC" keeps upper-case letters past its first one, which `capitalize` never yields. */
  lemma AdcRejectedAsWritten(rol: string)
    ensures Capitalize(rol) != "ADC"
    ensures !LolRoleAcceptedAsWritten("ADC") && !LolRoleAcceptedAsWritten("adc")
  {
    if |rol| == 3 {
      CapitalizeTailHasNoUpper(rol, 1);
    }
    CapitalizeTailHasNoUpper("ADC", 1);
    CapitalizeTailHasNoUpper("adc", 1);
    assert Capitalize("ADC")[0] == 'A' && Capitalize("adc")[0] == 'A';
  }

  /** lfg_wow's activity check as written: capitalize into the WoW types, or exactly "Mythic+". */
  predicate WowTypeAcceptedAsWritten(tipo: string)
  {
    Capitalize(tipo) in WorldOfWarcraft.types || tipo == "Mythic+"
  }

  lemma PvpRejectedAsWritten(tipo: string)
    ensures Capitalize(tipo) != "PvP"
    ensures !WowTypeAcceptedAsWritten("PvP") && !WowTypeAcceptedAsWritten("pvp")
  {
    if |tipo| == 3 {
      CapitalizeTailHasNoUpper(tipo, 2);
    }
    CapitalizeTailHasNoUpper("PvP", 2);
    CapitalizeTailHasNoUpper("pvp", 2);
  }

  /** lfg_wow's role check as written: `rol.upper()` in the WoW roles. */
  predicate WowRoleAcceptedAsWritten(rol: string)
  {
    Upper(rol) in WorldOfWarcraft.roles
  }

  /** Tank and Healer have lower-case letters, so only DPS can ever pass. */
  lemma OnlyDpsAcceptedAsWritten(rol: string)
    ensures WowRoleAcceptedAsWritten(rol) <==> Upper(rol) == "DPS"
  {
    if |rol| > 1 {
      UpperHasNoLower(rol, 1);
    }
  }

  // ----- the corrected check -----

  /** The first catalogue option equal to the input up to case. */
  function MatchOption(input: string, options: seq<string>): (r: Option<string>)
    ensures r.Some? ==> r.value in options && Lower(r.value) == Lower(input)
    ensures r.None? ==> forall o :: o in options ==> Lower(o) != Lower(input)
  {
    if |options| == 0 then None
    else if Lower(options[0]) == Lower(input) then Some(options[0])
    else MatchOption(input, options[1..])
  }

  /** An option is matched by any spelling of it, provided no earlier option spells the same. */
  lemma {:induction false} MatchOptionFinds(input: string, options: seq<string>, i: nat)
    requires i < |options|
    requires Lower(options[i]) == Lower(input)
    requires forall j :: 0 <= j < i ==> Lower(options[j]) != Lower(options[i])
    ensures MatchOption(input, options) == Some(options[i])
  {
    if i > 0 {
      MatchOptionFinds(input, options[1..], i - 1);
    }
  }

  /** The corrected check accepts WoW, which the check as written rejects, in any case. */
  lemma CorrectedAcceptsWow()
    ensures MatchOption("WoW", GameKeys()) == Some("WoW")
    ensures MatchOption("wow", GameKeys()) == Some("WoW")
  {
    var keys := GameKeys();
    assert keys[0] == "LOL" && keys[1] == "WoW";
    assert Lower(keys[0])[0] == 'l' && Lower(keys[1])[0] == 'w';
    assert Lower("WoW") == Lower("wow") by {
      assert forall i :: 0 <= i < 3 ==> Lower("WoW")[i] == Lower("wow")[i];
    }
    MatchOptionFinds("WoW", keys, 1);
    MatchOptionFinds("wow", keys, 1);
  }

  /** The corrected check accepts ADC however it is typed. */
  lemma CorrectedAcceptsAdc()
    ensures MatchOption("ADC", LeagueOfLegends.roles) == Some("ADC")
    ensures MatchOption("adc", LeagueOfLegends.roles) == Some("ADC")
  {
    var lol := LeagueOfLegends.roles;
    assert Lower("ADC") == Lower("adc") by {
      assert forall i :: 0 <= i < 3 ==> Lower("ADC")[i] == Lower("adc")[i];
    }
    assert Lower(lol[0])[0] == 't' && Lower(lol[2])[0] == 'm' && Lower(lol[3])[0] == 'a';
    assert |Lower(lol[1])| == 6;
    MatchOptionFinds("ADC", lol, 3);
    MatchOptionFinds("adc", lol, 3);
  }

  /** The corrected check accepts PvP however it is typed. */
  lemma CorrectedAcceptsPvp()
    ensures MatchOption("PvP", WorldOfWarcraft.types) == Some("PvP")
    ensures MatchOption("pvp", WorldOfWarcraft.types) == Some("PvP")
  {
    var types := WorldOfWarcraft.types;
    assert Lower("PvP") == Lower("pvp") by {
      assert forall i :: 0 <= i < 3 ==> Lower("PvP")[i] == Lower("pvp")[i];
    }
    assert |Lower(types[0])| == 4 && |Lower(types[1])| == 7;
    MatchOptionFinds("PvP", types, 2);
    MatchOptionFinds("pvp", types, 2);
  }

  /** The corrected check accepts Tank and Healer, which `upper` can never produce. */
  lemma CorrectedAcceptsTankHealer()
    ensures MatchOption("Tank", WorldOfWarcraft.roles) == Some("Tank")
    ensures MatchOption("TANK", WorldOfWarcraft.roles) == Some("Tank")
    ensures MatchOption("Healer", WorldOfWarcraft.roles) == Some("Healer")
  {
    var roles := WorldOfWarcraft.roles;
    assert Lower("Tank") == Lower("TANK") by {
      assert forall i :: 0 <= i < 4 ==> Lower("Tank")[i] == Lower("TANK")[i];
    }
    assert |Lower(roles[0])| == 4;
    MatchOptionFinds("Tank", roles, 0);
    MatchOptionFinds("TANK", roles, 0);
    MatchOptionFinds("Healer", roles, 1);
  }

  // ----- the commands -----

  /** The catalogue entry with a key. */
  function GameWithKey(key: string, games: seq<Game>): (g: Option<Game>)
    ensures g.Some? ==> g.value in games && g.value.key == key
    ensures g.None? ==> forall x :: x in games ==> x.key != key
  {
    if |games| == 0 then None
    else if games[0].key == key then Some(games[0])
    else GameWithKey(key, games[1..])
  }

  lemma KeyInGames(key: string)
    requires key in GameKeys()
    ensures GameWithKey(key, Games).Some?
  {
    var i :| 0 <= i < |GameKeys()| && GameKeys()[i] == key;
    assert Games[i] in Games && Games[i].key == key;
  }

  datatype LfgOutcome = UnknownGame | LfgPost(game: Game)

  /** lfg: an unknown game is refused; otherwise the post names the game, whose role is then mentioned. */
  function LfgCommand(juego: string): (r: LfgOutcome)
    ensures r.UnknownGame? <==> forall g :: g in Games ==> Lower(g.key) != Lower(juego)
    ensures r.LfgPost? ==> r.game in Games && Lower(r.game.key) == Lower(juego)
  {
    match MatchOption(juego, GameKeys())
    case None =>
      assert forall g :: g in Games ==> g.key in GameKeys() by {
        forall g | g in Games ensures g.key in GameKeys() {
          var i :| 0 <= i < |Games| && Games[i] == g;
          assert GameKeys()[i] == g.key;
        }
      }
      UnknownGame
    case Some(key) =>
      KeyInGames(key);
      LfgPost(GameWithKey(key, Games).value)
  }

  datatype LolOutcome = InvalidLolRole | InvalidRank | LolPost(role: string, rank: Option<string>)

  /**
   * lfg_lol: the role is validated first; the rank only when one is given (an
   * empty string counts as not given), by its capitalized form.
   */
  function LfgLol(rol: string, rango: Option<string>): (r: LolOutcome)
    ensures r.InvalidLolRole? <==> MatchOption(rol, LeagueOfLegends.roles).None?
    ensures r.InvalidRank? <==>
      && MatchOption(rol, LeagueOfLegends.roles).Some?
      && rango.Some? && rango.value != "" && Capitalize(rango.value) !in LeagueOfLegends.ranks
    ensures r.LolPost? ==>
      && r.role in LeagueOfLegends.roles && Lower(r.role) == Lower(rol)
      && (r.rank.Some? <==> rango.Some? && rango.value != "")
      && (r.rank.Some? ==> r.rank.value == Capitalize(rango.value) && r.rank.value in LeagueOfLegends.ranks)
  {
    match MatchOption(rol, LeagueOfLegends.roles)
    case None => InvalidLolRole
    case Some(role) =>
      if rango.Some? && rango.value != "" then
        var rank := Capitalize(rango.value);
        if rank !in LeagueOfLegends.ranks then InvalidRank else LolPost(role, Some(rank))
      else LolPost(role, None)
  }

  datatype WowOutcome = InvalidType | InvalidWowRole | WowPost(activity: string, role: string)

  /** lfg_wow: the activity is validated before the role. */
  function LfgWow(tipo: string, rol: string): (r: WowOutcome)
    ensures r.InvalidType? <==> MatchOption(tipo, WorldOfWarcraft.types).None?
    ensures r.InvalidWowRole? <==>
      MatchOption(tipo, WorldOfWarcraft.types).Some? && MatchOption(rol, WorldOfWarcraft.roles).None?
    ensures r.WowPost? ==>
      && r.activity in WorldOfWarcraft.types && Lower(r.activity) == Lower(tipo)
      && r.role in WorldOfWarcraft.roles && Lower(r.role) == Lower(rol)
  {
    match MatchOption(tipo, WorldOfWarcraft.types)
    case None => InvalidType
    case Some(activity) =>
      match MatchOption(rol, WorldOfWarcraft.roles)
      case None => InvalidWowRole
      case Some(role) => WowPost(activity, role)
  }

  // ----- the commands as written -----

  /** lfg as written: the upper-cased input must be a key of GAMES, and only LOL ever is. */
  function LfgCommandAsWritten(juego: string): (r: LfgOutcome)
    ensures r.LfgPost? <==> Upper(juego) == "LOL"
    ensures r.LfgPost? ==> r.game == LeagueOfLegends
  {
    OnlyLolAcceptedAsWritten(juego);
    var key := Upper(juego);
    if key in GameKeys() then
      KeyInGames(key);
      LfgPost(GameWithKey(key, Games).value)
    else UnknownGame
  }

  /**
   * lfg_lol as written: the capitalized role must be a LoL role, so ADC never is;
   * a given rank must capitalize to a LoL rank; the post shows both capitalized.
   */
  function LfgLolAsWritten(rol: string, rango: Option<string>): (r: LolOutcome)
    ensures r.InvalidLolRole? <==> !LolRoleAcceptedAsWritten(rol)
    ensures r.InvalidRank? <==>
      && LolRoleAcceptedAsWritten(rol)
      && rango.Some? && rango.value != "" && Capitalize(rango.value) !in LeagueOfLegends.ranks
    ensures r.LolPost? ==>
      && r.role == Capitalize(rol) && r.role in LeagueOfLegends.roles && r.role != "ADC"
      && (r.rank.Some? <==> rango.Some? && rango.value != "")
      && (r.rank.Some? ==> r.rank.value == Capitalize(rango.value) && r.rank.value in LeagueOfLegends.ranks)
  {
    AdcRejectedAsWritten(rol);
    var role := Capitalize(rol);
    if role !in LeagueOfLegends.roles then InvalidLolRole
    else if rango.Some? && rango.value != "" then
      var rank := Capitalize(rango.value);
      if rank !in LeagueOfLegends.ranks then InvalidRank else LolPost(role, Some(rank))
    else LolPost(role, None)
  }

  /**
   * lfg_wow as written: the activity passes capitalized or as exactly "Mythic+",
   * and the role upper-cased, so PvP is never posted and DPS is the only role.
   */
  function LfgWowAsWritten(tipo: string, rol: string): (r: WowOutcome)
    ensures r.InvalidType? <==> !WowTypeAcceptedAsWritten(tipo)
    ensures r.InvalidWowRole? <==> WowTypeAcceptedAsWritten(tipo) && Upper(rol) != "DPS"
    ensures r.WowPost? ==> r.activity in WorldOfWarcraft.types && r.activity != "PvP" && r.role == "DPS"
    ensures r.WowPost? ==> r.activity == (if tipo == "Mythic+" then "Mythic+" else Capitalize(tipo))
  {
    PvpRejectedAsWritten(tipo);
    OnlyDpsAcceptedAsWritten(rol);
    if !WowTypeAcceptedAsWritten(tipo) then InvalidType
    else if Upper(rol) !in WorldOfWarcraft.roles then InvalidWowRole
    else WowPost(if tipo != "Mythic+" then Capitalize(tipo) else "Mythic+", Upper(rol))
  }

  /** The game the autocomplete offers as WoW is refused by lfg as written and posted by the corrected command. */
  lemma LfgCommandDiverges()
    ensures LfgCommandAsWritten("WoW") == UnknownGame
    ensures LfgCommand("WoW") == LfgPost(WorldOfWarcraft)
  {
    var r := LfgCommand("WoW");
    CorrectedAcceptsWow();
    assert GameWithKey("WoW", Games) == Some(WorldOfWarcraft);
  }

  /** ADC, offered by the role autocomplete, is refused as written and posted by the corrected command. */
  lemma LfgLolDiverges()
    ensures LfgLolAsWritten("ADC", None) == InvalidLolRole
    ensures LfgLol("ADC", None) == LolPost("ADC", None)
  {
    CorrectedAcceptsAdc();
  }

  /** PvP and Tank, offered by the autocompletes, are refused as written and posted by the corrected command. */
  lemma LfgWowDiverges()
    ensures LfgWowAsWritten("PvP", "DPS") == InvalidType
    ensures LfgWowAsWritten("Raid", "Tank") == InvalidWowRole
    ensures LfgWow("PvP", "Tank") == WowPost("PvP", "Tank")
  {
    PvpRejectedAsWritten("PvP");
    RaidAcceptedAsWritten();
    OnlyDpsAcceptedAsWritten("Tank");
    assert Upper("Tank")[1] == 'A';
    CorrectedAcceptsPvp();
    CorrectedAcceptsTankHealer();
  }

  lemma RaidAcceptedAsWritten()
    ensures WowTypeAcceptedAsWritten("Raid")
  {
    assert Capitalize("Raid") == "Raid" by {
      assert Lower("aid") == "aid";
    }
  }

  // ----- autocomplete -----

  /** `current.lower() in option.lower()` */
  predicate Suggests(current: string, option: string)
  {
    IsSubstring(Lower(current), Lower(option))
  }

  /** The options the comprehension keeps, in catalogue order. */
  function Matching(current: string, options: seq<string>): (r: seq<string>)
    ensures |r| <= |options|
    ensures forall x :: x in r <==> x in options && Suggests(current, x)
  {
    if |options| == 0 then []
    else (if Suggests(current, options[0]) then [options[0]] else []) + Matching(current, options[1..])
  }

  /** Filtering keeps order: filtering a concatenation concatenates the filtered parts. */
  lemma {:induction false} MatchingAppend(current: string, a: seq<string>, b: seq<string>)
    ensures Matching(current, a + b) == Matching(current, a) + Matching(current, b)
  {
    if |a| == 0 {
      assert a + b == b;
    } else {
      assert (a + b)[1..] == a[1..] + b;
      MatchingAppend(current, a[1..], b);
    }
  }

  /** An empty `current` keeps every option. */
  lemma {:induction false} MatchingEmpty(options: seq<string>)
    ensures Matching("", options) == options
  {
    if |options| > 0 {
      EmptyIsSubstring(Lower(options[0]));
      assert Lower("") == "";
      MatchingEmpty(options[1..]);
    }
  }

  /** The role, rank and activity autocompletes: the matching options, cut to 25. */
  function Autocomplete(current: string, options: seq<string>): (r: seq<string>)
    ensures |r| <= MaxChoices
    ensures forall x :: x in r ==> x in options && Suggests(current, x)
    ensures r <= Matching(current, options)
    ensures |Matching(current, options)| <= MaxChoices ==> r == Matching(current, options)
    ensures |r| == if |Matching(current, options)| <= MaxChoices then |Matching(current, options)| else MaxChoices
  {
    var m := Matching(current, options);
    if |m| <= MaxChoices then m else m[..MaxChoices]
  }

  /** A game is suggested when `current` occurs in its key or in its name, ignoring case. */
  predicate SuggestsGame(current: string, g: Game)
  {
    Suggests(current, g.key) || Suggests(current, g.name)
  }

  datatype Choice = Choice(name: string, value: string)

  function GameChoice(g: Game): Choice
  {
    Choice(g.emoji + " " + g.name, g.key)
  }

  function MatchingGames(current: string, games: seq<Game>): (r: seq<Choice>)
    ensures |r| <= |games|
    ensures forall c :: c in r <==> exists g :: g in games && SuggestsGame(current, g) && c == GameChoice(g)
  {
    if |games| == 0 then []
    else
      (if SuggestsGame(current, games[0]) then [GameChoice(games[0])] else []) + MatchingGames(current, games[1..])
  }

  /** Filtering the games keeps catalogue order: filtering a concatenation concatenates the filtered parts. */
  lemma {:induction false} MatchingGamesAppend(current: string, a: seq<Game>, b: seq<Game>)
    ensures MatchingGames(current, a + b) == MatchingGames(current, a) + MatchingGames(current, b)
  {
    if |a| == 0 {
      assert a + b == b;
    } else {
      var head := if SuggestsGame(current, a[0]) then [GameChoice(a[0])] else [];
      assert (a + b)[1..] == a[1..] + b;
      assert MatchingGames(current, a + b) == head + MatchingGames(current, a[1..] + b);
      MatchingGamesAppend(current, a[1..], b);
      assert MatchingGames(current, a) == head + MatchingGames(current, a[1..]);
    }
  }

  /** An empty `current` offers every game, in catalogue order. */
  lemma {:induction false} MatchingGamesEmpty(games: seq<Game>)
    ensures MatchingGames("", games) == seq(|games|, i requires 0 <= i < |games| => GameChoice(games[i]))
  {
    if |games| > 0 {
      EmptyIsSubstring(Lower(games[0].key));
      assert Lower("") == "";
      MatchingGamesEmpty(games[1..]);
    }
  }

  /**
   * lfg's game autocomplete: the matching games in catalogue order (MatchingGamesAppend),
   * cut to 25, a cut five games never reach.
   */
  function GameAutocomplete(current: string): (r: seq<Choice>)
    ensures |r| <= MaxChoices
    ensures forall c :: c in r <==> exists g :: g in Games && SuggestsGame(current, g) && c == GameChoice(g)
    ensures current == "" ==> r == seq(|Games|, i requires 0 <= i < |Games| => GameChoice(Games[i]))
  {
    MatchingGamesEmpty(Games);
    MatchingGames(current, Games)
  }
}
