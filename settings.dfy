/** The game catalogue of config/settings.py, copied as constants. */
module Settings {

  datatype Game = Game(
    key: string,
    name: string,
    emoji: string,
    roles: seq<string>,
    ranks: seq<string>,
    types: seq<string>)

  const LeagueOfLegends := Game("LOL", "League of Legends", "🎮",
    ["Top", "Jungle", "Mid", "ADC", "Support"],
    ["Iron", "Bronze", "Silver", "Gold", "Platinum", "Diamond", "Master", "Grandmaster", "Challenger"],
    [])

  const WorldOfWarcraft := Game("WoW", "World of Warcraft", "⚔️",
    ["Tank", "Healer", "DPS"],
    [],
    ["Raid", "Mythic+", "PvP", "Arena", "Dungeons"])

  const Minecraft := Game("Minecraft", "Minecraft", "⛏️",
    [], [], ["Survival", "Creative", "Minijuegos", "Modded"])

  const TibiaGame := Game("Tibia", "Tibia", "🗡️",
    [], [], ["Hunt", "Quest", "Boss"])

  const PokeXGames := Game("PokéXGames", "PokéXGames", "⚡",
    [], [], ["PvP", "Hunt", "Clan Wars"])

  /** GAMES, in its declaration order (a Python dict keeps insertion order). */
  const Games: seq<Game> := [LeagueOfLegends, WorldOfWarcraft, Minecraft, TibiaGame, PokeXGames]

  /** GAMES.keys() */
  function GameKeys(): seq<string>
  {
    seq(|Games|, i requires 0 <= i < |Games| => Games[i].key)
  }
}
