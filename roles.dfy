/**
 * Game roles (cogs/roles.py): the persistent panel with one button per game,
 * and the button callback that toggles the game role and, on a successful
 * assignment, appends the game to the member's comma-separated games list.
 */
module Roles {
  import opened Wrappers
  import opened Text
  import opened Settings
  import opened Store

  /** A button of the role panel. */
  datatype Button = Button(name: string, emoji: string, customId: string)

  const CustomIdPrefix := "role_"

  /** The button RoleButton builds for one game: labelled with the key, custom id "role_" + key. */
  function GameButton(g: Game): Button
  {
    Button(g.key, g.emoji, CustomIdPrefix + g.key)
  }

  /** RoleView: one button per game, added in the order of the games table. */
  method BuildRoleView() returns (buttons: seq<Button>)
    ensures |buttons| == |Games|
    ensures forall i :: 0 <= i < |Games| ==>
      && buttons[i].name == Games[i].key
      && buttons[i].emoji == Games[i].emoji
      && buttons[i].customId == CustomIdPrefix + Games[i].key
  {
    buttons := [];
    var i := 0;
    while i < |Games|
      invariant 0 <= i <= |Games|
      invariant |buttons| == i
      invariant forall j :: 0 <= j < i ==> buttons[j] == GameButton(Games[j])
    {
      buttons := buttons + [GameButton(Games[i])];
      i := i + 1;
    }
  }

  /** No two games share a key. */
  lemma GameKeysDistinct()
    ensures forall i, j :: 0 <= i < j < |Games| ==> Games[i].key != Games[j].key
  {
    assert Games[0].key[0] != Games[1].key[0];
    assert |Games[0].key| == |Games[1].key| == 3;
    assert |Games[2].key| == 9 && |Games[3].key| == 5 && |Games[4].key| == 10;
  }

  /** The custom id gives its game back, so the panel's custom ids are pairwise distinct. */
  lemma CustomIdsDistinct(buttons: seq<Button>)
    requires |buttons| == |Games|
    requires forall i :: 0 <= i < |Games| ==> buttons[i].customId == CustomIdPrefix + Games[i].key
    ensures forall i, j :: 0 <= i < j < |buttons| ==> buttons[i].customId != buttons[j].customId
  {
    GameKeysDistinct();
    forall i, j | 0 <= i < j < |buttons|
      ensures buttons[i].customId != buttons[j].customId
    {
      assert buttons[i].customId[|CustomIdPrefix|..] == Games[i].key;
      assert buttons[j].customId[|CustomIdPrefix|..] == Games[j].key;
    }
  }

  /** The games list the callback reads: a missing profile or an empty games text is an empty list. */
  function StoredGames(profile: Option<ProfileRow>): (list: seq<string>)
    ensures NoCommas(list)
  {
    if profile.Some? && profile.value.games != "" then Split(profile.value.games) else []
  }

  /** The list after the append-if-absent. */
  function MergeGames(list: seq<string>, game: string): seq<string>
  {
    if game in list then list else list + [game]
  }

  datatype ClickOutcome =
    | RoleUnavailable
    | RemovedRole
    | RemoveFailed
    | AssignedRole(games: string)
    | AssignFailed

  /**
   * RoleButton.callback. The Discord calls are parameters: `roleAvailable` is
   * whether get_or_create_role found or created the role, `hasRole` whether the
   * member holds it, `removeOk` and `assignOk` what remove_role and assign_role
   * returned. Only a successful assignment touches the stored profile.
   */
  method RoleClick(db: Database, user: int, guild: int, game: string, roleAvailable: bool, hasRole: bool,
                   removeOk: bool, assignOk: bool, now: int) returns (outcome: ClickOutcome)
    modifies db`profiles
    ensures !roleAvailable ==> outcome == RoleUnavailable
    ensures roleAvailable && hasRole ==> outcome == (if removeOk then RemovedRole else RemoveFailed)
    ensures roleAvailable && !hasRole && !assignOk ==> outcome == AssignFailed
    ensures !outcome.AssignedRole? ==> db.profiles == old(db.profiles)
    ensures outcome.AssignedRole? <==> roleAvailable && !hasRole && assignOk
    ensures outcome.AssignedRole? ==>
      var list := MergeGames(StoredGames(old(db.GetUserProfile(user))), game);
      && outcome.games == Join(list)
      && db.profiles == old(db.profiles)[user :=
           if user in old(db.profiles) then old(db.profiles)[user].(games := outcome.games, updatedAt := now)
           else ProfileRow(guild, outcome.games, now)]
  {
    if !roleAvailable {
      return RoleUnavailable;
    }
    if hasRole {
      return if removeOk then RemovedRole else RemoveFailed;
    }
    if !assignOk {
      return AssignFailed;
    }
    var current := db.GetUserProfile(user);
    var gamesList := if current.Some? && current.value.games != "" then Split(current.value.games) else [];
    if game !in gamesList {
      gamesList := gamesList + [game];
    }
    var joined := Join(gamesList);
    db.UpdateUserGames(user, guild, joined, now);
    return AssignedRole(joined);
  }

  /** The games list as the next read sees it, after writing the merged list. */
  function ReadBack(list: seq<string>, game: string): seq<string>
  {
    StoredGames(Some(ProfileRow(0, Join(MergeGames(list, game)), 0)))
  }

  /**
   * Writing the merged list and reading it back gives the earlier entries in
   * their order, then the game when it was absent: nothing is lost, reordered
   * or duplicated by the join and split.
   */
  lemma MergeRoundTrip(list: seq<string>, game: string)
    requires NoCommas(list)
    requires game != "" && ',' !in game
    ensures game in list ==> ReadBack(list, game) == list
    ensures game !in list ==> ReadBack(list, game) == list + [game]
  {
    var merged := MergeGames(list, game);
    assert game in merged;
    SplitJoin(merged);
  }

  /** Assigning the same game twice stores the same list as assigning it once. */
  lemma MergeIdempotent(list: seq<string>, game: string)
    requires NoCommas(list)
    requires game != "" && ',' !in game
    ensures MergeGames(ReadBack(list, game), game) == MergeGames(list, game)
  {
    MergeRoundTrip(list, game);
  }

  /** The game keys carry no comma and are not empty, so the round trip applies to every button. */
  lemma GameKeysFitTheList(i: nat)
    requires i < |Games|
    ensures Games[i].key != "" && ',' !in Games[i].key
  {
  }
}
