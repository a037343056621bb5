/**
 * Residential access codes (cogs/residential_access.py): generating a code over
 * a fixed alphabet, redrawing until it is unused in the guild, and the validate
 * and revoke check chains over the access-code table.
 */
module ResidentialAccess {
  import opened Wrappers
  import opened Text
  import opened Store

  const Letters := "ABCDEFGHIJKLMNOPQRSTUVWXYZ"
  const Digits := "0123456789"
  /** Length of the codes generar_codigo draws. */
  const CodeLength := 6

  /** The characters generate_access_code draws from. */
  function Alphabet(includeLetters: bool): string
  {
    if includeLetters then Letters + Digits else Digits
  }

  /** A string generate_access_code can return. */
  predicate IsGenerated(code: string, length: int, includeLetters: bool)
  {
    |code| == (if length > 0 then length else 0) && forall i :: 0 <= i < |code| ==> code[i] in Alphabet(includeLetters)
  }

  lemma AlphabetHasNoLower(includeLetters: bool, c: char)
    requires c in Alphabet(includeLetters)
    ensures !IsLowerChar(c)
  {
    assert c in Letters || c in Digits;
  }

  /** Generated codes are already upper case, so storing Upper(code) stores the code itself. */
  lemma GeneratedIsUpper(code: string, length: int, includeLetters: bool)
    requires IsGenerated(code, length, includeLetters)
    ensures Upper(code) == code
  {
    forall i | 0 <= i < |code|
      ensures Upper(code)[i] == code[i]
    {
      AlphabetHasNoLower(includeLetters, code[i]);
    }
  }

  /**
   * generate_access_code: `picks` are the positions secrets.choice draws, one per
   * character (none for a length <= 0, as range() then yields nothing).
   */
  function GenerateAccessCode(length: int, includeLetters: bool, picks: seq<nat>): (code: string)
    requires |picks| == (if length > 0 then length else 0)
    requires forall i :: 0 <= i < |picks| ==> picks[i] < |Alphabet(includeLetters)|
    ensures IsGenerated(code, length, includeLetters)
    ensures forall i :: 0 <= i < |code| ==> code[i] == Alphabet(includeLetters)[picks[i]]
  {
    seq(|picks|, i requires 0 <= i < |picks| => Alphabet(includeLetters)[picks[i]])
  }

  /** Whether a code string is unused in the guild, as get_access_code_by_code sees it. */
  predicate IsFresh(codes: seq<AccessCodeRow>, guild: int, code: string)
  {
    FindCode(codes, guild, Upper(code)).None?
  }

  /** The first draw not yet used in the guild. */
  function FirstFresh(codes: seq<AccessCodeRow>, guild: int, draws: seq<string>, from: nat := 0): (r: Option<nat>)
    requires from <= |draws|
    ensures r.Some? ==> from <= r.value < |draws| && IsFresh(codes, guild, draws[r.value])
    ensures r.Some? ==> forall j :: from <= j < r.value ==> !IsFresh(codes, guild, draws[j])
    ensures r.None? ==> forall j :: from <= j < |draws| ==> !IsFresh(codes, guild, draws[j])
    decreases |draws| - from
  {
    if from == |draws| then None
    else if IsFresh(codes, guild, draws[from]) then Some(from)
    else FirstFresh(codes, guild, draws, from + 1)
  }

  /** A temporal code expires `hours` hours from now; a permanent one never does. */
  function ExpiryFor(codeType: string, hours: int, now: int): Option<int>
  {
    if codeType == "temporal" then Some(now + hours * 3600) else None
  }

  datatype GenerateOutcome = NoFreshDraw | Generated(id: int, code: string, expiry: Option<int>)

  /**
   * generar_codigo: draw codes (given as `draws`, each a six-character code of
   * letters and digits) until one is unused in the guild, then store it with its
   * expiry. The model runs out of draws where the bot would keep drawing.
   */
  method GenerarCodigo(db: Database, guild: int, resident: string, codeType: string, hours: int,
                       location: Option<string>, notes: Option<string>, creator: int, now: int, draws: seq<string>)
    returns (outcome: GenerateOutcome)
    requires db.CodeIds()
    requires forall i :: 0 <= i < |draws| ==> IsGenerated(draws[i], CodeLength, true)
    modifies db`accessCodes
    ensures db.CodeIds()
    ensures outcome.NoFreshDraw? <==> FirstFresh(old(db.accessCodes), guild, draws).None?
    ensures outcome.NoFreshDraw? ==> db.accessCodes == old(db.accessCodes)
    ensures outcome.Generated? ==>
      var row := AccessCodeRow(outcome.id, guild, outcome.code, resident, codeType, creator, now,
                               outcome.expiry, location, notes, true, None, 0);
      && outcome.code == draws[FirstFresh(old(db.accessCodes), guild, draws).value]
      && outcome.id == |old(db.accessCodes)| + 1
      && outcome.expiry == ExpiryFor(codeType, hours, now)
      && db.accessCodes == old(db.accessCodes) + [row]
      && (forall c :: c in old(db.accessCodes) ==> !CodeMatches(c, guild, outcome.code))
      && db.GetAccessCodeByCode(guild, outcome.code) == Some(row)
  {
    var i := 0;
    while i < |draws| && db.GetAccessCodeByCode(guild, draws[i]).Some?
      invariant 0 <= i <= |draws|
      invariant FirstFresh(db.accessCodes, guild, draws) == FirstFresh(db.accessCodes, guild, draws, i)
    {
      i := i + 1;
    }
    if i == |draws| {
      return NoFreshDraw;
    }
    var code := draws[i];
    GeneratedIsUpper(code, CodeLength, true);
    var expiry := ExpiryFor(codeType, hours, now);
    ghost var before := db.accessCodes;
    var id := db.CreateAccessCode(guild, code, resident, codeType, creator, expiry, location, notes, now);
    FindCodeAppend(before, db.accessCodes[|before|], guild, code, 0);
    UpperIdempotent(code);
    return Generated(id, code, expiry);
  }

  datatype ValidateOutcome =
    | NotFound
    | Revoked(revokedAt: Option<int>)
    | Expired(expiry: int)
    | Valid(code: AccessCodeRow, timesUsed: int)

  /**
   * validar_codigo: look the upper-cased input up, then refuse a missing code, a
   * revoked code and an expired one (expiry strictly before now), in that order.
   * Only a valid code records a use; the count shown is the stored count plus one.
   */
  method ValidarCodigo(db: Database, guild: int, input: string, user: int, now: int) returns (outcome: ValidateOutcome)
    requires db.CodeIds()
    modifies db`accessCodes, db`codeHistory
    ensures db.CodeIds()
    ensures var found := old(db.GetAccessCodeByCode(guild, input));
      && (outcome.NotFound? <==> found.None?)
      && (outcome.Revoked? <==> found.Some? && !found.value.isActive)
      && (outcome.Expired? <==>
            found.Some? && found.value.isActive && found.value.expiryDate.Some? && found.value.expiryDate.value < now)
      && (!outcome.Valid? ==> db.accessCodes == old(db.accessCodes) && db.codeHistory == old(db.codeHistory))
      && (outcome.Valid? ==>
            var c := found.value;
            && outcome.code == c
            && 1 <= c.id <= |old(db.accessCodes)|
            && db.accessCodes == old(db.accessCodes)[c.id - 1 := c.(useCount := c.useCount + 1)]
            && db.codeHistory == old(db.codeHistory) + [CodeUse(c.id, user, now)]
            && outcome.timesUsed == c.useCount + 1 == db.accessCodes[c.id - 1].useCount)
  {
    UpperIdempotent(input);
    var codeData := db.GetAccessCodeByCode(guild, Upper(input));
    if codeData.None? {
      return NotFound;
    }
    var c := codeData.value;
    if !c.isActive {
      return Revoked(c.revokedAt);
    }
    if c.expiryDate.Some? && c.expiryDate.value < now {
      return Expired(c.expiryDate.value);
    }
    db.RegisterAccessCodeUse(c.id, user, now);
    return Valid(c, c.useCount + 1);
  }

  datatype RevokeOutcome = RevokeNotFound | AlreadyRevoked | RevokedNow(code: AccessCodeRow)

  /** revocar_codigo: refuse a missing or already revoked code; otherwise deactivate it and stamp revoked_at. */
  method RevocarCodigo(db: Database, guild: int, input: string, now: int) returns (outcome: RevokeOutcome)
    requires db.CodeIds()
    modifies db`accessCodes
    ensures db.CodeIds()
    ensures var found := old(db.GetAccessCodeByCode(guild, input));
      && (outcome.RevokeNotFound? <==> found.None?)
      && (outcome.AlreadyRevoked? <==> found.Some? && !found.value.isActive)
      && (!outcome.RevokedNow? ==> db.accessCodes == old(db.accessCodes))
      && (outcome.RevokedNow? ==>
            var c := found.value;
            && outcome.code == c
            && 1 <= c.id <= |old(db.accessCodes)|
            && db.accessCodes == old(db.accessCodes)[c.id - 1 := c.(isActive := false, revokedAt := Some(now))])
  {
    UpperIdempotent(input);
    var codeData := db.GetAccessCodeByCode(guild, Upper(input));
    if codeData.None? {
      return RevokeNotFound;
    }
    var c := codeData.value;
    if !c.isActive {
      return AlreadyRevoked;
    }
    db.RevokeAccessCode(c.id, now);
    return RevokedNow(c);
  }

  /** Lookups ignore the case of the input: any two spellings that upper-case alike find the same row. */
  lemma LookupIgnoresCase(db: Database, guild: int, a: string, b: string)
    requires Upper(a) == Upper(b)
    ensures db.GetAccessCodeByCode(guild, a) == db.GetAccessCodeByCode(guild, b)
  {
  }

  /** In particular a lower-cased input finds the same code as the input itself. */
  lemma LookupOfLower(db: Database, guild: int, s: string)
    ensures db.GetAccessCodeByCode(guild, Lower(s)) == db.GetAccessCodeByCode(guild, s)
  {
    UpperOfLower(s);
  }
}
