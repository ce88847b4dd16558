/**
 * The backend's table of provider tokens, one per (user, provider) pair: looked
 * up by that pair, inserted or updated in place, and deleted.
 *
 * Ids are strings (a Guid's text form), instants are tick counts, and the stored
 * token is the encrypted bytes.
 */
module UserTokenRepository {
  import opened Wrappers

  type byte = bv8

  datatype UserToken = UserToken(
    id: string,
    userId: string,
    provider: string,
    encryptedToken: seq<byte>,
    createdAt: int,
    expiresAt: Option<int>)

  predicate HasKey(t: UserToken, userId: string, provider: string)
  {
    t.userId == userId && t.provider == provider
  }

  /** The unique index on (UserId, Provider): no two rows share the pair. */
  ghost predicate UniqueKeys(tokens: seq<UserToken>)
  {
    forall i, j :: 0 <= i < j < |tokens| ==> !(tokens[i].userId == tokens[j].userId && tokens[i].provider == tokens[j].provider)
  }

  /** The position of the first row with the pair, if any. */
  function FirstMatch(tokens: seq<UserToken>, userId: string, provider: string): (r: Option<nat>)
    ensures r.None? <==> forall i :: 0 <= i < |tokens| ==> !HasKey(tokens[i], userId, provider)
    ensures r.Some? ==> r.value < |tokens| && HasKey(tokens[r.value], userId, provider) &&
                        forall i :: 0 <= i < r.value ==> !HasKey(tokens[i], userId, provider)
    decreases |tokens|
  {
    if |tokens| == 0 then None
    else if HasKey(tokens[0], userId, provider) then Some(0)
    else match FirstMatch(tokens[1..], userId, provider)
      case None => None
      case Some(k) => Some(k + 1)
  }

  /** A stored row after an update: only the token bytes and the expiry are taken from the new token. */
  function Refreshed(existing: UserToken, token: UserToken): UserToken
  {
    existing.(encryptedToken := token.encryptedToken, expiresAt := token.expiresAt)
  }

  /** The table after `AddOrUpdateAsync`. */
  function Upserted(tokens: seq<UserToken>, token: UserToken): (r: seq<UserToken>)
    ensures FirstMatch(tokens, token.userId, token.provider).None? ==> r == tokens + [token]
    ensures FirstMatch(tokens, token.userId, token.provider).Some? ==>
      var i := FirstMatch(tokens, token.userId, token.provider).value;
      |r| == |tokens| &&
      r[i].id == tokens[i].id && r[i].userId == tokens[i].userId && r[i].provider == tokens[i].provider &&
      r[i].createdAt == tokens[i].createdAt &&
      r[i].encryptedToken == token.encryptedToken && r[i].expiresAt == token.expiresAt &&
      forall k :: 0 <= k < |tokens| && k != i ==> r[k] == tokens[k]
  {
    match FirstMatch(tokens, token.userId, token.provider)
    case None => tokens + [token]
    case Some(i) => tokens[i := Refreshed(tokens[i], token)]
  }

  /** The table after `DeleteAsync`. */
  function Deleted(tokens: seq<UserToken>, userId: string, provider: string): (r: seq<UserToken>)
    ensures FirstMatch(tokens, userId, provider).None? ==> r == tokens
    ensures FirstMatch(tokens, userId, provider).Some? ==>
      var i := FirstMatch(tokens, userId, provider).value;
      r == tokens[..i] + tokens[i + 1..] && |r| == |tokens| - 1
  {
    match FirstMatch(tokens, userId, provider)
    case None => tokens
    case Some(i) => tokens[..i] + tokens[i + 1..]
  }

  /** The row an update returns: the updated existing row, or the new token. */
  function UpsertResult(tokens: seq<UserToken>, token: UserToken): UserToken
  {
    match FirstMatch(tokens, token.userId, token.provider)
    case None => token
    case Some(i) => Refreshed(tokens[i], token)
  }

  class TokenTable {
    var tokens: seq<UserToken>

    constructor (tokens: seq<UserToken>)
      ensures this.tokens == tokens
    {
      this.tokens := tokens;
    }

    /** `GetByUserAndProviderAsync`: the first row with the pair. */
    method GetByUserAndProvider(userId: string, provider: string) returns (r: Option<UserToken>)
      ensures r.None? <==> forall i :: 0 <= i < |tokens| ==> !HasKey(tokens[i], userId, provider)
      ensures r.Some? ==> r.value in tokens && HasKey(r.value, userId, provider) &&
                          r.value == tokens[FirstMatch(tokens, userId, provider).value]
    {
      var i := FirstMatch(tokens, userId, provider);
      if i.None? {
        return None;
      }
      return Some(tokens[i.value]);
    }

    /**
     * `AddOrUpdateAsync`: a row with the same pair is updated in place and returned;
     * without one, the token is added and returned.
     */
    method AddOrUpdate(token: UserToken) returns (r: UserToken)
      modifies this
      ensures tokens == Upserted(old(tokens), token)
      ensures r == UpsertResult(old(tokens), token)
    {
      var existing := FirstMatch(tokens, token.userId, token.provider);
      if existing.Some? {
        var i := existing.value;
        var row := tokens[i].(encryptedToken := token.encryptedToken, expiresAt := token.expiresAt);
        tokens := tokens[i := row];
        r := row;
      } else {
        tokens := tokens + [token];
        r := token;
      }
    }

    /** `DeleteAsync`: the row with the pair is removed; without one, nothing changes. */
    method Delete(userId: string, provider: string)
      modifies this
      ensures tokens == Deleted(old(tokens), userId, provider)
    {
      var i := FirstMatch(tokens, userId, provider);
      if i.Some? {
        tokens := tokens[..i.value] + tokens[i.value + 1..];
      }
    }
  }

  /** The returned row is the one stored under the token's pair afterwards. */
  lemma UpsertReturnsStoredRow(tokens: seq<UserToken>, token: UserToken)
    ensures var r := Upserted(tokens, token);
      UpsertResult(tokens, token) in r &&
      HasKey(UpsertResult(tokens, token), token.userId, token.provider) &&
      UpsertResult(tokens, token).encryptedToken == token.encryptedToken &&
      UpsertResult(tokens, token).expiresAt == token.expiresAt
  {
    var r := Upserted(tokens, token);
    match FirstMatch(tokens, token.userId, token.provider)
    case None =>
      assert r[|tokens|] == token;
    case Some(i) =>
      assert r[i] == UpsertResult(tokens, token);
  }

  /** An update keeps at most one row per pair, and afterwards there is one for the token's pair. */
  lemma UpsertKeepsKeysUnique(tokens: seq<UserToken>, token: UserToken)
    requires UniqueKeys(tokens)
    ensures UniqueKeys(Upserted(tokens, token))
    ensures FirstMatch(Upserted(tokens, token), token.userId, token.provider).Some?
  {
    var r := Upserted(tokens, token);
    match FirstMatch(tokens, token.userId, token.provider)
    case None =>
      assert r == tokens + [token];
      assert HasKey(r[|tokens|], token.userId, token.provider);
    case Some(i) =>
      assert forall k :: 0 <= k < |r| ==> r[k].userId == tokens[k].userId && r[k].provider == tokens[k].provider;
      assert HasKey(r[i], token.userId, token.provider);
  }

  /** A delete keeps keys unique, and leaves no row with the pair behind. */
  lemma DeleteRemovesPair(tokens: seq<UserToken>, userId: string, provider: string)
    requires UniqueKeys(tokens)
    ensures UniqueKeys(Deleted(tokens, userId, provider))
    ensures FirstMatch(Deleted(tokens, userId, provider), userId, provider).None?
  {
    var r := Deleted(tokens, userId, provider);
    match FirstMatch(tokens, userId, provider)
    case None =>
    case Some(i) =>
      assert forall k :: 0 <= k < |r| ==> r[k] == (if k < i then tokens[k] else tokens[k + 1]);
      forall k | 0 <= k < |r| ensures !HasKey(r[k], userId, provider) {
        if k >= i {
          assert r[k] == tokens[k + 1];
          assert !(tokens[i].userId == tokens[k + 1].userId && tokens[i].provider == tokens[k + 1].provider);
        }
      }
  }

  /** Rows under other pairs survive an update unchanged. */
  lemma UpsertLeavesOthers(tokens: seq<UserToken>, token: UserToken, row: UserToken)
    requires !HasKey(row, token.userId, token.provider)
    ensures row in tokens ==> row in Upserted(tokens, token)
  {
    if row in tokens {
      var k :| 0 <= k < |tokens| && tokens[k] == row;
      assert Upserted(tokens, token)[k] == row;
    }
  }

  /** Rows under other pairs survive a delete unchanged. */
  lemma DeleteLeavesOthers(tokens: seq<UserToken>, userId: string, provider: string, row: UserToken)
    requires !HasKey(row, userId, provider)
    ensures row in tokens ==> row in Deleted(tokens, userId, provider)
  {
    if row in tokens {
      var k :| 0 <= k < |tokens| && tokens[k] == row;
      match FirstMatch(tokens, userId, provider)
      case None =>
      case Some(i) =>
        var r := Deleted(tokens, userId, provider);
        if k < i {
          assert r[k] == row;
        } else {
          assert r[k - 1] == row;
        }
    }
  }
}
