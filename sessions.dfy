/** Session lookups and the partial-update rule of `updateGameSession`,
    as functions on rows. The store's methods apply them to its table. */
module Sessions {
  import opened Wrappers
  import opened Schema
  import opened Tables
  import opened DbSchema

  function HasId(id: int): GameSession -> bool {
    (s: GameSession) => s.id == id
  }

  /** Position of the session with this id in the table, if any. */
  function SessionIndex(sessions: seq<GameSession>, id: int): (r: Option<nat>)
    ensures r.None? <==> forall i :: 0 <= i < |sessions| ==> sessions[i].id != id
    ensures r.Some? ==> r.value < |sessions| && sessions[r.value].id == id
  {
    IndexWhere(sessions, HasId(id))
  }

  /** `getGameSession`: the stored row with this id, every field copied,
      or null when there is none. */
  function GetGameSession(sessions: seq<GameSession>, id: int): (r: Option<GameSession>)
    ensures r.None? <==> forall i :: 0 <= i < |sessions| ==> sessions[i].id != id
    ensures r.Some? ==> r.value in sessions && r.value.id == id
  {
    match SessionIndex(sessions, id)
    case None => None
    case Some(i) => Some(sessions[i])
  }

  /** Ids are serial, so at most one row matches and the lookup returns it. */
  lemma GetGameSessionUnique(sessions: seq<GameSession>, id: int, k: nat)
    requires DistinctIds(sessions, (s: GameSession) => s.id)
    requires k < |sessions| && sessions[k].id == id
    ensures GetGameSession(sessions, id) == Some(sessions[k])
  {
    var i := SessionIndex(sessions, id).value;
    if i != k {
      assert false;
    }
  }

  /** The row `updateGameSession` writes: each supplied field overwrites the
      stored one, and deactivating stamps `session_end` with `now`. */
  function ApplyUpdate(s: GameSession, u: UpdateGameSessionInput, now: Timestamp): (t: GameSession)
    ensures t.id == s.id && t.playerName == s.playerName
    ensures t.sessionStart == s.sessionStart && t.createdAt == s.createdAt
    ensures u == UpdateGameSessionInput(u.id, None, None, None, None) ==> t == s
    ensures u.isActive == Some(false) ==> !t.isActive && t.sessionEnd == Some(now)
  {
    s.(currentLevel := OrElse(u.currentLevel, s.currentLevel),
       currentScore := OrElse(u.currentScore, s.currentScore),
       livesRemaining := OrElse(u.livesRemaining, s.livesRemaining),
       isActive := OrElse(u.isActive, s.isActive),
       sessionEnd := if u.isActive == Some(false) then Some(now) else s.sessionEnd)
  }

  /** Field by field: a supplied value (zero and false included) is applied,
      an absent one keeps the stored value, and identity fields never change. */
  lemma ApplyUpdateFields(s: GameSession, u: UpdateGameSessionInput, now: Timestamp)
    ensures var t := ApplyUpdate(s, u, now);
      && (u.currentLevel.Some? ==> t.currentLevel == u.currentLevel.value)
      && (u.currentLevel.None? ==> t.currentLevel == s.currentLevel)
      && (u.currentScore.Some? ==> t.currentScore == u.currentScore.value)
      && (u.currentScore.None? ==> t.currentScore == s.currentScore)
      && (u.livesRemaining.Some? ==> t.livesRemaining == u.livesRemaining.value)
      && (u.livesRemaining.None? ==> t.livesRemaining == s.livesRemaining)
      && (u.isActive.Some? ==> t.isActive == u.isActive.value)
      && (u.isActive.None? ==> t.isActive == s.isActive)
      && (u.isActive == Some(false) ==> t.sessionEnd == Some(now))
      && (u.isActive != Some(false) ==> t.sessionEnd == s.sessionEnd)
      && t.id == s.id && t.playerName == s.playerName
      && t.sessionStart == s.sessionStart && t.createdAt == s.createdAt
  {
  }

  /** Applying the same update twice writes the same row as applying it once. */
  lemma ApplyUpdateIdempotent(s: GameSession, u: UpdateGameSessionInput, now: Timestamp)
    ensures ApplyUpdate(ApplyUpdate(s, u, now), u, now) == ApplyUpdate(s, u, now)
  {
  }

  /** An inactive session has an end stamp. */
  predicate EndedWhenInactive(s: GameSession) {
    !s.isActive ==> s.sessionEnd.Some?
  }

  /** Every update keeps "inactive implies ended". */
  lemma ApplyUpdateKeepsEnded(s: GameSession, u: UpdateGameSessionInput, now: Timestamp)
    requires EndedWhenInactive(s)
    ensures EndedWhenInactive(ApplyUpdate(s, u, now))
  {
  }

  /** The converse, "ended implies inactive", is not kept: reactivating an
      ended session leaves its end stamp in place. */
  lemma ReactivationKeepsEndStamp(s: GameSession, now: Timestamp)
    requires !s.isActive && s.sessionEnd.Some?
    ensures var t := ApplyUpdate(s, UpdateGameSessionInput(s.id, None, None, None, Some(true)), now);
            t.isActive && t.sessionEnd == s.sessionEnd
  {
  }
}
