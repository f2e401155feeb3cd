/** Refresh-token families (token_service.go, postgres.go, models.go): rotation in the manner of
    section 10.4 of RFC 6749. Times are in milliseconds; every reading of a clock, every failing
    call and every random value is part of `Trip`. */
module TokenFamilies {
  import opened Base

  datatype Token = Token(
    user: string,
    hash: string,
    family: string,
    expiresAt: int,
    revokedAt: Option<int>,
    revoked: bool,
    createdAt: int
  )

  // The table, keyed by token id.
  type Tokens = map<string, Token>

  const WEEK := 604_800_000
  const GRACE := 15_000

  // What one call meets on its way.
  datatype Trip = Trip(
    findFails: bool,
    revokeFails: bool,
    randomFails: bool,
    insertFails: bool,
    findActiveFails: bool,
    revokeFamilyFails: bool,
    checkedAt: int,
    activeAt: int,
    graceAt: int,
    queriedAt: int,
    revokedAt: int,
    issuedAt: int,
    createdAt: int,
    newHash: string,
    newId: string
  )

  datatype Outcome =
    | Issued(hash: string, user: string)
    | InvalidToken
    | ExpiredToken
    | NoActiveToken
    | Fraud
    | StorageError

  // ---- The store

  predicate Live(tokens: Tokens, id: string, family: string) {
    id in tokens && tokens[id].family == family && !tokens[id].revoked
  }

  predicate HashFree(tokens: Tokens, hash: string) {
    forall id :: id in tokens ==> tokens[id].hash != hash
  }

  function Revoked(t: Token, now: int): Token {
    t.(revoked := true, revokedAt := Some(now))
  }

  function RevokeOne(tokens: Tokens, id: string, now: int): Tokens
    requires id in tokens
  {
    tokens[id := Revoked(tokens[id], now)]
  }

  function RevokeFamily(tokens: Tokens, family: string, now: int): Tokens {
    map id | id in tokens :: if Live(tokens, id, family) then Revoked(tokens[id], now) else tokens[id]
  }

  function RevokeUser(tokens: Tokens, user: string, now: int): Tokens {
    map id | id in tokens ::
      if tokens[id].user == user && !tokens[id].revoked then Revoked(tokens[id], now) else tokens[id]
  }

  function DropExpired(tokens: Tokens, now: int): Tokens {
    map id | id in tokens && tokens[id].expiresAt >= now :: tokens[id]
  }

  function NewToken(user: string, family: string, c: Trip): Token {
    Token(user, c.newHash, family, c.issuedAt + WEEK, None, false, c.createdAt)
  }

  // The table refuses a second row with the same id or hash.
  predicate Inserts(tokens: Tokens, c: Trip) {
    !c.insertFails && c.newId !in tokens && HashFree(tokens, c.newHash)
  }

  // ---- Rotation

  predicate Expired(t: Token, now: int) {
    now > t.expiresAt
  }

  predicate WithinGrace(t: Token, now: int) {
    t.revokedAt.Some? && now - t.revokedAt.value <= GRACE
  }

  // An unrevoked row of the family that the query for one returns.
  predicate Queried(tokens: Tokens, id: string, family: string, now: int) {
    Live(tokens, id, family) && tokens[id].expiresAt > now
  }

  // `current` gives way to a new token of the presented token's user and family.
  function Replace(tokens: Tokens, current: string, presented: Token, c: Trip): (Outcome, Tokens)
    requires current in tokens
  {
    if c.revokeFails then (StorageError, tokens)
    else
      var without := RevokeOne(tokens, current, c.revokedAt);
      if c.randomFails || !Inserts(without, c) then (StorageError, without)
      else (Issued(c.newHash, presented.user), without[c.newId := NewToken(presented.user, presented.family, c)])
  }

  ghost function Present(tokens: Tokens, id: string, c: Trip): (Outcome, Tokens)
    requires id in tokens
  {
    var t := tokens[id];
    if Expired(t, c.checkedAt) then (ExpiredToken, tokens)
    else if !t.revoked && !Expired(t, c.activeAt) then Replace(tokens, id, t, c)
    else if WithinGrace(t, c.graceAt) then PresentInGrace(tokens, t, c)
    else (Fraud, if c.revokeFamilyFails then tokens else RevokeFamily(tokens, t.family, c.revokedAt))
  }

  ghost function PresentInGrace(tokens: Tokens, t: Token, c: Trip): (Outcome, Tokens) {
    if c.findActiveFails then (StorageError, tokens)
    else if live :| Queried(tokens, live, t.family, c.queriedAt) then Replace(tokens, live, t, c)
    else (NoActiveToken, tokens)
  }

  ghost function Rotate(tokens: Tokens, hash: string, c: Trip): (Outcome, Tokens) {
    if c.findFails then (StorageError, tokens)
    else if id :| id in tokens && tokens[id].hash == hash then Present(tokens, id, c)
    else (InvalidToken, tokens)
  }

  // ---- What the table keeps

  predicate UniqueHashes(tokens: Tokens) {
    forall a, b :: a in tokens && b in tokens && tokens[a].hash == tokens[b].hash ==> a == b
  }

  predicate OneUserPerFamily(tokens: Tokens) {
    forall a, b :: a in tokens && b in tokens && tokens[a].family == tokens[b].family ==>
      tokens[a].user == tokens[b].user
  }

  ghost predicate OneLivePerFamily(tokens: Tokens) {
    forall a, b, family :: Live(tokens, a, family) && Live(tokens, b, family) ==> a == b
  }

  ghost predicate Sound(tokens: Tokens) {
    UniqueHashes(tokens) && OneUserPerFamily(tokens) && OneLivePerFamily(tokens)
  }

  ghost predicate Dead(tokens: Tokens, family: string) {
    forall id :: !Live(tokens, id, family)
  }

  // The table differs from another only in revocations: `after` revokes more.
  predicate OnlyRevokes(tokens: Tokens, after: Tokens) {
    && after.Keys == tokens.Keys
    && forall id :: id in tokens ==>
         after[id].user == tokens[id].user && after[id].family == tokens[id].family &&
         after[id].hash == tokens[id].hash && (tokens[id].revoked ==> after[id].revoked)
  }

  lemma RevokingKeepsSound(tokens: Tokens, after: Tokens)
    requires Sound(tokens) && OnlyRevokes(tokens, after)
    ensures Sound(after)
  {
    assert forall id, family :: Live(after, id, family) ==> Live(tokens, id, family);
  }

  // Putting one row in for a family that has no live token left.
  lemma InsertKeepsSound(tokens: Tokens, user: string, family: string, c: Trip)
    requires Sound(tokens) && Dead(tokens, family) && Inserts(tokens, c)
    requires forall id :: id in tokens && tokens[id].family == family ==> tokens[id].user == user
    ensures Sound(tokens[c.newId := NewToken(user, family, c)])
  {
    var after := tokens[c.newId := NewToken(user, family, c)];
    forall a, b, f | Live(after, a, f) && Live(after, b, f) ensures a == b {
      assert a != c.newId ==> Live(tokens, a, f);
      assert b != c.newId ==> Live(tokens, b, f);
    }
  }

  lemma RevokingTheLiveOneKills(tokens: Tokens, id: string, family: string, now: int)
    requires OneLivePerFamily(tokens) && Live(tokens, id, family)
    ensures Dead(RevokeOne(tokens, id, now), family) && OnlyRevokes(tokens, RevokeOne(tokens, id, now))
  {
    forall other ensures !Live(RevokeOne(tokens, id, now), other, family) {
      if Live(tokens, other, family) { assert other == id; }
    }
  }

  lemma ReplaceKeepsSound(tokens: Tokens, current: string, id: string, c: Trip)
    requires Sound(tokens) && id in tokens && Live(tokens, current, tokens[id].family)
    ensures Sound(Replace(tokens, current, tokens[id], c).1)
  {
    var without := RevokeOne(tokens, current, c.revokedAt);
    RevokingTheLiveOneKills(tokens, current, tokens[id].family, c.revokedAt);
    RevokingKeepsSound(tokens, without);
    if Inserts(without, c) { InsertKeepsSound(without, tokens[id].user, tokens[id].family, c); }
  }

  // There is at most one row to choose from, so the query's order never matters.
  lemma GraceUsesTheLiveToken(tokens: Tokens, t: Token, live: string, c: Trip)
    requires OneLivePerFamily(tokens) && !c.findActiveFails && Queried(tokens, live, t.family, c.queriedAt)
    ensures PresentInGrace(tokens, t, c) == Replace(tokens, live, t, c)
  {
  }

  lemma RevokeFamilyKills(tokens: Tokens, family: string, now: int)
    ensures Dead(RevokeFamily(tokens, family, now), family) && OnlyRevokes(tokens, RevokeFamily(tokens, family, now))
  {
  }

  lemma PresentKeepsSound(tokens: Tokens, id: string, c: Trip)
    requires Sound(tokens) && id in tokens
    ensures Sound(Present(tokens, id, c).1)
  {
    var t := tokens[id];
    if Expired(t, c.checkedAt) {
    } else if !t.revoked && !Expired(t, c.activeAt) {
      ReplaceKeepsSound(tokens, id, id, c);
    } else if WithinGrace(t, c.graceAt) {
      if live :| Queried(tokens, live, t.family, c.queriedAt) {
        if !c.findActiveFails {
          GraceUsesTheLiveToken(tokens, t, live, c);
          ReplaceKeepsSound(tokens, live, id, c);
        }
      }
    } else {
      RevokeFamilyKills(tokens, t.family, c.revokedAt);
      RevokingKeepsSound(tokens, RevokeFamily(tokens, t.family, c.revokedAt));
    }
  }

  // The hash names one row.
  lemma RotatePresents(tokens: Tokens, id: string, c: Trip)
    requires UniqueHashes(tokens) && id in tokens && !c.findFails
    ensures Rotate(tokens, tokens[id].hash, c) == Present(tokens, id, c)
  {
  }

  lemma RotateKeepsSound(tokens: Tokens, hash: string, c: Trip)
    requires Sound(tokens)
    ensures Sound(Rotate(tokens, hash, c).1)
  {
    if id :| id in tokens && tokens[id].hash == hash {
      if !c.findFails {
        RotatePresents(tokens, id, c);
        PresentKeepsSound(tokens, id, c);
      }
    }
  }

  // ---- What an answer means

  // What a success leaves: the new token, live, in the presented token's name and family.
  predicate IssuedFor(t: Token, after: Tokens, c: Trip) {
    && Live(after, c.newId, t.family)
    && after[c.newId].hash == c.newHash && after[c.newId].user == t.user
    && after[c.newId].expiresAt == c.issuedAt + WEEK
  }

  lemma ReplaceIssues(tokens: Tokens, current: string, t: Token, c: Trip)
    requires current in tokens && Replace(tokens, current, t, c).0.Issued?
    ensures Replace(tokens, current, t, c).0 == Issued(c.newHash, t.user)
    ensures c.newId !in tokens && IssuedFor(t, Replace(tokens, current, t, c).1, c)
  {
  }

  lemma IssuedTokenIsTheLiveOne(tokens: Tokens, id: string, c: Trip)
    requires Sound(tokens) && id in tokens && Present(tokens, id, c).0.Issued?
    ensures Present(tokens, id, c).0 == Issued(c.newHash, tokens[id].user)
    ensures c.newId !in tokens && IssuedFor(tokens[id], Present(tokens, id, c).1, c)
    ensures forall other :: Live(Present(tokens, id, c).1, other, tokens[id].family) ==> other == c.newId
  {
    var t := tokens[id];
    if !t.revoked && !Expired(t, c.activeAt) {
      ReplaceIssues(tokens, id, t, c);
    } else {
      var live :| Queried(tokens, live, t.family, c.queriedAt);
      GraceUsesTheLiveToken(tokens, t, live, c);
      ReplaceIssues(tokens, live, t, c);
    }
    PresentKeepsSound(tokens, id, c);
    OnlyLiveToken(Present(tokens, id, c).1, c.newId, t.family);
  }

  lemma OnlyLiveToken(tokens: Tokens, id: string, family: string)
    requires OneLivePerFamily(tokens) && Live(tokens, id, family)
    ensures forall other :: Live(tokens, other, family) ==> other == id
  {
  }

  // ---- Every answer

  // Another token of the family is there to be used.
  ghost predicate FamilyHasAToken(tokens: Tokens, family: string, now: int) {
    exists id :: id in tokens && tokens[id].family == family && !tokens[id].revoked && tokens[id].expiresAt > now
  }

  // No call fails, and id and hash of the new token are free.
  predicate GoesThrough(tokens: Tokens, c: Trip) {
    !c.revokeFails && !c.randomFails && !c.insertFails && c.newId !in tokens &&
    forall id :: id in tokens ==> tokens[id].hash != c.newHash
  }

  lemma QueriedExactlyWhen(tokens: Tokens, family: string, now: int)
    ensures FamilyHasAToken(tokens, family, now) <==> exists id :: Queried(tokens, id, family, now)
  {
    if id :| Queried(tokens, id, family, now) {
      assert id in tokens && tokens[id].family == family;
    }
    if id :| id in tokens && tokens[id].family == family && !tokens[id].revoked && tokens[id].expiresAt > now {
      assert Queried(tokens, id, family, now);
    }
  }

  lemma ReplaceGoesThrough(tokens: Tokens, current: string, t: Token, c: Trip)
    requires current in tokens
    ensures var answer := Replace(tokens, current, t, c).0;
      answer == if GoesThrough(tokens, c) then Issued(c.newHash, t.user) else StorageError
  {
    var without := RevokeOne(tokens, current, c.revokedAt);
    assert forall id :: id in tokens <==> id in without;
    assert forall id :: id in tokens ==> tokens[id].hash == without[id].hash;
  }

  // A token that was exchanged or revoked is fraud once fifteen seconds have passed; before that it
  // is exchanged for the token that is live in its family.
  lemma ReuseIsFraudExactlyWhen(tokens: Tokens, id: string, c: Trip, revokedAt: int)
    requires Sound(tokens) && id in tokens && c.checkedAt <= tokens[id].expiresAt
    requires tokens[id].revoked && tokens[id].revokedAt == Some(revokedAt)
    ensures Present(tokens, id, c).0 == Fraud <==> c.graceAt - revokedAt > 15_000
    ensures c.graceAt - revokedAt <= 15_000 && !c.findActiveFails &&
            FamilyHasAToken(tokens, tokens[id].family, c.queriedAt) && GoesThrough(tokens, c) ==>
      Present(tokens, id, c).0 == Issued(c.newHash, tokens[id].user)
  {
    AnswersExactlyWhen(tokens, id, c);
    if Present(tokens, id, c).0.Issued? { IssuedTokenIsTheLiveOne(tokens, id, c); }
  }

  // Which answer a presented token gets, for each of them.
  lemma AnswersExactlyWhen(tokens: Tokens, id: string, c: Trip)
    requires Sound(tokens) && id in tokens
    ensures var t, answer := tokens[id], Present(tokens, id, c).0;
      var inTime := c.checkedAt <= t.expiresAt;
      var usable := !t.revoked && c.activeAt <= t.expiresAt;
      var grace := t.revokedAt.Some? && c.graceAt - t.revokedAt.value <= 15_000;
      var other := FamilyHasAToken(tokens, t.family, c.queriedAt);
      var exchanges := inTime && (usable || (grace && !c.findActiveFails && other));
      && (answer == ExpiredToken <==> !inTime)
      && (answer == Fraud <==> inTime && !usable && !grace)
      && (answer == NoActiveToken <==> inTime && !usable && grace && !c.findActiveFails && !other)
      && (answer.Issued? <==> exchanges && GoesThrough(tokens, c))
      && (answer == StorageError <==>
            (exchanges && !GoesThrough(tokens, c)) || (inTime && !usable && grace && c.findActiveFails))
      && answer != InvalidToken
  {
    var t := tokens[id];
    QueriedExactlyWhen(tokens, t.family, c.queriedAt);
    ReplaceGoesThrough(tokens, id, t, c);
    if live :| Queried(tokens, live, t.family, c.queriedAt) {
      ReplaceGoesThrough(tokens, live, t, c);
      if !c.findActiveFails { GraceUsesTheLiveToken(tokens, t, live, c); }
    }
  }

  lemma UnknownHashIsInvalid(tokens: Tokens, hash: string, c: Trip)
    ensures c.findFails ==> Rotate(tokens, hash, c) == (StorageError, tokens)
    ensures !c.findFails && (forall id :: id in tokens ==> tokens[id].hash != hash) ==>
      Rotate(tokens, hash, c) == (InvalidToken, tokens)
  {
  }

  // What an exchange writes: the token given up is revoked, the new one lives for a week, and no
  // other changes. It is the presented one that is given up if that was still good, and else the
  // live one of the family.
  lemma ExchangeWrites(tokens: Tokens, id: string, c: Trip) returns (given: string)
    requires Sound(tokens) && id in tokens && Present(tokens, id, c).0.Issued?
    ensures var t, after := tokens[id], Present(tokens, id, c).1;
      && given in tokens && tokens[given].family == t.family && !tokens[given].revoked
      && (!t.revoked && c.activeAt <= t.expiresAt ==> given == id)
      && c.newId !in tokens && after.Keys == tokens.Keys + {c.newId}
      && after[c.newId] == Token(t.user, c.newHash, t.family, c.issuedAt + 604_800_000, None, false, c.createdAt)
      && after[given] == tokens[given].(revoked := true, revokedAt := Some(c.revokedAt))
      && forall x :: x in tokens && x != given ==> after[x] == tokens[x]
  {
    var t := tokens[id];
    if !t.revoked && !Expired(t, c.activeAt) {
      given := id;
    } else {
      var live :| Queried(tokens, live, t.family, c.queriedAt);
      GraceUsesTheLiveToken(tokens, t, live, c);
      given := live;
    }
  }

  // Fraud revokes what is unrevoked in the family and touches nothing else; no other answer but a
  // success or a breakdown writes anything.
  lemma FraudWrites(tokens: Tokens, id: string, c: Trip)
    requires id in tokens
    ensures var t, (answer, after) := tokens[id], Present(tokens, id, c);
      && (answer == Fraud ==>
            && after.Keys == tokens.Keys
            && forall x :: x in tokens ==>
                 after[x] ==
                   if !c.revokeFamilyFails && tokens[x].family == t.family && !tokens[x].revoked then
                     tokens[x].(revoked := true, revokedAt := Some(c.revokedAt))
                   else tokens[x])
      && (answer == ExpiredToken || answer == NoActiveToken ==> after == tokens)
  {
  }

  // A login's token lives for a week; the sweep drops a token only after its expiry; a logout
  // revokes what the user has that is unrevoked.
  lemma LoginSweepAndLogoutWrite(s: State, step: Step)
    ensures step.Login? ==>
      var c, after := step.c, Next(s, step).tokens;
      var issued := Token(step.user, c.newHash, step.family, c.issuedAt + 604_800_000, None, false, c.createdAt);
      after == if GoesThrough(s.tokens, c.(revokeFails := false)) then s.tokens[c.newId := issued] else s.tokens
    ensures step.Login? ==>
      Generate(s.tokens, step.user, step.family, step.c).0 ==
        if GoesThrough(s.tokens, step.c.(revokeFails := false)) then Issued(step.c.newHash, step.user) else StorageError
    ensures step.Sweep? ==>
      forall id :: id in Next(s, step).tokens <==> id in s.tokens && s.tokens[id].expiresAt >= step.now
    ensures step.Sweep? ==> forall id :: id in Next(s, step).tokens ==> Next(s, step).tokens[id] == s.tokens[id]
    ensures step.Logout? && !step.fails ==> Next(s, step).tokens.Keys == s.tokens.Keys
    ensures step.Logout? && !step.fails ==> forall id :: id in s.tokens ==>
      Next(s, step).tokens[id] ==
        if s.tokens[id].user == step.user && !s.tokens[id].revoked then
          s.tokens[id].(revoked := true, revokedAt := Some(step.now))
        else s.tokens[id]
  {
  }

  // A token nobody ever exchanged is taken for a reused one exactly when it expires between the
  // two readings of its expiry; and then its family is lost unless the revocation fails.
  lemma ExpiryBetweenReadingsIsTakenForReuse(tokens: Tokens, id: string, c: Trip)
    requires id in tokens && !tokens[id].revoked && tokens[id].revokedAt.None?
    ensures Present(tokens, id, c).0 == Fraud <==> c.checkedAt <= tokens[id].expiresAt < c.activeAt
    ensures c.checkedAt <= tokens[id].expiresAt < c.activeAt ==>
      (Dead(Present(tokens, id, c).1, tokens[id].family) <==> !c.revokeFamilyFails)
  {
    assert Live(tokens, id, tokens[id].family);
    RevokeFamilyKills(tokens, tokens[id].family, c.revokedAt);
  }

  // Fraud kills the family, exactly unless the revocation itself fails.
  lemma FraudKillsExactlyWhen(tokens: Tokens, id: string, c: Trip)
    requires id in tokens && Present(tokens, id, c).0 == Fraud
    ensures Dead(Present(tokens, id, c).1, tokens[id].family) <==>
      !c.revokeFamilyFails || Dead(tokens, tokens[id].family)
  {
    RevokeFamilyKills(tokens, tokens[id].family, c.revokedAt);
  }

  // A rotation that breaks down has changed nothing or has ended the family.
  lemma BreakdownIsCleanOrFinal(tokens: Tokens, id: string, c: Trip)
    requires Sound(tokens) && id in tokens && Present(tokens, id, c).0 == StorageError
    ensures Present(tokens, id, c).1 == tokens || Dead(Present(tokens, id, c).1, tokens[id].family)
  {
    var t := tokens[id];
    if !t.revoked && !Expired(t, c.activeAt) {
      RevokingTheLiveOneKills(tokens, id, t.family, c.revokedAt);
    } else if live :| Queried(tokens, live, t.family, c.queriedAt) {
      if !c.findActiveFails {
        GraceUsesTheLiveToken(tokens, t, live, c);
        RevokingTheLiveOneKills(tokens, live, t.family, c.revokedAt);
      }
    }
  }

  // ---- Dead families stay dead

  lemma DeadNeverIssues(tokens: Tokens, id: string, c: Trip)
    requires id in tokens && Dead(tokens, tokens[id].family)
    ensures !Present(tokens, id, c).0.Issued?
  {
    assert !Live(tokens, id, tokens[id].family);
  }

  lemma ReplaceSparesOthers(tokens: Tokens, current: string, t: Token, c: Trip, family: string)
    requires current in tokens && family != t.family && Dead(tokens, family)
    ensures Dead(Replace(tokens, current, t, c).1, family)
  {
    forall id ensures !Live(Replace(tokens, current, t, c).1, id, family) {
      assert !Live(tokens, id, family);
    }
  }

  lemma PresentKeepsDead(tokens: Tokens, id: string, c: Trip, family: string)
    requires Sound(tokens) && id in tokens && Dead(tokens, family)
    ensures Dead(Present(tokens, id, c).1, family)
  {
    var t := tokens[id];
    assert !Live(tokens, id, family);
    if Expired(t, c.checkedAt) {
    } else if !t.revoked && !Expired(t, c.activeAt) {
      ReplaceSparesOthers(tokens, id, t, c, family);
    } else if WithinGrace(t, c.graceAt) {
      if live :| Queried(tokens, live, t.family, c.queriedAt) {
        if !c.findActiveFails {
          assert !Live(tokens, live, family);
          GraceUsesTheLiveToken(tokens, t, live, c);
          ReplaceSparesOthers(tokens, live, t, c, family);
        }
      }
    } else {
      RevokeFamilyKills(tokens, t.family, c.revokedAt);
      RevokingKeepsDead(tokens, RevokeFamily(tokens, t.family, c.revokedAt), family);
    }
  }

  lemma RevokingKeepsDead(tokens: Tokens, after: Tokens, family: string)
    requires OnlyRevokes(tokens, after) && Dead(tokens, family)
    ensures Dead(after, family)
  {
    forall id ensures !Live(after, id, family) {
      assert !Live(tokens, id, family);
    }
  }

  // ---- Runs

  // `families` are the family ids ever issued.
  datatype State = State(tokens: Tokens, families: set<string>)

  datatype Step =
    | Login(user: string, family: string, c: Trip)
    | Refresh(hash: string, c: Trip)
    | Logout(user: string, now: int, fails: bool)
    | Sweep(now: int)

  function Generate(tokens: Tokens, user: string, family: string, c: Trip): (Outcome, Tokens) {
    if c.randomFails || !Inserts(tokens, c) then (StorageError, tokens)
    else (Issued(c.newHash, user), tokens[c.newId := NewToken(user, family, c)])
  }

  ghost function Next(s: State, step: Step): State {
    match step
    case Login(user, family, c) => State(Generate(s.tokens, user, family, c).1, s.families + {family})
    case Refresh(hash, c) => s.(tokens := Rotate(s.tokens, hash, c).1)
    case Logout(user, now, fails) => if fails then s else s.(tokens := RevokeUser(s.tokens, user, now))
    case Sweep(now) => s.(tokens := DropExpired(s.tokens, now))
  }

  // A login draws a family id that was never used.
  predicate FreshFamily(s: State, step: Step) {
    step.Login? ==> step.family !in s.families
  }

  ghost predicate Inv(s: State) {
    Sound(s.tokens) && forall id :: id in s.tokens ==> s.tokens[id].family in s.families
  }

  predicate FamiliesWithin(tokens: Tokens, after: Tokens) {
    forall id :: id in after ==> exists was :: was in tokens && tokens[was].family == after[id].family
  }

  lemma ReplaceKeepsFamilies(tokens: Tokens, current: string, id: string, c: Trip)
    requires current in tokens && id in tokens
    ensures FamiliesWithin(tokens, Replace(tokens, current, tokens[id], c).1)
  {
    var after := Replace(tokens, current, tokens[id], c).1;
    forall x | x in after ensures exists was :: was in tokens && tokens[was].family == after[x].family {
      if x in tokens {
        assert tokens[x].family == after[x].family;
      } else {
        assert tokens[id].family == after[x].family;
      }
    }
  }

  lemma RotateKeepsFamilies(tokens: Tokens, hash: string, c: Trip)
    requires Sound(tokens)
    ensures FamiliesWithin(tokens, Rotate(tokens, hash, c).1)
  {
    if id :| id in tokens && tokens[id].hash == hash {
      if !c.findFails {
        RotatePresents(tokens, id, c);
        var t := tokens[id];
        ReplaceKeepsFamilies(tokens, id, id, c);
        if live :| Queried(tokens, live, t.family, c.queriedAt) {
          if !c.findActiveFails {
            GraceUsesTheLiveToken(tokens, t, live, c);
            ReplaceKeepsFamilies(tokens, live, id, c);
          }
        }
        RevokeFamilyKills(tokens, t.family, c.revokedAt);
      }
    }
  }

  lemma StepKeepsInv(s: State, step: Step)
    requires Inv(s) && FreshFamily(s, step)
    ensures Inv(Next(s, step))
  {
    match step
    case Login(user, family, c) =>
      assert Dead(s.tokens, family);
      if Inserts(s.tokens, c) { InsertKeepsSound(s.tokens, user, family, c); }
    case Refresh(hash, c) =>
      RotateKeepsSound(s.tokens, hash, c);
      RotateKeepsFamilies(s.tokens, hash, c);
    case Logout(user, now, _) =>
      RevokingKeepsSound(s.tokens, RevokeUser(s.tokens, user, now));
    case Sweep(now) =>
      assert forall id, family :: Live(Next(s, step).tokens, id, family) ==> Live(s.tokens, id, family);
  }

  lemma StepKeepsDead(s: State, step: Step, family: string)
    requires Inv(s) && FreshFamily(s, step) && family in s.families && Dead(s.tokens, family)
    ensures Dead(Next(s, step).tokens, family)
  {
    match step
    case Login(_, _, _) =>
      forall id ensures !Live(Next(s, step).tokens, id, family) { assert !Live(s.tokens, id, family); }
    case Refresh(hash, c) =>
      if id :| id in s.tokens && s.tokens[id].hash == hash {
        if !c.findFails {
          RotatePresents(s.tokens, id, c);
          PresentKeepsDead(s.tokens, id, c, family);
        }
      }
    case Logout(user, now, _) =>
      RevokingKeepsDead(s.tokens, RevokeUser(s.tokens, user, now), family);
    case Sweep(now) =>
      forall id ensures !Live(Next(s, step).tokens, id, family) { assert !Live(s.tokens, id, family); }
  }

  // Logging out kills every family that the user has a token in.
  lemma LogoutKills(s: State, user: string, now: int, id: string)
    requires Inv(s) && id in s.tokens && s.tokens[id].user == user
    ensures Dead(Next(s, Logout(user, now, false)).tokens, s.tokens[id].family)
  {
  }

  ghost function Run(s: State, steps: seq<Step>): State
    decreases |steps|
  {
    if steps == [] then s else Run(Next(s, steps[0]), steps[1..])
  }

  ghost predicate AllFresh(s: State, steps: seq<Step>)
    decreases |steps|
  {
    steps == [] || (FreshFamily(s, steps[0]) && AllFresh(Next(s, steps[0]), steps[1..]))
  }

  const EMPTY := State(map[], {})

  lemma {:induction false} RunKeepsInv(s: State, steps: seq<Step>)
    requires Inv(s) && AllFresh(s, steps)
    ensures Inv(Run(s, steps))
    decreases |steps|
  {
    if steps != [] {
      StepKeepsInv(s, steps[0]);
      RunKeepsInv(Next(s, steps[0]), steps[1..]);
    }
  }

  // In every run a family has one user and at most one unrevoked token.
  lemma FamiliesStaySound(steps: seq<Step>)
    requires AllFresh(EMPTY, steps)
    ensures Sound(Run(EMPTY, steps).tokens)
  {
    RunKeepsInv(EMPTY, steps);
  }

  // Once a family has no unrevoked token, none of its tokens is ever exchanged again, not even
  // within the grace period of a token that was just revoked.
  lemma {:induction false} DeadFamilyNeverSucceeds(s: State, steps: seq<Step>, family: string, id: string, c: Trip)
    requires Inv(s) && AllFresh(s, steps) && family in s.families && Dead(s.tokens, family)
    ensures Dead(Run(s, steps).tokens, family)
    ensures var tokens := Run(s, steps).tokens;
      id in tokens && tokens[id].family == family ==> !Rotate(tokens, tokens[id].hash, c).0.Issued?
    decreases |steps|
  {
    if steps == [] {
      if id in s.tokens && s.tokens[id].family == family {
        DeadNeverIssues(s.tokens, id, c);
        if !c.findFails { RotatePresents(s.tokens, id, c); }
      }
    } else {
      StepKeepsInv(s, steps[0]);
      StepKeepsDead(s, steps[0], family);
      DeadFamilyNeverSucceeds(Next(s, steps[0]), steps[1..], family, id, c);
    }
  }

  lemma RevokeUserKills(tokens: Tokens, user: string, now: int)
    requires Sound(tokens)
    ensures Sound(RevokeUser(tokens, user, now))
    ensures forall id :: id in tokens && tokens[id].user == user ==>
      Dead(RevokeUser(tokens, user, now), tokens[id].family)
  {
    RevokingKeepsSound(tokens, RevokeUser(tokens, user, now));
  }

  // ---- The service

  class TokenService {
    var tokens: Tokens

    constructor ()
      ensures tokens == map[] && Sound(tokens)
    {
      tokens := map[];
    }

    method FindByTokenHash(hash: string) returns (found: Option<string>)
      ensures found.None? <==> HashFree(tokens, hash)
      ensures found.Some? ==> found.value in tokens && tokens[found.value].hash == hash
    {
      found := None;
      var ids := tokens.Keys;
      while ids != {} && found.None?
        invariant ids <= tokens.Keys
        invariant found.Some? ==> found.value in tokens && tokens[found.value].hash == hash
        invariant found.None? ==> forall id :: id in tokens && tokens[id].hash == hash ==> id in ids
        decreases |ids|
      {
        var id :| id in ids;
        if tokens[id].hash == hash { found := Some(id); }
        ids := ids - {id};
      }
    }

    // The most recently created unrevoked and unexpired token of the family.
    method FindActiveByFamilyID(family: string, now: int) returns (found: Option<string>)
      ensures found.None? <==> forall id :: !Queried(tokens, id, family, now)
      ensures found.Some? ==> Queried(tokens, found.value, family, now)
      ensures found.Some? ==> forall id :: Queried(tokens, id, family, now) ==>
        tokens[id].createdAt <= tokens[found.value].createdAt
    {
      found := None;
      var ids := tokens.Keys;
      while ids != {}
        invariant ids <= tokens.Keys
        invariant found.Some? ==> Queried(tokens, found.value, family, now)
        invariant forall id :: Queried(tokens, id, family, now) && id !in ids ==>
          found.Some? && tokens[id].createdAt <= tokens[found.value].createdAt
      {
        var id :| id in ids;
        if Queried(tokens, id, family, now) {
          if found.None? || tokens[found.value].createdAt < tokens[id].createdAt {
            found := Some(id);
          }
        }
        ids := ids - {id};
      }
    }

    method Create(t: Token, c: Trip) returns (created: bool)
      requires t.hash == c.newHash
      modifies this
      ensures created == Inserts(old(tokens), c)
      ensures tokens == if created then old(tokens)[c.newId := t] else old(tokens)
    {
      var taken := FindByTokenHash(t.hash);
      created := !c.insertFails && c.newId !in tokens && taken.None?;
      if created {
        tokens := tokens[c.newId := t];
      }
    }

    method GenerateRefreshToken(user: string, family: string, c: Trip) returns (answer: Outcome)
      modifies this
      ensures (answer, tokens) == Generate(old(tokens), user, family, c)
    {
      if c.randomFails {
        return StorageError;
      }
      var created := Create(NewToken(user, family, c), c);
      answer := if created then Issued(c.newHash, user) else StorageError;
    }

    // One token gives way to the next.
    method Exchange(current: string, presented: Token, c: Trip) returns (answer: Outcome)
      requires current in tokens
      modifies this
      ensures (answer, tokens) == Replace(old(tokens), current, presented, c)
    {
      if c.revokeFails {
        return StorageError;
      }
      tokens := RevokeOne(tokens, current, c.revokedAt);
      if c.randomFails {
        return StorageError;
      }
      var created := Create(NewToken(presented.user, presented.family, c), c);
      answer := if created then Issued(c.newHash, presented.user) else StorageError;
    }

    method RotateRefreshToken(hash: string, c: Trip) returns (answer: Outcome)
      requires Sound(tokens)
      modifies this
      ensures (answer, tokens) == Rotate(old(tokens), hash, c)
      ensures Sound(tokens)
    {
      RotateKeepsSound(tokens, hash, c);
      if c.findFails {
        return StorageError;
      }
      var found := FindByTokenHash(hash);
      if found.None? {
        return InvalidToken;
      }
      RotatePresents(tokens, found.value, c);
      var t := tokens[found.value];
      if Expired(t, c.checkedAt) {
        return ExpiredToken;
      }
      if !t.revoked && !Expired(t, c.activeAt) {
        answer := Exchange(found.value, t, c);
        return;
      }
      if WithinGrace(t, c.graceAt) {
        if c.findActiveFails {
          return StorageError;
        }
        var active := FindActiveByFamilyID(t.family, c.queriedAt);
        if active.None? {
          return NoActiveToken;
        }
        GraceUsesTheLiveToken(tokens, t, active.value, c);
        answer := Exchange(active.value, t, c);
        return;
      }
      if !c.revokeFamilyFails {
        tokens := RevokeFamily(tokens, t.family, c.revokedAt);
      }
      answer := Fraud;
    }

    method RevokeUserTokens(user: string, now: int, fails: bool) returns (ok: bool)
      requires Sound(tokens)
      modifies this
      ensures Sound(tokens) && (!ok ==> fails && tokens == old(tokens))
      ensures ok ==> forall id :: id in old(tokens) && old(tokens)[id].user == user ==>
        Dead(tokens, old(tokens)[id].family)
      ensures ok ==> forall id :: id in old(tokens) && (old(tokens)[id].user != user || old(tokens)[id].revoked) ==>
        id in tokens && tokens[id] == old(tokens)[id]
      ensures tokens == if fails then old(tokens) else RevokeUser(old(tokens), user, now)
    {
      if fails {
        return false;
      }
      RevokeUserKills(tokens, user, now);
      tokens := RevokeUser(tokens, user, now);
      ok := true;
    }
  }
}
