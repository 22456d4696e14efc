// Refresh-token rotation families and the revocations around them
// (backend/internal/auth/repository.go, lines 165-324 and 414-546; backend/db/sqlc/auth.sql.go).

module TokenFamily {
  import opened FixtureModels

  type Uuid = int
  type User = int

  /** A row of refresh_tokens.  A revoked token with a successor was rotated; without one it was
      revoked explicitly (logout, reset, wipe). */
  datatype Token = Token(id: Uuid, user: User, hash: string, expiresAt: int, revoked: bool, successor: Option<Uuid>)

  datatype ResetToken = ResetToken(id: Uuid, user: User, hash: string, expiresAt: int, used: bool)

  datatype AuthError =
    | InvalidToken
    | TokenReuse
    | ExpiredToken
    | UserRejected
    | HashTaken
    | ResetTokenInvalid
    | ResetTokenUsed
    | ResetTokenExpired

  type Tokens = seq<Token>

  /** What CreateRefreshToken will insert: the id is the database's, the hash that of 256 random bits. */
  datatype Fresh = Fresh(id: Uuid, hash: string, expiresAt: int)

  predicate Active(t: Token) { !t.revoked }

  predicate WasRotated(t: Token) { t.revoked && t.successor.Some? }

  predicate WasExplicit(t: Token) { t.revoked && t.successor.None? }

  // ---- statements ----

  predicate HasHash(tokens: Tokens, hash: string) {
    exists i :: 0 <= i < |tokens| && tokens[i].hash == hash
  }

  /** The position of the token with this hash. */
  function Find(tokens: Tokens, hash: string): (r: Option<nat>)
    ensures r.Some? <==> HasHash(tokens, hash)
    ensures r.Some? ==> r.value < |tokens| && tokens[r.value].hash == hash
  {
    if tokens == [] then None
    else if tokens[|tokens|-1].hash == hash then Some(|tokens| - 1)
    else
      var earlier := tokens[..|tokens|-1];
      assert forall i | 0 <= i < |earlier| :: earlier[i] == tokens[i];
      Find(earlier, hash)
  }

  function Revoked(t: Token, user: User): Token {
    if t.user == user && !t.revoked then t.(revoked := true) else t
  }

  /** UPDATE ... SET revoked_at WHERE user_id = $1 AND revoked_at IS NULL. */
  function RevokeUser(tokens: Tokens, user: User): Tokens {
    seq(|tokens|, i requires 0 <= i < |tokens| => Revoked(tokens[i], user))
  }

  /** The rows after a call and its error, if any. */
  datatype Outcome = Outcome(tokens: Tokens, error: Option<AuthError>)

  function LoginTx(tokens: Tokens, user: User, new_: Fresh): Outcome {
    if HasHash(tokens, new_.hash) then Outcome(tokens, Some(HashTaken))
    else Outcome(tokens + [Token(new_.id, user, new_.hash, new_.expiresAt, false, None)], None)
  }

  function LogoutTx(tokens: Tokens, hash: string): Outcome {
    match Find(tokens, hash)
    case None => Outcome(tokens, Some(InvalidToken))
    case Some(i) => Outcome(if tokens[i].revoked then tokens else tokens[i := tokens[i].(revoked := true)], None)
  }

  /** Rotation.  activeBefore and activeInside are the user-status checks before and inside the transaction;
      the new token belongs to the presented token's user, whom no statement changes. */
  function RotateTx(tokens: Tokens, hash: string, activeBefore: bool, activeInside: bool, now: int, new_: Fresh): Outcome {
    match Find(tokens, hash)
    case None => Outcome(tokens, Some(InvalidToken))
    case Some(i) =>
      if !activeBefore then Outcome(tokens, Some(UserRejected))
      else if WasRotated(tokens[i]) then Outcome(tokens, Some(InvalidToken))
      else if WasExplicit(tokens[i]) then Outcome(RevokeUser(tokens, tokens[i].user), Some(TokenReuse))
      else if !activeInside then Outcome(tokens, Some(UserRejected))
      else if tokens[i].expiresAt < now then Outcome(tokens, Some(ExpiredToken))
      else if HasHash(tokens, new_.hash) then Outcome(tokens, Some(HashTaken))
      else
        var inserted := tokens + [Token(new_.id, tokens[i].user, new_.hash, new_.expiresAt, false, None)];
        Outcome(inserted[i := tokens[i].(revoked := true, successor := Some(new_.id))], None)
  }

  // ---- password resets ----

  /** The refresh tokens and the password-reset tokens. */
  datatype Sessions = Sessions(tokens: Tokens, resets: seq<ResetToken>)

  predicate HasResetHash(resets: seq<ResetToken>, hash: string) {
    exists i :: 0 <= i < |resets| && resets[i].hash == hash
  }

  function FindReset(resets: seq<ResetToken>, hash: string): (r: Option<nat>)
    ensures r.Some? <==> HasResetHash(resets, hash)
    ensures r.Some? ==> r.value < |resets| && resets[r.value].hash == hash
  {
    if resets == [] then None
    else if resets[|resets|-1].hash == hash then Some(|resets| - 1)
    else
      var earlier := resets[..|resets|-1];
      assert forall i | 0 <= i < |earlier| :: earlier[i] == resets[i];
      FindReset(earlier, hash)
  }

  function Used(t: ResetToken, user: User): ResetToken {
    if t.user == user then t.(used := true) else t
  }

  function UseAll(resets: seq<ResetToken>, user: User): seq<ResetToken> {
    seq(|resets|, i requires 0 <= i < |resets| => Used(resets[i], user))
  }

  /** Spends the link and every sibling, and revokes every session of the user. */
  function ResetTx(s: Sessions, hash: string, now: int): (Sessions, Option<AuthError>) {
    match FindReset(s.resets, hash)
    case None => (s, Some(ResetTokenInvalid))
    case Some(i) =>
      if s.resets[i].used then (s, Some(ResetTokenUsed))
      else if s.resets[i].expiresAt < now then (s, Some(ResetTokenExpired))
      else (Sessions(RevokeUser(s.tokens, s.resets[i].user), UseAll(s.resets, s.resets[i].user)), None)
  }

  // ---- effects on the table ----

  /** after is before with token k replaced by b. */
  ghost predicate OnlyChanges(before: Tokens, after: Tokens, k: nat, b: Token) {
    && k < |before| == |after| && after[k] == b
    && forall j | 0 <= j < |before| && j != k :: after[j] == before[j]
  }

  /** after is before and one active token without a successor. */
  ghost predicate Adds(before: Tokens, after: Tokens, user: User, new_: Fresh) {
    && |after| == |before| + 1 && (forall j | 0 <= j < |before| :: after[j] == before[j])
    && var t := after[|before|];
       t.id == new_.id && t.user == user && t.hash == new_.hash && t.expiresAt == new_.expiresAt && !t.revoked && t.successor == None
  }

  /** Token k gives way to a new last token of the same user, and no other token changes. */
  ghost predicate Rotates(before: Tokens, after: Tokens, k: nat, new_: Fresh) {
    && k < |before| && |after| == |before| + 1
    && var (a, b) := (before[k], after[k]);
       && b.id == a.id && b.user == a.user && b.hash == a.hash && b.expiresAt == a.expiresAt
       && b.revoked && b.successor == Some(new_.id)
       && Adds(before[k := b], after, a.user, new_)
  }

  /** Every token of the user is revoked, those that were active without a successor; nothing else changes. */
  ghost predicate EndsSessions(before: Tokens, after: Tokens, user: User) {
    && |after| == |before|
    && forall j | 0 <= j < |before| ::
         var (a, b) := (before[j], after[j]);
         && b.id == a.id && b.user == a.user && b.hash == a.hash && b.expiresAt == a.expiresAt && b.successor == a.successor
         && b.revoked == (a.revoked || a.user == user)
  }

  ghost predicate Unused(tokens: Tokens, hash: string) {
    forall j | 0 <= j < |tokens| :: tokens[j].hash != hash
  }

  /** Token k has this hash, and is neither revoked nor expired. */
  ghost predicate Valid(tokens: Tokens, k: int, hash: string, now: int) {
    0 <= k < |tokens| && tokens[k].hash == hash && !tokens[k].revoked && now <= tokens[k].expiresAt
  }

  /** Token k has this hash, and was revoked without a successor. */
  ghost predicate Explicit(tokens: Tokens, k: int, hash: string) {
    0 <= k < |tokens| && tokens[k].hash == hash && tokens[k].revoked && tokens[k].successor == None
  }

  // ---- the repository ----

  class TokenRepository {
    var tokens: Tokens
    var resets: seq<ResetToken>

    constructor ()
      ensures tokens == [] && resets == []
    {
      tokens, resets := [], [];
    }

    method CreateRefreshToken(user: User, new_: Fresh) returns (e: Option<AuthError>)
      modifies `tokens
      ensures Outcome(tokens, e) == LoginTx(old(tokens), user, new_)
    {
      if HasHash(tokens, new_.hash) {
        return Some(HashTaken);
      }
      tokens := tokens + [Token(new_.id, user, new_.hash, new_.expiresAt, false, None)];
      e := None;
    }

    method RevokeUserRefreshTokens(user: User)
      modifies `tokens
      ensures tokens == RevokeUser(old(tokens), user)
    {
      for i := 0 to |tokens|
        invariant |tokens| == |old(tokens)|
        invariant forall k | 0 <= k < i :: tokens[k] == Revoked(old(tokens)[k], user)
        invariant forall k | i <= k < |tokens| :: tokens[k] == old(tokens)[k]
      {
        if tokens[i].user == user && !tokens[i].revoked {
          tokens := tokens[i := tokens[i].(revoked := true)];
        }
      }
    }

    method LogoutTransaction(hash: string) returns (e: Option<AuthError>)
      modifies `tokens
      ensures Outcome(tokens, e) == LogoutTx(old(tokens), hash)
    {
      var found := Find(tokens, hash);
      if found.None? {
        return Some(InvalidToken);
      }
      var i := found.value;
      if tokens[i].revoked {
        return None;
      }
      tokens := tokens[i := tokens[i].(revoked := true)];
      e := None;
    }

    method RotateRefreshToken(hash: string, activeBefore: bool, activeInside: bool, now: int, new_: Fresh)
      returns (e: Option<AuthError>)
      modifies `tokens
      ensures Outcome(tokens, e) == RotateTx(old(tokens), hash, activeBefore, activeInside, now, new_)
      ensures e == None ==> activeBefore && activeInside && Unused(old(tokens), new_.hash)
                            && exists k :: Valid(old(tokens), k, hash, now) && Rotates(old(tokens), tokens, k, new_)
      ensures e == Some(TokenReuse) ==> activeBefore && exists k :: Explicit(old(tokens), k, hash)
                                                                    && EndsSessions(old(tokens), tokens, old(tokens)[k].user)
      ensures e != None && e != Some(TokenReuse) ==> tokens == old(tokens)
    {
      var found := Find(tokens, hash);
      if found.None? {
        return Some(InvalidToken);
      }
      if !activeBefore {
        return Some(UserRejected);
      }
      var i := found.value;
      var oldToken := tokens[i];
      if oldToken.revoked {
        if oldToken.successor.Some? {
          return Some(InvalidToken);
        }
        RevokeUserRefreshTokens(oldToken.user);
        assert Explicit(old(tokens), i, hash);
        return Some(TokenReuse);
      }
      if !activeInside {
        return Some(UserRejected);
      }
      if oldToken.expiresAt < now {
        return Some(ExpiredToken);
      }
      e := CreateRefreshToken(oldToken.user, new_);
      if e.Some? {
        return e;
      }
      tokens := tokens[i := oldToken.(revoked := true, successor := Some(new_.id))];
      assert Valid(old(tokens), i, hash, now);
    }

    /** SELECT ... WHERE user_id = $1 AND used_at IS NULL FOR UPDATE. */
    method LockUserPasswordResetTokens(user: User) returns (locked: seq<ResetToken>)
      ensures forall t :: t in locked <==> t in resets && t.user == user && !t.used
    {
      locked := [];
      for i := 0 to |resets|
        invariant forall t :: t in locked <==> t in resets[..i] && t.user == user && !t.used
      {
        if resets[i].user == user && !resets[i].used {
          locked := locked + [resets[i]];
        }
      }
      assert resets[..|resets|] == resets;
    }

    method UseAllUserPasswordResetTokens(user: User)
      modifies `resets
      ensures resets == UseAll(old(resets), user)
    {
      for i := 0 to |resets|
        invariant |resets| == |old(resets)|
        invariant forall k | 0 <= k < i :: resets[k] == Used(old(resets)[k], user)
        invariant forall k | i <= k < |resets| :: resets[k] == old(resets)[k]
      {
        if resets[i].user == user && !resets[i].used {
          resets := resets[i := resets[i].(used := true)];
        }
      }
    }

    /** Previews the link, locks the user's outstanding links, and looks for the previewed one among them. */
    method ResetPasswordTransaction(hash: string, now: int) returns (e: Option<AuthError>)
      requires forall i, j | 0 <= i < j < |resets| :: resets[i].id != resets[j].id
      modifies this
      ensures (Sessions(tokens, resets), e) == ResetTx(Sessions(old(tokens), old(resets)), hash, now)
    {
      var stored := FindReset(resets, hash);
      if stored.None? {
        return Some(ResetTokenInvalid);
      }
      var preview := resets[stored.value];
      var locked := LockUserPasswordResetTokens(preview.user);
      var token, found := preview, false;
      for i := 0 to |locked|
        invariant !found && forall k | 0 <= k < i :: locked[k].id != preview.id
      {
        if locked[i].id == preview.id {
          token, found := locked[i], true;
          break;
        }
      }
      if !found {
        assert preview !in locked;
        return Some(ResetTokenUsed);
      }
      assert token in resets && token == preview;
      if token.expiresAt < now {
        return Some(ResetTokenExpired);
      }
      resets := resets[stored.value := token.(used := true)];
      UseAllUserPasswordResetTokens(token.user);
      assert resets == UseAll(old(resets), token.user);
      RevokeUserRefreshTokens(token.user);
      e := None;
    }
  }

  // ---- the successor graph ----

  ghost predicate Succeeds(tokens: Tokens, i: int, j: int) {
    0 <= i < |tokens| && 0 <= j < |tokens| && tokens[i].successor == Some(tokens[j].id)
  }

  ghost predicate HasSuccessor(tokens: Tokens, i: int) {
    exists j :: i < j && Succeeds(tokens, i, j) && tokens[j].user == tokens[i].user
  }

  /** Ids and hashes are unique; a successor link marks a revoked token and points to a later token
      of the same user; no token succeeds two. */
  ghost predicate Families(tokens: Tokens) {
    && (forall i, j | 0 <= i < j < |tokens| :: tokens[i].id != tokens[j].id && tokens[i].hash != tokens[j].hash)
    && (forall i | 0 <= i < |tokens| && tokens[i].successor.Some? :: tokens[i].revoked && HasSuccessor(tokens, i))
    && (forall i, j, k | Succeeds(tokens, i, k) && Succeeds(tokens, j, k) :: i == j)
  }

  lemma SuccessorIsLater(tokens: Tokens, i: int, j: int)
    requires Families(tokens) && Succeeds(tokens, i, j)
    ensures i < j && tokens[j].user == tokens[i].user && tokens[i].revoked
  {
  }

  /** The chain of tokens reached from position i by following successors. */
  ghost function Chain(tokens: Tokens, i: nat): (c: seq<nat>)
    requires Families(tokens) && i < |tokens|
    ensures |c| > 0 && c[0] == i
    decreases |tokens| - i
  {
    if tokens[i].successor.None? then [i]
    else
      var j := SuccessorOf(tokens, i);
      [i] + Chain(tokens, j)
  }

  ghost function SuccessorOf(tokens: Tokens, i: nat): (j: nat)
    requires Families(tokens) && i < |tokens| && tokens[i].successor.Some?
    ensures i < j < |tokens| && Succeeds(tokens, i, j)
  {
    assert HasSuccessor(tokens, i);
    var j :| i < j && Succeeds(tokens, i, j);
    j
  }

  ghost predicate IsRoot(tokens: Tokens, k: int) {
    0 <= k < |tokens| && forall i :: !Succeeds(tokens, i, k)
  }

  /** The login a token descends from. */
  ghost function RootOf(tokens: Tokens, k: nat): (r: nat)
    requires Families(tokens) && k < |tokens|
    ensures IsRoot(tokens, r) && r <= k
    decreases k
  {
    if IsRoot(tokens, k) then k
    else
      var i :| Succeeds(tokens, i, k);
      SuccessorIsLater(tokens, i, k);
      RootOf(tokens, i)
  }

  /** A chain is acyclic, belongs to one user, links each token to the next, and only its last token
      can be active; every other one was rotated. */
  lemma {:induction false} ChainShape(tokens: Tokens, i: nat)
    requires Families(tokens) && i < |tokens|
    ensures var c := Chain(tokens, i);
            && (forall a | 0 <= a < |c| :: c[a] < |tokens| && tokens[c[a]].user == tokens[i].user)
            && (forall a, b | 0 <= a < b < |c| :: c[a] < c[b])
            && (forall a | 0 <= a < |c| - 1 :: WasRotated(tokens[c[a]]) && Succeeds(tokens, c[a], c[a + 1]))
            && tokens[c[|c|-1]].successor.None?
    decreases |tokens| - i
  {
    if tokens[i].successor.Some? {
      var j := SuccessorOf(tokens, i);
      SuccessorIsLater(tokens, i, j);
      ChainShape(tokens, j);
    }
  }

  lemma {:induction false} ChainClosed(tokens: Tokens, r: nat, i: nat, k: nat)
    requires Families(tokens) && r < |tokens| && i in Chain(tokens, r) && Succeeds(tokens, i, k)
    ensures k in Chain(tokens, r)
    decreases |tokens| - r
  {
    if i == r {
      var j := SuccessorOf(tokens, r);
      assert tokens[j].id == tokens[k].id;
      assert Chain(tokens, j)[0] == j;
    } else {
      var j := SuccessorOf(tokens, r);
      ChainClosed(tokens, j, i, k);
    }
  }

  lemma {:induction false} OnRootsChain(tokens: Tokens, k: nat)
    requires Families(tokens) && k < |tokens|
    ensures k in Chain(tokens, RootOf(tokens, k))
    decreases k
  {
    if IsRoot(tokens, k) {
      assert Chain(tokens, k)[0] == k;
    } else {
      var i := PredecessorRoot(tokens, k);
      OnRootsChain(tokens, i);
      ChainClosed(tokens, RootOf(tokens, k), i, k);
    }
  }

  lemma PredecessorRoot(tokens: Tokens, k: nat) returns (i: nat)
    requires Families(tokens) && k < |tokens| && !IsRoot(tokens, k)
    ensures i < k && Succeeds(tokens, i, k) && RootOf(tokens, k) == RootOf(tokens, i)
  {
    var p :| Succeeds(tokens, p, k);
    SuccessorIsLater(tokens, p, k);
    i := p;
    forall q | Succeeds(tokens, q, k) ensures q == p {}
  }

  /** A token on the chain of a root has that root. */
  lemma {:induction false} ChainHasOneRoot(tokens: Tokens, i: nat, k: nat)
    requires Families(tokens) && i < |tokens| && k in Chain(tokens, i)
    ensures k < |tokens| && RootOf(tokens, k) == RootOf(tokens, i)
    decreases |tokens| - i
  {
    if k != i {
      var j := SuccessorOf(tokens, i);
      ChainHasOneRoot(tokens, j, k);
      assert !IsRoot(tokens, j);
      var p := PredecessorRoot(tokens, j);
      assert p == i;
    }
  }

  /** Each login's tokens are one chain, and at most one of them is active. */
  lemma OneActivePerLogin(tokens: Tokens, a: nat, b: nat)
    requires Families(tokens) && a < |tokens| && b < |tokens|
    requires Active(tokens[a]) && Active(tokens[b]) && RootOf(tokens, a) == RootOf(tokens, b)
    ensures a == b
  {
    var r := RootOf(tokens, a);
    OnRootsChain(tokens, a);
    OnRootsChain(tokens, b);
    ChainShape(tokens, r);
    var c := Chain(tokens, r);
    var x :| 0 <= x < |c| && c[x] == a;
    var y :| 0 <= y < |c| && c[y] == b;
    assert x == |c| - 1 && y == |c| - 1;
  }

  // ---- runs ----

  datatype Call =
    | Login(user: User, new_: Fresh)
    | Refresh(hash: string, activeBefore: bool, activeInside: bool, now: int, new_: Fresh)
    | Logout(hash: string)
    | RevokeSessions(user: User)
    | ForgotPassword(user: User, reset: Fresh)
    | ResetPassword(hash: string, now: int)

  function Apply(s: Sessions, c: Call): Sessions {
    match c
    case Login(user, new_) => s.(tokens := LoginTx(s.tokens, user, new_).tokens)
    case Refresh(hash, before, inside, now, new_) => s.(tokens := RotateTx(s.tokens, hash, before, inside, now, new_).tokens)
    case Logout(hash) => s.(tokens := LogoutTx(s.tokens, hash).tokens)
    case RevokeSessions(user) => s.(tokens := RevokeUser(s.tokens, user))
    case ForgotPassword(user, r) =>
      if HasResetHash(s.resets, r.hash) then s
      else s.(resets := s.resets + [ResetToken(r.id, user, r.hash, r.expiresAt, false)])
    case ResetPassword(hash, now) => ResetTx(s, hash, now).0
  }

  function Run(calls: seq<Call>): Sessions {
    if calls == [] then Sessions([], []) else Apply(Run(calls[..|calls|-1]), calls[|calls|-1])
  }

  predicate Creates(c: Call) { c.Login? || c.Refresh? }

  /** The database never hands out an id twice. */
  ghost predicate FreshIds(calls: seq<Call>) {
    forall i, j | 0 <= i < j < |calls| && Creates(calls[i]) && Creates(calls[j]) :: calls[i].new_.id != calls[j].new_.id
  }

  ghost predicate NewId(tokens: Tokens, c: Call) {
    Creates(c) ==> forall i | 0 <= i < |tokens| :: tokens[i].id != c.new_.id
  }

  /** What a call may do to a token: nothing, or revoke it if it was active. */
  ghost predicate Ages(a: Token, b: Token) {
    && b.id == a.id && b.user == a.user && b.hash == a.hash && b.expiresAt == a.expiresAt
    && (a.revoked ==> b == a)
  }

  ghost predicate AllAge(before: Tokens, after: Tokens) {
    |before| <= |after| && forall k | 0 <= k < |before| :: Ages(before[k], after[k])
  }

  lemma CallAges(s: Sessions, c: Call)
    ensures AllAge(s.tokens, Apply(s, c).tokens)
    ensures |Apply(s, c).tokens| <= |s.tokens| + 1
  {
  }

  /** No token is ever lost or altered, and a revoked one never changes again: rotated stays rotated
      with the same successor, explicitly revoked stays so. */
  lemma {:induction false} KindNeverChanges(calls: seq<Call>, i: nat, k: nat)
    requires i <= |calls| && k < |Run(calls[..i]).tokens|
    ensures k < |Run(calls).tokens| && Ages(Run(calls[..i]).tokens[k], Run(calls).tokens[k])
    decreases |calls|
  {
    if i == |calls| {
      assert calls[..i] == calls;
    } else {
      var before := calls[..|calls|-1];
      assert before[..i] == calls[..i];
      KindNeverChanges(before, i, k);
      CallAges(Run(before), calls[|calls|-1]);
    }
  }

  lemma {:induction false} RunIds(calls: seq<Call>, k: nat)
    requires k < |Run(calls).tokens|
    ensures exists i :: 0 <= i < |calls| && Creates(calls[i]) && calls[i].new_.id == Run(calls).tokens[k].id
  {
    var before, c := calls[..|calls|-1], calls[|calls|-1];
    CallAges(Run(before), c);
    if k < |Run(before).tokens| {
      RunIds(before, k);
      var i :| 0 <= i < |before| && Creates(before[i]) && before[i].new_.id == Run(before).tokens[k].id;
      assert calls[i] == before[i];
    }
  }

  lemma RunNewId(calls: seq<Call>)
    requires calls != [] && FreshIds(calls)
    ensures NewId(Run(calls[..|calls|-1]).tokens, calls[|calls|-1])
  {
    var before, c := calls[..|calls|-1], calls[|calls|-1];
    forall k | 0 <= k < |Run(before).tokens| && Creates(c) ensures Run(before).tokens[k].id != c.new_.id {
      RunIds(before, k);
      var i :| 0 <= i < |before| && Creates(before[i]) && before[i].new_.id == Run(before).tokens[k].id;
      assert calls[i] == before[i];
    }
  }

  // ---- the calls keep the families ----

  /** Revoking without linking changes no successor. */
  ghost predicate SameLinks(before: Tokens, after: Tokens) {
    |before| == |after| && AllAge(before, after)
    && forall k | 0 <= k < |before| :: after[k].successor == before[k].successor
  }

  lemma RevokingKeepsFamilies(before: Tokens, after: Tokens)
    requires Families(before) && SameLinks(before, after)
    ensures Families(after)
    ensures forall i, j :: Succeeds(after, i, j) <==> Succeeds(before, i, j)
  {
    forall i, j ensures Succeeds(after, i, j) <==> Succeeds(before, i, j) {}
    forall i | 0 <= i < |after| && after[i].successor.Some? ensures after[i].revoked && HasSuccessor(after, i) {
      assert HasSuccessor(before, i);
      var j :| i < j && Succeeds(before, i, j) && before[j].user == before[i].user;
      assert Succeeds(after, i, j);
    }
  }

  lemma LoginKeepsFamilies(tokens: Tokens, user: User, new_: Fresh)
    requires Families(tokens) && !HasHash(tokens, new_.hash)
    requires forall i | 0 <= i < |tokens| :: tokens[i].id != new_.id
    ensures var after := LoginTx(tokens, user, new_).tokens;
            && Families(after)
            && forall i, j :: Succeeds(after, i, j) <==> Succeeds(tokens, i, j)
  {
    var after := LoginTx(tokens, user, new_).tokens;
    forall i | 0 <= i < |tokens| ensures tokens[i].successor != Some(new_.id) {
      if tokens[i].successor.Some? { assert HasSuccessor(tokens, i); }
    }
    forall i, j ensures Succeeds(after, i, j) <==> Succeeds(tokens, i, j) {}
    forall i | 0 <= i < |after| && after[i].successor.Some? ensures after[i].revoked && HasSuccessor(after, i) {
      assert HasSuccessor(tokens, i);
      var j :| i < j && Succeeds(tokens, i, j) && tokens[j].user == tokens[i].user;
      assert Succeeds(after, i, j);
    }
  }

  /** Rotating token i adds one link, from i to the new last token. */
  lemma RotateKeepsFamilies(tokens: Tokens, i: nat, new_: Fresh)
    requires Families(tokens) && i < |tokens| && Active(tokens[i]) && !HasHash(tokens, new_.hash)
    requires forall k | 0 <= k < |tokens| :: tokens[k].id != new_.id
    ensures var after := (tokens + [Token(new_.id, tokens[i].user, new_.hash, new_.expiresAt, false, None)])
                         [i := tokens[i].(revoked := true, successor := Some(new_.id))];
            && Families(after)
            && forall a, b :: Succeeds(after, a, b) <==> Succeeds(tokens, a, b) || (a == i && b == |tokens|)
  {
    var inserted := LoginTx(tokens, tokens[i].user, new_).tokens;
    LoginKeepsFamilies(tokens, tokens[i].user, new_);
    var after := inserted[i := tokens[i].(revoked := true, successor := Some(new_.id))];
    assert tokens[i].successor.None?;
    forall a, b ensures Succeeds(after, a, b) <==> Succeeds(tokens, a, b) || (a == i && b == |tokens|) {
      assert a != i ==> (Succeeds(after, a, b) <==> Succeeds(inserted, a, b));
    }
    assert Succeeds(after, i, |tokens|);
    forall k | 0 <= k < |after| && after[k].successor.Some? ensures after[k].revoked && HasSuccessor(after, k) {
      if k != i {
        assert HasSuccessor(tokens, k);
        var j :| k < j && Succeeds(tokens, k, j) && tokens[j].user == tokens[k].user;
        assert Succeeds(after, k, j);
      }
    }
  }

  /** How the links change: only a successful rotation adds one, from the presented token to the new token. */
  ghost predicate LinksGrow(before: Tokens, c: Call, after: Tokens) {
    if c.Refresh? && |after| > |before| then
      exists i :: 0 <= i < |before| && Linked(before, after, c.hash, i)
    else forall a, b :: Succeeds(after, a, b) <==> Succeeds(before, a, b)
  }

  ghost predicate Linked(before: Tokens, after: Tokens, hash: string, i: nat)
    requires i < |before|
  {
    && before[i].hash == hash
    && forall a, b :: Succeeds(after, a, b) <==> Succeeds(before, a, b) || (a == i && b == |before|)
  }

  lemma CallKeepsFamilies(s: Sessions, c: Call)
    requires Families(s.tokens) && NewId(s.tokens, c)
    ensures Families(Apply(s, c).tokens) && LinksGrow(s.tokens, c, Apply(s, c).tokens)
  {
    var after := Apply(s, c).tokens;
    if SameLinks(s.tokens, after) {
      RevokingKeepsFamilies(s.tokens, after);
    } else if c.Login? {
      LoginKeepsFamilies(s.tokens, c.user, c.new_);
    } else {
      ChangedByRotation(s, c);
      var i := Find(s.tokens, c.hash).value;
      RotateKeepsFamilies(s.tokens, i, c.new_);
      assert Linked(s.tokens, after, c.hash, i);
    }
  }

  lemma ChangedByRotation(s: Sessions, c: Call)
    requires !SameLinks(s.tokens, Apply(s, c).tokens) && !c.Login?
    ensures c.Refresh? && Find(s.tokens, c.hash).Some? && Active(s.tokens[Find(s.tokens, c.hash).value])
    ensures !HasHash(s.tokens, c.new_.hash)
    ensures var i := Find(s.tokens, c.hash).value;
            Apply(s, c).tokens == (s.tokens + [Token(c.new_.id, s.tokens[i].user, c.new_.hash, c.new_.expiresAt, false, None)])
                                  [i := s.tokens[i].(revoked := true, successor := Some(c.new_.id))]
  {
    CallAges(s, c);
  }

  lemma {:induction false} RunKeepsFamilies(calls: seq<Call>)
    requires FreshIds(calls)
    ensures Families(Run(calls).tokens)
  {
    if calls != [] {
      RunKeepsFamilies(calls[..|calls|-1]);
      RunNewId(calls);
      CallKeepsFamilies(Run(calls[..|calls|-1]), calls[|calls|-1]);
    }
  }

  // ---- families over runs ----

  /** A call leaves every older token in the family it was in; a login starts a new family,
      and a rotation puts its new token into the family of the presented one. */
  lemma FamiliesPersist(s: Sessions, c: Call, k: nat)
    requires Families(s.tokens) && NewId(s.tokens, c) && Families(Apply(s, c).tokens)
    requires k < |s.tokens| <= |Apply(s, c).tokens|
    ensures RootOf(Apply(s, c).tokens, k) == RootOf(s.tokens, k)
    decreases k
  {
    var before, after := s.tokens, Apply(s, c).tokens;
    CallKeepsFamilies(s, c);
    assert forall i :: Succeeds(after, i, k) <==> Succeeds(before, i, k);
    if !IsRoot(before, k) {
      var p := PredecessorRoot(before, k);
      assert Succeeds(after, p, k) by {
        var q :| Succeeds(before, q, k);
      }
      FamiliesPersist(s, c, p);
    }
  }

  /** The newest token of a call: a root after a login, else in the presented token's family. */
  lemma NewTokensFamily(s: Sessions, c: Call)
    requires Families(s.tokens) && NewId(s.tokens, c) && |Apply(s, c).tokens| > |s.tokens|
    ensures Families(Apply(s, c).tokens) && |Apply(s, c).tokens| == |s.tokens| + 1 && Creates(c)
    ensures c.Login? ==> RootOf(Apply(s, c).tokens, |s.tokens|) == |s.tokens|
    ensures c.Refresh? ==> exists i :: 0 <= i < |s.tokens| && s.tokens[i].hash == c.hash
                                       && RootOf(Apply(s, c).tokens, |s.tokens|) == RootOf(s.tokens, i)
  {
    CallAges(s, c);
    CallKeepsFamilies(s, c);
    var before, after, n := s.tokens, Apply(s, c).tokens, |s.tokens|;
    if c.Refresh? {
      var i :| 0 <= i < n && Linked(before, after, c.hash, i);
      assert Succeeds(after, i, n);
      FamiliesPersist(s, c, i);
    } else {
      assert forall a :: !Succeeds(after, a, n);
    }
  }

  /** The number of logins that created a token. */
  ghost function LoginCount(calls: seq<Call>): nat {
    if calls == [] then 0
    else
      var before, c := calls[..|calls|-1], calls[|calls|-1];
      LoginCount(before) + if c.Login? && |Run(calls).tokens| > |Run(before).tokens| then 1 else 0
  }

  ghost function Roots(tokens: Tokens): set<int> {
    set k | 0 <= k < |tokens| && IsRoot(tokens, k)
  }

  lemma RootsAfter(s: Sessions, c: Call)
    requires Families(s.tokens) && NewId(s.tokens, c)
    ensures var (before, after) := (s.tokens, Apply(s, c).tokens);
            Roots(after) == if c.Login? && |after| > |before| then Roots(before) + {|before|} else Roots(before)
  {
    CallAges(s, c);
    CallKeepsFamilies(s, c);
    var before, after := s.tokens, Apply(s, c).tokens;
    forall k | 0 <= k < |before| ensures IsRoot(after, k) <==> IsRoot(before, k) {
      if c.Refresh? && |after| > |before| {
        var i :| 0 <= i < |before| && Linked(before, after, c.hash, i);
      }
    }
    if |after| > |before| {
      if c.Refresh? {
        var i :| 0 <= i < |before| && Linked(before, after, c.hash, i);
        assert Succeeds(after, i, |before|);
      } else {
        assert IsRoot(after, |before|);
      }
    }
  }

  /** There are exactly as many families as logins. */
  lemma {:induction false} OneFamilyPerLogin(calls: seq<Call>)
    requires FreshIds(calls)
    ensures |Roots(Run(calls).tokens)| == LoginCount(calls)
  {
    if calls != [] {
      var before := calls[..|calls|-1];
      OneFamilyPerLogin(before);
      RunKeepsFamilies(before);
      RunNewId(calls);
      RootsAfter(Run(before), calls[|calls|-1]);
    } else {
      assert Roots([]) == {};
    }
  }

  // ---- replays ----

  lemma FindUnique(tokens: Tokens, k: nat)
    requires Families(tokens) && k < |tokens|
    ensures Find(tokens, tokens[k].hash) == Some(k)
  {
  }

  // ---- what each call does to the table ----

  /** Presenting token k: a refresh issues a new token exactly when this one is neither revoked nor expired, the user
      passes both checks, and the new hash is unused; and then it is revoked in favour of the new one. */
  lemma RotationIff(s: Sessions, k: nat, c: Call)
    requires Families(s.tokens) && k < |s.tokens| && c.Refresh? && c.hash == s.tokens[k].hash
    ensures var (t, after) := (s.tokens[k], Apply(s, c));
            && after.resets == s.resets
            && if !t.revoked && c.activeBefore && c.activeInside && c.now <= t.expiresAt && Unused(s.tokens, c.new_.hash)
                 then Rotates(s.tokens, after.tokens, k, c.new_)
               else if t.revoked && t.successor == None && c.activeBefore then EndsSessions(s.tokens, after.tokens, t.user)
               else after.tokens == s.tokens
  {
    FindUnique(s.tokens, k);
  }

  /** The answer to a refresh, by what is wrong with the token presented. */
  lemma RefreshAnswer(tokens: Tokens, k: nat, activeBefore: bool, activeInside: bool, now: int, new_: Fresh)
    requires Families(tokens) && k < |tokens|
    ensures var (t, e) := (tokens[k], RotateTx(tokens, tokens[k].hash, activeBefore, activeInside, now, new_).error);
            && (e == Some(UserRejected) <==> !activeBefore || (!t.revoked && !activeInside))
            && (e == Some(InvalidToken) <==> activeBefore && t.revoked && t.successor != None)
            && (e == Some(TokenReuse) <==> activeBefore && t.revoked && t.successor == None)
            && (e == Some(ExpiredToken) <==> activeBefore && activeInside && !t.revoked && now > t.expiresAt)
            && (e == Some(HashTaken) <==>
                  activeBefore && activeInside && !t.revoked && now <= t.expiresAt && !Unused(tokens, new_.hash))
            && (e != None ==> e.value in {UserRejected, InvalidToken, TokenReuse, ExpiredToken, HashTaken})
  {
    FindUnique(tokens, k);
  }

  /** An unknown hash changes nothing and is refused as invalid. */
  lemma UnknownHash(s: Sessions, c: Call)
    requires (c.Refresh? || c.Logout?) && Unused(s.tokens, c.hash)
    ensures Apply(s, c) == s
    ensures c.Refresh? ==>
              RotateTx(s.tokens, c.hash, c.activeBefore, c.activeInside, c.now, c.new_).error == Some(InvalidToken)
    ensures c.Logout? ==> LogoutTx(s.tokens, c.hash).error == Some(InvalidToken)
  {
  }

  /** A login adds a token exactly when its hash is unused; a logout revokes the presented token without a successor
      unless it was revoked before. */
  lemma LoginAndLogout(s: Sessions, user: User, new_: Fresh, k: nat)
    requires Families(s.tokens)
    ensures if Unused(s.tokens, new_.hash) then Adds(s.tokens, Apply(s, Login(user, new_)).tokens, user, new_)
            else Apply(s, Login(user, new_)) == s && LoginTx(s.tokens, user, new_).error == Some(HashTaken)
    ensures k < |s.tokens| ==>
              var t := s.tokens[k];
              && OnlyChanges(s.tokens, Apply(s, Logout(t.hash)).tokens, k,
                             Token(t.id, t.user, t.hash, t.expiresAt, true, t.successor))
              && LogoutTx(s.tokens, t.hash).error == None
  {
    if k < |s.tokens| { FindUnique(s.tokens, k); }
  }

  /** Revoking the sessions of a user ends them all, and nobody else's. */
  lemma RevocationEndsSessions(s: Sessions, user: User)
    ensures EndsSessions(s.tokens, Apply(s, RevokeSessions(user)).tokens, user) && Apply(s, RevokeSessions(user)).resets == s.resets
  {
  }

  /** In no run does a refresh at a time after the expiry with which the presented token was issued add a token. */
  lemma NoRotationAfterExpiry(calls: seq<Call>, i: nat, k: nat, c: Call)
    requires FreshIds(calls) && i <= |calls| && k < |Run(calls[..i]).tokens|
    requires c.Refresh? && c.hash == Run(calls[..i]).tokens[k].hash && c.now > Run(calls[..i]).tokens[k].expiresAt
    ensures |Apply(Run(calls), c).tokens| == |Run(calls).tokens|
  {
    KindNeverChanges(calls, i, k);
    RunKeepsFamilies(calls);
    RotationIff(Run(calls), k, c);
  }

  /** In every run an active, unexpired token of an active user can be refreshed under any unused hash, and the new token
      extends its family. */
  lemma ActiveTokenRefreshes(calls: seq<Call>, k: nat, now: int, new_: Fresh)
    requires FreshIds(calls) && k < |Run(calls).tokens| && !Run(calls).tokens[k].revoked && now <= Run(calls).tokens[k].expiresAt
    requires Unused(Run(calls).tokens, new_.hash) && forall j | 0 <= j < |Run(calls).tokens| :: Run(calls).tokens[j].id != new_.id
    ensures var (s, after) := (Run(calls), Apply(Run(calls), Refresh(Run(calls).tokens[k].hash, true, true, now, new_)));
            && Rotates(s.tokens, after.tokens, k, new_)
            && Families(s.tokens) && Families(after.tokens) && RootOf(after.tokens, |s.tokens|) == RootOf(s.tokens, k)
  {
    var s, c := Run(calls), Refresh(Run(calls).tokens[k].hash, true, true, now, new_);
    RunKeepsFamilies(calls);
    RotationIff(s, k, c);
    CallKeepsFamilies(s, c);
    NewTokensFamily(s, c);
    var i :| 0 <= i < |s.tokens| && s.tokens[i].hash == c.hash && RootOf(Apply(s, c).tokens, |s.tokens|) == RootOf(s.tokens, i);
    assert i == k;
  }

  ghost predicate NoneActive(tokens: Tokens, user: User) {
    forall i | 0 <= i < |tokens| && tokens[i].user == user :: !Active(tokens[i])
  }

  /** Presenting a rotated token again, however late, changes nothing and wipes nothing. */
  lemma ReplayOfRotated(calls: seq<Call>, i: nat, k: nat, c: Call)
    requires FreshIds(calls) && i <= |calls| && k < |Run(calls[..i]).tokens| && WasRotated(Run(calls[..i]).tokens[k])
    requires c.Refresh? && c.hash == Run(calls[..i]).tokens[k].hash
    ensures Apply(Run(calls), c) == Run(calls)
    ensures RotateTx(Run(calls).tokens, c.hash, c.activeBefore, c.activeInside, c.now, c.new_).error
            == Some(if c.activeBefore then InvalidToken else UserRejected)
  {
    KindNeverChanges(calls, i, k);
    RunKeepsFamilies(calls);
    FindUnique(Run(calls).tokens, k);
  }

  /** Presenting an explicitly revoked token leaves its user without a single active token. */
  lemma ReplayOfExplicit(calls: seq<Call>, i: nat, k: nat, c: Call)
    requires FreshIds(calls) && i <= |calls| && k < |Run(calls[..i]).tokens| && WasExplicit(Run(calls[..i]).tokens[k])
    requires c.Refresh? && c.hash == Run(calls[..i]).tokens[k].hash && c.activeBefore
    ensures NoneActive(Apply(Run(calls), c).tokens, Run(calls[..i]).tokens[k].user)
    ensures RotateTx(Run(calls).tokens, c.hash, true, c.activeInside, c.now, c.new_).error == Some(TokenReuse)
  {
    KindNeverChanges(calls, i, k);
    RunKeepsFamilies(calls);
    FindUnique(Run(calls).tokens, k);
  }

  /** Once a user has no active token, only a new login of that user gives one. */
  lemma {:induction false} OnlyLoginRevives(calls: seq<Call>, i: nat, user: User)
    requires i <= |calls| && NoneActive(Run(calls[..i]).tokens, user)
    requires forall j | i <= j < |calls| :: !(calls[j].Login? && calls[j].user == user)
    ensures NoneActive(Run(calls).tokens, user)
    decreases |calls|
  {
    if i == |calls| {
      assert calls[..i] == calls;
    } else {
      var before, c := calls[..|calls|-1], calls[|calls|-1];
      assert before[..i] == calls[..i];
      OnlyLoginRevives(before, i, user);
      assert c == calls[|calls| - 1];
    }
  }

  // ---- reset links ----

  /** Reset tokens keep their hash and user, and stay used. */
  ghost predicate ResetsAge(before: seq<ResetToken>, after: seq<ResetToken>) {
    && |before| <= |after|
    && forall k | 0 <= k < |before| ::
         after[k].hash == before[k].hash && after[k].user == before[k].user && (before[k].used ==> after[k].used)
  }

  ghost predicate ResetHashesDiffer(resets: seq<ResetToken>) {
    forall i, j | 0 <= i < j < |resets| :: resets[i].hash != resets[j].hash
  }

  /** Every link of the user is used, and nothing else changes. */
  ghost predicate SpendsLinks(before: seq<ResetToken>, after: seq<ResetToken>, user: User) {
    && |after| == |before|
    && forall j | 0 <= j < |before| ::
         var (a, b) := (before[j], after[j]);
         b.id == a.id && b.user == a.user && b.hash == a.hash && b.expiresAt == a.expiresAt && b.used == (a.used || a.user == user)
  }

  /** A reset goes through exactly when its link exists, is unused and has not expired; then it ends all sessions and
      spends all links of the link's user, and else it changes nothing and says what is wrong with the link. */
  lemma ResetIff(s: Sessions, hash: string, now: int, k: nat)
    requires ResetHashesDiffer(s.resets)
    ensures k < |s.resets| && s.resets[k].hash == hash ==>
              var (t, after, e) := (s.resets[k], ResetTx(s, hash, now).0, ResetTx(s, hash, now).1);
              if t.used then after == s && e == Some(ResetTokenUsed)
              else if now > t.expiresAt then after == s && e == Some(ResetTokenExpired)
              else e == None && EndsSessions(s.tokens, after.tokens, t.user) && SpendsLinks(s.resets, after.resets, t.user)
    ensures (forall j | 0 <= j < |s.resets| :: s.resets[j].hash != hash) ==> ResetTx(s, hash, now) == (s, Some(ResetTokenInvalid))
  {
    if k < |s.resets| && s.resets[k].hash == hash {
      assert FindReset(s.resets, hash).Some?;
      assert FindReset(s.resets, hash).value == k;
    }
  }

  /** A link issued is unused and the user's; a taken hash issues none. */
  lemma LinkIssued(s: Sessions, user: User, r: Fresh)
    ensures var after := Apply(s, ForgotPassword(user, r));
            && after.tokens == s.tokens
            && if forall j | 0 <= j < |s.resets| :: s.resets[j].hash != r.hash
                 then |after.resets| == |s.resets| + 1 && after.resets[..|s.resets|] == s.resets
                      && after.resets[|s.resets|] == ResetToken(r.id, user, r.hash, r.expiresAt, false)
               else after.resets == s.resets
  {
  }

  lemma {:induction false} ResetsOnlyAge(calls: seq<Call>, i: nat)
    requires i <= |calls|
    ensures ResetsAge(Run(calls[..i]).resets, Run(calls).resets)
    decreases |calls|
  {
    if i == |calls| {
      assert calls[..i] == calls;
    } else {
      assert calls[..|calls|-1][..i] == calls[..i];
      ResetsOnlyAge(calls[..|calls|-1], i);
    }
  }

  lemma {:induction false} ResetHashesStayUnique(calls: seq<Call>)
    ensures ResetHashesDiffer(Run(calls).resets)
  {
    if calls != [] {
      ResetHashesStayUnique(calls[..|calls|-1]);
    }
  }

  /** A successful reset spends every outstanding link of the user for good and ends all his sessions. */
  lemma ResetSpendsAllLinks(calls: seq<Call>, i: nat, k: nat, hash: string, now: int, later: int)
    requires i < |calls| && calls[i] == ResetPassword(hash, now)
    requires ResetTx(Run(calls[..i]), hash, now).1 == None
    requires var (s, done) := (Run(calls[..i]), FindReset(Run(calls[..i]).resets, hash).value);
             k < |s.resets| && s.resets[k].user == s.resets[done].user
    ensures var link := Run(calls[..i]).resets[k];
            && NoneActive(Run(calls[..i+1]).tokens, link.user)
            && ResetTx(Run(calls), link.hash, later) == (Run(calls), Some(ResetTokenUsed))
  {
    assert calls[..i+1][..i] == calls[..i];
    var s, after := Run(calls[..i]), Run(calls[..i+1]);
    assert after == ResetTx(s, hash, now).0;
    assert after.resets[k].used && after.resets[k].hash == s.resets[k].hash;
    ResetsOnlyAge(calls, i + 1);
    ResetHashesStayUnique(calls);
    var j := FindReset(Run(calls).resets, s.resets[k].hash).value;
    assert Run(calls).resets[k].hash == s.resets[k].hash;
    assert j == k;
  }
}
