/** Refresh-token rotation: a token mints a new pair until it expires or until GRACE_MS after its first
    rotation; logout and the theft response revoke with a backdated time, outside that window. The class has
    `refresh` as one call without interference; the histories interleave its statements. */
module RefreshTokens {
  import opened Options

  const GRACE_MS: int := 60_000
  const REFRESH_TOKEN_TTL_SECONDS: int := 60 * 60 * 24 * 14

  datatype Token = Token(userId: string, expiresAt: int, revokedAt: Option<int>)

  /** The rows of `core.refresh_token`, by token hash. */
  type Table = map<string, Token>

  function Revoked(table: Table, userId: string, now: int): Table {
    map h | h in table ::
      if table[h].userId == userId && table[h].revokedAt.None?
      then table[h].(revokedAt := Some(now - GRACE_MS)) else table[h]
  }

  function Issued(table: Table, userId: string, hash: string, now: int): Table {
    table[hash := Token(userId, now + REFRESH_TOKEN_TTL_SECONDS * 1000, None)]
  }

  /** Reuse at or past the end of the grace window. */
  predicate IsTheft(token: Token, now: int) {
    token.revokedAt.Some? && now - token.revokedAt.value >= GRACE_MS
  }

  /** `active`: the token's user is active and its tenant exists and is not suspended. */
  predicate Mints(table: Table, hash: string, active: bool, now: int) {
    hash in table && !IsTheft(table[hash], now) && !(table[hash].expiresAt < now) && active
  }

  function Rotated(token: Token, now: int): Token {
    if token.revokedAt.None? then token.(revokedAt := Some(now)) else token
  }

  function Refreshed(table: Table, hash: string, active: bool, drawn: string, now: int): Table {
    if hash !in table then table
    else if IsTheft(table[hash], now) then Revoked(table, table[hash].userId, now)
    else if Mints(table, hash, active, now)
    then Issued(table[hash := Rotated(table[hash], now)], table[hash].userId, drawn, now)
    else table
  }

  class AuthService {
    var tokens: Table

    constructor ()
      ensures tokens == map[]
    {
      tokens := map[];
    }

    method IssueTokens(userId: string, hash: string, now: int)
      requires hash !in tokens
      modifies this
      ensures tokens == Issued(old(tokens), userId, hash, now)
    {
      tokens := tokens[hash := Token(userId, now + REFRESH_TOKEN_TTL_SECONDS * 1000, None)];
    }

    /** One UPDATE over the user's unrevoked tokens. */
    method RevokeAllForUser(userId: string, now: int)
      modifies this
      ensures tokens == Revoked(old(tokens), userId, now)
    {
      tokens := map h | h in tokens ::
        if tokens[h].userId == userId && tokens[h].revokedAt.None?
        then tokens[h].(revokedAt := Some(now - GRACE_MS)) else tokens[h];
    }

    method Logout(userId: string, now: int)
      modifies this
      ensures tokens == Revoked(old(tokens), userId, now)
    {
      RevokeAllForUser(userId, now);
    }

    /** `drawn` is the hash of the newly drawn random token. */
    method Refresh(hash: string, active: bool, drawn: string, now: int) returns (minted: bool)
      requires drawn !in tokens
      modifies this
      ensures minted == Mints(old(tokens), hash, active, now)
      ensures tokens == Refreshed(old(tokens), hash, active, drawn, now)
    {
      if hash !in tokens {
        return false;
      }
      var row := tokens[hash];
      if row.revokedAt.Some? && now - row.revokedAt.value >= GRACE_MS {
        RevokeAllForUser(row.userId, now);
        return false;
      }
      if row.expiresAt < now {
        return false;
      }
      if !active {
        return false;
      }
      if row.revokedAt.None? {
        tokens := tokens[hash := row.(revokedAt := Some(now))];
      }
      IssueTokens(row.userId, drawn, now);
      minted := true;
    }
  }

  // ----- histories, statement by statement -----

  /** Where a refresh is: it has fetched its row; it is about to revoke the family; it has passed its checks on that
      row; it has found the user active, and then the tenant; or it has run its update. The steps are those of the
      two status reads. */
  datatype Phase =
    | Fetched
    | Theft
    | Passed(checkedAt: int)
    | UserSeen(checkedAt: int, userStep: nat)
    | Approved(checkedAt: int, userStep: nat, tenantStep: nat)
    | Updated(checkedAt: int, userStep: nat, tenantStep: nat)

  /** `row` is what the call read, at `readAt`; `readStep` is the position of that read in the run. */
  datatype Call = Call(hash: string, row: Token, readAt: int, readStep: nat, phase: Phase)

  datatype Action =
    | Wait(ms: nat)
    | Login(userId: string, drawn: string)
    | LogoutUser(userId: string)
    | Read(id: nat, hash: string)
    | Check(id: nat)
    | Punish(id: nat)
    | ReadUser(id: nat)
    | ReadTenant(id: nat)
    | Rotate(id: nat)
    | Insert(id: nat, drawn: string)
    | Drop(id: nat)                 // crashed
    | SetUsers(active: set<string>)
    | SetTenants(active: set<string>)

  /** A minted token, and the steps of the reads that led to it. */
  datatype Mint = Mint(hash: string, drawn: string, readAt: int, readStep: nat, userStep: nat, tenantStep: nat,
                       mintStep: nat)

  /** A logout or theft response: `all` are the user's tokens at that moment, `live` the unrevoked ones. */
  datatype Purge = Purge(step: nat, at: int, all: set<string>, live: set<string>)

  /** The users that are active, and those whose tenant exists and is not suspended. */
  datatype Statuses = Statuses(users: set<string>, tenants: set<string>)

  /** `past` has the statuses at each step so far. */
  datatype State = State(now: int, steps: nat, statuses: Statuses, past: seq<Statuses>, table: Table,
                         calls: map<nat, Call>, mints: seq<Mint>, purges: seq<Purge>)

  function PurgeOf(s: State, userId: string): Purge {
    Purge(s.steps, s.now,
          set h | h in s.table && s.table[h].userId == userId,
          set h | h in s.table && s.table[h].userId == userId && s.table[h].revokedAt.None?)
  }

  function Purged(s: State, userId: string): State {
    s.(table := Revoked(s.table, userId, s.now), purges := s.purges + [PurgeOf(s, userId)])
  }

  function SetCall(s: State, id: nat, call: Call): State {
    s.(calls := s.calls[id := call])
  }

  function EndCall(s: State, id: nat): State {
    s.(calls := s.calls - {id})
  }

  function Step(s: State, a: Action): Option<State> {
    match Act(s, a)
    case None => None
    case Some(t) => Some(t.(steps := s.steps + 1, past := s.past + [s.statuses]))
  }

  function Act(s: State, a: Action): Option<State> {
    match a
    case Wait(ms) => Some(s.(now := s.now + ms))
    case Login(userId, drawn) =>
      if drawn in s.table then None else Some(s.(table := Issued(s.table, userId, drawn, s.now)))
    case LogoutUser(userId) => Some(Purged(s, userId))
    case Read(id, hash) =>
      if id in s.calls || hash !in s.table then None
      else Some(SetCall(s, id, Call(hash, s.table[hash], s.now, s.steps, Fetched)))
    case SetUsers(active) => Some(s.(statuses := s.statuses.(users := active)))
    case SetTenants(active) => Some(s.(statuses := s.statuses.(tenants := active)))
    case _ => if a.id in s.calls then CallAct(s, a.id, s.calls[a.id], a) else None
  }

  function MintOf(s: State, call: Call, drawn: string): Mint
    requires call.phase.Updated?
  {
    Mint(call.hash, drawn, call.readAt, call.readStep, call.phase.userStep, call.phase.tenantStep, s.steps)
  }

  function CallAct(s: State, id: nat, call: Call, a: Action): Option<State> {
    match a
    case Check(_) =>
      if !call.phase.Fetched? then None
      else if IsTheft(call.row, s.now) then Some(SetCall(s, id, call.(phase := Theft)))
      else if call.row.expiresAt < s.now then Some(EndCall(s, id))
      else Some(SetCall(s, id, call.(phase := Passed(s.now))))
    case Punish(_) => if call.phase.Theft? then Some(EndCall(Purged(s, call.row.userId), id)) else None
    case ReadUser(_) =>
      if !call.phase.Passed? then None
      else if call.row.userId !in s.statuses.users then Some(EndCall(s, id))
      else Some(SetCall(s, id, call.(phase := UserSeen(call.phase.checkedAt, s.steps))))
    case ReadTenant(_) =>
      if !call.phase.UserSeen? then None
      else if call.row.userId !in s.statuses.tenants then Some(EndCall(s, id))
      else Some(SetCall(s, id, call.(phase := Approved(call.phase.checkedAt, call.phase.userStep, s.steps))))
    case Rotate(_) =>
      if !call.phase.Approved? || call.hash !in s.table then None
      else Some(SetCall(if call.row.revokedAt.None?
                        then s.(table := s.table[call.hash := Rotated(s.table[call.hash], s.now)])
                        else s,
                        id, call.(phase := Updated(call.phase.checkedAt, call.phase.userStep, call.phase.tenantStep))))
    case Insert(_, drawn) =>
      if !call.phase.Updated? || drawn in s.table then None
      else Some(EndCall(s.(table := Issued(s.table, call.row.userId, drawn, s.now),
                           mints := s.mints + [MintOf(s, call, drawn)]), id))
    case Drop(_) => Some(EndCall(s, id))
    case _ => None
  }

  function Exec(s: State, acts: seq<Action>): Option<State>
    decreases |acts|
  {
    if acts == [] then Some(s)
    else match Step(s, acts[0]) case None => None case Some(next) => Exec(next, acts[1..])
  }

  function Init(now: int): State {
    State(now, 0, Statuses({}, {}), [], map[], map[], [], [])
  }

  // ----- the invariant -----

  /** The purge came after the read, or before it. */
  predicate Ordered(readAt: int, readStep: nat, p: Purge) {
    (readStep < p.step && readAt <= p.at) || (p.step < readStep && p.at <= readAt)
  }

  /** A purge caught the token between a read and now. */
  ghost predicate Straddled(s: State, hash: string, readStep: nat) {
    exists p <- s.purges :: readStep < p.step && hash in p.live
  }

  /** What a read at that moment says about its token now. */
  ghost predicate ReadOk(s: State, hash: string, row: Token, readAt: int, readStep: nat) {
    && hash in s.table && s.table[hash].userId == row.userId && s.table[hash].expiresAt == row.expiresAt
    && readAt <= s.now && readStep < s.steps
    && (forall p <- s.purges :: Ordered(readAt, readStep, p))
    && (row.revokedAt.Some? ==> s.table[hash].revokedAt == row.revokedAt)
    && (row.revokedAt.None? ==> forall p <- s.purges :: hash in p.all ==> readStep < p.step)
    && (row.revokedAt.Some? ==> forall p <- s.purges :: hash in p.live ==> p.step < readStep)
    && (row.revokedAt.None? && s.table[hash].revokedAt.Some? ==>
          readAt <= s.table[hash].revokedAt.value || Straddled(s, hash, readStep))
  }

  predicate Cleared(row: Token, readAt: int, checkedAt: int) {
    readAt <= checkedAt <= row.expiresAt && !IsTheft(row, checkedAt)
  }

  /** The user was active at that step, after an earlier one. */
  predicate SawUser(s: State, userId: string, earlier: nat, step: nat) {
    earlier < step < |s.past| && userId in s.past[step].users
  }

  predicate SawTenant(s: State, userId: string, earlier: nat, step: nat) {
    earlier < step < |s.past| && userId in s.past[step].tenants
  }

  ghost predicate CallOk(s: State, call: Call) {
    && ReadOk(s, call.hash, call.row, call.readAt, call.readStep)
    && (!call.phase.Fetched? && !call.phase.Theft? ==> Cleared(call.row, call.readAt, call.phase.checkedAt))
    && (call.phase.UserSeen? ==> SawUser(s, call.row.userId, call.readStep, call.phase.userStep))
    && (call.phase.Approved? || call.phase.Updated? ==>
          && SawUser(s, call.row.userId, call.readStep, call.phase.userStep)
          && SawTenant(s, call.row.userId, call.phase.userStep, call.phase.tenantStep))
    && (call.phase.Updated? ==> s.table[call.hash].revokedAt.Some?)
    && (call.phase.Theft? ==> call.row.revokedAt.Some?)
  }

  ghost predicate MintOk(s: State, m: Mint) {
    && m.hash in s.table && s.table[m.hash].revokedAt.Some? && m.readAt <= s.table[m.hash].expiresAt
    && (m.readAt < s.table[m.hash].revokedAt.value + GRACE_MS || Straddled(s, m.hash, m.readStep))
    && (forall p <- s.purges :: Ordered(m.readAt, m.readStep, p))
    && (forall p <- s.purges :: m.hash in p.live ==> m.readStep < p.step)
    && (forall p <- s.purges :: m.hash in p.all ==> m.readAt < p.at + GRACE_MS)
    && m.readAt <= s.now && m.readStep < s.steps
    && SawUser(s, s.table[m.hash].userId, m.readStep, m.userStep)
    && SawTenant(s, s.table[m.hash].userId, m.userStep, m.tenantStep)
  }

  ghost predicate PurgeOk(s: State, p: Purge) {
    && p.at <= s.now && p.step < s.steps && p.live <= p.all
    && (forall h <- p.all :: h in s.table && s.table[h].revokedAt.Some? && s.table[h].revokedAt.value <= p.at)
    && (forall h <- p.live :: s.table[h].revokedAt == Some(p.at - GRACE_MS))
  }

  ghost predicate Valid(s: State) {
    && |s.past| == s.steps
    && (forall h <- s.table :: s.table[h].revokedAt.Some? ==> s.table[h].revokedAt.value <= s.now)
    && (forall id <- s.calls :: CallOk(s, s.calls[id]))
    && (forall i, j :: i in s.calls && j in s.calls && i != j ==> s.calls[i].readStep != s.calls[j].readStep)
    && (forall m <- s.mints :: MintOk(s, m) && m.tenantStep < m.mintStep < s.steps)
    && (forall p <- s.purges :: PurgeOk(s, p))
  }

  /** revokedAt, expiresAt and the user are written once; clock and history only grow. */
  ghost predicate Grows(s: State, t: State) {
    && s.now <= t.now && s.steps < t.steps && s.purges <= t.purges && t.past == s.past + [s.statuses]
    && (forall h <- s.table ::
          && h in t.table
          && t.table[h].userId == s.table[h].userId
          && t.table[h].expiresAt == s.table[h].expiresAt
          && (s.table[h].revokedAt.Some? ==> t.table[h].revokedAt == s.table[h].revokedAt))
  }

  lemma StepWritesOnce(s: State, a: Action, t: State)
    requires Step(s, a) == Some(t)
    ensures Grows(s, t)
    ensures t.now == s.now + if a.Wait? then a.ms else 0
  {
  }

  /** A step's own purge happens now and covers tokens of this moment. */
  ghost predicate PurgesNow(s: State, t: State) {
    && |s.purges| <= |t.purges| <= |s.purges| + 1
    && t.purges[..|s.purges|] == s.purges
    && (|t.purges| > |s.purges| ==>
          var p := t.purges[|s.purges|];
          && p.step == s.steps && p.at == s.now && p.live <= p.all
          && (forall h <- p.all :: h in s.table && h in t.table && t.table[h].revokedAt.Some?)
          && (forall h <- p.all :: t.table[h].revokedAt.value <= s.now)
          && (forall h <- p.live :: s.table[h].revokedAt.None? && t.table[h].revokedAt == Some(s.now - GRACE_MS)))
  }

  /** A token that becomes revoked in a step is rotated now, or caught by the purge of this step. */
  ghost predicate RevokesNow(s: State, t: State) {
    forall h <- s.table :: s.table[h].revokedAt.None? && h in t.table && t.table[h].revokedAt.Some? ==>
      || t.table[h].revokedAt.value == s.now
      || (|t.purges| > |s.purges| && h in t.purges[|s.purges|].live)
  }

  ghost predicate Moves(s: State, t: State) {
    Grows(s, t) && PurgesNow(s, t) && RevokesNow(s, t) && t.steps == s.steps + 1
  }

  lemma PurgeMoves(s: State, t: State, userId: string)
    requires forall h <- s.table :: s.table[h].revokedAt.Some? ==> s.table[h].revokedAt.value <= s.now
    requires t.table == Revoked(s.table, userId, s.now) && t.purges == s.purges + [PurgeOf(s, userId)]
    requires t.now == s.now && t.steps == s.steps + 1 && t.past == s.past + [s.statuses]
    ensures Moves(s, t)
  {
    assert t.purges[..|s.purges|] == s.purges;
  }

  /** Which statement writes what. */
  ghost predicate Writes(s: State, a: Action, t: State) {
    match a
    case LogoutUser(userId) => t.table == Revoked(s.table, userId, s.now)
    case Punish(id) => id in s.calls && t.table == Revoked(s.table, s.calls[id].row.userId, s.now)
    case Login(userId, drawn) => drawn !in s.table && t.table == Issued(s.table, userId, drawn, s.now)
    case Insert(id, drawn) =>
      && id in s.calls && s.calls[id].phase.Updated? && drawn !in s.table
      && t.table == Issued(s.table, s.calls[id].row.userId, drawn, s.now)
    case Rotate(id) =>
      && id in s.calls && s.calls[id].hash in s.table
      && (t.table == s.table || t.table == s.table[s.calls[id].hash := Rotated(s.table[s.calls[id].hash], s.now)])
    case _ => t.table == s.table
  }

  lemma StepWrites(s: State, a: Action, t: State)
    requires Step(s, a) == Some(t)
    ensures Writes(s, a, t)
    ensures !a.LogoutUser? && !a.Punish? ==> t.purges == s.purges
  {
  }

  lemma QuietMoves(s: State, a: Action, t: State)
    requires Writes(s, a, t) && !a.LogoutUser? && !a.Punish? && t.purges == s.purges
    requires Grows(s, t) && t.steps == s.steps + 1
    ensures Moves(s, t)
  {
    assert t.purges[..|s.purges|] == s.purges;
  }

  lemma StepMoves(s: State, a: Action, t: State)
    requires Valid(s) && Step(s, a) == Some(t)
    ensures Moves(s, t)
  {
    StepWritesOnce(s, a, t);
    StepWrites(s, a, t);
    if a.LogoutUser? {
      PurgeMoves(s, t, a.userId);
    } else if a.Punish? {
      PurgeMoves(s, t, s.calls[a.id].row.userId);
    } else {
      QuietMoves(s, a, t);
    }
  }

  // ----- preservation -----

  lemma StraddledStays(s: State, t: State, hash: string, readStep: nat)
    requires Moves(s, t) && Straddled(s, hash, readStep)
    ensures Straddled(t, hash, readStep)
  {
    var p :| p in s.purges && readStep < p.step && hash in p.live;
    assert p in t.purges[..|s.purges|];
  }

  lemma NewPurge(s: State, t: State, p: Purge)
    requires Moves(s, t) && p in t.purges && p !in s.purges
    ensures |t.purges| > |s.purges| && p == t.purges[|s.purges|]
  {
    assert t.purges == t.purges[..|s.purges|] + t.purges[|s.purges|..];
  }

  lemma ReadStays(s: State, t: State, hash: string, row: Token, readAt: int, readStep: nat)
    requires Moves(s, t) && ReadOk(s, hash, row, readAt, readStep)
    ensures ReadOk(t, hash, row, readAt, readStep)
  {
    forall p | p in t.purges
      ensures Ordered(readAt, readStep, p)
      ensures row.revokedAt.None? && hash in p.all ==> readStep < p.step
      ensures row.revokedAt.Some? && hash in p.live ==> p.step < readStep
    {
      if p !in s.purges {
        NewPurge(s, t, p);
      }
    }
    if row.revokedAt.None? && t.table[hash].revokedAt.Some? {
      if s.table[hash].revokedAt.Some? {
        if Straddled(s, hash, readStep) {
          StraddledStays(s, t, hash, readStep);
        }
      } else if t.table[hash].revokedAt.value != s.now {
        assert t.purges[|s.purges|] in t.purges;
      }
    }
  }

  lemma MintStays(s: State, t: State, m: Mint)
    requires Moves(s, t) && MintOk(s, m)
    ensures MintOk(t, m)
  {
    if Straddled(s, m.hash, m.readStep) {
      StraddledStays(s, t, m.hash, m.readStep);
    }
    forall p | p in t.purges
      ensures Ordered(m.readAt, m.readStep, p)
      ensures m.hash in p.live ==> m.readStep < p.step
      ensures m.hash in p.all ==> m.readAt < p.at + GRACE_MS
    {
      if p !in s.purges {
        NewPurge(s, t, p);
      }
    }
  }

  lemma PurgeStays(s: State, t: State, p: Purge)
    requires Moves(s, t) && p in t.purges && (p in s.purges ==> PurgeOk(s, p))
    ensures PurgeOk(t, p)
  {
    if p !in s.purges {
      NewPurge(s, t, p);
    }
  }

  /** A fresh read: every earlier purge revoked its tokens before it. */
  lemma ReadNow(s: State, t: State, hash: string)
    requires Valid(s) && Moves(s, t) && hash in s.table && t.table == s.table && t.purges == s.purges
    ensures ReadOk(t, hash, s.table[hash], s.now, s.steps)
  {
    forall p | p in t.purges
      ensures Ordered(s.now, s.steps, p)
      ensures s.table[hash].revokedAt.None? ==> hash !in p.all
      ensures p.step < s.steps
    {
      assert PurgeOk(s, p);
    }
  }

  lemma CallStays(s: State, t: State, call: Call)
    requires Moves(s, t) && CallOk(s, call)
    ensures CallOk(t, call)
  {
    ReadStays(s, t, call.hash, call.row, call.readAt, call.readStep);
  }

  /** A step adds the call of its read, or moves its own call to another phase; every other call is as it was. */
  lemma CallMoves(s: State, a: Action, t: State, id: nat)
    requires Step(s, a) == Some(t) && id in t.calls
    ensures id !in s.calls ==>
              a.Read? && a.hash in s.table && t.calls[id] == Call(a.hash, s.table[a.hash], s.now, s.steps, Fetched)
              && t.table == s.table && t.purges == s.purges
    ensures id in s.calls ==> t.calls[id] == s.calls[id].(phase := t.calls[id].phase)
    ensures id in s.calls && t.calls[id] != s.calls[id] ==>
              && CallAct(s, id, s.calls[id], a).Some?
              && t == CallAct(s, id, s.calls[id], a).value.(steps := s.steps + 1, past := s.past + [s.statuses])
  {
  }

  /** What a call's own step makes of its phase. */
  lemma PhaseMoves(s: State, a: Action, t: State, id: nat)
    requires Valid(s) && id in s.calls && CallOk(s, s.calls[id]) && CallAct(s, id, s.calls[id], a).Some?
    requires t == CallAct(s, id, s.calls[id], a).value.(steps := s.steps + 1, past := s.past + [s.statuses])
    requires id in t.calls && CallOk(t, s.calls[id]) && Grows(s, t)
    ensures CallOk(t, t.calls[id])
  {
  }

  lemma CallsStay(s: State, a: Action, t: State, id: nat)
    requires Valid(s) && Step(s, a) == Some(t) && Moves(s, t) && id in t.calls
    ensures CallOk(t, t.calls[id])
  {
    CallMoves(s, a, t, id);
    if id in s.calls {
      CallStays(s, t, s.calls[id]);
      if t.calls[id] != s.calls[id] {
        PhaseMoves(s, a, t, id);
      }
    } else {
      ReadNow(s, t, a.hash);
    }
  }

  /** An insert mints what the checks cleared: no purge that caught the token alive came before the read. */
  lemma MintNow(s: State, call: Call, drawn: string)
    requires Valid(s) && CallOk(s, call) && call.phase.Updated?
    ensures MintOk(s, MintOf(s, call, drawn))
  {
    forall p | p in s.purges
      ensures call.hash in p.live ==> call.readStep < p.step
      ensures call.hash in p.all ==> call.readAt < p.at + GRACE_MS
    {
      assert PurgeOk(s, p) && Ordered(call.readAt, call.readStep, p);
    }
  }

  lemma MintsStay(s: State, a: Action, t: State, m: Mint)
    requires Valid(s) && Step(s, a) == Some(t) && Moves(s, t) && m in t.mints
    ensures MintOk(t, m) && m.tenantStep < m.mintStep < t.steps
  {
    if m in s.mints {
      MintStays(s, t, m);
    } else {
      var call := s.calls[a.id];
      MintNow(s, call, a.drawn);
      MintStays(s, t, MintOf(s, call, a.drawn));
    }
  }

  lemma StepValid(s: State, a: Action, t: State)
    requires Valid(s) && Step(s, a) == Some(t)
    ensures Valid(t)
  {
    StepMoves(s, a, t);
    forall id | id in t.calls ensures CallOk(t, t.calls[id]) {
      CallsStay(s, a, t, id);
    }
    forall m | m in t.mints ensures MintOk(t, m) && m.tenantStep < m.mintStep < t.steps {
      MintsStay(s, a, t, m);
    }
    forall p | p in t.purges ensures PurgeOk(t, p) {
      PurgeStays(s, t, p);
    }
    RevocationsPast(s, a, t);
    ReadStepsApart(s, a, t);
  }

  lemma ReadStepsApart(s: State, a: Action, t: State)
    requires Valid(s) && Step(s, a) == Some(t)
    ensures forall i, j :: i in t.calls && j in t.calls && i != j ==> t.calls[i].readStep != t.calls[j].readStep
  {
    assert forall i <- s.calls :: CallOk(s, s.calls[i]);
    forall i, j | i in t.calls && j in t.calls && i != j ensures t.calls[i].readStep != t.calls[j].readStep {
      CallMoves(s, a, t, i);
      CallMoves(s, a, t, j);
      if i in s.calls && j in s.calls {
        assert s.calls[i].readStep != s.calls[j].readStep;
      }
    }
  }

  lemma RevocationsPast(s: State, a: Action, t: State)
    requires Valid(s) && Step(s, a) == Some(t)
    ensures forall h <- t.table :: t.table[h].revokedAt.Some? ==> t.table[h].revokedAt.value <= t.now
  {
  }

  lemma {:induction false} ExecValid(s: State, acts: seq<Action>, t: State)
    requires Valid(s) && Exec(s, acts) == Some(t)
    ensures Valid(t)
    decreases |acts|
  {
    if acts != [] {
      var next := Step(s, acts[0]).value;
      StepValid(s, acts[0], next);
      ExecValid(next, acts[1..], t);
    }
  }

  // ----- the theorems -----

  /** Every refresh that minted read its token before expiry and less than GRACE_MS after the token's revocation
      time, unless a logout or theft response caught the token between that read and the mint. */
  lemma MintsEndWithTheGraceWindow(now: int, acts: seq<Action>, s: State, m: Mint)
    requires Exec(Init(now), acts) == Some(s) && m in s.mints
    ensures m.hash in s.table && m.readAt <= s.table[m.hash].expiresAt
    ensures s.table[m.hash].revokedAt.Some?
    ensures m.readAt < s.table[m.hash].revokedAt.value + GRACE_MS || Straddled(s, m.hash, m.readStep)
  {
    ExecValid(Init(now), acts, s);
    assert MintOk(s, m);
  }

  /** Over any history of interleaved refreshes: a token that was unrevoked when a logout or theft response ran mints
      only for a refresh that had read it before; and no refresh whose read comes GRACE_MS or more after that
      moment mints from any token of the user that existed then. */
  lemma PurgedTokensStayDead(now: int, acts: seq<Action>, s: State, p: Purge, m: Mint)
    requires Exec(Init(now), acts) == Some(s) && p in s.purges && m in s.mints
    ensures m.hash in p.live ==> m.readStep < p.step
    ensures m.hash in p.all ==> m.readAt < p.at + GRACE_MS
  {
    ExecValid(Init(now), acts, s);
    assert MintOk(s, m);
  }

  /** Every mint's user was found active, and then the user's tenant, each at its own moment between that refresh's
      read of the token and its insert. */
  lemma MintsFoundUserAndTenantActive(now: int, acts: seq<Action>, s: State, m: Mint)
    requires Exec(Init(now), acts) == Some(s) && m in s.mints
    ensures m.hash in s.table && m.readStep < m.userStep < m.tenantStep < m.mintStep < |s.past|
    ensures s.table[m.hash].userId in s.past[m.userStep].users
    ensures s.table[m.hash].userId in s.past[m.tenantStep].tenants
  {
    ExecValid(Init(now), acts, s);
    assert MintOk(s, m);
  }

  /** The record of statuses is the run's own. */
  lemma {:induction false} PastIsTheRun(s: State, acts: seq<Action>, t: State, k: nat)
    requires Valid(s) && Exec(s, acts) == Some(t) && k < |acts|
    ensures Exec(s, acts[..k]).Some? && t.steps == s.steps + |acts| == |t.past|
    ensures t.past[s.steps + k] == Exec(s, acts[..k]).value.statuses
    decreases |acts|
  {
    var next := After(s, acts[0]);
    StepValid(s, acts[0], next);
    PastGrows(next, acts[1..], t);
    if k > 0 {
      PastIsTheRun(next, acts[1..], t, k - 1);
      assert acts[..k][1..] == acts[1..][..k - 1] && acts[..k][0] == acts[0];
    }
  }

  lemma {:induction false} PastGrows(s: State, acts: seq<Action>, t: State)
    requires Valid(s) && Exec(s, acts) == Some(t)
    ensures s.past <= t.past && t.steps == s.steps + |acts| == |t.past|
    decreases |acts|
  {
    if acts != [] {
      StepValid(s, acts[0], After(s, acts[0]));
      PastGrows(After(s, acts[0]), acts[1..], t);
    }
  }

  function After(s: State, a: Action): State
    requires Step(s, a).Some?
  {
    Step(s, a).value
  }

  // ----- what a refresh in flight can still do -----

  /** The call can still insert a token, if its user and tenant are active when it asks: its token has passed the
      checks, or would pass them now. */
  predicate CanMint(call: Call, now: int) {
    match call.phase
    case Fetched => !IsTheft(call.row, now) && call.row.expiresAt >= now
    case Theft => false
    case _ => true
  }

  /** No call that read at that step can mint any more. */
  predicate Spent(s: State, readStep: nat) {
    readStep < s.steps && forall id <- s.calls :: s.calls[id].readStep == readStep ==> !CanMint(s.calls[id], s.now)
  }

  /** One of the mints since `s` is of the refresh that read at that step. */
  ghost predicate MintedSince(s: State, t: State, readStep: nat) {
    exists i :: |s.mints| <= i < |t.mints| && t.mints[i].readStep == readStep
  }

  lemma {:induction false} SpentRun(s: State, acts: seq<Action>, t: State, readStep: nat)
    requires Spent(s, readStep) && Exec(s, acts) == Some(t)
    ensures |s.mints| <= |t.mints| && !MintedSince(s, t, readStep)
    decreases |acts|
  {
    if acts != [] {
      var next := Step(s, acts[0]).value;
      SpentRun(next, acts[1..], t, readStep);
      MintsGrow(next, acts[1..], t);
      if |next.mints| > |s.mints| {
        assert next.mints[|s.mints|].readStep != readStep;
      }
    }
  }

  lemma {:induction false} MintsGrow(s: State, acts: seq<Action>, t: State)
    requires Exec(s, acts) == Some(t)
    ensures s.mints <= t.mints
    decreases |acts|
  {
    if acts != [] {
      MintsGrow(Step(s, acts[0]).value, acts[1..], t);
    }
  }

  lemma {:induction false} LongerThanAll(hashes: set<string>) returns (n: nat)
    ensures forall h <- hashes :: |h| < n
    decreases |hashes|
  {
    if hash :| hash in hashes {
      var rest := LongerThanAll(hashes - {hash});
      n := if |hash| < rest then rest else |hash| + 1;
      assert forall h <- hashes :: h == hash || h in hashes - {hash};
    } else {
      n := 0;
    }
  }

  lemma NewHash(table: Table) returns (hash: string)
    ensures hash !in table
  {
    var n := LongerThanAll(table.Keys);
    hash := seq(n, _ => 'a');
  }

  /** `t` is `s` with one more mint, of the call, whose drawn token is live. */
  ghost predicate MintedBy(s: State, t: State, call: Call) {
    && |t.mints| == |s.mints| + 1
    && t.mints[|s.mints|].readStep == call.readStep
    && t.mints[|s.mints|].drawn in t.table
    && var token := t.table[t.mints[|s.mints|].drawn];
       token.userId == call.row.userId && token.revokedAt.None?
  }

  predicate NoLogin(acts: seq<Action>, userId: string) {
    forall i :: 0 <= i < |acts| ==> !(acts[i].Login? && acts[i].userId == userId)
  }

  /** How far a call is from its insert; a status that is still to be read may have to change first. */
  function Distance(s: State, call: Call): nat {
    match call.phase
    case Fetched => 6
    case Theft => 0
    case Passed(_) => if call.row.userId in s.statuses.users then 4 else 5
    case UserSeen(_, _) => if call.row.userId in s.statuses.tenants then 2 else 3
    case Approved(_, _, _) => 1
    case Updated(_, _, _) => 0
  }

  /** The next statement of a call, after the change of status that it needs, if any. */
  function Onward(s: State, id: nat, call: Call): Action {
    match call.phase
    case Fetched => Check(id)
    case Passed(_) =>
      if call.row.userId in s.statuses.users then ReadUser(id) else SetUsers(s.statuses.users + {call.row.userId})
    case UserSeen(_, _) =>
      if call.row.userId in s.statuses.tenants then ReadTenant(id)
      else SetTenants(s.statuses.tenants + {call.row.userId})
    case _ => Rotate(id)
  }

  /** Check, status reads, update and insert, as far as they are still to come. */
  lemma MintsFrom(s: State, id: nat) returns (acts: seq<Action>, t: State)
    requires id in s.calls && s.calls[id].hash in s.table && CanMint(s.calls[id], s.now)
    ensures Exec(s, acts) == Some(t) && MintedBy(s, t, s.calls[id]) && NoLogin(acts, s.calls[id].row.userId)
    decreases Distance(s, s.calls[id])
  {
    if s.calls[id].phase.Updated? {
      var drawn := NewHash(s.table);
      acts, t := [Insert(id, drawn)], After(s, Insert(id, drawn));
      assert Exec(t, acts[1..]) == Some(t);
    } else {
      var a := Onward(s, id, s.calls[id]);
      var next := After(s, a);
      acts, t := MintsFrom(next, id);
      assert ([a] + acts)[1..] == acts;
      acts := [a] + acts;
    }
  }

  /** Whatever logouts come in between, a refresh in flight can still mint exactly when it passed its checks or would
      pass them now. */
  lemma InFlightMintsExactly(s: State, id: nat)
    requires Valid(s) && id in s.calls
    ensures (exists acts, t :: Exec(s, acts) == Some(t) && MintedSince(s, t, s.calls[id].readStep))
       <==> CanMint(s.calls[id], s.now)
  {
    var call := s.calls[id];
    assert CallOk(s, call);
    if CanMint(call, s.now) {
      var acts, t := MintsFrom(s, id);
      assert MintedSince(s, t, call.readStep);
    } else {
      forall acts, t | Exec(s, acts) == Some(t) ensures !MintedSince(s, t, call.readStep) {
        SpentRun(s, acts, t, call.readStep);
      }
    }
  }

  /** A refresh that straddles a logout or theft response, wherever that falls: if its token was caught alive, it can
      still mint exactly when it read the token before, and has checked it or finds it unexpired now. */
  lemma StraddlingRefreshExactly(now: int, acts: seq<Action>, s: State, p: Purge, id: nat)
    requires Exec(Init(now), acts) == Some(s) && p in s.purges && id in s.calls && s.calls[id].hash in p.live
    ensures
      var call := s.calls[id];
      (exists more, t :: Exec(s, more) == Some(t) && MintedSince(s, t, call.readStep))
      <==> call.readStep < p.step && (call.phase.Fetched? ==> call.row.expiresAt >= s.now)
  {
    ExecValid(Init(now), acts, s);
    assert CallOk(s, s.calls[id]) && PurgeOk(s, p);
    InFlightMintsExactly(s, id);
  }

  lemma {:induction false} Then(s: State, acts: seq<Action>, mid: State, a: Action)
    requires Exec(s, acts) == Some(mid) && Step(mid, a).Some?
    ensures Exec(s, acts + [a]) == Step(mid, a)
    decreases |acts|
  {
    if acts == [] {
      assert acts + [a] == [a];
      assert Exec(After(mid, a), [a][1..]) == Step(mid, a);
    } else {
      Then(After(s, acts[0]), acts[1..], mid, a);
      assert (acts + [a])[1..] == acts[1..] + [a];
    }
  }

  /** The statements of a refresh that nothing interferes with. */
  function StatementsOf(s: State, id: nat, hash: string, drawn: string): seq<Action>
    requires hash in s.table
  {
    var token := s.table[hash];
    if IsTheft(token, s.now) then [Read(id, hash), Check(id), Punish(id)]
    else if token.expiresAt < s.now then [Read(id, hash), Check(id)]
    else if token.userId !in s.statuses.users then [Read(id, hash), Check(id), ReadUser(id)]
    else if token.userId !in s.statuses.tenants then [Read(id, hash), Check(id), ReadUser(id), ReadTenant(id)]
    else [Read(id, hash), Check(id), ReadUser(id), ReadTenant(id), Rotate(id), Insert(id, drawn)]
  }

  /** `refresh` without interference is its statements in order: read and check, and then the family revocation, or
      the two status reads, the update and the insert, or a refusal. */
  lemma RefreshIsItsStatements(s: State, id: nat, hash: string, drawn: string)
    requires hash in s.table && drawn !in s.table && id !in s.calls
    ensures
      var active := s.table[hash].userId in s.statuses.users && s.table[hash].userId in s.statuses.tenants;
      var t := Exec(s, StatementsOf(s, id, hash, drawn));
      && t.Some? && t.value.calls == s.calls && [Read(id, hash), Check(id)] <= StatementsOf(s, id, hash, drawn)
      && t.value.table == Refreshed(s.table, hash, active, drawn, s.now)
      && |t.value.mints| == |s.mints| + if Mints(s.table, hash, active, s.now) then 1 else 0
  {
    var token := s.table[hash];
    var t := ReadAndCheck(s, id, hash);
    var acts := [Read(id, hash), Check(id)];
    if IsTheft(token, s.now) {
      Then(s, acts, t, Punish(id));
      assert acts + [Punish(id)] == StatementsOf(s, id, hash, drawn);
      assert After(t, Punish(id)).calls == s.calls;
    } else if token.expiresAt >= s.now {
      acts, t := StatusStatements(s, t, id, hash);
      if token.userId in s.statuses.users && token.userId in s.statuses.tenants {
        t := MintStatements(s, acts, t, id, hash, drawn);
        acts := acts + [Rotate(id), Insert(id, drawn)];
      }
      assert acts == StatementsOf(s, id, hash, drawn);
    }
  }

  /** Read and check, with nothing in between. */
  lemma ReadAndCheck(s: State, id: nat, hash: string) returns (t: State)
    requires hash in s.table && id !in s.calls
    ensures Exec(s, [Read(id, hash), Check(id)]) == Some(t)
    ensures t.table == s.table && t.now == s.now && t.mints == s.mints && t.statuses == s.statuses
    ensures
      var token := s.table[hash];
      var phase := if IsTheft(token, s.now) then Theft else Passed(s.now);
      t.calls == if !IsTheft(token, s.now) && token.expiresAt < s.now then s.calls
                 else s.calls[id := Call(hash, token, s.now, s.steps, phase)]
  {
    Then(s, [], s, Read(id, hash));
    assert [] + [Read(id, hash)] == [Read(id, hash)];
    var read := After(s, Read(id, hash));
    Then(s, [Read(id, hash)], read, Check(id));
    t := After(read, Check(id));
    assert [Read(id, hash)] + [Check(id)] == [Read(id, hash), Check(id)];
    assert s.calls[id := Call(hash, s.table[hash], s.now, s.steps, Fetched)] - {id} == s.calls;
  }

  /** The two status reads, of which the second comes only after a first that found the user active. */
  lemma StatusStatements(s: State, mid: State, id: nat, hash: string) returns (acts: seq<Action>, t: State)
    requires hash in s.table && id !in s.calls && Exec(s, [Read(id, hash), Check(id)]) == Some(mid)
    requires mid.table == s.table && mid.now == s.now && mid.mints == s.mints && mid.statuses == s.statuses
    requires mid.calls == s.calls[id := Call(hash, s.table[hash], s.now, s.steps, Passed(s.now))]
    ensures Exec(s, acts) == Some(t)
    ensures
      var userId := s.table[hash].userId;
      && acts == [Read(id, hash), Check(id), ReadUser(id)]
                 + (if userId in s.statuses.users then [ReadTenant(id)] else [])
      && t.table == s.table && t.now == s.now && t.mints == s.mints
      && if userId in s.statuses.users && userId in s.statuses.tenants
         then id in t.calls && t.calls - {id} == s.calls && t.calls[id].phase.Approved?
              && t.calls[id].hash == hash && t.calls[id].row == s.table[hash]
         else t.calls == s.calls
  {
    acts := [Read(id, hash), Check(id)];
    Then(s, acts, mid, ReadUser(id));
    acts, t := acts + [ReadUser(id)], After(mid, ReadUser(id));
    assert mid.calls - {id} == s.calls;
    if s.table[hash].userId in s.statuses.users {
      Then(s, acts, t, ReadTenant(id));
      acts, t := acts + [ReadTenant(id)], After(t, ReadTenant(id));
      assert t.calls - {id} == s.calls;
    }
  }

  /** Update and insert, once both statuses were found in order. */
  lemma MintStatements(s: State, acts: seq<Action>, mid: State, id: nat, hash: string, drawn: string)
    returns (t: State)
    requires Exec(s, acts) == Some(mid) && id in mid.calls && id !in s.calls && mid.calls - {id} == s.calls
    requires hash in s.table && drawn !in s.table && mid.table == s.table && mid.now == s.now && mid.mints == s.mints
    requires mid.calls[id].phase.Approved? && mid.calls[id].hash == hash && mid.calls[id].row == s.table[hash]
    requires Mints(s.table, hash, true, s.now)
    ensures Exec(s, acts + [Rotate(id), Insert(id, drawn)]) == Some(t)
    ensures t.calls == s.calls && t.table == Refreshed(s.table, hash, true, drawn, s.now) && |t.mints| == |s.mints| + 1
  {
    Then(s, acts, mid, Rotate(id));
    var rotated := After(mid, Rotate(id));
    Then(s, acts + [Rotate(id)], rotated, Insert(id, drawn));
    t := After(rotated, Insert(id, drawn));
    assert acts + [Rotate(id)] + [Insert(id, drawn)] == acts + [Rotate(id), Insert(id, drawn)];
    assert s.table[hash].revokedAt.Some? ==> s.table[hash := Rotated(s.table[hash], s.now)] == s.table;
  }

  // ----- exactly what a refresh and a logout write -----

  /** A revocation writes the user's unrevoked tokens, dated back by the grace window, and nothing else. */
  lemma RevokedExactly(table: Table, userId: string, now: int)
    ensures
      var after := Revoked(table, userId, now);
      && after.Keys == table.Keys
      && forall h <- table ::
           && after[h].userId == table[h].userId && after[h].expiresAt == table[h].expiresAt
           && after[h].revokedAt == (if table[h].userId == userId && table[h].revokedAt.None? then Some(now - 60_000)
                                     else table[h].revokedAt)
  {
  }

  /** A refresh mints exactly for a known token of an active user and tenant, until it expires and until a minute after
      its rotation. It then adds one token of the same user, unrevoked and good for fourteen days, and dates the
      rotation if it is the first. Otherwise it writes nothing, but for the family of a token reused too late: that is
      revoked, whoever the user is. */
  lemma RefreshExactly(table: Table, hash: string, active: bool, drawn: string, now: int)
    requires drawn !in table
    ensures
      var minted, after := Mints(table, hash, active, now), Refreshed(table, hash, active, drawn, now);
      var late := hash in table && table[hash].revokedAt.Some? && now - table[hash].revokedAt.value >= 60_000;
      && (minted <==> hash in table && !late && active && now <= table[hash].expiresAt)
      && (minted ==>
            && after.Keys == table.Keys + {drawn}
            && after[drawn] == Token(table[hash].userId, now + 1_209_600_000, None)
            && after[hash].userId == table[hash].userId && after[hash].expiresAt == table[hash].expiresAt
            && after[hash].revokedAt
               == (if table[hash].revokedAt.Some? then table[hash].revokedAt else Some(now))
            && forall h <- table :: h != hash ==> after[h] == table[h])
      && (late ==> after == Revoked(table, table[hash].userId, now))
      && (!minted && !late ==> after == table)
  {
  }

  // ----- logout -----

  /** No token of the user is unrevoked. */
  predicate SessionOver(table: Table, userId: string) {
    forall h <- table :: table[h].userId == userId ==> table[h].revokedAt.Some?
  }

  /** The user's tokens are past their grace window or expired, and none of the user's refreshes can mint. */
  predicate NothingLeft(s: State, userId: string) {
    && (forall h <- s.table :: s.table[h].userId == userId && s.table[h].revokedAt.Some? ==>
          s.now >= s.table[h].revokedAt.value + GRACE_MS || s.table[h].expiresAt < s.now)
    && (forall id <- s.calls :: s.calls[id].row.userId == userId ==> !CanMint(s.calls[id], s.now))
  }

  /** Every token of the user is dead to a refresh. */
  predicate TokensDead(s: State, userId: string) {
    forall h <- s.table :: s.table[h].userId == userId ==>
        IsTheft(s.table[h], s.now) || (s.table[h].revokedAt.Some? && s.table[h].expiresAt < s.now)
  }

  lemma OverTokens(s: State, a: Action, t: State, userId: string)
    requires TokensDead(s, userId) && NothingLeft(s, userId) && s.now <= t.now
    requires Writes(s, a, t) && !(a.Login? && a.userId == userId)
    ensures TokensDead(t, userId)
  {
  }

  lemma OverCalls(s: State, a: Action, t: State, userId: string)
    requires TokensDead(s, userId) && NothingLeft(s, userId) && Step(s, a) == Some(t)
    ensures forall id <- t.calls :: t.calls[id].row.userId == userId ==> !CanMint(t.calls[id], t.now)
  {
  }

  lemma OverStep(s: State, a: Action, t: State, userId: string)
    requires Valid(s) && SessionOver(s.table, userId) && NothingLeft(s, userId)
    requires Step(s, a) == Some(t) && !(a.Login? && a.userId == userId)
    ensures SessionOver(t.table, userId) && NothingLeft(t, userId)
  {
    assert TokensDead(s, userId);
    StepWrites(s, a, t);
    OverTokens(s, a, t, userId);
    OverCalls(s, a, t, userId);
    assert SessionOver(t.table, userId);
  }

  lemma {:induction false} OverRun(s: State, acts: seq<Action>, t: State, userId: string)
    requires Valid(s) && SessionOver(s.table, userId) && NothingLeft(s, userId)
    requires Exec(s, acts) == Some(t) && NoLogin(acts, userId)
    ensures SessionOver(t.table, userId)
    decreases |acts|
  {
    if acts != [] {
      var next := Step(s, acts[0]).value;
      StepValid(s, acts[0], next);
      OverStep(s, acts[0], next, userId);
      OverRun(next, acts[1..], t, userId);
    }
  }

  /** A token within its grace window is read and mints. */
  lemma GraceMints(s: State, hash: string) returns (acts: seq<Action>, t: State)
    requires hash in s.table && !IsTheft(s.table[hash], s.now) && s.table[hash].expiresAt >= s.now
    ensures Exec(s, acts) == Some(t) && NoLogin(acts, s.table[hash].userId)
            && !SessionOver(t.table, s.table[hash].userId)
  {
    var id := NewId(s.calls.Keys);
    var next := After(s, Read(id, hash));
    acts, t := MintsFrom(next, id);
    assert ([Read(id, hash)] + acts)[1..] == acts;
    acts := [Read(id, hash)] + acts;
  }

  lemma {:induction false} NewId(ids: set<nat>) returns (id: nat)
    ensures forall i <- ids :: i < id
    decreases |ids|
  {
    if x :| x in ids {
      var rest := NewId(ids - {x});
      id := if x < rest then rest else x + 1;
      assert forall i <- ids :: i == x || i in ids - {x};
    } else {
      id := 0;
    }
  }

  /** A logout ends the session for good, until the next login, exactly when no unexpired token of the user is still
      within the grace window of its rotation and no refresh in flight can still mint. */
  lemma LogoutIsFinalExactly(s: State, userId: string, t: State)
    requires Valid(s) && Step(s, LogoutUser(userId)) == Some(t)
    ensures (forall acts, u :: Exec(t, acts) == Some(u) && NoLogin(acts, userId) ==> SessionOver(u.table, userId))
       <==> NothingLeft(s, userId)
  {
    StepValid(s, LogoutUser(userId), t);
    if NothingLeft(s, userId) {
      forall acts, u | Exec(t, acts) == Some(u) && NoLogin(acts, userId) ensures SessionOver(u.table, userId) {
        OverRun(t, acts, u, userId);
      }
    } else if id :| id in s.calls && s.calls[id].row.userId == userId && CanMint(s.calls[id], s.now) {
      assert CallOk(s, s.calls[id]);
      var acts, u := MintsFrom(t, id);
      assert !SessionOver(u.table, userId);
    } else {
      var h :| h in s.table && s.table[h].userId == userId && s.table[h].revokedAt.Some?
               && !(s.now >= s.table[h].revokedAt.value + GRACE_MS || s.table[h].expiresAt < s.now);
      var acts, u := GraceMints(t, h);
      assert Exec(t, acts) == Some(u);
    }
  }
}
