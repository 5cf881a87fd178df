/** internal/db/sessions.go: the session table over time. */
module Sessions {
  import opened Common

  const ACCESS_TTL: int := 15 * MINUTE
  const REFRESH_WINDOW: int := 7 * 24 * HOUR

  datatype Session = Session(
    user: nat, createdAt: Time, expiresAt: Time, refreshedAt: Time, userAgent: string)

  type Table = map<string, Session>  // keyed by the session id

  datatype Role = Admin | Operator | Viewer

  datatype User = User(email: string, role: Role)

  /** What RequireSession gets: the session joined with its user. */
  datatype SessionWithUser = SessionWithUser(session: Session, email: string, role: Role)

  // ---------- the statements ----------

  function Insert(rows: Table, id: string, user: nat, ttl: int, userAgent: string, now: Time): Option<Table> {
    if id in rows then None else Some(rows[id := Session(user, now, now + ttl, now, userAgent)])
  }

  predicate Active(rows: Table, id: string, now: Time) {
    id in rows && rows[id].expiresAt > now
  }

  /** expires_at is deliberately not checked: only the refresh window is a hard cap. */
  predicate Renewable(rows: Table, id: string, window: int, now: Time) {
    id in rows && now - rows[id].createdAt <= window
  }

  function Renewed(s: Session, ttl: int, now: Time): Session {
    s.(refreshedAt := now, expiresAt := now + ttl)
  }

  /** SELECT ... FOR UPDATE, the window check and the UPDATE of the primary key, in one transaction. */
  function RotateRow(rows: Table, oldId: string, newId: string, ttl: int, window: int, now: Time): Option<Table> {
    if Renewable(rows, oldId, window, now) && (newId == oldId || newId !in rows) then
      Some((rows - {oldId})[newId := Renewed(rows[oldId], ttl, now)])
    else
      None
  }

  function Purge(rows: Table, now: Time): Table {
    map id | id in rows && !(rows[id].expiresAt < now) :: rows[id]
  }

  // ---------- the store ----------

  datatype RotateError = Rotated | NotFound | Conflict

  class SessionStore {
    var rows: Table
    var users: map<nat, User>

    /** sessions.user_id REFERENCES users, from which no row is ever removed. */
    ghost predicate Valid()
      reads this
    {
      forall id :: id in rows ==> rows[id].user in users
    }

    constructor ()
      ensures Valid() && rows == map[] && users == map[]
    {
      rows, users := map[], map[];
    }

    /** The row with the next serial, unless the email is taken. */
    method CreateUser(id: nat, user: User) returns (ok: bool)
      requires Valid() && id !in users
      modifies this`users
      ensures Valid()
      ensures ok <==> forall u :: u in old(users) ==> old(users)[u].email != user.email
      ensures users == if ok then old(users)[id := user] else old(users)
    {
      ok := forall u :: u in users ==> users[u].email != user.email;
      if ok {
        users := users[id := user];
      }
    }

    /** Refused for a used id and for an unknown user. */
    method Create(id: string, user: nat, ttl: int, userAgent: string, now: Time) returns (ok: bool)
      requires Valid()
      modifies this`rows
      ensures Valid()
      ensures var t := Insert(old(rows), id, user, ttl, userAgent, now);
              ok == (user in users && t.Some?) && rows == if ok then t.value else old(rows)
    {
      ok := user in users && id !in rows;
      if ok {
        rows := rows[id := Session(user, now, now + ttl, now, userAgent)];
      }
    }

    /** GetActiveWithUser: the join never drops an active session, as its user is there. */
    method GetActive(id: string, now: Time) returns (s: Option<SessionWithUser>)
      requires Valid()
      ensures s.Some? <==> Active(rows, id, now)
      ensures s.Some? ==> s.value.session == rows[id] && rows[id].user in users
                          && User(s.value.email, s.value.role) == users[rows[id].user]
    {
      s := None;
      if id in rows {
        var row := rows[id];
        if row.user in users && row.expiresAt > now {
          s := Some(SessionWithUser(row, users[row.user].email, users[row.user].role));
        }
      }
    }

    method Delete(id: string)
      requires Valid()
      modifies this`rows
      ensures Valid()
      ensures rows == old(rows) - {id}
    {
      rows := rows - {id};
    }

    method PurgeExpired(now: Time) returns (removed: nat)
      requires Valid()
      modifies this`rows
      ensures Valid()
      ensures rows == Purge(old(rows), now)
      ensures removed == |set id | id in old(rows) && old(rows)[id].expiresAt < now|
    {
      var expired := set id | id in rows && rows[id].expiresAt < now;
      removed := |expired|;
      rows := rows - expired;
    }

    /** An unknown id and a session past the window give the same answer. */
    method Rotate(oldId: string, newId: string, ttl: int, window: int, now: Time)
      returns (err: RotateError, s: Option<Session>)
      requires Valid()
      modifies this`rows
      ensures Valid()
      ensures var t := RotateRow(old(rows), oldId, newId, ttl, window, now);
              && (err == Rotated <==> t.Some?)
              && rows == (if t.Some? then t.value else old(rows))
              && s == (if t.Some? then Some(rows[newId]) else None)
      ensures err == NotFound <==> !Renewable(old(rows), oldId, window, now)
    {
      s := None;
      if oldId !in rows {
        return NotFound, None;
      }
      var row := rows[oldId];
      if now - row.createdAt > window {
        return NotFound, None;
      }
      if newId != oldId && newId in rows {
        return Conflict, None;
      }
      var next := row.(refreshedAt := now, expiresAt := now + ttl);
      rows := (rows - {oldId})[newId := next];
      return Rotated, Some(next);
    }
  }

  // ---------- runs ----------

  datatype Op =
    | Login(id: string, user: nat, userAgent: string, now: Time)
    | Refresh(oldId: string, newId: string, now: Time)
    | Logout(id: string, now: Time)
    | Sweep(now: Time)

  function Result(rows: Table, op: Op): Option<Table> {
    match op
    case Login(id, user, ua, now) => Insert(rows, id, user, ACCESS_TTL, ua, now)
    case Refresh(oldId, newId, now) => RotateRow(rows, oldId, newId, ACCESS_TTL, REFRESH_WINDOW, now)
    case Logout(id, _) => Some(rows - {id})
    case Sweep(now) => Some(Purge(rows, now))
  }

  function Apply(rows: Table, op: Op): Table {
    var r := Result(rows, op);
    if r.Some? then r.value else rows
  }

  function After(ops: seq<Op>): Table {
    if ops == [] then map[] else Apply(After(ops[..|ops| - 1]), ops[|ops| - 1])
  }

  predicate Ordered(ops: seq<Op>) {
    forall i, j :: 0 <= i < j < |ops| ==> ops[i].now <= ops[j].now
  }

  /** The id an operation would bring in. */
  function NewId(op: Op): Option<string> {
    match op
    case Login(id, _, _, _) => Some(id)
    case Refresh(_, newId, _) => Some(newId)
    case _ => None
  }

  /** 32 random bytes: no id is drawn twice. */
  predicate FreshIds(ops: seq<Op>) {
    forall i, j :: 0 <= i < j < |ops| && NewId(ops[i]).Some? ==> NewId(ops[j]) != NewId(ops[i])
  }

  /** Some operation brought this id in. */
  predicate Drawn(ops: seq<Op>, id: string) {
    exists i :: 0 <= i < |ops| && NewId(ops[i]) == Some(id)
  }

  lemma DrawnLater(ops: seq<Op>, id: string)
    requires ops != [] && Drawn(ops[..|ops| - 1], id)
    ensures Drawn(ops, id)
  {
    var i :| 0 <= i < |ops| - 1 && NewId(ops[..|ops| - 1][i]) == Some(id);
    assert ops[i] == ops[..|ops| - 1][i];
  }

  lemma {:induction false} RowsAreDrawn(ops: seq<Op>)
    ensures forall id :: id in After(ops) ==> Drawn(ops, id)
  {
    if ops != [] {
      var k := |ops| - 1;
      RowsAreDrawn(ops[..k]);
      forall id | id in After(ops)
        ensures Drawn(ops, id)
      {
        if NewId(ops[k]) != Some(id) {
          assert id in After(ops[..k]);
          DrawnLater(ops, id);
        }
      }
    }
  }

  /** Under fresh ids, what the last operation brings in was never there before. */
  lemma NewIdIsNew(ops: seq<Op>)
    requires ops != [] && FreshIds(ops)
    ensures var k := |ops| - 1;
            NewId(ops[k]).Some? ==> NewId(ops[k]).value !in After(ops[..k]) && !Drawn(ops[..k], NewId(ops[k]).value)
  {
    RowsAreDrawn(ops[..|ops| - 1]);
  }

  // ---------- lineage ----------

  /** The login each accepted id descends from, as an index into ops. */
  function Origin(ops: seq<Op>): map<string, nat> {
    if ops == [] then map[]
    else
      var k := |ops| - 1;
      var m := Origin(ops[..k]);
      var op := ops[k];
      if op.Login? && Result(After(ops[..k]), op).Some? then m[op.id := k]
      else if op.Refresh? && Result(After(ops[..k]), op).Some? && op.oldId in m then m[op.newId := m[op.oldId]]
      else m
  }

  /** One row of a login: it is the login's own user and creation time, within the lifetime bounds. */
  predicate Descends(ops: seq<Op>, s: Session, login: nat) {
    && login < |ops| && ops[login].Login?
    && s.user == ops[login].user && s.createdAt == ops[login].now && s.userAgent == ops[login].userAgent
    && s.expiresAt == s.refreshedAt + 15 * 60 * 1_000_000_000
    && s.createdAt <= s.refreshedAt <= s.createdAt + 7 * 24 * 3600 * 1_000_000_000
    && s.refreshedAt <= ops[|ops| - 1].now
  }

  /** Every row descends from a login. */
  ghost predicate AllDescend(ops: seq<Op>) {
    forall id :: id in After(ops) ==> id in Origin(ops) && Descends(ops, After(ops)[id], Origin(ops)[id])
  }

  /** No two rows descend from the same login. */
  ghost predicate OneRowEach(ops: seq<Op>) {
    forall x, y :: x in After(ops) && y in After(ops) && x in Origin(ops) && y in Origin(ops) ==>
      (Origin(ops)[x] == Origin(ops)[y] ==> x == y)
  }

  ghost predicate OriginsDrawn(ops: seq<Op>) {
    forall id :: id in Origin(ops) ==> Drawn(ops, id) && Origin(ops)[id] < |ops|
  }

  lemma DescendsLater(ops: seq<Op>, s: Session, login: nat)
    requires |ops| > 1 && Ordered(ops) && Descends(ops[..|ops| - 1], s, login)
    ensures Descends(ops, s, login)
  {
    assert ops[|ops| - 2].now <= ops[|ops| - 1].now;
  }

  lemma OriginsDrawnStep(ops: seq<Op>)
    requires ops != [] && OriginsDrawn(ops[..|ops| - 1])
    ensures OriginsDrawn(ops)
  {
    var k := |ops| - 1;
    forall id | id in Origin(ops)
      ensures Drawn(ops, id)
    {
      if id in Origin(ops[..k]) {
        DrawnLater(ops, id);
      } else {
        assert NewId(ops[k]) == Some(id);
      }
    }
  }

  /** The last operation brings in at most one row; the others are as they were. */
  lemma LastStep(ops: seq<Op>, id: string)
    requires ops != [] && FreshIds(ops) && id in After(ops)
    ensures var k := |ops| - 1; var m, now := After(ops[..k]), ops[k].now;
            || (id in m && After(ops)[id] == m[id] && NewId(ops[k]) != Some(id)
                && (ops[k].Refresh? && Result(m, ops[k]).Some? ==> id != ops[k].oldId))
            || (ops[k].Login? && ops[k].id == id && Result(m, ops[k]).Some?
                && After(ops)[id] == Session(ops[k].user, now, now + ACCESS_TTL, now, ops[k].userAgent))
            || (ops[k].Refresh? && ops[k].newId == id && Renewable(m, ops[k].oldId, REFRESH_WINDOW, now)
                && Result(m, ops[k]).Some? && After(ops)[id] == Renewed(m[ops[k].oldId], ACCESS_TTL, now))
  {
    NewIdIsNew(ops);
  }

  lemma AllDescendStep(ops: seq<Op>)
    requires ops != [] && Ordered(ops) && FreshIds(ops) && AllDescend(ops[..|ops| - 1])
    ensures AllDescend(ops)
  {
    var k := |ops| - 1;
    var m := After(ops[..k]);
    forall id | id in After(ops)
      ensures id in Origin(ops) && Descends(ops, After(ops)[id], Origin(ops)[id])
    {
      LastStep(ops, id);
      if id in m && After(ops)[id] == m[id] && NewId(ops[k]) != Some(id) {
        DescendsLater(ops, m[id], Origin(ops[..k])[id]);
      } else if ops[k].Refresh? {
        DescendsLater(ops, m[ops[k].oldId], Origin(ops[..k])[ops[k].oldId]);
        assert ops[k - 1].now <= ops[k].now;
      }
    }
  }

  lemma OneRowEachStep(ops: seq<Op>)
    requires ops != [] && FreshIds(ops)
    requires AllDescend(ops[..|ops| - 1]) && OneRowEach(ops[..|ops| - 1]) && OriginsDrawn(ops[..|ops| - 1])
    ensures OneRowEach(ops)
  {
    var k := |ops| - 1;
    NewIdIsNew(ops);
    forall x, y | x in After(ops) && y in After(ops) && x in Origin(ops) && y in Origin(ops)
      ensures Origin(ops)[x] == Origin(ops)[y] ==> x == y
    {
      LastStep(ops, x);
      LastStep(ops, y);
    }
  }

  /**
   * Session lineage, in every interleaving of logins, refreshes, logouts and
   * purges: each login owns at most one row, which keeps the login's user and
   * creation time and stays within the access TTL and the refresh window.
   */
  lemma {:induction false} EachLoginOwnsOneRow(ops: seq<Op>)
    requires Ordered(ops) && FreshIds(ops)
    ensures AllDescend(ops) && OneRowEach(ops) && OriginsDrawn(ops)
  {
    if ops != [] {
      EachLoginOwnsOneRow(ops[..|ops| - 1]);
      OriginsDrawnStep(ops);
      AllDescendStep(ops);
      OneRowEachStep(ops);
    }
  }

  lemma {:induction false} ExpiryIsCapped(ops: seq<Op>, id: string)
    requires Ordered(ops) && FreshIds(ops) && id in After(ops)
    ensures After(ops)[id].expiresAt <=
            After(ops)[id].createdAt + 7 * 24 * 3600 * 1_000_000_000 + 15 * 60 * 1_000_000_000
  {
    EachLoginOwnsOneRow(ops);
  }

  // ---------- what a refresh does ----------

  /** Under fresh ids a row carries the time of the login or refresh that drew its id, and expires 15 minutes later. */
  lemma {:induction false} RowTellsItsDraw(ops: seq<Op>, id: string, i: nat)
    requires FreshIds(ops) && id in After(ops) && i < |ops| && NewId(ops[i]) == Some(id)
    ensures After(ops)[id].refreshedAt == ops[i].now
    ensures After(ops)[id].expiresAt == ops[i].now + 15 * 60 * 1_000_000_000
  {
    var k := |ops| - 1;
    LastStep(ops, id);
    if i < k {
      assert NewId(ops[k]) != Some(id) && ops[..k][i] == ops[i];
      RowTellsItsDraw(ops[..k], id, i);
    }
  }

  /**
   * A refresh under a new id is accepted if and only if the old id has a row
   * and its login is at most seven days old. It moves the row to the new id,
   * keeps its user, creation time and user agent, and lets it run for another
   * 15 minutes from now, however much time it had left.
   */
  lemma {:induction false} RefreshRenews(ops: seq<Op>, oldId: string, newId: string, now: Time)
    requires Ordered(ops) && FreshIds(ops + [Refresh(oldId, newId, now)])
    ensures var m := After(ops); var r := Result(m, Refresh(oldId, newId, now));
            && (r.Some? <==> oldId in m && oldId in Origin(ops) && Origin(ops)[oldId] < |ops|
                             && now - ops[Origin(ops)[oldId]].now <= 7 * 24 * 3600 * 1_000_000_000)
            && (r.Some? ==> r.value == (m - {oldId})[newId :=
                              Session(m[oldId].user, m[oldId].createdAt, now + 15 * 60 * 1_000_000_000, now,
                                      m[oldId].userAgent)])
  {
    RefreshDrawsNewId(ops, Refresh(oldId, newId, now));
    EachLoginOwnsOneRow(ops);
    RefreshOutcome(After(ops), oldId, newId, now);
  }

  lemma RefreshDrawsNewId(ops: seq<Op>, op: Op)
    requires op.Refresh? && FreshIds(ops + [op])
    ensures FreshIds(ops) && op.newId !in After(ops)
  {
    var all := ops + [op];
    assert all[..|ops|] == ops;
    FreshPrefix(all, |ops|);
    NewIdIsNew(all);
  }

  /** The same of one table; a new id that is taken by another row is refused. */
  lemma RefreshOutcome(m: Table, oldId: string, newId: string, now: Time)
    ensures var r := Result(m, Refresh(oldId, newId, now));
            && (r.Some? <==> oldId in m && now - m[oldId].createdAt <= 7 * 24 * 3600 * 1_000_000_000
                             && (newId in m ==> newId == oldId))
            && (r.Some? ==> r.value == (m - {oldId})[newId :=
                              Session(m[oldId].user, m[oldId].createdAt, now + 15 * 60 * 1_000_000_000, now,
                                      m[oldId].userAgent)])
  {
  }

  /** A login under an id that is taken is refused; otherwise its row starts now and expires in 15 minutes. */
  lemma LoginOutcome(m: Table, id: string, user: nat, userAgent: string, now: Time)
    ensures var r := Result(m, Login(id, user, userAgent, now));
            && (r.Some? <==> id !in m)
            && (r.Some? ==> r.value == m[id := Session(user, now, now + 15 * 60 * 1_000_000_000, now, userAgent)])
  {
  }

  /** When id was drawn, unless it was since logged out or traded in by an accepted refresh; sweeps do not count. */
  function DrawnAt(ops: seq<Op>, id: string): Option<Time> {
    if ops == [] then None
    else
      var k := |ops| - 1;
      var op := ops[k];
      var accepted := Result(After(ops[..k]), op).Some?;
      if NewId(op) == Some(id) && accepted then Some(op.now)
      else if op == Logout(id, op.now) || (op.Refresh? && op.oldId == id && accepted) then None
      else DrawnAt(ops[..k], id)
  }

  /** One operation more: a row tells when its id was drawn, and a draw has a row until it has run out. */
  lemma DrawnAtStep(m: Table, op: Op, id: string, drawn: Option<Time>, t: Time)
    requires NewId(op).Some? ==> NewId(op).value !in m
    requires id in m ==> drawn == Some(m[id].refreshedAt) && m[id].expiresAt == m[id].refreshedAt + 900_000_000_000
    requires drawn.Some? && op.now <= drawn.value + 900_000_000_000 ==> id in m
    ensures var m' := Apply(m, op); var accepted := Result(m, op).Some?;
            var drawn' := if NewId(op) == Some(id) && accepted then Some(op.now)
                          else if op == Logout(id, op.now) || (op.Refresh? && op.oldId == id && accepted) then None
                          else drawn;
            && (id in m' ==> drawn' == Some(m'[id].refreshedAt)
                             && m'[id].expiresAt == m'[id].refreshedAt + 900_000_000_000)
            && (drawn'.Some? && op.now <= t <= drawn'.value + 900_000_000_000 ==> id in m')
  {
  }

  lemma {:induction false} RowsTellTheirDraw(ops: seq<Op>, id: string, t: Time)
    requires Ordered(ops) && FreshIds(ops) && (ops != [] ==> ops[|ops| - 1].now <= t)
    ensures id in After(ops) ==>
              && DrawnAt(ops, id) == Some(After(ops)[id].refreshedAt)
              && After(ops)[id].expiresAt == After(ops)[id].refreshedAt + 900_000_000_000
    ensures DrawnAt(ops, id).Some? && t <= DrawnAt(ops, id).value + 900_000_000_000 ==> id in After(ops)
  {
    if ops != [] {
      var k := |ops| - 1;
      FreshPrefix(ops, k);
      RowsTellTheirDraw(ops[..k], id, ops[k].now);
      NewIdIsNew(ops);
      DrawnAtStep(After(ops[..k]), ops[k], id, DrawnAt(ops[..k], id), t);
    }
  }

  /**
   * A session id is good at t if and only if it was drawn less than 15 minutes
   * before t, by a login or an accepted refresh, and has since been neither
   * logged out nor refreshed; purges and other sessions have no say.
   */
  lemma {:induction false} ActiveForFifteenMinutes(ops: seq<Op>, id: string, t: Time)
    requires Ordered(ops) && FreshIds(ops) && (ops != [] ==> ops[|ops| - 1].now <= t)
    ensures Active(After(ops), id, t) <==>
            DrawnAt(ops, id).Some? && t - DrawnAt(ops, id).value < 15 * 60 * 1_000_000_000
  {
    RowsTellTheirDraw(ops, id, t);
  }

  /** A purge removes the rows whose 15 minutes were over before it, and no others. */
  lemma PurgeTakesTheExpired(ops: seq<Op>, id: string, t: Time)
    requires Ordered(ops) && FreshIds(ops) && (ops != [] ==> ops[|ops| - 1].now <= t) && id in After(ops)
    ensures id in Purge(After(ops), t) <==>
            DrawnAt(ops, id).Some? && t - DrawnAt(ops, id).value <= 15 * 60 * 1_000_000_000
    ensures id in Purge(After(ops), t) ==> Purge(After(ops), t)[id] == After(ops)[id]
  {
    RowsTellTheirDraw(ops, id, t);
  }

  lemma FreshPrefix(ops: seq<Op>, n: nat)
    requires FreshIds(ops) && n <= |ops|
    ensures FreshIds(ops[..n])
  {
    assert forall i :: 0 <= i < n ==> ops[..n][i] == ops[i];
  }

  /** A run longer than one in which id was drawn does not draw it again at its end. */
  lemma LastDrawsAnother(ops: seq<Op>, n: nat, id: string)
    requires FreshIds(ops) && n < |ops| && Drawn(ops[..n], id)
    ensures NewId(ops[|ops| - 1]) != Some(id)
  {
    var i :| 0 <= i < n && NewId(ops[..n][i]) == Some(id);
    assert ops[i] == ops[..n][i];
  }

  lemma ApplyBringsOnlyNewId(m: Table, op: Op, id: string)
    requires id !in m && NewId(op) != Some(id)
    ensures id !in Apply(m, op)
  {
  }

  /** An id that was drawn and is not in the table stays out of it: a retired id is never accepted again. */
  lemma {:induction false} RetiredStaysRetired(ops: seq<Op>, more: seq<Op>, id: string)
    requires FreshIds(ops + more) && Drawn(ops, id) && id !in After(ops)
    ensures id !in After(ops + more)
  {
    if more == [] {
      assert ops + more == ops;
    } else {
      var k := |more| - 1;
      var all := ops + more;
      assert all[..|all| - 1] == ops + more[..k] && all[..|ops|] == ops;
      FreshPrefix(all, |all| - 1);
      RetiredStaysRetired(ops, more[..k], id);
      LastDrawsAnother(all, |ops|, id);
      ApplyBringsOnlyNewId(After(ops + more[..k]), all[|all| - 1], id);
    }
  }

  /** Of two refreshes presenting the same id, at most one succeeds, whatever runs in between. */
  lemma SecondRefreshFails(ops: seq<Op>, first: Op, between: seq<Op>, second: Op)
    requires first.Refresh? && second.Refresh? && first.oldId == second.oldId
    requires FreshIds(ops + [first] + between)
    requires Result(After(ops), first).Some?
    ensures Result(After(ops + [first] + between), second).None?
  {
    var ops1 := ops + [first];
    assert ops1[..|ops1| - 1] == ops && ops1[|ops1| - 1] == first;
    FreshPrefix(ops1 + between, |ops1|);
    assert (ops1 + between)[..|ops1|] == ops1;
    RowsAreDrawn(ops);
    DrawnLater(ops1, first.oldId);
    NewIdIsNew(ops1);
    RetiredStaysRetired(ops1, between, first.oldId);
  }

  // ---------- the purge ----------

  function WithoutSweeps(ops: seq<Op>): seq<Op> {
    if ops == [] then []
    else WithoutSweeps(ops[..|ops| - 1]) + (if ops[|ops| - 1].Sweep? then [] else [ops[|ops| - 1]])
  }

  /** Nothing has happened after t. */
  predicate Before(ops: seq<Op>, t: Time) {
    ops != [] ==> ops[|ops| - 1].now <= t
  }

  function ActiveIds(ops: seq<Op>, t: Time): set<string> {
    set id | id in After(ops) && Active(After(ops), id, t)
  }

  /** Every refresh that succeeds in q reaches its row before the access TTL runs out. */
  predicate Prompt(q: seq<Op>) {
    forall i :: 0 <= i < |q| && q[i].Refresh? && Result(After(q[..i]), q[i]).Some? ==>
      After(q[..i])[q[i].oldId].expiresAt >= q[i].now
  }

  /** The purged table is part of the unpurged one. */
  predicate Within(m: Table, m0: Table) {
    forall id :: id in m ==> id in m0 && m[id] == m0[id]
  }

  /** What the purge took had expired. */
  predicate RestExpired(m: Table, m0: Table, t: Time) {
    forall id :: id in m0 && id !in m ==> m0[id].expiresAt < t
  }

  lemma WithinStep(m: Table, m0: Table, op: Op)
    requires Within(m, m0)
    requires NewId(op).Some? ==> NewId(op).value !in m0
    ensures Within(Apply(m, op), if op.Sweep? then m0 else Apply(m0, op))
  {
  }

  lemma RestStep(m: Table, m0: Table, op: Op, t: Time)
    requires Within(m, m0) && RestExpired(m, m0, t) && t <= op.now
    requires NewId(op).Some? ==> NewId(op).value !in m0
    requires op.Refresh? && Result(m0, op).Some? ==> m0[op.oldId].expiresAt >= op.now
    ensures RestExpired(Apply(m, op), if op.Sweep? then m0 else Apply(m0, op), op.now)
  {
  }

  lemma {:induction false} WithoutSweepsDraws(ops: seq<Op>)
    requires FreshIds(ops)
    ensures FreshIds(WithoutSweeps(ops))
    ensures forall id :: Drawn(WithoutSweeps(ops), id) ==> Drawn(ops, id)
  {
    if ops != [] {
      var k := |ops| - 1;
      WithoutSweepsDraws(ops[..k]);
      var q := WithoutSweeps(ops);
      var p := WithoutSweeps(ops[..k]);
      forall id | Drawn(q, id)
        ensures Drawn(ops, id)
      {
        var i :| 0 <= i < |q| && NewId(q[i]) == Some(id);
        if i < |p| {
          assert q[i] == p[i];
          assert Drawn(p, id);
          DrawnLater(ops, id);
        } else {
          assert ops[k] == q[i];
        }
      }
      forall i, j | 0 <= i < j < |q| && NewId(q[i]).Some?
        ensures NewId(q[j]) != NewId(q[i])
      {
        assert q[i] == p[i];
        if j < |p| {
          assert q[j] == p[j];
        } else {
          assert Drawn(p, NewId(q[i]).value);
          if NewId(ops[k]).Some? {
            NewIdNotDrawn(ops);
          }
        }
      }
    }
  }

  lemma NewIdNotDrawn(ops: seq<Op>)
    requires ops != [] && FreshIds(ops) && NewId(ops[|ops| - 1]).Some?
    ensures !Drawn(ops[..|ops| - 1], NewId(ops[|ops| - 1]).value)
  {
  }

  lemma LastIdIsNewWithoutSweeps(ops: seq<Op>)
    requires ops != [] && FreshIds(ops) && NewId(ops[|ops| - 1]).Some?
    ensures NewId(ops[|ops| - 1]).value !in After(WithoutSweeps(ops[..|ops| - 1]))
  {
    WithoutSweepsDraws(ops[..|ops| - 1]);
    RowsAreDrawn(WithoutSweeps(ops[..|ops| - 1]));
    NewIdNotDrawn(ops);
  }

  lemma AfterWithoutSweeps(ops: seq<Op>)
    requires ops != []
    ensures var k := |ops| - 1;
            After(WithoutSweeps(ops)) ==
            if ops[k].Sweep? then After(WithoutSweeps(ops[..k])) else Apply(After(WithoutSweeps(ops[..k])), ops[k])
  {
    var k := |ops| - 1;
    if ops[k].Sweep? {
      assert WithoutSweeps(ops) == WithoutSweeps(ops[..k]);
    } else {
      var q := WithoutSweeps(ops);
      assert q[..|q| - 1] == WithoutSweeps(ops[..k]);
    }
  }

  lemma {:induction false} PurgedIsWithin(ops: seq<Op>)
    requires FreshIds(ops)
    ensures Within(After(ops), After(WithoutSweeps(ops)))
  {
    if ops != [] {
      var k := |ops| - 1;
      PurgedIsWithin(ops[..k]);
      AfterWithoutSweeps(ops);
      if NewId(ops[k]).Some? {
        LastIdIsNewWithoutSweeps(ops);
      }
      WithinStep(After(ops[..k]), After(WithoutSweeps(ops[..k])), ops[k]);
    }
  }

  /** Purges only ever take sessions away: with them, no session is active that is not active without them. */
  lemma PurgesOnlyRemove(ops: seq<Op>, t: Time)
    requires FreshIds(ops)
    ensures ActiveIds(ops, t) <= ActiveIds(WithoutSweeps(ops), t)
  {
    PurgedIsWithin(ops);
  }

  lemma PromptOfPrefix(q: seq<Op>, n: nat)
    requires Prompt(q) && n <= |q|
    ensures Prompt(q[..n])
  {
    var p := q[..n];
    forall i | 0 <= i < |p| && p[i].Refresh? && Result(After(p[..i]), p[i]).Some?
      ensures After(p[..i])[p[i].oldId].expiresAt >= p[i].now
    {
      assert q[i] == p[i] && q[..i] == p[..i];
    }
  }

  lemma PromptPrefix(ops: seq<Op>)
    requires ops != [] && Prompt(WithoutSweeps(ops))
    ensures Prompt(WithoutSweeps(ops[..|ops| - 1]))
    ensures var k := |ops| - 1; var m0 := After(WithoutSweeps(ops[..k]));
            ops[k].Refresh? && Result(m0, ops[k]).Some? ==> m0[ops[k].oldId].expiresAt >= ops[k].now
  {
    var k := |ops| - 1;
    var q := WithoutSweeps(ops);
    var p := WithoutSweeps(ops[..k]);
    assert q[..|p|] == p;
    PromptOfPrefix(q, |p|);
    if ops[k].Refresh? {
      assert q[|p|] == ops[k];
    }
  }

  lemma {:induction false} PurgedWasExpired(ops: seq<Op>, t: Time)
    requires FreshIds(ops) && Ordered(ops) && Before(ops, t) && Prompt(WithoutSweeps(ops))
    ensures RestExpired(After(ops), After(WithoutSweeps(ops)), t)
  {
    if ops != [] {
      var k := |ops| - 1;
      PromptPrefix(ops);
      PurgedWasExpired(ops[..k], ops[k].now);
      PurgedIsWithin(ops[..k]);
      AfterWithoutSweeps(ops);
      if NewId(ops[k]).Some? {
        LastIdIsNewWithoutSweeps(ops);
      }
      RestStep(After(ops[..k]), After(WithoutSweeps(ops[..k])), ops[k], ops[k].now);
    }
  }

  /** With prompt refreshes, purges change no session's standing at any time. */
  lemma PromptRunsHidePurges(ops: seq<Op>, t: Time)
    requires FreshIds(ops) && Ordered(ops) && Before(ops, t) && Prompt(WithoutSweeps(ops))
    ensures ActiveIds(ops, t) == ActiveIds(WithoutSweeps(ops), t)
  {
    PurgedIsWithin(ops);
    PurgedWasExpired(ops, t);
  }

  lemma {:induction false} NoSweepsNoChange(q: seq<Op>)
    requires forall i :: 0 <= i < |q| ==> !q[i].Sweep?
    ensures WithoutSweeps(q) == q
  {
    if q != [] {
      NoSweepsNoChange(q[..|q| - 1]);
    }
  }

  /** A late refresh loses its row to a purge that runs just before it. */
  lemma LateRefreshShowsPurge(q: seq<Op>, i: nat)
    requires i < |q| && FreshIds(q) && Ordered(q) && forall j :: 0 <= j < |q| ==> !q[j].Sweep?
    requires q[i].Refresh? && Result(After(q[..i]), q[i]).Some?
    requires After(q[..i])[q[i].oldId].expiresAt < q[i].now
    ensures var ops := q[..i] + [Sweep(q[i].now)] + [q[i]];
            && WithoutSweeps(ops) == q[..i + 1]
            && ActiveIds(ops, q[i].now) != ActiveIds(q[..i + 1], q[i].now)
  {
    var s, e := Sweep(q[i].now), q[i];
    var ops := q[..i] + [s] + [e];
    NoSweepsNoChange(q[..i]);
    AfterSnoc(q[..i], s);
    AfterSnoc(q[..i] + [s], e);
    AfterSnoc(q[..i], e);
    SweepDropped(q[..i], s, e);
    assert q[..i] + [e] == q[..i + 1];
    FreshPrefix(q, i + 1);
    RefreshDrawsNewId(q[..i], e);
    RefreshLosesRow(After(q[..i]), e);
    assert e.newId in ActiveIds(q[..i + 1], e.now) && e.newId !in ActiveIds(ops, e.now);
  }

  lemma AfterSnoc(ops: seq<Op>, op: Op)
    ensures After(ops + [op]) == Apply(After(ops), op)
  {
    assert (ops + [op])[..|ops|] == ops;
  }

  lemma SweepDropped(ops: seq<Op>, s: Op, e: Op)
    requires s.Sweep? && !e.Sweep?
    ensures WithoutSweeps(ops + [s] + [e]) == WithoutSweeps(ops) + [e]
  {
    assert (ops + [s])[..|ops|] == ops;
    assert (ops + [s] + [e])[..|ops| + 1] == ops + [s];
  }

  /** The late refresh renews its row; after a purge there is none to renew. */
  lemma RefreshLosesRow(m: Table, e: Op)
    requires e.Refresh? && Result(m, e).Some? && e.newId !in m && m[e.oldId].expiresAt < e.now
    ensures Active(Apply(m, e), e.newId, e.now) && e.newId !in Apply(Apply(m, Sweep(e.now)), e)
  {
  }

  /** ops is the run q, cut off somewhere, with purges put in anywhere. */
  predicate Purging(ops: seq<Op>, q: seq<Op>) {
    FreshIds(ops) && Ordered(ops) && WithoutSweeps(ops) <= q
  }

  /**
   * Purge simulation, exactly: inserting purges into a run q can never be
   * noticed by looking at the active sessions if and only if every refresh
   * that succeeds in q reaches its row before expires_at.
   */
  lemma PurgesInvisibleIffPrompt(q: seq<Op>)
    requires FreshIds(q) && Ordered(q) && forall i :: 0 <= i < |q| ==> !q[i].Sweep?
    ensures Prompt(q) <==>
            forall ops, t :: Purging(ops, q) && Before(ops, t) ==> ActiveIds(ops, t) == ActiveIds(WithoutSweeps(ops), t)
  {
    if Prompt(q) {
      forall ops, t | Purging(ops, q) && Before(ops, t)
        ensures ActiveIds(ops, t) == ActiveIds(WithoutSweeps(ops), t)
      {
        PromptOfPrefix(q, |WithoutSweeps(ops)|);
        assert q[..|WithoutSweeps(ops)|] == WithoutSweeps(ops);
        PromptRunsHidePurges(ops, t);
      }
    } else {
      var ops, t := LateRefreshIsNoticed(q);
    }
  }

  lemma LateRefreshIsNoticed(q: seq<Op>) returns (ops: seq<Op>, t: Time)
    requires FreshIds(q) && Ordered(q) && !Prompt(q) && forall i :: 0 <= i < |q| ==> !q[i].Sweep?
    ensures Purging(ops, q) && Before(ops, t) && ActiveIds(ops, t) != ActiveIds(WithoutSweeps(ops), t)
  {
    var i :| 0 <= i < |q| && q[i].Refresh? && Result(After(q[..i]), q[i]).Some?
             && After(q[..i])[q[i].oldId].expiresAt < q[i].now;
    ops, t := q[..i] + [Sweep(q[i].now)] + [q[i]], q[i].now;
    LateRefreshShowsPurge(q, i);
    InsertedSweepIsPurging(q, i);
  }

  lemma InsertedSweepIsPurging(q: seq<Op>, i: nat)
    requires i < |q| && FreshIds(q) && Ordered(q) && forall j :: 0 <= j < |q| ==> !q[j].Sweep?
    requires WithoutSweeps(q[..i] + [Sweep(q[i].now)] + [q[i]]) == q[..i + 1]
    ensures Purging(q[..i] + [Sweep(q[i].now)] + [q[i]], q)
  {
    var ops := q[..i] + [Sweep(q[i].now)] + [q[i]];
    assert forall j :: 0 <= j < i ==> ops[j] == q[j];
    assert ops[i] == Sweep(q[i].now) && ops[i + 1] == q[i];
  }
}
