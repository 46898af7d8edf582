/** Rotating refresh secrets, with replay detection (section 4.14.2 of RFC 9700).

    A secret is stored only as its digest. `World` adds to the stored rows what the rows do not
    say: which secrets each session was given, in order, and which were redeemed. */
module RefreshSessions {
  import opened Basics

  /** A hash without collisions. */
  datatype Digest = Digest(preimage: string)

  datatype Revocation = Revocation(at: int, reason: string)

  datatype Session = Session(
    user: string,
    current: Digest,
    previous: Option<Digest>,
    lastUsed: int,
    idleExpires: int,
    absoluteExpires: int,
    revoked: Option<Revocation>)

  datatype Settings = Settings(idle: int, absolute: int)

  /** Issued names the session and carries its new secret; Refused covers every authentication error. */
  datatype Reply = Issued(session: nat, secret: string) | Refused

  predicate IsActive(s: Session, now: int) {
    s.revoked.None? && now < s.idleExpires && now < s.absoluteExpires
  }

  // ------------------------------------------------------------------ the repository

  function FindCurrent(rows: seq<Session>, d: Digest): (i: nat)
    ensures i <= |rows| && (i < |rows| ==> rows[i].current == d) && forall j :: 0 <= j < i ==> rows[j].current != d
  {
    if rows == [] || rows[0].current == d then 0 else 1 + FindCurrent(rows[1..], d)
  }

  function FindPrevious(rows: seq<Session>, d: Digest): (i: nat)
    ensures i <= |rows| && (i < |rows| ==> rows[i].previous == Some(d))
    ensures forall j :: 0 <= j < i ==> rows[j].previous != Some(d)
  {
    if rows == [] || rows[0].previous == Some(d) then 0 else 1 + FindPrevious(rows[1..], d)
  }

  /** Revoking a revoked session keeps its first revocation. */
  function Revoked(s: Session, now: int, reason: string): Session {
    if s.revoked.None? then s.(revoked := Some(Revocation(now, reason))) else s
  }

  // ------------------------------------------------------------------ the operations on the rows

  function Opened(c: Settings, user: string, secret: string, now: int): Session {
    Session(user, Digest(secret), None, now, now + c.idle, now + c.absolute, None)
  }

  function Rotated(c: Settings, s: Session, secret: string, now: int): Session {
    s.(previous := Some(s.current), current := Digest(secret), lastUsed := now, idleExpires := now + c.idle)
  }

  function RefreshRows(c: Settings, rows: seq<Session>, presented: string, now: int, available: bool, secret: string):
    (seq<Session>, Reply)
  {
    var i := FindCurrent(rows, Digest(presented));
    if i == |rows| then
      var j := FindPrevious(rows, Digest(presented));
      (if j < |rows| then rows[j := Revoked(rows[j], now, "refresh_replay")] else rows, Refused)
    else if !IsActive(rows[i], now) then (rows, Refused)
    else if !available then (rows[i := Revoked(rows[i], now, "user_unavailable")], Refused)
    else (rows[i := Rotated(c, rows[i], secret, now)], Issued(i, secret))
  }

  function LogoutRows(rows: seq<Session>, presented: string, now: int): seq<Session> {
    var i := FindCurrent(rows, Digest(presented));
    if i < |rows| then rows[i := Revoked(rows[i], now, "logout")] else rows
  }

  function RevokeRows(rows: seq<Session>, user: string, i: nat, now: int): seq<Session> {
    if i < |rows| && rows[i].user == user then rows[i := Revoked(rows[i], now, "user_revoked")] else rows
  }

  function RevokeAllRows(rows: seq<Session>, user: string, now: int): (r: seq<Session>)
    ensures |r| == |rows|
    ensures forall i :: 0 <= i < |rows| ==>
              r[i] == if rows[i].user == user then Revoked(rows[i], now, "logout_all") else rows[i]
  {
    if rows == [] then []
    else
      [if rows[0].user == user then Revoked(rows[0], now, "logout_all") else rows[0]]
      + RevokeAllRows(rows[1..], user, now)
  }

  /** The session check on a bearer token that carries a session id. */
  predicate TokenAccepted(rows: seq<Session>, sid: nat, now: int) {
    sid < |rows| && IsActive(rows[sid], now)
  }

  class AuthService {
    const settings: Settings
    var rows: seq<Session>

    constructor (settings: Settings)
      ensures this.settings == settings && rows == []
    {
      this.settings, rows := settings, [];
    }

    method StartSession(user: string, now: int, secret: string) returns (session: nat)
      modifies this`rows
      ensures rows == old(rows) + [Opened(settings, user, secret, now)] && session == |old(rows)|
    {
      session := |rows|;
      rows := rows + [Opened(settings, user, secret, now)];
    }

    /** `available` is whether the user exists and is active; `secret` is what the generator returns. */
    method RefreshSession(presented: string, now: int, available: bool, secret: string) returns (reply: Reply)
      modifies this`rows
      ensures (rows, reply) == RefreshRows(settings, old(rows), presented, now, available, secret)
    {
      var i := FindCurrent(rows, Digest(presented));
      if i == |rows| {
        var j := FindPrevious(rows, Digest(presented));
        if j < |rows| {
          Revoke(j, now, "refresh_replay");
        }
        return Refused;
      }
      if !IsActive(rows[i], now) { return Refused; }
      if !available {
        Revoke(i, now, "user_unavailable");
        return Refused;
      }
      var session := rows[i];
      session := session.(previous := Some(session.current));
      session := session.(current := Digest(secret));
      session := session.(lastUsed := now);
      session := session.(idleExpires := now + settings.idle);
      rows := rows[i := session];
      return Issued(i, secret);
    }

    method Revoke(i: nat, now: int, reason: string)
      requires i < |rows|
      modifies this`rows
      ensures rows == old(rows)[i := Revoked(old(rows)[i], now, reason)]
    {
      if rows[i].revoked.None? {
        rows := rows[i := rows[i].(revoked := Some(Revocation(now, reason)))];
      }
    }

    method RevokeSessionBySecret(presented: string, now: int)
      modifies this`rows
      ensures rows == LogoutRows(old(rows), presented, now)
    {
      var i := FindCurrent(rows, Digest(presented));
      if i < |rows| { Revoke(i, now, "logout"); }
    }

    method RevokeSession(user: string, i: nat, now: int) returns (found: bool)
      modifies this`rows
      ensures rows == RevokeRows(old(rows), user, i, now) && found == (i < |rows| && old(rows)[i].user == user)
    {
      if i >= |rows| || rows[i].user != user { return false; }
      Revoke(i, now, "user_revoked");
      return true;
    }

    method RevokeAllSessions(user: string, now: int)
      modifies this`rows
      ensures rows == RevokeAllRows(old(rows), user, now)
    {
      var k := 0;
      while k < |rows|
        invariant 0 <= k <= |rows| == |old(rows)|
        invariant forall i :: k <= i < |rows| ==> rows[i] == old(rows)[i]
        invariant forall i :: 0 <= i < k ==> rows[i] == RevokeAllRows(old(rows), user, now)[i]
      {
        if rows[k].user == user { Revoke(k, now, "logout_all"); }
        k := k + 1;
      }
    }
  }

  // ------------------------------------------------------------------ histories

  datatype Act =
    | Start(user: string, now: int, secret: string)
    | Refresh(presented: string, now: int, available: bool, secret: string)
    | Logout(presented: string, now: int)
    | RevokeOne(user: string, session: nat, now: int)
    | RevokeAll(user: string, now: int)

  /** `issued` are each session's secrets in order, `place` is where a secret was issued, `spent`
      are the secrets that were exchanged for a new one. */
  datatype World = World(
    rows: seq<Session>,
    issued: seq<seq<string>>,
    place: map<string, (nat, nat)>,
    spent: seq<string>)

  function Do(c: Settings, w: World, a: Act): World {
    match a
    case Start(user, now, secret) =>
      World(w.rows + [Opened(c, user, secret, now)], w.issued + [[secret]], w.place[secret := (|w.rows|, 0)], w.spent)
    case Refresh(x, now, available, secret) =>
      var (rows, reply) := RefreshRows(c, w.rows, x, now, available, secret);
      if reply.Issued? && reply.session < |w.issued| then
        var i := reply.session;
        World(rows, w.issued[i := w.issued[i] + [secret]], w.place[secret := (i, |w.issued[i]|)], w.spent + [x])
      else w.(rows := rows)
    case Logout(x, now) => w.(rows := LogoutRows(w.rows, x, now))
    case RevokeOne(user, i, now) => w.(rows := RevokeRows(w.rows, user, i, now))
    case RevokeAll(user, now) => w.(rows := RevokeAllRows(w.rows, user, now))
  }

  function After(c: Settings, acts: seq<Act>): World {
    if acts == [] then World([], [], map[], []) else Do(c, After(c, acts[..|acts| - 1]), acts[|acts| - 1])
  }

  /** The generator never returns a secret that was issued before. */
  predicate Fresh(w: World, a: Act) {
    (a.Start? || a.Refresh?) ==> a.secret !in w.place
  }

  predicate AllFresh(c: Settings, acts: seq<Act>) {
    acts == [] || (AllFresh(c, acts[..|acts| - 1]) && Fresh(After(c, acts[..|acts| - 1]), acts[|acts| - 1]))
  }

  function Last(s: seq<string>): string requires s != [] { s[|s| - 1] }

  /** A row holds the digests of its session's last two secrets. */
  predicate RowMatches(s: Session, secrets: seq<string>) {
    && secrets != []
    && s.current == Digest(Last(secrets))
    && s.previous == if |secrets| >= 2 then Some(Digest(secrets[|secrets| - 2])) else None
  }

  /** Each secret was issued at one place. */
  ghost predicate Placed(w: World) {
    forall i, k :: 0 <= i < |w.issued| && 0 <= k < |w.issued[i]| ==>
      w.issued[i][k] in w.place && w.place[w.issued[i][k]] == (i, k)
  }

  /** A secret that is no longer its session's last. */
  predicate Superseded(w: World, x: string) {
    x in w.place && w.place[x].0 < |w.issued| && w.place[x].1 + 1 < |w.issued[w.place[x].0]|
  }

  /** Spent secrets are no session's last, and none was spent twice. */
  ghost predicate SpentOnce(w: World) {
    && (forall x :: x in w.spent ==> Superseded(w, x))
    && (forall j, k :: 0 <= j < k < |w.spent| ==> w.spent[j] != w.spent[k])
  }

  ghost predicate RowsMatch(w: World) {
    |w.issued| == |w.rows| && forall i :: 0 <= i < |w.rows| ==> RowMatches(w.rows[i], w.issued[i])
  }

  ghost predicate Inv(w: World) {
    RowsMatch(w) && Placed(w) && SpentOnce(w)
  }

  // ------------------------------------------------------------------ what an act changes

  /** Rows change at most by being revoked, once. */
  predicate OnlyRevokes(rows: seq<Session>, later: seq<Session>) {
    && |later| == |rows|
    && forall i :: 0 <= i < |rows| ==>
         && later[i].(revoked := None) == rows[i].(revoked := None)
         && (rows[i].revoked.Some? ==> later[i].revoked == rows[i].revoked)
  }

  /** The refresh that succeeds on row `i`. */
  predicate Redeems(w: World, a: Act, i: nat) {
    && a.Refresh? && i < |w.rows| && i == FindCurrent(w.rows, Digest(a.presented))
    && IsActive(w.rows[i], a.now) && a.available
  }

  lemma RevokingOne(rows: seq<Session>, i: nat, now: int, reason: string)
    requires i < |rows|
    ensures OnlyRevokes(rows, rows[i := Revoked(rows[i], now, reason)])
  {}

  lemma RefusedRefresh(c: Settings, rows: seq<Session>, x: string, now: int, available: bool, secret: string)
    requires var i := FindCurrent(rows, Digest(x)); i < |rows| ==> !IsActive(rows[i], now) || !available
    ensures var (later, reply) := RefreshRows(c, rows, x, now, available, secret);
      reply == Refused && OnlyRevokes(rows, later)
  {
    var i, j := FindCurrent(rows, Digest(x)), FindPrevious(rows, Digest(x));
    if i < |rows| { RevokingOne(rows, i, now, "user_unavailable"); }
    if j < |rows| { RevokingOne(rows, j, now, "refresh_replay"); }
  }

  /** Opening and rotating apart, an act revokes rows and changes nothing else. */
  lemma Effect(c: Settings, w: World, a: Act)
    requires |w.issued| == |w.rows| && !a.Start? && forall i :: !Redeems(w, a, i)
    ensures Do(c, w, a) == w.(rows := Do(c, w, a).rows) && OnlyRevokes(w.rows, Do(c, w, a).rows)
  {
    match a
    case Start(_, _, _) =>
    case Refresh(x, now, available, secret) =>
      assert !Redeems(w, a, FindCurrent(w.rows, Digest(x)));
      RefusedRefresh(c, w.rows, x, now, available, secret);
    case Logout(x, now) =>
      var i := FindCurrent(w.rows, Digest(x));
      if i < |w.rows| { RevokingOne(w.rows, i, now, "logout"); }
    case RevokeOne(_, i, now) => if i < |w.rows| { RevokingOne(w.rows, i, now, "user_revoked"); }
    case RevokeAll(_, _) =>
  }

  lemma Redeemed(c: Settings, w: World, a: Act, i: nat)
    requires |w.issued| == |w.rows| && Redeems(w, a, i)
    ensures Do(c, w, a) == World(w.rows[i := Rotated(c, w.rows[i], a.secret, a.now)],
                                 w.issued[i := w.issued[i] + [a.secret]],
                                 w.place[a.secret := (i, |w.issued[i]|)], w.spent + [a.presented])
    ensures w.rows[i].current == Digest(a.presented)
  {}

  // ------------------------------------------------------------------ the invariant

  lemma RevokingKeeps(w: World, rows: seq<Session>)
    requires Inv(w) && OnlyRevokes(w.rows, rows)
    ensures Inv(w.(rows := rows))
  {
    var v := w.(rows := rows);
    forall i | 0 <= i < |rows| ensures RowMatches(rows[i], v.issued[i]) {
      assert RowMatches(w.rows[i], w.issued[i]);
      assert rows[i].(revoked := None).current == w.rows[i].current;
      assert rows[i].(revoked := None).previous == w.rows[i].previous;
    }
    assert Placed(v);
    assert forall x :: Superseded(v, x) == Superseded(w, x);
  }

  lemma StartKeeps(c: Settings, w: World, a: Act)
    requires Inv(w) && a.Start? && Fresh(w, a)
    ensures Inv(Do(c, w, a))
  {
    var v := Do(c, w, a);
    assert Placed(v);
    forall x | x in v.spent ensures Superseded(v, x) { assert Superseded(w, x); }
  }

  lemma LastPlace(w: World, i: nat)
    requires Inv(w) && i < |w.issued|
    ensures w.issued[i] != [] && Last(w.issued[i]) in w.place && w.place[Last(w.issued[i])] == (i, |w.issued[i]| - 1)
    ensures Last(w.issued[i]) !in w.spent
  {
    assert RowMatches(w.rows[i], w.issued[i]);
    assert w.issued[i][|w.issued[i]| - 1] in w.place;
    assert !Superseded(w, Last(w.issued[i]));
  }

  lemma RedeemKeeps(c: Settings, w: World, a: Act, i: nat)
    requires Inv(w) && Redeems(w, a, i) && Fresh(w, a)
    ensures Inv(Do(c, w, a))
  {
    var v := Do(c, w, a);
    Redeemed(c, w, a, i);
    LastPlace(w, i);
    assert RowMatches(w.rows[i], w.issued[i]) && a.presented == Last(w.issued[i]);
    assert RowMatches(v.rows[i], v.issued[i]);
    forall j | 0 <= j < |v.rows| ensures RowMatches(v.rows[j], v.issued[j]) {
      if j != i { assert RowMatches(w.rows[j], w.issued[j]); }
    }
    forall j, k | 0 <= j < |v.issued| && 0 <= k < |v.issued[j]|
      ensures v.issued[j][k] in v.place && v.place[v.issued[j][k]] == (j, k)
    {
      if j != i || k < |w.issued[i]| { assert v.issued[j][k] == w.issued[j][k] && w.issued[j][k] in w.place; }
    }
    forall x | x in v.spent ensures Superseded(v, x) {
      if x in w.spent { assert Superseded(w, x); }
    }
  }

  lemma DoKeeps(c: Settings, w: World, a: Act)
    requires Inv(w) && Fresh(w, a)
    ensures Inv(Do(c, w, a))
  {
    if a.Start? { StartKeeps(c, w, a); }
    else if i: nat :| Redeems(w, a, i) { RedeemKeeps(c, w, a, i); }
    else {
      Effect(c, w, a);
      RevokingKeeps(w, Do(c, w, a).rows);
    }
  }

  lemma {:induction false} InvAlways(c: Settings, acts: seq<Act>)
    requires AllFresh(c, acts)
    ensures Inv(After(c, acts))
  {
    if acts != [] {
      InvAlways(c, acts[..|acts| - 1]);
      DoKeeps(c, After(c, acts[..|acts| - 1]), acts[|acts| - 1]);
    }
  }

  // ------------------------------------------------------------------ which secrets are good

  /** A row is found by its session's last secret only. */
  lemma FoundByLast(w: World, x: string)
    requires Inv(w)
    ensures var i := FindCurrent(w.rows, Digest(x)); i < |w.rows| ==> w.issued[i] != [] && x == Last(w.issued[i])
    ensures forall i :: 0 <= i < |w.rows| && w.issued[i] != [] && x == Last(w.issued[i]) ==>
              FindCurrent(w.rows, Digest(x)) == i
  {
    var f := FindCurrent(w.rows, Digest(x));
    if f < |w.rows| { assert RowMatches(w.rows[f], w.issued[f]); LastPlace(w, f); }
    forall i | 0 <= i < |w.rows| && w.issued[i] != [] && x == Last(w.issued[i]) ensures f == i {
      assert RowMatches(w.rows[i], w.issued[i]);
      LastPlace(w, i);
    }
  }

  /** After any history, a refresh succeeds on a session if and only if the secret presented is the
      last one that session was given, the session is active, and its user is available. */
  lemma OnlyTheLatestSecretRefreshes(c: Settings, acts: seq<Act>, x: string, now: int, available: bool, secret: string,
                                     i: nat)
    requires AllFresh(c, acts)
    ensures var w := After(c, acts);
      RefreshRows(c, w.rows, x, now, available, secret).1 == Issued(i, secret)
      <==> i < |w.rows| && |w.issued| == |w.rows| && w.issued[i] != [] && x == Last(w.issued[i])
           && IsActive(w.rows[i], now) && available
  {
    InvAlways(c, acts);
    FoundByLast(After(c, acts), x);
  }

  /** No secret is ever exchanged twice, and an exchanged one is never a session's last again. */
  lemma EachSecretRefreshesOnce(c: Settings, acts: seq<Act>)
    requires AllFresh(c, acts)
    ensures var w := After(c, acts);
      && (forall j, k :: 0 <= j < k < |w.spent| ==> w.spent[j] != w.spent[k])
      && (forall i, x :: 0 <= i < |w.issued| && x in w.spent ==> w.issued[i] != [] && x != Last(w.issued[i]))
  {
    var w := After(c, acts);
    InvAlways(c, acts);
    forall i, x | 0 <= i < |w.issued| && x in w.spent ensures w.issued[i] != [] && x != Last(w.issued[i]) {
      LastPlace(w, i);
    }
  }

  /** What presenting a superseded secret does. */
  lemma ReplayedSecret(c: Settings, w: World, x: string, now: int, available: bool, secret: string, i: nat, k: nat)
    requires Inv(w) && i < |w.issued| && k < |w.issued[i]| - 1 && w.issued[i][k] == x
    ensures RefreshRows(c, w.rows, x, now, available, secret)
      == (if k == |w.issued[i]| - 2 then w.rows[i := Revoked(w.rows[i], now, "refresh_replay")] else w.rows, Refused)
  {
    FoundByLast(w, x);
    FoundByPrevious(w, x);
    assert w.place[x] == (i, k);
    var f := FindCurrent(w.rows, Digest(x));
    if f < |w.rows| { LastPlace(w, f); }
  }

  lemma UnknownSecret(c: Settings, w: World, x: string, now: int, available: bool, secret: string)
    requires Inv(w) && x !in w.place
    ensures RefreshRows(c, w.rows, x, now, available, secret) == (w.rows, Refused)
  {
    FoundByLast(w, x);
    FoundByPrevious(w, x);
    var f := FindCurrent(w.rows, Digest(x));
    if f < |w.rows| { LastPlace(w, f); }
  }

  /** After any history, presenting a session's last but one secret is refused and revokes the
      session; presenting an older one is refused and changes nothing, like an unknown one. */
  lemma ReplayRevokes(c: Settings, acts: seq<Act>, x: string, now: int, available: bool, secret: string, i: nat, k: nat)
    requires AllFresh(c, acts) && i < |After(c, acts).issued|
    ensures var w := After(c, acts);
      |w.issued| == |w.rows| && (k < |w.issued[i]| - 1 && w.issued[i][k] == x ==>
        RefreshRows(c, w.rows, x, now, available, secret)
          == (if k == |w.issued[i]| - 2 then w.rows[i := Revoked(w.rows[i], now, "refresh_replay")]
              else w.rows, Refused))
    ensures x !in After(c, acts).place ==>
      RefreshRows(c, After(c, acts).rows, x, now, available, secret) == (After(c, acts).rows, Refused)
  {
    var w := After(c, acts);
    InvAlways(c, acts);
    if k < |w.issued[i]| - 1 && w.issued[i][k] == x { ReplayedSecret(c, w, x, now, available, secret, i, k); }
    if x !in w.place { UnknownSecret(c, w, x, now, available, secret); }
  }

  lemma FoundByPrevious(w: World, x: string)
    requires Inv(w)
    ensures var j := FindPrevious(w.rows, Digest(x));
      j < |w.rows| ==> x in w.place && w.place[x] == (j, |w.issued[j]| - 2) && |w.issued[j]| >= 2
    ensures forall i :: 0 <= i < |w.rows| && |w.issued[i]| >= 2 && w.issued[i][|w.issued[i]| - 2] == x ==>
              FindPrevious(w.rows, Digest(x)) == i
  {
    var f := FindPrevious(w.rows, Digest(x));
    if f < |w.rows| {
      assert RowMatches(w.rows[f], w.issued[f]);
      assert w.issued[f][|w.issued[f]| - 2] in w.place;
    }
    forall i | 0 <= i < |w.rows| && |w.issued[i]| >= 2 && w.issued[i][|w.issued[i]| - 2] == x ensures f == i {
      assert RowMatches(w.rows[i], w.issued[i]);
      assert w.issued[i][|w.issued[i]| - 2] in w.place;
    }
  }

  // ------------------------------------------------------------------ for ever

  /** What no act changes in a session. */
  predicate Evolved(w: World, v: World, i: nat) {
    && |w.issued| == |w.rows| && |v.issued| == |v.rows| && i < |w.rows| && i < |v.rows|
    && v.rows[i].absoluteExpires == w.rows[i].absoluteExpires && v.rows[i].user == w.rows[i].user
    && (w.rows[i].revoked.Some? ==> v.rows[i] == w.rows[i] && v.issued[i] == w.issued[i])
  }

  lemma RowEvolves(c: Settings, w: World, a: Act, i: nat)
    requires |w.issued| == |w.rows| && i < |w.rows|
    ensures Evolved(w, Do(c, w, a), i)
  {
    if a.Start? {
    } else if k: nat :| Redeems(w, a, k) {
      Redeemed(c, w, a, k);
    } else {
      Effect(c, w, a);
      var later := Do(c, w, a).rows;
      assert later[i].(revoked := None) == w.rows[i].(revoked := None);
      assert later[i] == later[i].(revoked := None).(revoked := later[i].revoked);
      assert w.rows[i] == w.rows[i].(revoked := None).(revoked := w.rows[i].revoked);
      assert later[i].(revoked := None).absoluteExpires == later[i].absoluteExpires;
      assert later[i].(revoked := None).user == later[i].user;
    }
  }

  lemma EvolvesFurther(c: Settings, u: World, w: World, a: Act, i: nat)
    requires Evolved(u, w, i)
    ensures Evolved(u, Do(c, w, a), i)
  {
    RowEvolves(c, w, a, i);
  }

  /** `After`, from a world on. */
  function Later(c: Settings, u: World, more: seq<Act>): World {
    if more == [] then u else Do(c, Later(c, u, more[..|more| - 1]), more[|more| - 1])
  }

  lemma {:induction false} LaterIs(c: Settings, acts: seq<Act>, more: seq<Act>)
    ensures Later(c, After(c, acts), more) == After(c, acts + more)
  {
    if more == [] {
      assert acts + more == acts;
    } else {
      var init := more[..|more| - 1];
      LaterIs(c, acts, init);
      assert (acts + more)[..|acts + more| - 1] == acts + init;
    }
  }

  lemma {:induction false} EvolvesLater(c: Settings, u: World, more: seq<Act>, i: nat)
    requires |u.issued| == |u.rows| && i < |u.rows|
    ensures Evolved(u, Later(c, u, more), i)
  {
    if more != [] {
      EvolvesLater(c, u, more[..|more| - 1], i);
      EvolvesFurther(c, u, Later(c, u, more[..|more| - 1]), more[|more| - 1], i);
    }
  }

  lemma RowsEvolve(c: Settings, acts: seq<Act>, more: seq<Act>, i: nat)
    requires |After(c, acts).issued| == |After(c, acts).rows| && i < |After(c, acts).rows|
    ensures Evolved(After(c, acts), After(c, acts + more), i)
  {
    EvolvesLater(c, After(c, acts), more, i);
    LaterIs(c, acts, more);
  }

  /** A session's absolute expiry never moves. A revoked session stays as it is: it is given no
      secret, no secret refreshes it, and no token of it is accepted, at any later time. */
  lemma RevokedForEver(c: Settings, acts: seq<Act>, more: seq<Act>, i: nat)
    requires AllFresh(c, acts) && i < |After(c, acts).rows|
    ensures var w, v := After(c, acts), After(c, acts + more);
      && i < |v.rows| && v.rows[i].absoluteExpires == w.rows[i].absoluteExpires
      && (w.rows[i].revoked.Some? ==>
            && v.rows[i] == w.rows[i]
            && (forall now :: !TokenAccepted(v.rows, i, now))
            && (forall x, now, available, secret ::
                  RefreshRows(c, v.rows, x, now, available, secret).1 != Issued(i, secret)))
  {
    InvAlways(c, acts);
    RowsEvolve(c, acts, more, i);
  }

  /** Past its absolute expiry a session neither refreshes nor authenticates, however it was used. */
  lemma AbsoluteExpiryEnds(c: Settings, acts: seq<Act>, user: string, start: int, first: string, more: seq<Act>,
                           now: int)
    requires AllFresh(c, acts + [Start(user, start, first)]) && now >= start + c.absolute
    ensures var i := |After(c, acts).rows|;
      var v := After(c, acts + [Start(user, start, first)] + more);
      && i < |v.rows| && !TokenAccepted(v.rows, i, now)
      && forall x, available, secret :: RefreshRows(c, v.rows, x, now, available, secret).1 != Issued(i, secret)
  {
    var begun := acts + [Start(user, start, first)];
    assert begun[..|acts|] == acts;
    InvAlways(c, begun);
    RowsEvolve(c, begun, more, |After(c, acts).rows|);
  }

  // ------------------------------------------------------------------ what the times of the acts decide

  /** `a`, taken after `before`, opens session `i` or is answered with a new secret of it. */
  predicate Uses(c: Settings, before: seq<Act>, a: Act, i: nat) {
    match a
    case Start(_, _, _) => i == |After(c, before).rows|
    case Refresh(x, now, available, secret) =>
      RefreshRows(c, After(c, before).rows, x, now, available, secret).1 == Issued(i, secret)
    case _ => false
  }

  /** The `k`-th act is the last that used session `i`. */
  ghost predicate LastUse(c: Settings, acts: seq<Act>, i: nat, k: nat) {
    && k < |acts| && Uses(c, acts[..k], acts[k], i)
    && forall j :: k < j < |acts| ==> !Uses(c, acts[..j], acts[j], i)
  }

  /** Only a use of the session moves its idle limit or gives it a secret. */
  lemma UnusedKeeps(c: Settings, acts: seq<Act>, a: Act, i: nat)
    requires AllFresh(c, acts) && i < |After(c, acts).rows| && !Uses(c, acts, a, i)
    ensures var (w, v) := (After(c, acts), Do(c, After(c, acts), a));
      && i < |v.rows| && i < |w.issued| && i < |v.issued| && v.issued[i] == w.issued[i]
      && v.rows[i].idleExpires == w.rows[i].idleExpires && v.rows[i].lastUsed == w.rows[i].lastUsed
  {
    var w := After(c, acts);
    InvAlways(c, acts);
    if a.Start? {
    } else if k: nat :| Redeems(w, a, k) {
      Redeemed(c, w, a, k);
    } else {
      Effect(c, w, a);
      var later := Do(c, w, a).rows;
      assert later[i].(revoked := None) == w.rows[i].(revoked := None);
      assert later[i].(revoked := None).idleExpires == later[i].idleExpires;
      assert later[i].(revoked := None).lastUsed == later[i].lastUsed;
    }
  }

  lemma UseSets(c: Settings, acts: seq<Act>, a: Act, i: nat)
    requires AllFresh(c, acts) && Uses(c, acts, a, i)
    ensures var v := Do(c, After(c, acts), a);
      && i < |v.rows| && v.rows[i].idleExpires == a.now + c.idle && v.rows[i].lastUsed == a.now
      && i < |v.issued| && v.issued[i] != [] && Last(v.issued[i]) == a.secret
  {
    InvAlways(c, acts);
  }

  lemma {:induction false} IdleFromLastUse(c: Settings, acts: seq<Act>, i: nat, k: nat)
    requires AllFresh(c, acts) && LastUse(c, acts, i, k)
    ensures var w := After(c, acts);
      && i < |w.rows| && w.rows[i].idleExpires == acts[k].now + c.idle && w.rows[i].lastUsed == acts[k].now
      && i < |w.issued| && w.issued[i] != [] && Last(w.issued[i]) == acts[k].secret
  {
    var (n, init) := (|acts| - 1, acts[..|acts| - 1]);
    if k == n {
      UseSets(c, init, acts[n], i);
    } else {
      assert init[..k] == acts[..k];
      forall j | k < j < n ensures !Uses(c, init[..j], init[j], i) { assert init[..j] == acts[..j]; }
      IdleFromLastUse(c, init, i, k);
      UnusedKeeps(c, init, acts[n], i);
    }
  }

  /** Every session has a last use. */
  lemma {:induction false} EachHasLastUse(c: Settings, acts: seq<Act>, i: nat)
    requires AllFresh(c, acts) && i < |After(c, acts).rows|
    ensures exists k: nat :: LastUse(c, acts, i, k)
  {
    var (n, init) := (|acts| - 1, acts[..|acts| - 1]);
    if Uses(c, init, acts[n], i) {
      assert LastUse(c, acts, i, n);
    } else {
      InvAlways(c, init);
      RowCount(c, After(c, init), acts[n]);
      EachHasLastUse(c, init, i);
      var k: nat :| LastUse(c, init, i, k);
      LastUseStays(c, acts, n, i, k);
    }
  }

  lemma LastUseStays(c: Settings, acts: seq<Act>, n: nat, i: nat, k: nat)
    requires n == |acts| - 1 && LastUse(c, acts[..n], i, k) && !Uses(c, acts[..n], acts[n], i)
    ensures LastUse(c, acts, i, k)
  {
    assert acts[..n][..k] == acts[..k];
    forall j | k < j < |acts| ensures !Uses(c, acts[..j], acts[j], i) {
      if j < n { assert acts[..n][..j] == acts[..j]; }
    }
  }

  lemma RowCount(c: Settings, w: World, a: Act)
    requires |w.issued| == |w.rows|
    ensures |Do(c, w, a).rows| == |w.rows| + if a.Start? then 1 else 0
  {}

  lemma {:induction false} FreshPrefix(c: Settings, acts: seq<Act>, k: nat)
    requires AllFresh(c, acts) && k <= |acts|
    ensures AllFresh(c, acts[..k])
  {
    if k == |acts| {
      assert acts[..k] == acts;
    } else {
      FreshPrefix(c, acts[..|acts| - 1], k);
      assert acts[..|acts| - 1][..k] == acts[..k];
    }
  }

  ghost predicate OpenedBy(c: Settings, w: World, a: Act, i: nat)
    requires a.Start?
  {
    i < |w.rows| && w.rows[i].user == a.user && w.rows[i].absoluteExpires == a.now + c.absolute
  }

  lemma StartOpens(c: Settings, w: World, a: Act)
    requires a.Start?
    ensures OpenedBy(c, Do(c, w, a), a, |w.rows|)
  {}

  /** The user and the absolute limit of a session are those of the act that opened it. */
  lemma StaysOpened(c: Settings, before: seq<Act>, a: Act, more: seq<Act>)
    requires a.Start? && AllFresh(c, before + [a])
    ensures OpenedBy(c, After(c, before + [a] + more), a, |After(c, before).rows|)
  {
    var begun := before + [a];
    assert begun[..|before|] == before;
    StartOpens(c, After(c, before), a);
    InvAlways(c, begun);
    RowsEvolve(c, begun, more, |After(c, before).rows|);
  }

  lemma LimitsDecide(c: Settings, w: World, i: nat, x: string, now: int, available: bool, secret: string)
    requires Inv(w) && i < |w.rows|
    ensures var s := w.rows[i];
      && (TokenAccepted(w.rows, i, now) <==> s.revoked.None? && now < s.idleExpires && now < s.absoluteExpires)
      && (RefreshRows(c, w.rows, x, now, available, secret).1 == Issued(i, secret) <==>
            && w.issued[i] != [] && x == Last(w.issued[i]) && available
            && s.revoked.None? && now < s.idleExpires && now < s.absoluteExpires)
  {
    FoundByLast(w, x);
  }

  /** When a session was opened and when it was last used decide, with its revocation, what it is good
      for: from `idle` after the last use and from `absolute` after the start on, no secret refreshes it
      and no token of it is accepted; before both, and unless it is revoked, the secret it
      was given last refreshes it for an available user and its tokens are accepted. */
  lemma TimesDecide(c: Settings, before: seq<Act>, a: Act, more: seq<Act>, last: nat, x: string, now: int,
                    available: bool, secret: string)
    requires a.Start? && AllFresh(c, before + [a] + more)
    requires LastUse(c, before + [a] + more, |After(c, before).rows|, last)
    ensures var (i, acts) := (|After(c, before).rows|, before + [a] + more);
      var w := After(c, acts);
      && i < |w.rows| && w.rows[i].user == a.user
      && (TokenAccepted(w.rows, i, now) <==>
            w.rows[i].revoked.None? && now < acts[last].now + c.idle && now < a.now + c.absolute)
      && (RefreshRows(c, w.rows, x, now, available, secret).1 == Issued(i, secret) <==>
            && x == acts[last].secret && available
            && w.rows[i].revoked.None? && now < acts[last].now + c.idle && now < a.now + c.absolute)
  {
    var (i, acts) := (|After(c, before).rows|, before + [a] + more);
    assert acts[..|before| + 1] == before + [a];
    FreshPrefix(c, acts, |before| + 1);
    StaysOpened(c, before, a, more);
    InvAlways(c, acts);
    IdleFromLastUse(c, acts, i, last);
    LimitsDecide(c, After(c, acts), i, x, now, available, secret);
  }

  /** When a refresh revokes a session that is not revoked. */
  lemma WhatRefreshRevokes(c: Settings, w: World, x: string, now: int, available: bool, secret: string, i: nat)
    requires Inv(w) && i < |w.rows| && w.rows[i].revoked.None?
    ensures i < |w.issued| && w.issued[i] != []
    ensures var rows := RefreshRows(c, w.rows, x, now, available, secret).0;
      && i < |rows|
      && rows[i].revoked
        == if |w.issued[i]| >= 2 && x == w.issued[i][|w.issued[i]| - 2] then Some(Revocation(now, "refresh_replay"))
           else if x == w.issued[i][|w.issued[i]| - 1] && !available
                   && now < w.rows[i].idleExpires && now < w.rows[i].absoluteExpires
           then Some(Revocation(now, "user_unavailable"))
           else None
  {
    assert RowMatches(w.rows[i], w.issued[i]);
    FoundByLast(w, x);
    FoundByPrevious(w, x);
    LastPlace(w, i);
    if |w.issued[i]| >= 2 { assert w.issued[i][|w.issued[i]| - 2] in w.place; }
    var f := FindCurrent(w.rows, Digest(x));
    if f < |w.rows| { LastPlace(w, f); }
  }

  lemma WhatDoRevokes(c: Settings, w: World, a: Act, i: nat)
    requires Inv(w) && i < |w.rows| && w.rows[i].revoked.None?
    ensures var v := Do(c, w, a);
      && i < |w.issued| && w.issued[i] != [] && i < |v.rows|
      && v.rows[i].revoked
        == match a
           case Start(_, _, _) => None
           case Logout(x, now) =>
             if x == w.issued[i][|w.issued[i]| - 1] then Some(Revocation(now, "logout")) else None
           case RevokeOne(user, k, now) =>
             if k == i && user == w.rows[i].user then Some(Revocation(now, "user_revoked")) else None
           case RevokeAll(user, now) =>
             if user == w.rows[i].user then Some(Revocation(now, "logout_all")) else None
           case Refresh(x, now, available, _) =>
             if |w.issued[i]| >= 2 && x == w.issued[i][|w.issued[i]| - 2] then Some(Revocation(now, "refresh_replay"))
             else if x == w.issued[i][|w.issued[i]| - 1] && !available
                     && now < w.rows[i].idleExpires && now < w.rows[i].absoluteExpires
             then Some(Revocation(now, "user_unavailable"))
             else None
  {
    assert RowMatches(w.rows[i], w.issued[i]);
    match a
    case Refresh(x, now, available, secret) => WhatRefreshRevokes(c, w, x, now, available, secret, i);
    case Logout(x, _) => FoundByLast(w, x);
    case _ =>
  }

  /** What one act does to a session that is not revoked: a logout with its last secret revokes it, a
      revocation by its own user, all sessions of its user being revoked, its last but one secret being
      presented, or its last one within both limits when the user is not available; nothing else does. */
  lemma WhatRevokes(c: Settings, acts: seq<Act>, a: Act, i: nat)
    requires AllFresh(c, acts) && i < |After(c, acts).rows| && After(c, acts).rows[i].revoked.None?
    ensures var (w, v) := (After(c, acts), Do(c, After(c, acts), a));
      && i < |w.issued| && w.issued[i] != [] && i < |v.rows|
      && v.rows[i].revoked
        == match a
           case Start(_, _, _) => None
           case Logout(x, now) =>
             if x == w.issued[i][|w.issued[i]| - 1] then Some(Revocation(now, "logout")) else None
           case RevokeOne(user, k, now) =>
             if k == i && user == w.rows[i].user then Some(Revocation(now, "user_revoked")) else None
           case RevokeAll(user, now) =>
             if user == w.rows[i].user then Some(Revocation(now, "logout_all")) else None
           case Refresh(x, now, available, _) =>
             if |w.issued[i]| >= 2 && x == w.issued[i][|w.issued[i]| - 2] then Some(Revocation(now, "refresh_replay"))
             else if x == w.issued[i][|w.issued[i]| - 1] && !available
                     && now < w.rows[i].idleExpires && now < w.rows[i].absoluteExpires
             then Some(Revocation(now, "user_unavailable"))
             else None
  {
    InvAlways(c, acts);
    WhatDoRevokes(c, After(c, acts), a, i);
  }
}
