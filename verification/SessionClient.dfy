/** The browser client of web/lib/api.ts composed with the rotation server. The client keeps one
    cookie and one refresh in flight; requests and responses may overtake each other but none is
    lost. Other devices of any user talk to the same server about families of their own. */
module SessionClient {
  import opened Common
  import opened Server = RefreshFamilies

  /** What a response does to the cookie. */
  datatype CookieEffect = Keep | Clear | Put(token: Token)

  /** The module variable `refreshInFlight`: no promise, a request on its way to the server with
      the cookie it was sent with, or a response on its way back. */
  datatype Flight = Landed | Sent(cookie: Option<Token>) | Answered(effect: CookieEffect)

  datatype World = World(
    server: Server.State,
    jar: Option<Token>,
    flight: Flight,
    logins: set<Token>,                  // login responses under way
    logouts: multiset<Option<Token>>,    // logout requests under way
    clears: nat,                         // logout responses under way
    mine: set<Family>)                   // families this client logged in to

  datatype Step =
    | CallRefresh
    | ServeRefresh(now: int, userFound: bool, next: Token, nextExpiresAt: int, clears: bool)
    | RefreshArrives
    | ServeLogin(user: User, token: Token, family: Family, expiresAt: int)
    | LoginArrives(token: Token)
    | SendLogout
    | ServeLogout(cookie: Option<Token>)
    | LogoutArrives
    | PasswordChange(user: User)          // from this client or any other
    | Elsewhere(op: Server.Op)            // another device

  function Start(): World { World(Server.Init(), None, Landed, {}, multiset{}, 0, {}) }

  function RefreshOp(w: World, st: Step): Server.Op
    requires w.flight.Sent? && st.ServeRefresh?
  {
    Server.Refresh(w.flight.cookie, st.now, st.userFound, st.next, st.nextExpiresAt)
  }

  /** A token some other device holds: one this client was never given. */
  predicate Foreign(w: World, presented: Option<Token>) {
    presented.Some? && presented.value in w.server.rows ==> w.server.rows[presented.value].family !in w.mine
  }

  predicate CanStep(w: World, st: Step) {
    match st
    case CallRefresh => true
    case ServeRefresh(_, _, _, _, _) => w.flight.Sent? && Server.Enabled(w.server, RefreshOp(w, st))
    case RefreshArrives => w.flight.Answered?
    case ServeLogin(user, token, family, expiresAt) => Server.Enabled(w.server, Server.Login(user, token, family, expiresAt))
    case LoginArrives(token) => token in w.logins
    case SendLogout => true
    case ServeLogout(cookie) => cookie in w.logouts
    case LogoutArrives => w.clears > 0
    case PasswordChange(_) => true
    case Elsewhere(op) => Server.Enabled(w.server, op) && (op.Refresh? || op.Logout? ==> Foreign(w, op.presented))
  }

  /** A rotated token is always put in the cookie; a rejection may or may not clear it. */
  function EffectOf(w: World, st: Step): CookieEffect
    requires w.flight.Sent? && st.ServeRefresh?
  {
    match Server.Judge(w.server, w.flight.cookie, st.now, st.userFound)
    case Rotated => Put(st.next)
    case Unknown => Keep
    case _ => if st.clears then Clear else Keep
  }

  function Next(w: World, st: Step): World
    requires CanStep(w, st)
  {
    match st
    case CallRefresh => if w.flight.Landed? then w.(flight := Sent(w.jar)) else w
    case ServeRefresh(_, _, _, _, _) =>
      w.(server := Server.Apply(w.server, RefreshOp(w, st)), flight := Answered(EffectOf(w, st)))
    case RefreshArrives => (
      match w.flight.effect
      case Keep => w.(flight := Landed)
      case Clear => w.(flight := Landed, jar := None)
      case Put(token) => w.(flight := Landed, jar := Some(token)))
    case ServeLogin(user, token, family, expiresAt) =>
      w.(server := Server.Apply(w.server, Server.Login(user, token, family, expiresAt)),
         logins := w.logins + {token}, mine := w.mine + {family})
    case LoginArrives(token) => w.(logins := w.logins - {token}, jar := Some(token))
    case SendLogout => w.(logouts := w.logouts + multiset{w.jar})
    case ServeLogout(cookie) =>
      w.(server := Server.Apply(w.server, Server.Logout(cookie)), logouts := w.logouts - multiset{cookie}, clears := w.clears + 1)
    case LogoutArrives => w.(clears := w.clears - 1, jar := None)
    case PasswordChange(user) => w.(server := Server.Apply(w.server, Server.ChangePassword(user)))
    case Elsewhere(op) => w.(server := Server.Apply(w.server, op))
  }

  ghost predicate Behaviour(worlds: seq<World>, steps: seq<Step>) {
    && |worlds| == |steps| + 1
    && worlds[0] == Start()
    && forall i | 0 <= i < |steps| :: CanStep(worlds[i], steps[i]) && worlds[i + 1] == Next(worlds[i], steps[i])
  }

  /** The token is the newest of its family, or the family is dead. */
  ghost predicate Current(s: Server.State, t: Token) {
    && t in s.rows
    && (Server.Newest(s, s.rows[t].family) == Some(t) || Server.Dead(s, s.rows[t].family))
  }

  ghost predicate OwnAndCurrent(w: World, t: Token) {
    Current(w.server, t) && w.server.rows[t].family in w.mine
  }

  ghost predicate Inv(w: World) {
    && Server.Sound(w.server)
    && (forall f | f in w.mine :: f in w.server.issued)
    && (w.jar.Some? ==> w.jar.value in w.server.rows)
    && (forall t | t in w.logins :: OwnAndCurrent(w, t) && w.jar != Some(t))
    && (w.flight.Sent? && w.flight.cookie.Some? ==> OwnAndCurrent(w, w.flight.cookie.value) && w.flight.cookie.value !in w.logins)
    && (w.flight.Answered? && w.flight.effect.Put? ==> OwnAndCurrent(w, w.flight.effect.token) && w.flight.effect.token !in w.logins)
    && (w.jar.Some? && !(w.flight.Answered? && w.flight.effect.Put?) ==> OwnAndCurrent(w, w.jar.value))
  }

  /** A server step leaves a current token current unless it rotates the token's live family. */
  lemma StaysCurrent(s: Server.State, op: Server.Op, t: Token)
    requires Server.Enabled(s, op) && Server.Sound(s) && Current(s, t)
    requires !Server.Rotates(s, op, s.rows[t].family) || Server.Dead(s, s.rows[t].family)
    ensures Current(Server.Apply(s, op), t) && Server.Apply(s, op).rows[t].family == s.rows[t].family
  {
    var f := s.rows[t].family;
    assert f in s.issued;
    hide Server.Apply, Server.Enabled, Server.Sound, Server.Dead, Server.Rotates;
    Server.StepKeepsRows(s, op, t);
    if Server.Dead(s, f) {
      Server.DeadStaysDead(s, op, f);
    } else {
      Server.StepMovesNewest(s, op, f);
    }
  }

  /** The token a rotation presents is the only one of the live family that is current. */
  lemma RotationPresentsTheCurrentToken(s: Server.State, op: Server.Op, t: Token)
    requires Server.Enabled(s, op) && Server.Sound(s) && Current(s, t)
    requires Server.Rotates(s, op, s.rows[t].family) && !Server.Dead(s, s.rows[t].family)
    ensures op.presented == Some(t)
  {
    Server.StepMovesNewest(s, op, s.rows[t].family);
  }

  /** A server step that rotates none of this client's families. */
  lemma OthersKeepCurrent(w: World, op: Server.Op)
    requires Inv(w) && Server.Enabled(w.server, op)
    requires forall f | f in w.mine :: !Server.Rotates(w.server, op, f)
    ensures var w' := w.(server := Server.Apply(w.server, op));
      && Server.Sound(w'.server)
      && (forall f | f in w.mine :: f in w'.server.issued)
      && (forall t | OwnAndCurrent(w, t) :: OwnAndCurrent(w', t))
      && w.server.rows.Keys <= w'.server.rows.Keys
  {
    hide Server.Apply, Server.Enabled, Server.Sound, Server.Rotates, Server.Dead, Server.Newest;
    Server.StepKeepsSound(w.server, op);
    forall f | f in w.mine ensures f in Server.Apply(w.server, op).issued {
      Server.StepMovesNewest(w.server, op, f);
    }
    var w' := w.(server := Server.Apply(w.server, op));
    forall t | OwnAndCurrent(w, t) ensures OwnAndCurrent(w', t) {
      StaysCurrent(w.server, op, t);
    }
    forall t | t in w.server.rows ensures t in w'.server.rows {
      Server.StepKeepsRows(w.server, op, t);
    }
  }

  lemma CurrentIsKnown(s: Server.State, t: Token)
    requires Current(s, t)
    ensures t in s.rows
  {
  }

  /** What a refresh that rotates does to client and server. */
  lemma RotationStep(w: World, st: Step)
    requires CanStep(w, st) && st.ServeRefresh?
    requires Server.Judge(w.server, w.flight.cookie, st.now, st.userFound).Rotated?
    ensures w.flight.Sent? && w.flight.cookie.Some? && w.flight.cookie.value in w.server.rows
    ensures var op := RefreshOp(w, st);
      && Server.Enabled(w.server, op) && op.presented == w.flight.cookie && op.next == st.next && st.next !in w.server.rows
      && Server.Rotates(w.server, op, w.server.rows[w.flight.cookie.value].family)
      && Next(w, st) == w.(server := Server.Apply(w.server, op), flight := Answered(Put(st.next)))
  {
    hide Server.Apply;
  }

  lemma RotationKeepsInv(w: World, st: Step)
    requires Inv(w) && CanStep(w, st) && st.ServeRefresh?
    requires Server.Judge(w.server, w.flight.cookie, st.now, st.userFound).Rotated?
    ensures Inv(Next(w, st))
  {
    hide Next, CanStep, RefreshOp, Server.Apply, Server.Enabled, Server.Judge, Server.Sound, Server.Rotates, Server.Dead, Current;
    RotationStep(w, st);
    var op, w', presented := RefreshOp(w, st), Next(w, st), w.flight.cookie.value;
    var f := w.server.rows[presented].family;
    assert f in w.mine;
    Server.StepKeepsSound(w.server, op);
    forall g | g in w.mine ensures g in w'.server.issued {
      Server.StepMovesNewest(w.server, op, g);
    }
    forall t | t in w.logins ensures t in w.server.rows && OwnAndCurrent(w', t) {
      assert OwnAndCurrent(w, t) && t != presented;
      CurrentIsKnown(w.server, t);
      var g := w.server.rows[t].family;
      if Server.Rotates(w.server, op, g) && !Server.Dead(w.server, g) {
        RotationPresentsTheCurrentToken(w.server, op, t);
      }
      StaysCurrent(w.server, op, t);
    }
    if w.jar.Some? {
      Server.StepKeepsRows(w.server, op, w.jar.value);
    }
    RotatedIsCurrent(w.server, op, f);
  }

  lemma RotatedIsCurrent(s: Server.State, op: Server.Op, f: Family)
    requires Server.Enabled(s, op) && Server.Sound(s) && Server.Rotates(s, op, f)
    ensures Current(Server.Apply(s, op), op.next) && Server.Apply(s, op).rows[op.next].family == f
  {
    Server.StepMovesNewest(s, op, f);
  }

  lemma LoginIsCurrent(s: Server.State, op: Server.Op)
    requires Server.Enabled(s, op) && op.Login?
    ensures Current(Server.Apply(s, op), op.token) && Server.Apply(s, op).rows[op.token].family == op.family
    ensures op.token !in s.rows && op.family in Server.Apply(s, op).issued
    ensures forall f :: !Server.Rotates(s, op, f)
  {
    var t := Server.Apply(s, op);
    assert t.issued[op.family] == [op.token];
    assert Server.Newest(t, op.family) == Some(op.token);
  }

  lemma LoginKeepsInv(w: World, st: Step)
    requires Inv(w) && CanStep(w, st) && st.ServeLogin?
    ensures Inv(Next(w, st))
  {
    hide Server.Apply, Server.Enabled, Server.Sound, Server.Rotates, Current;
    var op, w' := Server.Login(st.user, st.token, st.family, st.expiresAt), Next(w, st);
    LoginIsCurrent(w.server, op);
    OthersKeepCurrent(w, op);
    OwnedTokensAreKnown(w);
    var mid := w.(server := w'.server);
    forall t | OwnAndCurrent(mid, t) ensures OwnAndCurrent(w', t) {
    }
    assert forall t | OwnAndCurrent(w, t) :: OwnAndCurrent(mid, t);
    assert OwnAndCurrent(w', st.token);
  }

  lemma OwnedTokensAreKnown(w: World)
    ensures forall t | OwnAndCurrent(w, t) :: t in w.server.rows
  {
    hide Server.Newest, Server.Dead;
  }

  /** Any other server step, answering at most the refresh in flight, and not with a token. */
  lemma RevokingKeepsInv(w: World, op: Server.Op, w': World)
    requires Inv(w) && Server.Enabled(w.server, op)
    requires forall f | f in w.mine :: !Server.Rotates(w.server, op, f)
    requires w'.server == Server.Apply(w.server, op)
    requires w'.jar == w.jar && w'.logins == w.logins && w'.mine == w.mine
    requires w'.flight == w.flight || (w.flight.Sent? && w'.flight.Answered? && !w'.flight.effect.Put?)
    ensures Inv(w')
  {
    hide Server.Apply, Server.Enabled, Current, Server.Rotates, Server.Sound;
    OthersKeepCurrent(w, op);
    var mid := w.(server := w'.server);
    forall t | OwnAndCurrent(mid, t) ensures OwnAndCurrent(w', t) {
    }
    assert forall t | OwnAndCurrent(w, t) :: OwnAndCurrent(w', t);
  }

  lemma StepKeepsInv(w: World, st: Step)
    requires Inv(w) && CanStep(w, st)
    ensures Inv(Next(w, st))
  {
    match st
    case ServeRefresh(_, _, _, _, _) =>
      if Server.Judge(w.server, w.flight.cookie, st.now, st.userFound).Rotated? {
        RotationKeepsInv(w, st);
      } else {
        RevokingKeepsInv(w, RefreshOp(w, st), Next(w, st));
      }
    case ServeLogin(_, _, _, _) => LoginKeepsInv(w, st);
    case ServeLogout(cookie) => RevokingKeepsInv(w, Server.Logout(cookie), Next(w, st));
    case PasswordChange(user) => RevokingKeepsInv(w, Server.ChangePassword(user), Next(w, st));
    case Elsewhere(op) => RevokingKeepsInv(w, op, Next(w, st));
    case _ => ClientStepKeepsInv(w, st);
  }

  lemma ClientStepKeepsInv(w: World, st: Step)
    requires Inv(w) && CanStep(w, st)
    requires st.CallRefresh? || st.RefreshArrives? || st.LoginArrives? || st.SendLogout? || st.LogoutArrives?
    ensures Inv(Next(w, st))
  {
    hide Server.Sound, Server.Dead, Server.Newest;
    var w' := Next(w, st);
    assert forall t | OwnAndCurrent(w, t) :: OwnAndCurrent(w', t);
  }

  lemma {:induction false} InvHolds(worlds: seq<World>, steps: seq<Step>, n: nat)
    requires Behaviour(worlds, steps) && n < |worlds|
    ensures Inv(worlds[n])
  {
    hide CanStep, Next;
    if n > 0 {
      InvHolds(worlds, steps, n - 1);
      StepKeepsInv(worlds[n - 1], steps[n - 1]);
    } else {
      StartIsSound();
    }
  }

  lemma StartIsSound()
    ensures Inv(Start())
  {
  }

  /** In any interleaving with logins, logouts, password changes and other devices, every refresh
      the server gets from this client presents the newest token of its family or a token of a
      family already dead; so reuse detection never kills a family that still had a live token. */
  lemma RefreshNeverKillsALiveFamily(worlds: seq<World>, steps: seq<Step>, n: nat)
    requires Behaviour(worlds, steps) && n < |steps| && steps[n].ServeRefresh?
    requires worlds[n].flight.cookie.Some?
    ensures Current(worlds[n].server, worlds[n].flight.cookie.value)
    ensures var s, t, st := worlds[n].server, worlds[n].flight.cookie.value, steps[n];
      Server.Judge(s, Some(t), st.now, st.userFound).Replayed? ==> Server.Dead(s, s.rows[t].family)
  {
    InvHolds(worlds, steps, n);
  }

  /** Once every response is in, the cookie is the newest token of its family, or dead. */
  lemma CookieIsCurrentAtRest(worlds: seq<World>, steps: seq<Step>, n: nat)
    requires Behaviour(worlds, steps) && n < |worlds|
    requires worlds[n].flight.Landed? && worlds[n].jar.Some?
    ensures Current(worlds[n].server, worlds[n].jar.value)
  {
    InvHolds(worlds, steps, n);
  }

  // ------------------------------------------------------------------ sessions go on and end

  /** A refresh with a live cookie goes through: it carries the cookie, rotates its family, and
      leaves the client with the new token, live, for the same user. */
  lemma LiveSessionIsRefreshed(w: World, st: Step) returns (sent: World, served: World, landed: World)
    requires w.flight.Landed? && w.jar.Some? && w.jar.value in w.server.rows
    requires st.ServeRefresh? && st.next !in w.server.rows && st.userFound
    requires var row := w.server.rows[w.jar.value]; !row.revoked && st.now < row.expiresAt
    ensures CanStep(w, CallRefresh) && sent == Next(w, CallRefresh) && sent.flight == Sent(w.jar)
    ensures CanStep(sent, st) && served == Next(sent, st)
    ensures Server.Rotates(sent.server, RefreshOp(sent, st), w.server.rows[w.jar.value].family)
    ensures CanStep(served, RefreshArrives) && landed == Next(served, RefreshArrives)
    ensures landed.flight.Landed? && landed.jar == Some(st.next) && st.next in landed.server.rows
    ensures var was := w.server.rows[w.jar.value];
      landed.server.rows[st.next] == Server.Row(was.user, was.family, st.nextExpiresAt, false)
  {
    sent := Next(w, CallRefresh);
    served := Next(sent, st);
    landed := Next(served, RefreshArrives);
  }

  /** A rejected refresh never brings a token: the cookie stays or goes, and it stays when the
      server did not know the token. */
  lemma RejectedRefreshBringsNothing(w: World, st: Step)
    requires CanStep(w, st) && st.ServeRefresh?
    requires forall f :: !Server.Rotates(w.server, RefreshOp(w, st), f)
    ensures var landed := Next(Next(w, st), RefreshArrives);
      && landed.flight.Landed? && (landed.jar == w.jar || landed.jar == None)
      && (w.flight.cookie.None? || w.flight.cookie.value !in w.server.rows ==> landed.jar == w.jar)
  {
    if Server.Judge(w.server, w.flight.cookie, st.now, st.userFound).Rotated? {
      assert Server.Rotates(w.server, RefreshOp(w, st), w.server.rows[w.flight.cookie.value].family);
    }
  }

  /** A login puts a live token of a new family in the cookie. */
  lemma LoginStartsASession(w: World, st: Step)
    requires st.ServeLogin? && CanStep(w, st)
    ensures var served := Next(w, st);
      && CanStep(served, LoginArrives(st.token))
      && var landed := Next(served, LoginArrives(st.token));
        && landed.jar == Some(st.token) && st.token in landed.server.rows
        && landed.server.rows[st.token] == Server.Row(st.user, st.family, st.expiresAt, false)
  {
  }

  /** A logout carries the cookie, ends its family and clears the cookie. */
  lemma LogoutEndsTheSession(w: World) returns (sent: World, served: World, landed: World)
    requires w.jar.Some? && w.jar.value in w.server.rows
    ensures CanStep(w, SendLogout) && sent == Next(w, SendLogout)
    ensures CanStep(sent, ServeLogout(w.jar)) && served == Next(sent, ServeLogout(w.jar))
    ensures CanStep(served, LogoutArrives) && landed == Next(served, LogoutArrives)
    ensures Server.Dead(landed.server, w.server.rows[w.jar.value].family) && landed.jar == None
  {
    sent := Next(w, SendLogout);
    served := Next(sent, ServeLogout(w.jar));
    landed := Next(served, LogoutArrives);
  }

  // ------------------------------------------------------------------ the client module

  /** A response: its status, and whether its detail asks for a password change. */
  datatype Response = Response(status: int, mustChange: bool) {
    predicate Ok() { 200 <= status < 300 }
  }

  datatype Outcome = Data | NoContent | ApiError(status: int)

  class Client {
    var jar: Option<Token>
    var flight: Flight
    var accessToken: Option<nat>

    constructor ()
      ensures jar == None && flight == Landed && accessToken == None
    {
      jar, flight, accessToken := None, Landed, None;
    }

    /** `refreshAccessToken`: join the promise in flight, or send one request. */
    method RefreshAccessToken() returns (sent: bool)
      modifies this`flight
      ensures forall w: World | w.jar == old(jar) && w.flight == old(flight) :: Next(w, CallRefresh) == w.(flight := flight)
      ensures sent <==> old(flight).Landed?
      ensures flight == if sent then Sent(jar) else old(flight)
    {
      if !flight.Landed? {
        return false;
      }
      flight := Sent(jar);
      sent := true;
    }

    /** The response: the browser stores the cookie, the continuation stores the access token,
        and `finally` frees the slot. */
    method RefreshLanded(ok: bool, access: nat)
      requires flight.Answered? && (ok <==> flight.effect.Put?)
      modifies this
      ensures forall w: World | w.jar == old(jar) && w.flight == old(flight) ::
          Next(w, RefreshArrives) == w.(jar := jar, flight := flight)
      ensures flight.Landed? && accessToken == if ok then Some(access) else None
      ensures ok ==> jar == Some(old(flight).effect.token)
      ensures !ok ==> jar == if old(flight).effect.Clear? then None else old(jar)
    {
      match flight.effect {
        case Keep =>
        case Clear => jar := None;
        case Put(token) => jar := Some(token);
      }
      if ok {
        accessToken := Some(access);
      } else {
        accessToken := None;
      }
      flight := Landed;
    }

    /** `request`: one fetch; after a 401 at most one refresh and at most one more fetch. The
        responses the fetches would get, and whether the refresh would succeed, are inputs. */
    method Request(retry: bool, auth: bool, first: Response, refreshed: bool, second: Response)
      returns (outcome: Outcome, fetches: nat, refreshes: nat, signedOut: bool, mustChange: bool)
      ensures 1 <= fetches <= (if retry then 2 else 1) && refreshes <= 1
      ensures refreshes == 1 <==> first.status == 401 && auth && retry
      ensures fetches == 2 <==> refreshes == 1 && refreshed
      ensures signedOut <==> refreshes == 1 && !refreshed
      ensures var last := if fetches == 2 then second else first;
        && (outcome == NoContent <==> last.status == 204)
        && (outcome.ApiError? <==> !last.Ok()) && (outcome.ApiError? ==> outcome.status == last.status)
        && (mustChange <==> last.status == 403 && last.mustChange)
      decreases retry
    {
      fetches, refreshes, signedOut, mustChange := 1, 0, false, false;
      if first.status == 401 && auth && retry {
        refreshes := 1;
        if refreshed {
          var more, none;
          outcome, more, none, signedOut, mustChange := Request(false, auth, second, false, second);
          fetches, refreshes := fetches + more, refreshes + none;
          return;
        }
        signedOut := true;
        return ApiError(401), fetches, refreshes, signedOut, mustChange;
      }
      if first.status == 403 {
        mustChange := first.mustChange;
        return ApiError(403), fetches, refreshes, signedOut, mustChange;
      }
      if !first.Ok() {
        return ApiError(first.status), fetches, refreshes, signedOut, mustChange;
      }
      outcome := if first.status == 204 then NoContent else Data;
    }
  }
}
