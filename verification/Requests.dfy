/** `_send_request` and `__get_token` of the base client. */
module Requests {
  // All authentication types but OIDC. A request that is refused as unauthorised (section 15.5.2 of
  // RFC 9110) makes the client fetch a token, which sends requests of its own. What the server answers
  // is arbitrary.

  import opened Wrappers

  const AUTH_RETRIES := 2
  const STATUS_CODES_TO_RETRY := {502, 503, 504}
  const OK := 200
  const UNAUTHORIZED := 401

  datatype AuthType = Userpass | X509 | X509Proxy | Gss | Ssh

  /** What one HTTP request comes back with. `token` and `challenge` are response headers. */
  datatype Reply =
    | Response(status: int, token: Option<string>, challenge: Option<string>)
    | ConnectionFailed
    | BrokenPipe
    | OtherOsError

  datatype Error = ServerConnection | ConnectionLost | OsError | CannotAuthenticate | MissingModule | Refused | MissingHeader

  /** One pass of the retry loop: which request it was, the token it carried, the reply, and
      the token fetched after it, if one was. */
  datatype Round = Round(number: nat, token: Option<string>, reply: Reply, obtained: Option<string>)

  /** What a client is, as far as its requests depend on it. `ready` says that the certificate, key file or
      module the authentication needs is there. */
  datatype Setup = Setup(authType: AuthType, requestRetries: int, ready: bool, server: nat -> Reply)

  // ------------------------------------------------------------------ single replies

  /** The connection failed in a way that is tried again. */
  predicate Unreachable(reply: Reply) { reply.ConnectionFailed? || reply.BrokenPipe? }

  /** The server is worth waiting for. */
  predicate Temporary(reply: Reply) { reply.Response? && (reply.status == 502 || reply.status == 503 || reply.status == 504) }

  /** The reply makes the client fetch a token. */
  predicate Rejected(reply: Reply, getToken: bool) { reply.Response? && reply.status == 401 && !getToken }

  /** The reply to request `k` of a loop, counted from 0, makes the next one be sent. */
  predicate Passes(c: Setup, k: int, reply: Reply) {
    Temporary(reply) || (Unreachable(reply) && k <= c.requestRetries)
  }

  // ------------------------------------------------- the requests that fetch a token

  /** Sending up to three requests from number `at` on, all those before `to` are sent. */
  ghost predicate Sends(c: Setup, at: nat, to: nat) {
    && at < to <= at + 3
    && forall i: nat {:trigger c.server(i)} :: at <= i < to - 1 ==> Passes(c, i - at, c.server(i))
  }

  /** The last request before `to` is the first to be answered, and with success. */
  ghost predicate Answered(c: Setup, at: nat, to: nat) {
    Sends(c, at, to) && c.server(to - 1).Response? && c.server(to - 1).status == 200
  }

  /** The response to request `i` is the one looked at, and it is not a success: either nothing is sent after it, or
      the server is to be waited for and sends nothing more in three requests. */
  ghost predicate Denied(c: Setup, at: nat, to: nat, i: nat) {
    && at <= i < to && c.server(i).Response? && c.server(i).status != 200
    && (if Temporary(c.server(i))
        then to == at + 3 && forall h: nat {:trigger c.server(h)} :: i < h < to ==> Unreachable(c.server(h)) && h - at <= c.requestRetries
        else to == i + 1)
  }

  /** None of the requests before `to` succeeds, and this is the error. */
  ghost predicate CheckFails(c: Setup, at: nat, to: nat, error: Error) {
    Sends(c, at, to) &&
    match error
    case ServerConnection => to == at + 3 && Down(c, at)
    case ConnectionLost => Unreachable(c.server(to - 1)) && to - 1 - at > c.requestRetries
    case OsError => c.server(to - 1).OtherOsError?
    case CannotAuthenticate => exists i: nat :: Denied(c, at, to, i) && c.server(i).status >= 400 && c.authType != X509 && c.authType != X509Proxy
    case Refused => exists i: nat :: Denied(c, at, to, i) && (c.server(i).status < 400 || c.authType == X509 || c.authType == X509Proxy)
    case MissingModule => false
    case MissingHeader => false
  }

  /** The server cannot be reached for three requests in a row, and the client tries three times. */
  ghost predicate Down(c: Setup, at: nat) {
    c.requestRetries >= 2 && forall i: nat {:trigger c.server(i)} :: at <= i < at + 3 ==> Unreachable(c.server(i))
  }

  /** What precedes the request for a token: SSH needs a challenge to sign, the others nothing. */
  ghost predicate Challenged(c: Setup, at: nat, mid: nat) {
    if c.authType == Ssh then Answered(c, at, mid) && c.server(mid - 1).challenge.Some? else mid == at
  }

  /** Fetching a token from request `at` on succeeds with this one, which the last request before `to` brings. */
  ghost predicate FetchGets(c: Setup, at: nat, to: nat, token: string) {
    && c.ready
    && exists mid: nat :: Challenged(c, at, mid) && Answered(c, mid, to) && c.server(to - 1).token == Some(token)
  }

  /** Fetching a token from request `at` on fails with this error, after the last request before `to`. */
  ghost predicate FetchFails(c: Setup, at: nat, to: nat, error: Error) {
    if !c.ready then to == at && error == if c.authType == Gss then MissingModule else CannotAuthenticate
    else
      || (c.authType == Ssh && (CheckFails(c, at, to, error) || (Answered(c, at, to) && c.server(to - 1).challenge.None? && error == MissingHeader)))
      || (exists mid: nat :: Challenged(c, at, mid)
                          && (CheckFails(c, mid, to, error) || (Answered(c, mid, to) && c.server(to - 1).token.None? && error == MissingHeader)))
  }

  /** The server is down for a client that starts to fetch a token: right away or, if it first asks for a
      challenge, after it got one. */
  ghost predicate FetchDown(c: Setup, at: nat) {
    && c.ready
    && (Down(c, at) || (c.authType == Ssh && exists mid: nat :: Challenged(c, at, mid) && Down(c, mid)))
  }

  lemma PassedBefore(c: Setup, at: nat, to: nat, n: nat)
    requires Sends(c, at, to)
    ensures at < n < to ==> Passes(c, n - 1 - at, c.server(n - 1))
  {
  }

  lemma CheckEndsOnce(c: Setup, at: nat, to1: nat, to2: nat, e: Error)
    requires CheckFails(c, at, to1, e) && Sends(c, at, to2)
    ensures to2 <= to1
  {
    PassedBefore(c, at, to2, to1);
  }

  lemma AnswerEndsOnce(c: Setup, at: nat, to1: nat, to2: nat)
    requires Answered(c, at, to1) && Sends(c, at, to2)
    ensures to2 <= to1
  {
    PassedBefore(c, at, to2, to1);
  }

  lemma DeniedOnce(c: Setup, at: nat, to: nat, i: nat, j: nat)
    requires Sends(c, at, to) && Denied(c, at, to, i) && Denied(c, at, to, j)
    ensures i == j
  {
  }

  /** A request of the token getters ends in one way. */
  lemma CheckIsOne(c: Setup, at: nat, to1: nat, e1: Error, to2: nat, e2: Error)
    requires CheckFails(c, at, to1, e1) && CheckFails(c, at, to2, e2)
    ensures to1 == to2 && e1 == e2
  {
    CheckEndsOnce(c, at, to1, to2, e1);
    CheckEndsOnce(c, at, to2, to1, e2);
    forall i: nat, j: nat | Denied(c, at, to1, i) && Denied(c, at, to1, j)
      ensures i == j
    {
      DeniedOnce(c, at, to1, i, j);
    }
  }

  lemma FailsOrAnswers(c: Setup, at: nat, to1: nat, e: Error, to2: nat)
    requires CheckFails(c, at, to1, e)
    ensures !Answered(c, at, to2)
  {
    if Answered(c, at, to2) {
      CheckEndsOnce(c, at, to1, to2, e);
      AnswerEndsOnce(c, at, to2, to1);
    }
  }

  lemma ChallengedOnce(c: Setup, at: nat, mid1: nat, mid2: nat)
    requires Challenged(c, at, mid1) && Challenged(c, at, mid2)
    ensures mid1 == mid2
  {
    if c.authType == Ssh {
      AnswerEndsOnce(c, at, mid1, mid2);
      AnswerEndsOnce(c, at, mid2, mid1);
    }
  }

  /** What happens once the challenge is there. */
  lemma FetchFailsAfter(c: Setup, at: nat, mid: nat, to: nat, e: Error)
    requires c.ready && Challenged(c, at, mid) && FetchFails(c, at, to, e)
    ensures CheckFails(c, mid, to, e) || (Answered(c, mid, to) && c.server(to - 1).token.None? && e == MissingHeader)
  {
    if exists other: nat :: Challenged(c, at, other) && (CheckFails(c, other, to, e) || (Answered(c, other, to) && c.server(to - 1).token.None? && e == MissingHeader)) {
      var other: nat :| Challenged(c, at, other) && (CheckFails(c, other, to, e) || (Answered(c, other, to) && c.server(to - 1).token.None? && e == MissingHeader));
      ChallengedOnce(c, at, mid, other);
    } else if CheckFails(c, at, to, e) {
      FailsOrAnswers(c, at, to, e, mid);
    } else {
      AnswerEndsOnce(c, at, mid, to);
      AnswerEndsOnce(c, at, to, mid);
    }
  }

  /** Fetching a token gets one token, or none. */
  lemma FetchIsOne(c: Setup, at: nat, to1: nat, token1: string, to2: nat, token2: string)
    requires FetchGets(c, at, to1, token1) && FetchGets(c, at, to2, token2)
    ensures to1 == to2 && token1 == token2
  {
    var mid1: nat :| Challenged(c, at, mid1) && Answered(c, mid1, to1) && c.server(to1 - 1).token == Some(token1);
    var mid2: nat :| Challenged(c, at, mid2) && Answered(c, mid2, to2) && c.server(to2 - 1).token == Some(token2);
    ChallengedOnce(c, at, mid1, mid2);
    AnswerEndsOnce(c, mid1, to1, to2);
    AnswerEndsOnce(c, mid1, to2, to1);
  }

  lemma FetchGetsOrFails(c: Setup, at: nat, to1: nat, token: string, to2: nat, e: Error)
    requires FetchGets(c, at, to1, token)
    ensures !FetchFails(c, at, to2, e)
  {
    var mid: nat :| Challenged(c, at, mid) && Answered(c, mid, to1) && c.server(to1 - 1).token == Some(token);
    if FetchFails(c, at, to2, e) {
      FetchFailsAfter(c, at, mid, to2, e);
      if CheckFails(c, mid, to2, e) {
        FailsOrAnswers(c, mid, to2, e, to1);
      } else {
        AnswerEndsOnce(c, mid, to1, to2);
        AnswerEndsOnce(c, mid, to2, to1);
      }
    }
  }

  /** Fetching a token fails in one way. */
  lemma FetchFailureIsOne(c: Setup, at: nat, to1: nat, e1: Error, to2: nat, e2: Error)
    requires FetchFails(c, at, to1, e1) && FetchFails(c, at, to2, e2)
    ensures to1 == to2 && e1 == e2
  {
    if c.ready {
      if mid: nat :| Challenged(c, at, mid) {
        FetchFailsAfter(c, at, mid, to1, e1);
        FetchFailsAfter(c, at, mid, to2, e2);
        SameFailure(c, mid, to1, e1, to2, e2);
      } else {
        SameFailure(c, at, to1, e1, to2, e2);
      }
    }
  }

  lemma SameFailure(c: Setup, at: nat, to1: nat, e1: Error, to2: nat, e2: Error)
    requires CheckFails(c, at, to1, e1) || (Answered(c, at, to1) && e1 == MissingHeader)
    requires CheckFails(c, at, to2, e2) || (Answered(c, at, to2) && e2 == MissingHeader)
    ensures to1 == to2 && e1 == e2
  {
    if CheckFails(c, at, to1, e1) {
      FailsOrAnswers(c, at, to1, e1, to2);
      CheckIsOne(c, at, to1, e1, to2, e2);
    } else if CheckFails(c, at, to2, e2) {
      FailsOrAnswers(c, at, to2, e2, to1);
    } else {
      AnswerEndsOnce(c, at, to1, to2);
      AnswerEndsOnce(c, at, to2, to1);
    }
  }

  /** Fetching a token fails to connect exactly if the server is down for it. */
  lemma FetchDownIff(c: Setup, at: nat)
    ensures FetchDown(c, at) <==> exists to: nat :: FetchFails(c, at, to, ServerConnection)
  {
    if FetchDown(c, at) {
      if Down(c, at) {
        assert CheckFails(c, at, at + 3, ServerConnection);
        assert c.authType != Ssh ==> Challenged(c, at, at);
        assert FetchFails(c, at, at + 3, ServerConnection);
      } else {
        var mid: nat :| Challenged(c, at, mid) && Down(c, mid);
        assert CheckFails(c, mid, mid + 3, ServerConnection);
        assert FetchFails(c, at, mid + 3, ServerConnection);
      }
    }
  }

  /** Fetching a token sends at most three requests, for SSH six. */
  lemma FetchIsShort(c: Setup, at: nat, to: nat)
    requires (exists token :: FetchGets(c, at, to, token)) || (exists e :: FetchFails(c, at, to, e))
    ensures at <= to <= at + if c.authType == Ssh then 6 else 3
  {
  }

  // -------------------------------------------------------------- what one call does

  /** The last response received, whatever came after it. */
  function Latest(rounds: seq<Round>): (r: Option<Reply>)
    ensures r.Some? ==> r.value.Response?
    ensures r.None? <==> forall k :: 0 <= k < |rounds| ==> !rounds[k].reply.Response?
  {
    if rounds == [] then None
    else if rounds[|rounds| - 1].reply.Response? then Some(rounds[|rounds| - 1].reply)
    else Latest(rounds[..|rounds| - 1])
  }

  lemma LatestSnoc(rounds: seq<Round>, r: Round)
    ensures Latest(rounds + [r]) == if r.reply.Response? then Some(r.reply) else Latest(rounds)
  {
    assert (rounds + [r])[..|rounds|] == rounds;
  }

  lemma {:induction false} LatestIndex(rounds: seq<Round>) returns (k: nat)
    requires Latest(rounds).Some?
    ensures k < |rounds| && rounds[k].reply == Latest(rounds).value
    ensures forall j :: k < j < |rounds| ==> !rounds[j].reply.Response?
  {
    var last := |rounds| - 1;
    if rounds[last].reply.Response? {
      k := last;
    } else {
      k := LatestIndex(rounds[..last]);
    }
  }

  /** What is fetched after a rejection: just the token the server gives from there on. The next request is `next`. */
  ghost predicate Fetched(c: Setup, at: nat, obtained: Option<string>, next: nat) {
    && (obtained.Some? ==> FetchGets(c, at, next, obtained.value))
    && (obtained.None? ==> exists e :: FetchFails(c, at, next, e))
  }

  /** A round: the request is answered by the server, and a token fetched exactly if it is rejected. */
  ghost predicate RoundOk(c: Setup, getToken: bool, round: Round, next: nat) {
    && round.reply == c.server(round.number)
    && if Rejected(round.reply, getToken) then Fetched(c, round.number + 1, round.obtained, next)
       else round.obtained.None? && next == round.number + 1
  }

  /** After round `k` another one may follow. */
  ghost predicate GoesOn(c: Setup, k: nat, round: Round) { Passes(c, k, round.reply) || round.obtained.Some? }

  /** The request after round `k`; `to` is the one after them all. */
  function Next(rounds: seq<Round>, to: nat, k: nat): nat
    requires k < |rounds|
  {
    if k + 1 < |rounds| then rounds[k + 1].number else to
  }

  /** The token carried by the request after the round: the one fetched in it, or else still the same. */
  function Carried(round: Round): Option<string> { if round.obtained.Some? then round.obtained else round.token }

  /** The rounds of one call that starts with `token0`, from request `from` on up to `to`. */
  ghost predicate RoundsOk(c: Setup, getToken: bool, token0: Option<string>, from: nat, rounds: seq<Round>, to: nat) {
    && (if rounds == [] then from == to else rounds[0].number == from && rounds[0].token == token0)
    && (forall k :: 0 <= k < |rounds| ==> RoundAt(c, getToken, rounds, to, k))
    && (forall k :: 0 <= k < |rounds| - 1 ==> FollowedAt(c, rounds, k))
  }

  ghost predicate RoundAt(c: Setup, getToken: bool, rounds: seq<Round>, to: nat, k: nat)
    requires k < |rounds|
  {
    RoundOk(c, getToken, rounds[k], Next(rounds, to, k))
  }

  ghost predicate FollowedAt(c: Setup, rounds: seq<Round>, k: nat)
    requires k + 1 < |rounds|
  {
    GoesOn(c, k, rounds[k]) && rounds[k + 1].token == Carried(rounds[k])
  }

  /** What the last round of a call makes it return or raise. */
  ghost predicate Ends(c: Setup, getToken: bool, rounds: seq<Round>, to: nat, r: Result<Reply, Error>)
    requires rounds != []
  {
    var n, last := |rounds|, rounds[|rounds| - 1];
    if GoesOn(c, n - 1, last) then n == 3 && r == if Latest(rounds).Some? then Ok(Latest(rounds).value) else Err(ServerConnection)
    else if Rejected(last.reply, getToken) then r.Err? && FetchFails(c, last.number + 1, to, r.error)
    else if last.reply.Response? then r == Ok(last.reply)
    else r == Err(if last.reply.OtherOsError? then OsError else ConnectionLost)
  }

  /** The whole outcome of a call that starts with `token0`, sending the requests `from` up to `to`. */
  ghost predicate Outcome(c: Setup, getToken: bool, token0: Option<string>, from: nat, rounds: seq<Round>, to: nat, r: Result<Reply, Error>) {
    && 1 <= |rounds| <= 3
    && RoundsOk(c, getToken, token0, from, rounds, to)
    && Ends(c, getToken, rounds, to, r)
  }

  lemma OneMoreRound(c: Setup, getToken: bool, token0: Option<string>, from: nat, rounds: seq<Round>, at: nat, round: Round, to: nat)
    requires RoundsOk(c, getToken, token0, from, rounds, at) && RoundOk(c, getToken, round, to) && round.number == at
    requires round.token == if rounds == [] then token0 else Carried(rounds[|rounds| - 1])
    requires rounds != [] ==> GoesOn(c, |rounds| - 1, rounds[|rounds| - 1])
    ensures RoundsOk(c, getToken, token0, from, rounds + [round], to)
  {
    var more := rounds + [round];
    forall k | 0 <= k < |more|
      ensures RoundAt(c, getToken, more, to, k)
    {
      if k < |rounds| {
        assert RoundAt(c, getToken, rounds, at, k);
        assert more[k] == rounds[k] && Next(more, to, k) == Next(rounds, at, k);
      }
    }
    forall k | 0 <= k < |more| - 1
      ensures FollowedAt(c, more, k)
    {
      if k < |rounds| - 1 {
        assert FollowedAt(c, rounds, k);
      }
    }
  }

  class Client {
    const authType: AuthType
    /** From the configuration, 3 by default. */
    const requestRetries: int
    const server: nat -> Reply
    const ready: bool
    var authToken: Option<string>
    /** How many requests have been sent so far. */
    var sent: nat

    constructor (authType: AuthType, requestRetries: int, server: nat -> Reply, ready: bool, token: Option<string>)
      ensures this.authType == authType && this.requestRetries == requestRetries && this.server == server && this.ready == ready
      ensures authToken == token && sent == 0
    {
      this.authType, this.requestRetries, this.server, this.ready := authType, requestRetries, server, ready;
      this.authToken, this.sent := token, 0;
    }

    function Configuration(): Setup { Setup(authType, requestRetries, ready, server) }

    /** `_send_request`. `getToken` says that it is called while fetching a token; such a call never
        fetches one itself, which is what ends the mutual recursion. */
    method SendRequest(getToken: bool) returns (r: Result<Reply, Error>, rounds: seq<Round>)
      modifies this
      decreases if getToken then 0 else 2, 1
      ensures Outcome(Configuration(), getToken, old(authToken), old(sent), rounds, sent, r)
      ensures authToken == LastObtained(old(authToken), rounds)
    {
      var token := authToken;
      var result: Option<Reply> := None;
      rounds := [];
      for retry := 0 to AUTH_RETRIES + 1
        invariant |rounds| == retry && result == Latest(rounds)
        invariant RoundsOk(Configuration(), getToken, old(authToken), old(sent), rounds, sent)
        invariant token == if rounds == [] then old(authToken) else Carried(rounds[|rounds| - 1])
        invariant rounds != [] ==> GoesOn(Configuration(), retry - 1, rounds[retry - 1])
        invariant authToken == LastObtained(old(authToken), rounds)
      {
        ghost var at := sent;
        var round, stop := SendOnce(getToken, token, retry);
        OneMoreRound(Configuration(), getToken, old(authToken), old(sent), rounds, at, round, sent);
        LatestSnoc(rounds, round);
        LastObtainedSnoc(old(authToken), rounds, round);
        rounds := rounds + [round];
        if stop.Some? {
          return stop.value, rounds;
        }
        if round.reply.Response? {
          result := Some(round.reply);
        }
        if round.obtained.Some? {
          token := round.obtained;
        }
      }
      if result.None? {
        return Err(ServerConnection), rounds;
      }
      r := Ok(result.value);
    }

    /** One pass of the loop: send the request, and fetch a token if it is rejected. `stop` is what the
        call returns or raises right away. */
    method SendOnce(getToken: bool, token: Option<string>, retry: nat) returns (round: Round, stop: Option<Result<Reply, Error>>)
      modifies this
      decreases if getToken then 0 else 2, 0
      ensures round == Round(old(sent), token, server(old(sent)), round.obtained)
      ensures RoundOk(Configuration(), getToken, round, sent)
      ensures stop.None? <==> GoesOn(Configuration(), retry, round)
      ensures stop.Some? ==>
                if Rejected(round.reply, getToken) then stop.value.Err? && FetchFails(Configuration(), round.number + 1, sent, stop.value.error)
                else if round.reply.Response? then stop.value == Ok(round.reply)
                else stop.value == Err(if round.reply.OtherOsError? then OsError else ConnectionLost)
      ensures authToken == if round.obtained.Some? then round.obtained else old(authToken)
    {
      var reply := server(sent);
      round := Round(sent, token, reply, None);
      sent := sent + 1;
      if reply.ConnectionFailed? || reply.BrokenPipe? {
        return round, if retry > requestRetries then Some(Err(ConnectionLost)) else None;
      }
      if reply.OtherOsError? {
        return round, Some(Err(OsError));
      }
      if reply.status in STATUS_CODES_TO_RETRY {
        return round, None;
      }
      if reply.status == UNAUTHORIZED && !getToken {
        var fetched := GetToken();
        if fetched.Err? {
          return round, Some(Err(fetched.error));
        }
        return round.(obtained := authToken), None;
      }
      return round, Some(Ok(reply));
    }

    /** A response that is an error to the token getters: either reported as such, or as a failure to
        authenticate; the two differ in which error they raise. */
    method CheckedRequest() returns (r: Result<Reply, Error>)
      modifies this
      decreases 1, 0
      ensures r.Ok? ==> Answered(Configuration(), old(sent), sent) && r.value == server(sent - 1)
      ensures r.Err? ==> CheckFails(Configuration(), old(sent), sent, r.error)
      ensures authToken == old(authToken)
    {
      var reply, rounds := SendRequest(true);
      PlainOutcome(Configuration(), old(authToken), old(sent), rounds, sent, reply);
      NoneFetched(Configuration(), old(authToken), old(sent), rounds, sent);
      NothingObtained(old(authToken), rounds);
      if reply.Err? {
        return reply;
      }
      if reply.value.status != OK {
        return Err(if reply.value.status >= 400 && authType !in {X509, X509Proxy} then CannotAuthenticate else Refused);
      }
      return reply;
    }

    /** The getters for each authentication type: the SSH one first asks for a challenge to sign. */
    method FetchToken() returns (r: Result<string, Error>)
      modifies this
      decreases 1, 1
      ensures r.Ok? ==> FetchGets(Configuration(), old(sent), sent, r.value)
      ensures r.Err? ==> FetchFails(Configuration(), old(sent), sent, r.error)
      ensures authToken == if r.Ok? then Some(r.value) else old(authToken)
    {
      if !ready {
        return Err(if authType == Gss then MissingModule else CannotAuthenticate);
      }
      if authType == Ssh {
        var challenge := CheckedRequest();
        if challenge.Err? {
          return Err(challenge.error);
        }
        if challenge.value.challenge.None? {
          return Err(MissingHeader);
        }
      }
      assert Challenged(Configuration(), old(sent), sent);
      var reply := CheckedRequest();
      if reply.Err? {
        return Err(reply.error);
      }
      if reply.value.token.None? {
        return Err(MissingHeader);
      }
      authToken := reply.value.token;
      r := Ok(reply.value.token.value);
    }

    /** `__get_token`. Its retry loop never goes round twice: a getter either raises or leaves a token. */
    method GetToken() returns (r: Result<string, Error>)
      modifies this
      decreases 1, 2
      ensures r.Ok? ==> FetchGets(Configuration(), old(sent), sent, r.value)
      ensures r.Err? ==> FetchFails(Configuration(), old(sent), sent, r.error)
      ensures authToken == if r.Ok? then Some(r.value) else old(authToken)
    {
      for retry := 0 to AUTH_RETRIES + 1
        invariant retry == 0 && sent == old(sent) && authToken == old(authToken)
      {
        var fetched := FetchToken();
        if fetched.Err? {
          return Err(fetched.error);
        }
        if authToken.Some? {
          return fetched;
        }
      }
      r := Err(CannotAuthenticate);
    }
  }

  /** The token a client has after these rounds. */
  function LastObtained(token0: Option<string>, rounds: seq<Round>): Option<string> {
    if rounds == [] then token0
    else if rounds[|rounds| - 1].obtained.Some? then rounds[|rounds| - 1].obtained
    else LastObtained(token0, rounds[..|rounds| - 1])
  }

  lemma LastObtainedSnoc(token0: Option<string>, rounds: seq<Round>, round: Round)
    ensures LastObtained(token0, rounds + [round]) == if round.obtained.Some? then round.obtained else LastObtained(token0, rounds)
  {
    assert (rounds + [round])[..|rounds|] == rounds;
  }

  // ------------------------------------------------------ what follows for the caller

  lemma {:induction false} NumbersGrow(c: Setup, getToken: bool, token0: Option<string>, from: nat, rounds: seq<Round>, to: nat, k: nat)
    requires RoundsOk(c, getToken, token0, from, rounds, to) && k < |rounds|
    ensures from <= rounds[k].number < Next(rounds, to, k) && (getToken ==> rounds[k].number == from + k)
    ensures Next(rounds, to, k) <= from + (k + 1) * if getToken then 1 else if c.authType == Ssh then 7 else 4
  {
    if k > 0 {
      NumbersGrow(c, getToken, token0, from, rounds, to, k - 1);
    }
    assert RoundAt(c, getToken, rounds, to, k);
    RoundTakes(c, getToken, rounds[k], Next(rounds, to, k));
  }

  lemma RoundTakes(c: Setup, getToken: bool, round: Round, next: nat)
    requires RoundOk(c, getToken, round, next)
    ensures round.number < next <= round.number + if getToken then 1 else if c.authType == Ssh then 7 else 4
  {
    if Rejected(round.reply, getToken) {
      FetchIsShort(c, round.number + 1, next);
    }
  }

  /** One call sends at most three requests of its own, and fetching a token takes three more after each, for SSH six. */
  lemma AtMostRequests(c: Setup, getToken: bool, token0: Option<string>, from: nat, rounds: seq<Round>, to: nat, r: Result<Reply, Error>)
    requires Outcome(c, getToken, token0, from, rounds, to, r)
    ensures from < to <= from + if getToken then 3 else if c.authType == Ssh then 21 else 12
  {
    NumbersGrow(c, getToken, token0, from, rounds, to, |rounds| - 1);
  }

  lemma {:induction false} NothingObtained(token0: Option<string>, rounds: seq<Round>)
    requires forall k :: 0 <= k < |rounds| ==> rounds[k].obtained.None?
    ensures LastObtained(token0, rounds) == token0
  {
    if rounds != [] {
      NothingObtained(token0, rounds[..|rounds| - 1]);
    }
  }

  /** The rounds of a call that fetches no token are one request after the other. */
  ghost predicate PlainRounds(c: Setup, from: nat, rounds: seq<Round>) {
    && (forall k :: 0 <= k < |rounds| ==> rounds[k].reply == c.server(from + k))
    && (forall k :: 0 <= k < |rounds| - 1 ==> Passes(c, k, rounds[k].reply))
  }

  lemma NoneFetched(c: Setup, token0: Option<string>, from: nat, rounds: seq<Round>, to: nat)
    requires RoundsOk(c, true, token0, from, rounds, to)
    ensures PlainRounds(c, from, rounds) && to == from + |rounds|
    ensures forall k :: 0 <= k < |rounds| ==> rounds[k].obtained.None?
  {
    forall k | 0 <= k < |rounds|
      ensures Next(rounds, to, k) == from + k + 1 && rounds[k].reply == c.server(from + k) && rounds[k].obtained.None?
    {
      NumbersGrow(c, true, token0, from, rounds, to, k);
      assert RoundAt(c, true, rounds, to, k);
    }
    assert rounds != [] ==> Next(rounds, to, |rounds| - 1) == to;
    forall k | 0 <= k < |rounds| - 1
      ensures Passes(c, k, rounds[k].reply)
    {
      assert FollowedAt(c, rounds, k);
    }
  }

  lemma PlainSends(c: Setup, from: nat, rounds: seq<Round>, to: nat)
    requires PlainRounds(c, from, rounds) && to == from + |rounds| && 1 <= |rounds| <= 3
    ensures Sends(c, from, to) && rounds[|rounds| - 1].reply == c.server(to - 1)
  {
    forall i: nat | from <= i < to - 1
      ensures Passes(c, i - from, c.server(i))
    {
      assert rounds[i - from].reply == c.server(from + (i - from));
    }
  }

  /** After three requests that let the loop go on, the latest response is one to wait for. */
  lemma LatestDenied(c: Setup, from: nat, rounds: seq<Round>, to: nat)
    requires PlainRounds(c, from, rounds) && |rounds| == 3 && to == from + 3 && Passes(c, 2, rounds[2].reply)
    ensures Latest(rounds).None? ==> Down(c, from)
    ensures Latest(rounds).Some? ==> exists i: nat :: Denied(c, from, to, i) && c.server(i) == Latest(rounds).value
  {
    assert forall k :: 0 <= k < 3 ==> Passes(c, k, rounds[k].reply);
    assert forall i: nat {:trigger c.server(i)} :: from <= i < to ==> c.server(i) == rounds[i - from].reply;
    if Latest(rounds).Some? {
      var k := LatestIndex(rounds);
      assert Denied(c, from, to, from + k);
    }
  }

  /** A call of the token getters, read off the server's replies. */
  lemma PlainOutcome(c: Setup, token0: Option<string>, from: nat, rounds: seq<Round>, to: nat, r: Result<Reply, Error>)
    requires Outcome(c, true, token0, from, rounds, to, r)
    ensures r.Err? ==> CheckFails(c, from, to, r.error)
    ensures r.Ok? ==> r.value.Response? && if r.value.status == 200 then Answered(c, from, to) && r.value == c.server(to - 1)
                                           else exists i: nat :: Denied(c, from, to, i) && c.server(i) == r.value
    ensures Sends(c, from, to)
  {
    NoneFetched(c, token0, from, rounds, to);
    PlainSends(c, from, rounds, to);
    if Passes(c, |rounds| - 1, c.server(to - 1)) {
      LatestDenied(c, from, rounds, to);
    } else if r.Ok? && r.value.status != 200 {
      assert Denied(c, from, to, to - 1);
    }
  }

  /** Every retry after a rejection carries the token fetched after it. */
  lemma RetryCarriesFreshToken(c: Setup, getToken: bool, token0: Option<string>, from: nat, rounds: seq<Round>, to: nat, r: Result<Reply, Error>, k: nat)
    requires Outcome(c, getToken, token0, from, rounds, to, r) && k + 1 < |rounds| && Rejected(rounds[k].reply, getToken)
    ensures rounds[k + 1].token.Some? && FetchGets(c, rounds[k].number + 1, rounds[k + 1].number, rounds[k + 1].token.value)
  {
    assert RoundAt(c, getToken, rounds, to, k);
    assert FollowedAt(c, rounds, k);
  }

  /** A token can be fetched from request `at` on. */
  ghost predicate Fetchable(c: Setup, at: nat) { exists to: nat, token :: FetchGets(c, at, to, token) }

  lemma FetchedIff(c: Setup, at: nat, obtained: Option<string>, next: nat)
    requires Fetched(c, at, obtained, next)
    ensures obtained.Some? <==> Fetchable(c, at)
    ensures FetchDown(c, at) ==> obtained.None?
  {
    if obtained.None? && Fetchable(c, at) {
      var to: nat, token :| FetchGets(c, at, to, token);
      var e :| FetchFails(c, at, next, e);
      FetchGetsOrFails(c, at, to, token, next, e);
    }
    if obtained.Some? && FetchDown(c, at) {
      FetchDownIff(c, at);
      var to: nat :| FetchFails(c, at, to, ServerConnection);
      FetchGetsOrFails(c, at, next, obtained.value, to, ServerConnection);
    }
  }

  /** A rejection ends the call exactly if no token can be fetched; otherwise a request is left to be sent, or it was
      the third one and the rejection is what is returned. */
  lemma RejectionGoesOn(c: Setup, token0: Option<string>, from: nat, rounds: seq<Round>, to: nat, r: Result<Reply, Error>, k: nat)
    requires Outcome(c, false, token0, from, rounds, to, r) && k < |rounds| && Rejected(rounds[k].reply, false)
    ensures Fetchable(c, rounds[k].number + 1) <==> k + 1 < |rounds| || (k == 2 && r == Ok(rounds[k].reply))
    ensures k + 1 < |rounds| || r.Ok? || FetchFails(c, rounds[k].number + 1, to, r.error)
  {
    assert RoundAt(c, false, rounds, to, k);
    FetchedIff(c, rounds[k].number + 1, rounds[k].obtained, Next(rounds, to, k));
    assert k + 1 < |rounds| ==> FollowedAt(c, rounds, k);
  }

  /** No token can be fetched after some rejection, since the server is down. */
  ghost predicate DownAfter(c: Setup, getToken: bool, rounds: seq<Round>, k: nat) {
    k < |rounds| && Rejected(rounds[k].reply, getToken) && FetchDown(c, rounds[k].number + 1)
  }

  lemma {:induction false} UnansweredRounds(c: Setup, getToken: bool, token0: Option<string>, from: nat, rounds: seq<Round>, to: nat, k: nat)
    requires RoundsOk(c, getToken, token0, from, rounds, to) && k < |rounds|
    requires forall i :: 0 <= i < k ==> !rounds[i].reply.Response?
    ensures rounds[k].number == from + k && rounds[k].reply == c.server(from + k)
  {
    if k > 0 {
      UnansweredRounds(c, getToken, token0, from, rounds, to, k - 1);
      assert RoundAt(c, getToken, rounds, to, k - 1);
    }
    assert RoundAt(c, getToken, rounds, to, k);
  }

  lemma DownHasNoRejection(c: Setup, getToken: bool, token0: Option<string>, from: nat, rounds: seq<Round>, to: nat, r: Result<Reply, Error>)
    requires Outcome(c, getToken, token0, from, rounds, to, r)
    ensures Down(c, from) <==> |rounds| == 3 && (forall k :: 0 <= k < 3 ==> Unreachable(rounds[k].reply) && k <= c.requestRetries)
    ensures Down(c, from) ==> r == Err(ServerConnection)
  {
    UnansweredRounds(c, getToken, token0, from, rounds, to, 0);
    if |rounds| > 1 && !rounds[0].reply.Response? {
      UnansweredRounds(c, getToken, token0, from, rounds, to, 1);
      if |rounds| > 2 && !rounds[1].reply.Response? {
        UnansweredRounds(c, getToken, token0, from, rounds, to, 2);
      }
    }
  }

  /** The connection is reported as failed exactly if the server is down from the first request on, or for
      fetching a token after a request was rejected. */
  lemma ConnectionFailsIff(c: Setup, getToken: bool, token0: Option<string>, from: nat, rounds: seq<Round>, to: nat, r: Result<Reply, Error>)
    requires Outcome(c, getToken, token0, from, rounds, to, r)
    ensures r == Err(ServerConnection) <==> Down(c, from) || exists k: nat :: DownAfter(c, getToken, rounds, k)
  {
    DownHasNoRejection(c, getToken, token0, from, rounds, to, r);
    if k: nat :| DownAfter(c, getToken, rounds, k) {
      DownGetsNothing(c, getToken, token0, from, rounds, to, k);
    }
    LastRejected(c, getToken, rounds, to, r);
    if |rounds| == 3 && Latest(rounds).None? && GoesOn(c, 2, rounds[2]) {
      UnansweredIsDown(c, getToken, token0, from, rounds, to);
    }
  }

  lemma UnansweredIsDown(c: Setup, getToken: bool, token0: Option<string>, from: nat, rounds: seq<Round>, to: nat)
    requires RoundsOk(c, getToken, token0, from, rounds, to) && |rounds| == 3 && Latest(rounds).None? && GoesOn(c, 2, rounds[2])
    ensures forall k :: 0 <= k < 3 ==> Unreachable(rounds[k].reply) && k <= c.requestRetries
    ensures Down(c, from) && to == from + 3
  {
    forall k | 0 <= k < 3
      ensures Unreachable(rounds[k].reply) && k <= c.requestRetries && c.server(from + k) == rounds[k].reply && Next(rounds, to, k) == from + k + 1
    {
      UnansweredRounds(c, getToken, token0, from, rounds, to, k);
      assert RoundAt(c, getToken, rounds, to, k);
      assert k < 2 ==> FollowedAt(c, rounds, k);
    }
    assert forall i: nat {:trigger c.server(i)} :: from <= i < from + 3 ==> c.server(i) == rounds[i - from].reply;
    assert Next(rounds, to, 2) == to && 2 <= c.requestRetries;
  }

  /** A call that reports the connection as failed has just sent three requests in a row that got no response. */
  lemma SilentAtTheEnd(c: Setup, getToken: bool, token0: Option<string>, from: nat, rounds: seq<Round>, to: nat)
    requires Outcome(c, getToken, token0, from, rounds, to, Err(ServerConnection))
    ensures from + 3 <= to && forall i: nat :: to - 3 <= i < to ==> !c.server(i).Response?
  {
    var last := |rounds| - 1;
    NumbersGrow(c, getToken, token0, from, rounds, to, last);
    if GoesOn(c, last, rounds[last]) {
      UnansweredIsDown(c, getToken, token0, from, rounds, to);
    } else {
      FetchIsSilent(c, rounds[last].number + 1, to);
    }
  }

  lemma FetchIsSilent(c: Setup, at: nat, to: nat)
    requires FetchFails(c, at, to, ServerConnection)
    ensures at + 3 <= to && forall i: nat :: to - 3 <= i < to ==> !c.server(i).Response?
  {
  }

  lemma DownGetsNothing(c: Setup, getToken: bool, token0: Option<string>, from: nat, rounds: seq<Round>, to: nat, k: nat)
    requires RoundsOk(c, getToken, token0, from, rounds, to) && DownAfter(c, getToken, rounds, k)
    ensures rounds[k].obtained.None? && k + 1 == |rounds|
  {
    assert RoundAt(c, getToken, rounds, to, k);
    assert k + 1 < |rounds| ==> FollowedAt(c, rounds, k);
    FetchedIff(c, rounds[k].number + 1, rounds[k].obtained, Next(rounds, to, k));
  }

  /** If the last round is rejected and no token can be fetched, the reason is the server being down or another one. */
  lemma LastRejected(c: Setup, getToken: bool, rounds: seq<Round>, to: nat, r: Result<Reply, Error>)
    requires rounds != [] && Ends(c, getToken, rounds, to, r)
    ensures var last := rounds[|rounds| - 1];
            Rejected(last.reply, getToken) && last.obtained.None? ==> (r == Err(ServerConnection) <==> DownAfter(c, getToken, rounds, |rounds| - 1))
  {
    var last := rounds[|rounds| - 1];
    FetchDownIff(c, last.number + 1);
    if Rejected(last.reply, getToken) && last.obtained.None? && DownAfter(c, getToken, rounds, |rounds| - 1) {
      var end: nat :| FetchFails(c, last.number + 1, end, ServerConnection);
      FetchFailureIsOne(c, last.number + 1, end, ServerConnection, to, r.error);
    }
  }

  lemma FetchedIsOne(c: Setup, at: nat, obtained1: Option<string>, next1: nat, obtained2: Option<string>, next2: nat)
    requires Fetched(c, at, obtained1, next1) && Fetched(c, at, obtained2, next2)
    ensures obtained1 == obtained2 && next1 == next2
  {
    FetchedIff(c, at, obtained1, next1);
    FetchedIff(c, at, obtained2, next2);
    if obtained1.Some? {
      FetchIsOne(c, at, next1, obtained1.value, next2, obtained2.value);
    } else {
      var e1 :| FetchFails(c, at, next1, e1);
      var e2 :| FetchFails(c, at, next2, e2);
      FetchFailureIsOne(c, at, next1, e1, next2, e2);
    }
  }

  lemma RoundIsOne(c: Setup, getToken: bool, round1: Round, next1: nat, round2: Round, next2: nat)
    requires RoundOk(c, getToken, round1, next1) && RoundOk(c, getToken, round2, next2)
    requires round1.number == round2.number && round1.token == round2.token
    ensures round1 == round2 && next1 == next2
  {
    if Rejected(round1.reply, getToken) {
      FetchedIsOne(c, round1.number + 1, round1.obtained, next1, round2.obtained, next2);
    }
  }

  lemma {:induction false} RoundsAgree(c: Setup, getToken: bool, token0: Option<string>, from: nat,
                                       rounds1: seq<Round>, to1: nat, rounds2: seq<Round>, to2: nat, k: nat)
    requires RoundsOk(c, getToken, token0, from, rounds1, to1) && RoundsOk(c, getToken, token0, from, rounds2, to2)
    requires k < |rounds1| && k < |rounds2|
    ensures rounds1[k] == rounds2[k] && Next(rounds1, to1, k) == Next(rounds2, to2, k)
  {
    if k > 0 {
      RoundsAgree(c, getToken, token0, from, rounds1, to1, rounds2, to2, k - 1);
      assert FollowedAt(c, rounds1, k - 1) && FollowedAt(c, rounds2, k - 1);
    }
    assert RoundAt(c, getToken, rounds1, to1, k) && RoundAt(c, getToken, rounds2, to2, k);
    RoundIsOne(c, getToken, rounds1[k], Next(rounds1, to1, k), rounds2[k], Next(rounds2, to2, k));
  }

  /** After a call ended, no other of the same client can have gone on. */
  lemma NoLonger(c: Setup, getToken: bool, token0: Option<string>, from: nat,
                 rounds1: seq<Round>, to1: nat, r1: Result<Reply, Error>, rounds2: seq<Round>, to2: nat, r2: Result<Reply, Error>)
    requires Outcome(c, getToken, token0, from, rounds1, to1, r1) && Outcome(c, getToken, token0, from, rounds2, to2, r2)
    ensures |rounds2| <= |rounds1|
  {
    if |rounds1| < |rounds2| {
      RoundsAgree(c, getToken, token0, from, rounds1, to1, rounds2, to2, |rounds1| - 1);
      LastStays(c, getToken, rounds1, to1, r1);
      WentOn(c, getToken, token0, from, rounds2, to2, |rounds1| - 1);
      assert false;
    }
  }

  lemma WentOn(c: Setup, getToken: bool, token0: Option<string>, from: nat, rounds: seq<Round>, to: nat, k: nat)
    requires RoundsOk(c, getToken, token0, from, rounds, to) && k + 1 < |rounds|
    ensures GoesOn(c, k, rounds[k])
  {
    assert FollowedAt(c, rounds, k);
  }

  lemma LastStays(c: Setup, getToken: bool, rounds: seq<Round>, to: nat, r: Result<Reply, Error>)
    requires 1 <= |rounds| < 3 && Ends(c, getToken, rounds, to, r)
    ensures !GoesOn(c, |rounds| - 1, rounds[|rounds| - 1])
  {
  }

  lemma EndsOnce(c: Setup, getToken: bool, rounds: seq<Round>, to: nat, r1: Result<Reply, Error>, r2: Result<Reply, Error>)
    requires rounds != [] && Ends(c, getToken, rounds, to, r1) && Ends(c, getToken, rounds, to, r2)
    ensures r1 == r2
  {
    var last := rounds[|rounds| - 1];
    if Rejected(last.reply, getToken) && last.obtained.None? && !GoesOn(c, |rounds| - 1, last) {
      FetchFailureIsOne(c, last.number + 1, to, r1.error, to, r2.error);
    }
  }

  /** The server's replies and the token at the start decide everything a call does. */
  lemma OutcomeIsOne(c: Setup, getToken: bool, token0: Option<string>, from: nat,
                     rounds1: seq<Round>, to1: nat, r1: Result<Reply, Error>, rounds2: seq<Round>, to2: nat, r2: Result<Reply, Error>)
    requires Outcome(c, getToken, token0, from, rounds1, to1, r1) && Outcome(c, getToken, token0, from, rounds2, to2, r2)
    ensures rounds1 == rounds2 && to1 == to2 && r1 == r2
  {
    NoLonger(c, getToken, token0, from, rounds1, to1, r1, rounds2, to2, r2);
    NoLonger(c, getToken, token0, from, rounds2, to2, r2, rounds1, to1, r1);
    forall k | 0 <= k < |rounds1|
      ensures rounds1[k] == rounds2[k] && Next(rounds1, to1, k) == Next(rounds2, to2, k)
    {
      RoundsAgree(c, getToken, token0, from, rounds1, to1, rounds2, to2, k);
    }
    assert rounds1 == rounds2;
    assert Next(rounds1, to1, |rounds1| - 1) == to1;
    EndsOnce(c, getToken, rounds1, to1, r1, r2);
  }

  // ------------------------------------------------------------------- two servers

  /** A call that did receive a response, a 401, reports the connection as failed: the token cannot be fetched. */
  method UnauthorisedThenDown(authType: AuthType, requestRetries: int, token: Option<string>)
    returns (r: Result<Reply, Error>, rounds: seq<Round>)
    requires requestRetries >= 2
    ensures r == Err(ServerConnection) && rounds != [] && rounds[0].reply == Response(401, None, None)
  {
    var server := (n: nat) => if n == 0 then Response(401, None, None) else ConnectionFailed;
    var client := new Client(authType, requestRetries, server, true, token);
    r, rounds := client.SendRequest(false);
    ConnectionFailsIff(client.Configuration(), false, token, 0, rounds, client.sent, r);
    assert RoundAt(client.Configuration(), false, rounds, client.sent, 0);
    assert Down(client.Configuration(), 1) && DownAfter(client.Configuration(), false, rounds, 0);
  }

  /** With a configuration of fewer retries the error is another one, and the connection is never reported as failed. */
  method FewRetries(authType: AuthType, requestRetries: int, server: nat -> Reply, ready: bool, token: Option<string>)
    returns (r: Result<Reply, Error>, rounds: seq<Round>)
    requires requestRetries < 2
    ensures r != Err(ServerConnection)
  {
    var client := new Client(authType, requestRetries, server, ready, token);
    r, rounds := client.SendRequest(false);
    ConnectionFailsIff(client.Configuration(), false, token, 0, rounds, client.sent, r);
  }
}
