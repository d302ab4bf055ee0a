/** The login limiter: five failures within five minutes lock a client out until the five minutes are over. */
module Limiter {
  import opened Wrappers

  /** Times are in nanoseconds. */
  const WINDOW: int := 5 * 60 * 1_000_000_000
  const MAX_FAILURES: nat := 5

  datatype LoginFailures = LoginFailures(count: nat, firstAt: int)

  type Failures = map<string, LoginFailures>

  predicate Expired(failure: LoginFailures, now: int) {
    now - failure.firstAt >= WINDOW
  }

  predicate Limited(failures: Failures, client: string, now: int) {
    client in failures && !Expired(failures[client], now) && failures[client].count >= MAX_FAILURES
  }

  function AfterCheck(failures: Failures, client: string, now: int): Failures {
    if client in failures && Expired(failures[client], now) then failures - {client} else failures
  }

  function AfterFailure(failures: Failures, client: string, now: int): Failures {
    if client !in failures || Expired(failures[client], now) then failures[client := LoginFailures(1, now)]
    else failures[client := failures[client].(count := failures[client].count + 1)]
  }

  datatype Response = TooManyRequests | BadRequest | Unauthorized | NoContent

  class AuthHandler {
    var failures: Failures

    constructor ()
      ensures failures == map[]
    {
      failures := map[];
    }

    method RateLimited(client: string, now: int) returns (limited: bool)
      modifies this
      ensures limited == Limited(old(failures), client, now)
      ensures limited <==>
                && client in old(failures) && old(failures)[client].count >= 5
                && now < old(failures)[client].firstAt + 300_000_000_000
      ensures failures == AfterCheck(old(failures), client, now)
      ensures failures ==
              if client in old(failures) && now >= old(failures)[client].firstAt + 300_000_000_000
              then old(failures) - {client} else old(failures)
    {
      if client !in failures {
        return false;
      }
      var failure := failures[client];
      if now - failure.firstAt >= WINDOW {
        failures := failures - {client};
        return false;
      }
      limited := failure.count >= MAX_FAILURES;
    }

    method RecordFailure(client: string, now: int)
      modifies this
      ensures failures == AfterFailure(old(failures), client, now)
      ensures client in failures && failures - {client} == old(failures) - {client}
      ensures if client in old(failures) && now < old(failures)[client].firstAt + 300_000_000_000
              then failures[client].count == old(failures)[client].count + 1
                   && failures[client].firstAt == old(failures)[client].firstAt
              else failures[client].count == 1 && failures[client].firstAt == now
    {
      if client !in failures || now - failures[client].firstAt >= WINDOW {
        failures := failures[client := LoginFailures(1, now)];
        return;
      }
      var failure := failures[client];
      failure := failure.(count := failure.count + 1);
      failures := failures[client := failure];
    }

    method ClearFailures(client: string)
      modifies this
      ensures failures == old(failures) - {client}
    {
      failures := failures - {client};
    }

    /** One login, undisturbed by others: `readable` is whether the request could be decoded, `ok` its credentials. */
    method Login(client: string, checked: int, readable: bool, ok: bool, recorded: int) returns (r: Response)
      modifies this
      ensures r == TooManyRequests <==>
                && client in old(failures) && old(failures)[client].count >= 5
                && checked < old(failures)[client].firstAt + 300_000_000_000
      ensures r == BadRequest <==> r != TooManyRequests && !readable
      ensures r == NoContent <==> r != TooManyRequests && readable && ok
      ensures forall other :: other != client ==>
                (other in failures <==> other in old(failures))
                && (other in failures ==> failures[other] == old(failures)[other])
      ensures r == TooManyRequests ==> failures == old(failures)
      ensures r == NoContent ==> client !in failures
      ensures var was := if client in old(failures) && checked < old(failures)[client].firstAt + 300_000_000_000
                         then Some(old(failures)[client]) else None;
              && (r == BadRequest ==> (if client in failures then Some(failures[client]) else None) == was)
              && (r == Unauthorized ==>
                    && client in failures
                    && (if was.Some? && recorded < was.value.firstAt + 300_000_000_000
                        then failures[client] == LoginFailures(was.value.count + 1, was.value.firstAt)
                        else failures[client] == LoginFailures(1, recorded)))
    {
      var limited := RateLimited(client, checked);
      if limited {
        return TooManyRequests;
      }
      if !readable {
        return BadRequest;
      }
      if !ok {
        RecordFailure(client, recorded);
        return Unauthorized;
      }
      ClearFailures(client);
      return NoContent;
    }
  }
}
