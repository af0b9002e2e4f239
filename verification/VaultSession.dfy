/** The client as it is written: methods that change its fields. Each leaves the fields as the
    function of module Vault says, so everything proved there holds of it. */
module VaultSession {
  import opened Text
  import opened Models
  import opened Vault

  class VaultClient {
    const world: World
    const ownsClient: bool
    const roleId: string
    const secretId: string
    var client: nat
    var created: nat
    var closed: seq<nat>
    var token: Option<string>
    var tokenExpiresAt: real
    var renewable: bool
    var sends: seq<Send>
    var readings: nat

    ghost function Pools(): Wire
      reads this
    {
      Wire(ownsClient, client, created, closed, sends)
    }

    ghost function View(): Client
      reads this
    {
      Client(roleId, secretId, token, tokenExpiresAt, renewable, Pools(), readings)
    }

    constructor (world: World, owned: bool, roleId: string, secretId: string)
      ensures View() == Initial(owned, roleId, secretId) && Inv(View())
      ensures this.world == world
    {
      this.world, ownsClient, this.roleId, this.secretId := world, owned, roleId, secretId;
      client, created, closed := 0, if owned then 1 else 0, [];
      token, tokenExpiresAt, renewable, sends, readings := None, 0.0, false, [], 0;
    }

    method Transmit(kind: Kind, header: Option<string>, attempt: nat) returns (outcome: Outcome)
      modifies this`sends
      ensures outcome == world.answer(|old(sends)|)
      ensures sends == old(sends) + [Send(client, kind, header, attempt, outcome)]
    {
      outcome := world.answer(|sends|);
      sends := sends + [Send(client, kind, header, attempt, outcome)];
    }

    method ResetClient()
      modifies this`client, this`created, this`closed
      ensures client == old(created) && created == old(created) + 1 && closed == old(closed) + [old(client)]
    {
      var previous := client;
      client, created := created, created + 1;
      closed := closed + [previous];
    }

    /** `_request`: the outcome is that of the last attempt. */
    method Request(kind: Kind, header: Option<string>) returns (outcome: Outcome)
      modifies this`client, this`created, this`closed, this`sends
      ensures Pools() == Vault.Request(world, old(Pools()), kind, header)
      ensures outcome == Last(Pools())
    {
      ghost var v := Pools();
      for attempt := 0 to 2
        invariant attempt == 1 ==> v.owned && world.answer(|v.sends|).PreSend?
        invariant attempt < 2 && Pools() == if attempt == 0 then v else Attempt(world, v, kind, header, 0)
      {
        outcome := Transmit(kind, header, attempt);
        if !TransportFailure(outcome) || !ownsClient {
          return;
        }
        ResetClient();
        if attempt != 0 || !outcome.PreSend? {
          return;
        }
      }
      assert false;
    }

    /** `_set_token`. */
    method SetToken(auth: AuthBody) returns (raised: Option<Exception>)
      modifies this`token, this`tokenExpiresAt, this`renewable, this`readings
      ensures (View(), raised) == Vault.SetToken(world, old(View()), auth)
    {
      match auth
      case AuthFields(Some(value), Some(lease), granted) =>
        token := Some(value);
        tokenExpiresAt := world.clock(readings) + lease as real;
        readings := readings + 1;
        renewable := granted;
        return None;
      case AuthFields(_, _, _) => return Some(Reported(InvalidAuthentication));
      case _ => return Some(Other("AttributeError"));
    }

    /** The body of both `try` blocks of `_ensure_token`. */
    method Authenticate(kind: Kind, header: Option<string>) returns (raised: Option<Exception>)
      modifies this
      ensures (View(), raised) == Vault.Authenticate(world, old(View()), kind, header)
    {
      var outcome := Request(kind, header);
      if !Success(outcome) {
        return Some(ExceptionOf(outcome));
      }
      if outcome.auth.NoAuth? {
        return Some(Value(Named("KeyError")));
      }
      raised := SetToken(outcome.auth);
    }

    method LogIn() returns (raised: Option<Exception>)
      modifies this
      ensures (View(), raised) == Vault.LogIn(world, old(View()))
    {
      if roleId == "" || secretId == "" {
        return Some(Reported(MissingCredentials));
      }
      raised := Authenticate(Login, None);
      if raised.Some? && Caught(raised.value) {
        return Some(Reported(Authentication(raised.value.detail)));
      }
    }

    /** `_ensure_token`. */
    method EnsureToken() returns (raised: Option<Exception>)
      modifies this
      ensures (View(), raised) == Vault.EnsureToken(world, old(View()))
    {
      if Truthy(token) {
        var now := world.clock(readings);
        readings := readings + 1;
        if now < tokenExpiresAt - 30.0 {
          return None;
        }
      }
      if Truthy(token) && renewable {
        raised := Authenticate(Renew, Header(token));
        if raised.None? || !Caught(raised.value) {
          return;
        }
        if raised.value.Transport? {
          return Some(Reported(Authentication(raised.value.detail)));
        }
        token := None;
      }
      raised := LogIn();
    }

    /** `project`. */
    method Project(repository: string) returns (answer: Answer)
      modifies this
      ensures (View(), answer) == Vault.Project(world, old(View()), repository)
    {
      var raised := EnsureToken();
      if raised.Some? {
        return Raised(raised.value);
      }
      if '/' !in repository {
        return Raised(Value(Named("ValueError")));
      }
      var outcome := Request(Fetch(repository), Header(token));
      if Refused(outcome) {
        token, tokenExpiresAt := None, 0.0;
        raised := EnsureToken();
        if raised.Some? {
          return Raised(Translate(raised.value));
        }
        outcome := Request(Fetch(repository), Header(token));
      }
      answer := Interpret(outcome);
    }

    /** `aclose`. */
    method Close()
      modifies this`closed
      ensures Pools() == Closed(old(Pools()))
    {
      if ownsClient {
        closed := closed + [client];
      }
    }
  }
}
