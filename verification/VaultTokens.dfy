/** When the Vault client keeps, renews or replaces its token, and what it then remembers of the grant. */
module VaultTokens {
  import opened Text
  import opened Vault

  /** There is a token, and more than thirty seconds are left of its lease. */
  predicate StillGood(w: World, v: Client) {
    v.token.Some? && v.token.value != "" && v.expiresAt - w.clock(v.readings) > 30.0
  }

  lemma LogInSends(w: World, v: Client)
    ensures var (v', raised) := LogIn(w, v);
            if v.roleId == "" || v.secretId == "" then v' == v && raised == Some(Reported(MissingCredentials))
            else |v'.wire.sends| > |v.wire.sends| && v'.wire.sends[|v.wire.sends|].kind == Login && v.wire.sends <= v'.wire.sends
  {
    if v.roleId != "" && v.secretId != "" { FirstOfRequest(w, v.wire, Login, None); }
  }

  lemma FirstOfRequest(w: World, v: Wire, kind: Kind, header: Option<string>)
    ensures var v' := Request(w, v, kind, header);
            |v'.sends| > |v.sends| && v.sends <= v'.sends && v'.sends[|v.sends|].kind == kind
  {
    var first := Attempt(w, v, kind, header, 0);
    assert first.sends[|v.sends|].kind == kind;
  }

  lemma RenewalSends(w: World, v: Client, wire: Wire, raised: Option<Exception>)
    requires |v.wire.sends| > |wire.sends| && wire.sends <= v.wire.sends
    ensures var v' := AfterRenewal(w, v, raised).0; |v'.wire.sends| > |wire.sends| && v.wire.sends <= v'.wire.sends
  {
    LogInSends(w, v.(token := None));
  }

  /** What `_ensure_token` does first: it keeps a token exactly while more than thirty seconds of its
      lease are left; otherwise it renews one that is renewable, and logs in else. */
  lemma TokenKeptIff(w: World, v: Client)
    ensures var (v', raised) := EnsureToken(w, v);
            && (raised == None && v'.wire == v.wire <==> StillGood(w, v))
            && (StillGood(w, v) ==> v'.token == v.token && v'.expiresAt == v.expiresAt && v'.renewable == v.renewable)
  {
    if !StillGood(w, v) { FirstRequest(w, v); }
  }

  lemma FirstRequest(w: World, v: Client)
    requires !StillGood(w, v)
    ensures var (v', raised) := EnsureToken(w, v);
            var renews := v.token.Some? && v.token.value != "" && v.renewable;
            if !renews && (v.roleId == "" || v.secretId == "") then
              v'.wire == v.wire && raised == Some(Reported(MissingCredentials))
            else
              |v'.wire.sends| > |v.wire.sends| && v'.wire.sends[|v.wire.sends|].kind == if renews then Renew else Login
  {
    if Truthy(v.token) && v.renewable {
      FirstOfRequest(w, v.wire, Renew, Header(v.token));
      var (v1, raised) := Authenticate(w, Checked(v), Renew, Header(v.token));
      AuthenticateOutcome(w, Checked(v), Renew, Header(v.token));
      RenewalSends(w, v1, v.wire, raised);
    } else {
      LogInSends(w, Checked(v));
    }
  }

  /** Token, lease and renewability are those of the last answer. */
  predicate Remembers(w: World, v: Client) {
    && v.wire.sends != [] && Grants(Last(v.wire)) && v.readings > 0
    && v.token == Last(v.wire).auth.token && v.renewable == Last(v.wire).auth.renewable
    && v.expiresAt == w.clock(v.readings - 1) + Last(v.wire).auth.lease.value as real
  }

  lemma AuthenticateRemembers(w: World, v: Client, kind: Kind, header: Option<string>)
    ensures var (v', raised) := Authenticate(w, v, kind, header); raised.None? ==> Remembers(w, v') && v'.readings == v.readings + 1
    ensures var (v', raised) := Authenticate(w, v, kind, header);
            raised.Some? ==> v'.token == v.token && v'.expiresAt == v.expiresAt && v'.renewable == v.renewable
  {
  }

  /** After a grant the client remembers the token, the clock at the grant plus the lease, and whether the
      token is renewable, as Vault's last answer says. */
  lemma GrantRemembered(w: World, v: Client)
    ensures var (v', raised) := EnsureToken(w, v); raised.None? && !StillGood(w, v) ==> Remembers(w, v')
  {
    if Truthy(v.token) && v.renewable {
      AuthenticateRemembers(w, Checked(v), Renew, Header(v.token));
      var (v1, raised) := Authenticate(w, Checked(v), Renew, Header(v.token));
      AuthenticateRemembers(w, v1.(token := None), Login, None);
    } else {
      AuthenticateRemembers(w, Checked(v), Login, None);
    }
  }

  /** What counts as a grant: an answer in the two hundreds with a token and a lease. */
  lemma GrantIff(o: Outcome)
    ensures Grants(o) <==>
              && o.Response? && 200 <= o.status < 300
              && o.auth.AuthFields? && o.auth.token.Some? && o.auth.lease.Some?
  {
  }

  /** A lookup goes on after its first request exactly if Vault refused the token, with 401 or 403, and
      there are credentials to log in with. */
  lemma LooksAgainIff(w: World, v: Client, repository: string)
    ensures var first, after := Look(w, v, repository).wire, LookUp(w, v, repository).0.wire;
            var o := Last(first);
            |after.sends| > |first.sends|
            <==> o.Response? && (o.status == 401 || o.status == 403) && v.roleId != "" && v.secretId != ""
  {
    var v1 := Look(w, v, repository);
    if Refused(Last(v1.wire)) {
      var dropped := v1.(token := None, expiresAt := 0.0);
      FirstRequest(w, dropped);
      var v2 := EnsureToken(w, dropped).0;
      RequestPursues(w, v2.wire, Fetch(repository), Header(v2.token));
    }
  }
}
