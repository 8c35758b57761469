/**
 The SMTP settings the handler reads from the environment, the redacted
 record it logs before checking them, the presence check that gates the
 rest of the request, and the options it hands to the mail transport.
 */
module SmtpConfig {
  import opened JsValues

  /**
   The environment as the handler sees it: `SMTP_HOST`, `SMTP_PORT`,
   `SMTP_USER` and `SMTP_PASS`, each possibly undefined, together with
   `portNumber`, the value of `Number(SMTP_PORT)` (`None` when that is NaN),
   which the caller supplies because number coercion is not modelled.
   */
  datatype Env = Env(
    host: Option<string>,
    port: Option<string>,
    portNumber: Option<int>,
    user: Option<string>,
    pass: Option<string>)

  /** The port on which the connection starts with TLS rather than upgrading to it. */
  const ImplicitTlsPort: int := 465

  /**
   The record that is logged on every request. It carries the password only
   through its length; there is no field that could hold the password itself.
   */
  datatype ConfigLog = ConfigLog(
    host: Option<string>,
    port: Option<string>,
    user: Option<string>,
    passLength: nat,
    secure: bool)

  /** `pass ? pass.length : 0`: the JavaScript length of a defined password, else zero. */
  function PassLength(pass: Option<string>): (n: nat)
    ensures n == 0 <==> !Truthy(pass)
    ensures pass.Some? ==> |pass.value| <= n <= 2 * |pass.value|
  {
    if Truthy(pass) then Utf16Length(pass.value) else 0
  }

  /** `Number(port) === 465`: whether the transport is opened with implicit TLS. */
  function Secure(portNumber: Option<int>): (tls: bool)
    ensures tls ==> portNumber.Some? && portNumber.value == 465
    ensures portNumber.Some? && portNumber.value != 465 ==> !tls
    ensures portNumber.None? ==> !tls
  {
    portNumber == Some(ImplicitTlsPort)
  }

  /** The redacted configuration record built and logged before anything else happens. */
  function Log(env: Env): (log: ConfigLog)
    ensures log.host == env.host && log.port == env.port && log.user == env.user
    ensures log.passLength == 0 <==> !Truthy(env.pass)
    ensures env.pass.Some? ==> log.passLength == Utf16Length(env.pass.value)
    ensures log.secure <==> env.portNumber == Some(465)
  {
    ConfigLog(env.host, env.port, env.user, PassLength(env.pass), Secure(env.portNumber))
  }

  /** The gate of the handler: host and user truthy and a non-zero password length. */
  function ConfigPresent(log: ConfigLog): (ok: bool)
    ensures ok <==> log.host.Some? && log.host.value != ""
                    && log.user.Some? && log.user.value != ""
                    && log.passLength > 0
  {
    Truthy(log.host) && Truthy(log.user) && log.passLength != 0
  }

  /**
   The gate, restated on the environment: it passes exactly when host, user
   and password are all defined and non-empty; the port plays no part.
   */
  lemma ConfigPresentIff(env: Env)
    ensures ConfigPresent(Log(env)) <==> Truthy(env.host) && Truthy(env.user) && Truthy(env.pass)
  {
  }

  /**
   The logged record is blind to the password: two environments that differ
   only in passwords of equal length log the very same record.
   */
  lemma LogHidesPassword(env: Env, otherPass: Option<string>)
    requires PassLength(otherPass) == PassLength(env.pass)
    ensures Log(env.(pass := otherPass)) == Log(env)
  {
  }

  /** The options given to the transport: connection, TLS mode and credentials. */
  datatype Transport = Transport(
    host: Option<string>,
    port: Option<int>,
    secure: bool,
    user: Option<string>,
    pass: Option<string>)

  /** The transport options taken from the same environment variables. */
  function TransportFor(env: Env): (t: Transport)
    ensures t.secure == Log(env).secure
    ensures t.port == env.portNumber
    ensures t.secure <==> t.port == Some(ImplicitTlsPort)
    ensures t.host == Log(env).host && t.user == Log(env).user
    ensures t.pass == env.pass
  {
    Transport(env.host, env.portNumber, Secure(env.portNumber), env.user, env.pass)
  }
}
