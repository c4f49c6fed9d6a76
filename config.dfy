/** Derivation of the server's settings from its environment, once at startup. */
module Config {
  import opened Wrappers
  import opened Strings

  /** The environment variables the server reads. `None` is an unset variable.
      `timeoutMinutes` is `TIMEOUT` already read as a decimal number: `None` when
      it is unset or empty (both fall back to '15'). */
  datatype Env = Env(
    hostname: Option<string>,
    flyAppName: Option<string>,
    javascript: Option<string>,
    timeoutMinutes: Option<nat>,
    format: Option<string>)

  /** The settings every request handler reads; never changed after startup. */
  datatype Config = Config(hostname: string, format: string, javascript: bool, timeoutMs: nat)

  /** A started server always has a host to rewrite requests to. */
  predicate Valid(c: Config) {
    c.hostname != ""
  }

  const DefaultFormat: string := "letter"
  const DefaultTimeoutMinutes: nat := 15
  const MsPerMinute: nat := 60 * 1000
  const AppSuffix: string := "-pdf"
  const FlyDomain: string := ".fly.dev"

  /** JavaScript's `v || fallback` on an environment string: unset and "" are falsy. */
  function OrElse(v: Option<string>, fallback: string): (r: string)
    ensures v.Some? && v.value != "" ==> r == v.value
    ensures v.None? || v.value == "" ==> r == fallback
  {
    if v.Some? && v.value != "" then v.value else fallback
  }

  /** `FORMAT`, passed to the exporter without validation. */
  function Format(env: Env): (f: string)
    ensures f != ""
    ensures env.format.Some? && env.format.value != "" ==> f == env.format.value
    ensures env.format.None? || env.format.value == "" ==> f == DefaultFormat
  {
    OrElse(env.format, DefaultFormat)
  }

  /** `JAVASCRIPT`: scripts stay enabled unless the variable is exactly "false". */
  function JavaScript(v: Option<string>): (enabled: bool)
    ensures !enabled <==> v == Some("false")
  {
    v != Some("false")
  }

  /** `TIMEOUT`, given in minutes, as milliseconds; 15 minutes when unset. */
  function TimeoutMs(minutes: Option<nat>): (ms: nat)
    ensures ms % MsPerMinute == 0
    ensures ms / MsPerMinute == if minutes.Some? then minutes.value else DefaultTimeoutMinutes
  {
    (if minutes.Some? then minutes.value else DefaultTimeoutMinutes) * 60 * 1000
  }

  /** `HOSTNAME`, or failing that an app named `<name>-pdf` gives `<name>.fly.dev`;
      `None` stands for the falsy value (`undefined` or `false`) the fallback chain
      otherwise produces. */
  function Hostname(env: Env): (r: Option<string>)
    ensures r.Some? ==> r.value != ""
    ensures env.hostname.Some? && env.hostname.value != "" ==> r == env.hostname
    ensures r.None? <==>
      (env.hostname.None? || env.hostname.value == "") &&
      (env.flyAppName.None? || !EndsWith(env.flyAppName.value, AppSuffix))
  {
    if env.hostname.Some? && env.hostname.value != "" then env.hostname
    else if env.flyAppName.Some? && EndsWith(env.flyAppName.value, AppSuffix) then
      Some(DropLast(env.flyAppName.value, |AppSuffix|) + FlyDomain)
    else None
  }

  /** Without an explicit `HOSTNAME`, the app `<name>-pdf` prints pages of `<name>.fly.dev`,
      and every derived host name has that shape. */
  lemma FlyAppHostname(env: Env, name: string)
    requires env.hostname.None? || env.hostname.value == ""
    ensures env.flyAppName == Some(name + AppSuffix) ==> Hostname(env) == Some(name + FlyDomain)
    ensures Hostname(env).Some? ==>
      exists app :: env.flyAppName == Some(app + AppSuffix) && Hostname(env) == Some(app + FlyDomain)
  {
    if env.flyAppName == Some(name + AppSuffix) {
      AppendThenDrop(name, AppSuffix);
    }
    if Hostname(env).Some? {
      var app := DropLast(env.flyAppName.value, |AppSuffix|);
      DropLastEndsWith(env.flyAppName.value, AppSuffix);
      assert env.flyAppName == Some(app + AppSuffix);
    }
  }

  /** What the top-level code does before launching the browser: exit with status 1
      and a message, or go on with the derived settings. */
  datatype Boot = Abort(status: int, message: string) | Start(config: Config)

  function Startup(env: Env): (b: Boot)
    ensures b.Abort? <==> Hostname(env).None?
    ensures b.Abort? ==> b.status == 1 && b.message == "HOSTNAME is required"
    ensures b.Start? ==> Valid(b.config)
    ensures b.Start? ==>
      && b.config.hostname == Hostname(env).value
      && b.config.format == Format(env)
      && (b.config.javascript <==> env.javascript != Some("false"))
      && b.config.timeoutMs == TimeoutMs(env.timeoutMinutes)
  {
    var hostname := Hostname(env);
    if hostname.None? then Abort(1, "HOSTNAME is required")
    else Start(Config(hostname.value, Format(env), JavaScript(env.javascript), TimeoutMs(env.timeoutMinutes)))
  }
}
