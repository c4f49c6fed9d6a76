/** The running server: one browser, one idle timer, and the handler that drives both.
    Requests are handled one at a time. */
module Server {
  import opened Strings
  import Config
  import opened Router
  import opened Headers
  import opened Render

  class Server {
    /** The settings derived at startup. */
    const config: Config.Config
    /** The handle held by the module-level `timeout` variable. */
    var timeout: nat
    /** Timers scheduled and neither cleared nor fired yet: handle to delay in milliseconds. */
    var pending: map<nat, nat>
    /** The handle the next `setTimeout` returns. */
    var nextHandle: nat
    var browserOpen: bool
    var pageOpen: bool
    var exited: bool
    /** Every call made into the engine and the process so far, in order. */
    var effects: seq<Effect>

    /** Between events: at most one timer is pending, it is the one `timeout` holds and it
        lasts `TIMEOUT`; no tab is open; the browser is open until the process exits. */
    ghost predicate Valid()
      reads this
    {
      && Config.Valid(config)
      && timeout < nextHandle
      && (pending == map[] || pending == map[timeout := config.timeoutMs])
      && !pageOpen
      && (browserOpen <==> !exited)
    }

    /** Launching the browser and arming the first idle timer, once the settings are known. */
    constructor (config: Config.Config)
      requires Config.Valid(config)
      ensures Valid() && this.config == config && !exited
      ensures effects == [LaunchBrowser]
      ensures pending == map[timeout := config.timeoutMs]
    {
      this.config := config;
      effects := [LaunchBrowser];
      browserOpen, pageOpen, exited := true, false, false;
      timeout, pending, nextHandle := 0, map[], 0;
      new;
      SetTimeout();
    }

    /** `timeout = setTimeout(exit, TIMEOUT)`: schedules a fresh timer and keeps its handle. */
    method SetTimeout()
      modifies this`timeout, this`pending, this`nextHandle
      ensures timeout == old(nextHandle) && nextHandle == old(nextHandle) + 1
      ensures pending == old(pending)[timeout := config.timeoutMs]
    {
      timeout := nextHandle;
      nextHandle := nextHandle + 1;
      pending := pending[timeout := config.timeoutMs];
    }

    /** `clearTimeout(timeout)`: cancels the timer `timeout` holds, if still pending. */
    method ClearTimeout()
      modifies this`pending
      ensures pending == old(pending) - {timeout}
    {
      pending := pending - {timeout};
    }

    /** The request handler. Its reply, the engine calls it makes and the timer it leaves are
        those `Handle` gives; the engine's answers are the `replies` parameter. */
    method Fetch(request: Request, replies: Replies) returns (reply: Reply)
      requires Valid() && !exited
      modifies this
      ensures Valid() && !exited
      ensures var h := Handle(config, request, replies);
        && reply == h.reply
        && effects == old(effects) + h.effects
        && (h.rearmed ==>
             timeout == old(nextHandle) && nextHandle == old(nextHandle) + 1 &&
             pending == map[timeout := config.timeoutMs])
        && (!h.rearmed ==>
             timeout == old(timeout) && nextHandle == old(nextHandle) && pending == map[])
    {
      ClearTimeout();

      var url := request.url;
      url := url.(hostname := config.hostname);
      url := url.(protocol := SecureProtocol);
      url := url.(port := "");
      assert url == Rewrite(request.url, config.hostname);
      ghost var route := RouteFor(request.url, config.hostname);

      if !EndsWith(url.pathname, PdfSuffix) {
        assert route == Redirect(url);
        SetTimeout();
        return Respond(Response(301, map["Location" := Href(url)], Text(RedirectBody)));
      }

      url := url.(pathname := DropLast(url.pathname, |PdfSuffix|));
      if EndsWith(url.pathname, IndexSuffix) {
        url := url.(pathname := DropLast(url.pathname, |"index"|));
      }
      assert route == Render(url);

      effects := effects + [NewPage];
      if replies.newPage.Rejected? {
        return Reject(replies.newPage.detail);
      }
      pageOpen := true;

      var outcome := TryRender(url, request.headers, replies);
      reply := Respond(ResponseFor(outcome));

      // finally: close the tab, then arm a new idle timer
      effects := effects + [ClosePage];
      pageOpen := false;
      ClearTimeout();
      SetTimeout();
    }

    /** The `try` block: the four awaited calls, stopping at the first that throws. */
    method TryRender(url: Url, headers: seq<Entry>, replies: Replies) returns (outcome: Attempt<seq<byte>>)
      modifies this`effects
      ensures outcome == TryOutcome(replies)
      ensures effects == old(effects) + Attempted(TryCalls(config, url, Forwarded(headers)), replies)
    {
      ghost var calls := TryCalls(config, url, Forwarded(headers));
      effects := effects + [SetJavaScriptEnabled(config.javascript)];
      if replies.setJavaScriptEnabled.Rejected? {
        return Rejected(replies.setJavaScriptEnabled.detail);
      }

      var forwarded := FromEntries(headers);
      forwarded := forwarded - {HostHeader};
      effects := effects + [SetExtraHttpHeaders(forwarded)];
      if replies.setExtraHttpHeaders.Rejected? {
        return Rejected(replies.setExtraHttpHeaders.detail);
      }

      effects := effects + [Goto(Href(url), WaitUntil(config.javascript))];
      if replies.goto.Rejected? {
        return Rejected(replies.goto.detail);
      }

      effects := effects + [Pdf(config.format, true, true)];
      assert effects == old(effects) + calls;
      if replies.pdf.Rejected? {
        return Rejected(replies.pdf.detail);
      }
      return Resolved(replies.pdf.value);
    }

    /** `exit()`: asks the browser to close, then ends the process with status 0. */
    method Exit()
      requires !exited
      modifies this`browserOpen, this`exited, this`effects
      ensures exited && !browserOpen
      ensures effects == old(effects) + [CloseBrowser, Terminate(0)]
    {
      browserOpen := false;
      effects := effects + [CloseBrowser];
      exited := true;
      effects := effects + [Terminate(0)];
    }

    /** A pending idle timer fires: the timer is spent and the process exits. */
    method Expire(handle: nat)
      requires Valid() && !exited && handle in pending
      modifies this`pending, this`browserOpen, this`exited, this`effects
      ensures Valid() && exited && !browserOpen
      ensures pending == map[]
      ensures effects == old(effects) + [CloseBrowser, Terminate(0)]
    {
      pending := pending - {handle};
      Exit();
    }

    /** SIGINT: the same exit, whatever the timer's state. */
    method Interrupt()
      requires Valid() && !exited
      modifies this`browserOpen, this`exited, this`effects
      ensures Valid() && exited && !browserOpen
      ensures effects == old(effects) + [CloseBrowser, Terminate(0)]
    {
      Exit();
    }
  }

  /** The top-level code: derive the settings, exit with status 1 before launching anything
      when no host name is known, otherwise launch the browser and arm the first idle timer. */
  method Launch(env: Config.Env) returns (server: Server?, effects: seq<Effect>)
    ensures Config.Startup(env).Abort? <==> server == null
    ensures server == null ==> effects == [Terminate(1)]
    ensures server != null ==>
      && fresh(server) && server.Valid() && !server.exited
      && server.config == Config.Startup(env).config
      && effects == server.effects == [LaunchBrowser]
      && server.pending == map[server.timeout := server.config.timeoutMs]
  {
    var boot := Config.Startup(env);
    if boot.Abort? {
      return null, [Terminate(boot.status)];
    }
    server := new Server(boot.config);
    effects := server.effects;
  }

  /** A render whose navigation fails is answered with a 500 page and leaves the server as ready
      as before: the next render of the same request succeeds and the idle timer is armed again. */
  method RenderAfterFailedNavigation(server: Server, request: Request, failing: Replies, succeeding: Replies)
    returns (first: Reply, second: Reply)
    requires server.Valid() && !server.exited && RouteFor(request.url, server.config.hostname).Render?
    requires failing.newPage.Resolved? && failing.setJavaScriptEnabled.Resolved?
    requires failing.setExtraHttpHeaders.Resolved? && failing.goto.Rejected?
    requires succeeding.newPage.Resolved? && succeeding.setJavaScriptEnabled.Resolved?
    requires succeeding.setExtraHttpHeaders.Resolved? && succeeding.goto.Resolved? && succeeding.pdf.Resolved?
    modifies server
    ensures first.Respond? && first.response.status == 500
    ensures first.response.body == Text("<pre>" + failing.goto.detail + "</pre>")
    ensures second.Respond? && second.response.status == 200
    ensures second.response.body == Document(succeeding.pdf.value)
    ensures server.Valid() && !server.exited && |server.pending| == 1
  {
    first := server.Fetch(request, failing);
    RenderStatus(server.config, request, failing);
    second := server.Fetch(request, succeeding);
    RenderStatus(server.config, request, succeeding);
  }
}
