/** The render pipeline and the request handler, as functions of the settings, the request
    and how the browser engine answers each call. */
module Render {
  import opened Config
  import opened Router
  import opened Headers

  newtype byte = x: int | 0 <= x < 256

  /** How one awaited engine call settles: its value, or the text of what it threw
      (`error.stack || error`). */
  datatype Attempt<+T> = Resolved(value: T) | Rejected(detail: string)

  /** When navigation counts as finished. */
  datatype WaitStrategy = NetworkIdle2 | Load

  /** Pages with scripts wait for the network to settle; pages without them only for `load`. */
  function WaitUntil(javascript: bool): (w: WaitStrategy)
    ensures w == NetworkIdle2 <==> javascript
    ensures w == Load <==> !javascript
  {
    if javascript then NetworkIdle2 else Load
  }

  /** Calls made into the browser engine and the process, in the order they are made. */
  datatype Effect =
    | LaunchBrowser
    | NewPage
    | SetJavaScriptEnabled(enabled: bool)
    | SetExtraHttpHeaders(headers: map<string, string>)
    | Goto(href: string, waitUntil: WaitStrategy)
    | Pdf(format: string, preferCssPageSize: bool, printBackground: bool)
    | ClosePage
    | CloseBrowser
    | Terminate(status: int)

  /** How the engine answers each call of one render. */
  datatype Replies = Replies(
    newPage: Attempt<()>,
    setJavaScriptEnabled: Attempt<()>,
    setExtraHttpHeaders: Attempt<()>,
    goto: Attempt<()>,
    pdf: Attempt<seq<byte>>)

  datatype Request = Request(url: Url, headers: seq<Entry>)

  datatype Body = Text(text: string) | Document(bytes: seq<byte>)
  datatype Response = Response(status: nat, headers: map<string, string>, body: Body)

  /** What the handler's promise settles to: a response, or the error it lets escape. */
  datatype Reply = Respond(response: Response) | Reject(detail: string)

  const RedirectBody: string := "Non PDF request - redirecting"

  /** The four calls of the `try` block, in order: scripts, headers, navigation, export. */
  function TryCalls(config: Config, target: Url, forwarded: map<string, string>): seq<Effect> {
    [ SetJavaScriptEnabled(config.javascript),
      SetExtraHttpHeaders(forwarded),
      Goto(Href(target), WaitUntil(config.javascript)),
      Pdf(config.format, true, true) ]
  }

  /** How each of those four calls settles, the exported bytes aside. */
  function TryReplies(r: Replies): seq<Attempt<()>> {
    [ r.setJavaScriptEnabled,
      r.setExtraHttpHeaders,
      r.goto,
      if r.pdf.Resolved? then Resolved(()) else Rejected(r.pdf.detail) ]
  }

  /** How many calls of the `try` block resolve before the first one throws (4 when none does). */
  function Completed(r: Replies): (k: nat)
    ensures k <= 4
    ensures forall j | 0 <= j < k :: TryReplies(r)[j].Resolved?
    ensures k < 4 ==> TryReplies(r)[k].Rejected?
  {
    if r.setJavaScriptEnabled.Rejected? then 0
    else if r.setExtraHttpHeaders.Rejected? then 1
    else if r.goto.Rejected? then 2
    else if r.pdf.Rejected? then 3
    else 4
  }

  /** The calls the `try` block makes: in order, up to and including the first that throws. */
  function Attempted(calls: seq<Effect>, r: Replies): (a: seq<Effect>)
    requires |calls| == 4
    ensures a <= calls && |a| >= 1
    ensures forall j | 0 <= j < |a| - 1 :: TryReplies(r)[j].Resolved?
    ensures |a| < 4 ==> TryReplies(r)[|a| - 1].Rejected?
    ensures |a| == 4 <==> TryReplies(r)[0].Resolved? && TryReplies(r)[1].Resolved? && TryReplies(r)[2].Resolved?
  {
    calls[..if Completed(r) < 4 then Completed(r) + 1 else 4]
  }

  /** The `try` block's result: the exported bytes, or the first error thrown. */
  function TryOutcome(r: Replies): (o: Attempt<seq<byte>>)
    ensures o.Resolved? <==> forall j | 0 <= j < 4 :: TryReplies(r)[j].Resolved?
    ensures o.Resolved? ==> r.pdf.Resolved? && o.value == r.pdf.value
    ensures o.Rejected? ==> Completed(r) < 4 && o.detail == TryReplies(r)[Completed(r)].detail
  {
    var k := Completed(r);
    if k < 4 then Rejected(TryReplies(r)[k].detail) else r.pdf
  }

  /** The response for a render: the document as `application/pdf`, or the error wrapped
      in `<pre>` as a 500 `text/html` page. */
  function ResponseFor(o: Attempt<seq<byte>>): (resp: Response)
    ensures resp.status == 200 <==> o.Resolved?
    ensures resp.status == 500 <==> o.Rejected?
    ensures o.Resolved? ==>
      resp.headers == map["Content-Type" := "application/pdf"] && resp.body == Document(o.value)
    ensures o.Rejected? ==>
      resp.headers == map["Content-Type" := "text/html"] && resp.body == Text("<pre>" + o.detail + "</pre>")
  {
    match o
    case Resolved(pdf) => Response(200, map["Content-Type" := "application/pdf"], Document(pdf))
    case Rejected(e) => Response(500, map["Content-Type" := "text/html"], Text("<pre>" + e + "</pre>"))
  }

  /** A navigation that throws ends the `try` block before any export. */
  lemma NoExportAfterFailedNavigation(config: Config, target: Url, forwarded: map<string, string>, r: Replies)
    requires r.goto.Rejected?
    ensures forall e | e in Attempted(TryCalls(config, target, forwarded), r) :: !e.Pdf?
    ensures Goto(Href(target), WaitUntil(config.javascript)) in Attempted(TryCalls(config, target, forwarded), r)
      <==> r.setJavaScriptEnabled.Resolved? && r.setExtraHttpHeaders.Resolved?
  {
    var calls := TryCalls(config, target, forwarded);
    var a := Attempted(calls, r);
    assert Completed(r) <= 2;
    assert |a| <= 3;
    forall e | e in a ensures !e.Pdf? && (e.Goto? ==> Completed(r) == 2) {
      var j :| 0 <= j < |a| && a[j] == e;
      assert a[j] == calls[j];
    }
    if Completed(r) == 2 {
      assert a[2] == Goto(Href(target), WaitUntil(config.javascript));
    }
  }

  /** What one call of the handler does: its reply, the engine calls it makes in order,
      and whether it leaves a freshly armed idle timer behind. */
  datatype Handled = Handled(reply: Reply, effects: seq<Effect>, rearmed: bool)

  function Handle(config: Config, request: Request, r: Replies): (h: Handled)
    ensures h.rearmed <==> h.reply.Respond?
    ensures h.effects == [] <==> RouteFor(request.url, config.hostname).Redirect?
    ensures h.reply.Reject? ==> h.effects == [NewPage]
  {
    match RouteFor(request.url, config.hostname)
    case Redirect(location) =>
      Handled(Respond(Response(301, map["Location" := Href(location)], Text(RedirectBody))), [], true)
    case Render(target) =>
      if r.newPage.Rejected? then Handled(Reject(r.newPage.detail), [NewPage], false)
      else
        var calls := TryCalls(config, target, Forwarded(request.headers));
        Handled(Respond(ResponseFor(TryOutcome(r))), [NewPage] + Attempted(calls, r) + [ClosePage], true)
  }

  /** A request for anything but a ".pdf" path is answered with a permanent redirect to the
      same path, query and fragment on the host application over https, without touching the engine. */
  lemma RedirectsNonPdf(config: Config, request: Request, r: Replies)
    requires RouteFor(request.url, config.hostname).Redirect?
    ensures var h := Handle(config, request, r);
      && h.rearmed && h.effects == []
      && h.reply.Respond? && h.reply.response.status == 301
      && h.reply.response.headers == map["Location" :=
           SecureProtocol + "//" + config.hostname + request.url.pathname + request.url.search + request.url.hash]
  {
  }

  /** Once `newPage` has given a tab, the tab is closed on every outcome: the handler opens
      exactly one tab, closes exactly one, and closing is the last call it makes. */
  lemma TabAlwaysClosed(config: Config, request: Request, r: Replies)
    requires RouteFor(request.url, config.hostname).Render? && r.newPage.Resolved?
    ensures var e := Handle(config, request, r).effects;
      && |e| >= 3 && e[0] == NewPage && e[|e| - 1] == ClosePage
      && multiset(e)[NewPage] == 1 && multiset(e)[ClosePage] == 1
  {
    var target := RouteFor(request.url, config.hostname).target;
    var calls := TryCalls(config, target, Forwarded(request.headers));
    var a := Attempted(calls, r);
    assert NewPage !in calls && ClosePage !in calls;
    assert NewPage !in a && ClosePage !in a by {
      forall e | e in a ensures e != NewPage && e != ClosePage {
        var j :| 0 <= j < |a| && a[j] == e;
        assert a[j] == calls[j];
      }
    }
    assert multiset([NewPage] + a + [ClosePage]) == multiset([NewPage]) + multiset(a) + multiset([ClosePage]);
  }

  /** A render answers 200 with the exported document exactly when the tab was obtained and
      the script setting, the headers, the navigation and the export all succeed; any other
      failure after the tab was obtained is a 500 carrying the first error. */
  lemma RenderStatus(config: Config, request: Request, r: Replies)
    requires RouteFor(request.url, config.hostname).Render?
    ensures var h := Handle(config, request, r);
      && (h.reply.Respond? && h.reply.response.status == 200 <==>
           r.newPage.Resolved? && r.setJavaScriptEnabled.Resolved? && r.setExtraHttpHeaders.Resolved?
           && r.goto.Resolved? && r.pdf.Resolved?)
      && (h.reply.Respond? && h.reply.response.status == 200 ==>
           r.pdf.Resolved? && h.reply.response.body == Document(r.pdf.value))
      && (h.reply.Respond? <==> r.newPage.Resolved?)
      && (h.reply.Respond? ==> h.reply.response.status in {200, 500})
  {
    if r.newPage.Resolved? {
      var o := TryOutcome(r);
      assert o.Resolved? <==> (TryReplies(r)[0].Resolved? && TryReplies(r)[1].Resolved?
        && TryReplies(r)[2].Resolved? && TryReplies(r)[3].Resolved?);
    }
  }

  /** A failure of `newPage` happens before the `try`: the handler's promise rejects with that
      error, no 500 page is built, no tab is closed and no idle timer is armed again. */
  lemma NewPageFailureEscapes(config: Config, request: Request, r: Replies)
    requires RouteFor(request.url, config.hostname).Render?
    ensures var h := Handle(config, request, r);
      (h.reply.Reject? <==> r.newPage.Rejected?) &&
      (h.rearmed <==> r.newPage.Resolved?) &&
      (r.newPage.Rejected? ==> h.reply.detail == r.newPage.detail && h.effects == [NewPage])
  {
  }

  /** The page is driven at the rewritten URL with the forwarded headers, and waits for the
      network to settle exactly when scripts are enabled. */
  lemma RenderNavigation(config: Config, request: Request, r: Replies)
    requires RouteFor(request.url, config.hostname).Render? && r.newPage.Resolved?
    requires r.setJavaScriptEnabled.Resolved? && r.setExtraHttpHeaders.Resolved?
    ensures var e := Handle(config, request, r).effects;
      var target := RouteFor(request.url, config.hostname).target;
      && e[1] == SetJavaScriptEnabled(config.javascript)
      && e[2] == SetExtraHttpHeaders(Forwarded(request.headers))
      && e[3] == Goto(Href(target), if config.javascript then NetworkIdle2 else Load)
      && (r.goto.Resolved? ==> e[4] == Pdf(config.format, true, true))
  {
  }
}
