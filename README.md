# PDF appliance: a Dafny model of its request handler and lifecycle

The PDF appliance is a small HTTP server, written in TypeScript for Bun. It turns a request for `<path>.pdf`
into a PDF of `https://<HOSTNAME><path>`, printed by one shared headless Chrome instance. It
redirects every other request back to the host application. An idle timer shuts the process
down when no request has arrived for `TIMEOUT` minutes, and SIGINT shuts it down the same way.

The model covers all of `server.ts` that is not plumbing:

- **Config** (`config.dfy`): how `FORMAT`, `JAVASCRIPT`, `TIMEOUT` and `HOSTNAME` are derived from
  the environment, and the startup check that exits with status 1 when there is no host name.
- **Router** (`router.dfy`, with `strings.dfy` for JavaScript's `endsWith` and `slice(0, -n)`):
  the URL record, the rewrite to `https:`/`HOSTNAME`/no port, and the redirect-or-render
  decision with the `.pdf` and `/index` stripping.
- **Headers** (`headers.dfy`): `Object.fromEntries` over the request's header list, then
  `delete headers.host`.
- **Render** (`render.dfy`): the handler as a pure specification. It gives the calls made into
  the browser engine in order, the reply, and whether the idle timer is armed again. Each
  Puppeteer call is a value that either resolves or rejects (`Replies`).
- **Server** (`server.dfy`): a class holding the state the source mutates. That state is the
  `timeout` handle, the set of pending timers, the open/closed state of the browser and of the
  tab, the exit flag, and the trace of engine and process calls. `Fetch` mirrors the handler
  step by step. It mutates the URL field by field, deletes `host`, and sequences
  `try`/`catch`/`finally`. It is proved equal to the pure specification. `Exit`, `Expire` and
  `Interrupt` model the shutdown path.

Requests are handled one at a time. Nothing here is executed. The model is checked by the
Dafny verifier only.

Where the intended behaviour and the code differ, the model follows the code. A request for
`/foo/index.pdf` renders `/foo/`, with the trailing slash. It does not render `/foo`, the page
that `/foo.pdf` renders. Only one `/index` is
stripped, so `/a/index/index.pdf` renders `/a/index/`. `Router.IndexStrippedOnce` and
`Router.RenderPathExactly` state both facts. A failure of `browser.newPage()` happens before the
`try`. So it is not turned into a 500 page, and no idle timer is armed again. After it, no timer
is pending at all (`Server.Server.Fetch`, `Render.NewPageFailureEscapes`).

## Model

| member | source | states |
|---|---|---|
| `Strings.EndsWith` | server.ts:57 | JavaScript `endsWith`, a literal case-sensitive suffix test (also at server.ts:20 and 69): when it holds, the string is what precedes the suffix followed by the suffix |
| `Strings.DropLast` | server.ts:68-69 | `slice(0, -n)` keeps a prefix of the string, `n` characters shorter, or empty when the string is shorter than `n` |
| `Strings.SplitSuffix` | server.ts:57-69 | a string is `t + suffix` exactly when it ends with `suffix` and slicing the suffix off leaves `t` |
| `Config.OrElse` | server.ts:16 | JavaScript `v \|\| fallback`: the value when it is set and non-empty, else the fallback |
| `Config.Format` | server.ts:16 | `FORMAT` is never empty; when it is set and non-empty it is passed on as given, else it is `letter` |
| `Config.JavaScript` | server.ts:17 | scripts are disabled exactly when `JAVASCRIPT` is the string "false" |
| `Config.TimeoutMs` | server.ts:18 | the idle timeout is a whole number of minutes in milliseconds: `TIMEOUT`, or 15 when unset |
| `Config.Hostname` | server.ts:19-21 | a non-empty `HOSTNAME` wins; otherwise a host exists exactly when `FLY_APP_NAME` ends in `-pdf`; a derived host is never empty |
| `Config.FlyAppHostname` | server.ts:19-21 | without `HOSTNAME`, app `<name>-pdf` gives `<name>.fly.dev`, and every derived host has that form |
| `Config.Startup` | server.ts:15-26 | startup aborts with status 1 and "HOSTNAME is required" exactly when no host is derived; otherwise the settings hold the derived values and a non-empty host |
| `Router.Href` | server.ts:63 | `url.href` (also read at server.ts:71 and 87) begins with protocol, `//` and host, and ends with path, query and fragment |
| `Router.Rewrite` | server.ts:51-54 | the rewritten `href` is `https://` + `HOSTNAME` + path + query + fragment, with no port |
| `Router.RewriteKeeps` | server.ts:51-54 | two URLs rewrite to the same URL exactly when their path, query and fragment agree; rewriting is idempotent |
| `Router.RenderPath` | server.ts:67-69 | the path produced by the two slices is a prefix of the request path, 4 to 9 characters shorter (before the `pathname` setter normalises it, which is not modelled) |
| `Router.IndexAfterSlash` | server.ts:69 | `t + "index"` ends in `/index` exactly when `t` ends in `/` |
| `Router.RenderPathExactly` | server.ts:67-69 | the rendered path is `t` exactly when the request path is `t + ".pdf"` with `t` not ending in `/index`, or `t + "index.pdf"` with `t` ending in `/` |
| `Router.IndexStrippedOnce` | server.ts:67-69 | `/a/index.pdf` renders `/a/` and `/a/index/index.pdf` renders `/a/index/` |
| `Router.RouteFor` | server.ts:51-69 | a request is redirected exactly when its path does not end in `.pdf`; both outcomes are `https:`, `HOSTNAME`, no port, same query and fragment; a redirect keeps the path; a render path relates to the request path as in `RenderPathExactly` |
| `Router.UpperCaseExtensionRedirects` | server.ts:57 | the suffix test is case-sensitive: `/report.PDF` is redirected |
| `Headers.FromEntries` | server.ts:82 | the header object's keys are exactly the names in the header list |
| `Headers.LastEntryWins` | server.ts:82 | each name maps to the value of its last entry |
| `Headers.Forwarded` | server.ts:82-83 | forwarded headers are the inbound headers minus `host`, every other key keeping its value |
| `Headers.ForwardedHeader` | server.ts:82-84 | every inbound header other than `host` is forwarded with the value of its last entry |
| `Headers.ForwardedIsAllWithoutHost` | server.ts:82-83 | forwarding changes nothing exactly when no header is named `host` |
| `Render.WaitUntil` | server.ts:87-89 | navigation waits for `networkidle2` exactly when scripts are enabled, and for `load` otherwise |
| `Render.Completed` | server.ts:77-96 | counts the `try` calls that resolve before the first one that throws |
| `Render.Attempted` | server.ts:77-96 | the `try` block makes its calls in order, never skipping one; it stops only at a call that throws; all four are made exactly when the first three resolve |
| `Render.TryOutcome` | server.ts:77-103 | the `try` block yields the PDF exactly when all four calls resolve, and otherwise the first error thrown |
| `Render.ResponseFor` | server.ts:99-109 | status 200 with `application/pdf` and the PDF bytes on success; status 500 with `text/html` and `<pre>` + error + `</pre>` on failure |
| `Render.NoExportAfterFailedNavigation` | server.ts:86-96 | after a navigation failure no export is attempted; the navigation was made exactly when the script and header calls resolved |
| `Render.Handle` | server.ts:46-119 | the whole handler as a function: it re-arms the timer exactly when it replies with a response; it makes no engine call exactly on a redirect; a rejection makes only the `newPage` call. Its further properties are `RedirectsNonPdf`, `TabAlwaysClosed`, `RenderStatus`, `NewPageFailureEscapes` and `RenderNavigation` |
| `Render.RedirectsNonPdf` | server.ts:56-65 | a non-`.pdf` request gets a 301 to `https://HOSTNAME` + path + query + fragment, makes no engine call, and arms a new timer |
| `Render.TabAlwaysClosed` | server.ts:74-113 | once a tab is obtained it is opened once and closed once, and closing is the handler's last engine call |
| `Render.RenderStatus` | server.ts:74-109 | a render replies 200 with the PDF exactly when `newPage` and all four calls succeed; it replies (200 or 500) exactly when `newPage` succeeds |
| `Render.NewPageFailureEscapes` | server.ts:74 | a `newPage` failure rejects the handler with that error, makes no other call and arms no timer |
| `Render.RenderNavigation` | server.ts:79-89 | the page gets the configured script flag and the forwarded headers, then goes to the rewritten URL with the wait strategy the script flag selects; after a successful navigation it exports with `FORMAT`, `preferCSSPageSize` and `printBackground` |
| `Server.Server.constructor` | server.ts:34-40 | launches the browser and leaves exactly one pending timer of length `TIMEOUT` |
| `Server.Server.SetTimeout` | server.ts:59 | schedules a fresh timer of length `TIMEOUT` and stores its handle in `timeout` |
| `Server.Server.ClearTimeout` | server.ts:48 | cancels the timer `timeout` holds, and nothing else |
| `Server.Server.Fetch` | server.ts:46-119 | the handler's reply and engine calls are those of `Render.Handle`; it keeps at most one pending timer; it leaves exactly one fresh `TIMEOUT` timer after a redirect or a render that reached the `try`, and none after a `newPage` failure; no tab stays open |
| `Server.Server.TryRender` | server.ts:77-102 | the `try` block's calls and result are `Render.Attempted` and `Render.TryOutcome` |
| `Server.Server.Exit` | server.ts:128-132 | asks the browser to close, then terminates the process with status 0 |
| `Server.Server.Expire` | server.ts:40 | a pending timer that fires spends itself and runs the same exit |
| `Server.Server.Interrupt` | server.ts:124 | SIGINT runs the same exit, whatever the timer's state |
| `Server.Launch` | server.ts:19-40 | without a host name the process terminates with status 1 and never launches the browser; otherwise the browser is launched and one `TIMEOUT` timer is pending |
| `Server.RenderAfterFailedNavigation` | server.ts:74-119 | a navigation failure is answered with a 500 page carrying the error, and the same server then serves a successful render, with one timer pending |

## Left out

- Puppeteer (`launch`, `newPage`, `setJavaScriptEnabled`, `setExtraHTTPHeaders`, `goto`, `pdf`, `close`) is a foreign library. Each call is an input that resolves or rejects. What a page loads or prints is not modelled.
- Server.Launch: does not model a failing `puppeteer.launch` (server.ts:34). That is an unhandled top-level rejection, which ends the process in the runtime.
- `page.close()` and `browser.close()` are not awaited in the source. The model records them as calls made and does not model them failing or finishing later.
- `Bun.serve`, the TCP listener, how `Response` objects are built and sent, and what Bun answers when the handler's promise rejects are I/O plumbing. `console` output (server.ts:24, 71, 105, 122, 129) is left out too.
- Overlapping requests that share `timeout` are concurrency. Handlers run one at a time here.
- Timers hold their delay, not a wall-clock deadline. Time passing and the runtime's clamping of very large delays are not modelled.
- `TIMEOUT` is taken as an already-read natural number of minutes. `parseInt` on malformed text is not modelled.
- `PORT` (server.ts:15) and the Chrome path (server.ts:29-31) are configuration constants that nothing else depends on.
- `FORMAT` is not checked against Puppeteer's paper formats, and neither is it in the source.
- URL parsing and serialisation are not modelled. The URL is an already-parsed record without credentials. `href` is its parts joined, and the `hostname`, `protocol`, `port` and `pathname` setters are plain field updates. The `pathname` setter re-parses its value and folds `.`, `..` and `%2e` segments. So `/a/..pdf` slices to `/a/.`, which the program navigates to as `/a/`. The model keeps `/a/.`.
- The request's header list is taken as the HTTP layer yields it: names in lower case, with repeats already combined.
- The error text shown in a 500 page (`error.stack || error`) is the `detail` carried by a rejected call.
- Server.Server.Exit: requires a process that has not exited. `process.exit` ends the process, so no second timer or signal reaches it, and the model has no second, do-nothing shutdown.
