# A verified model of the xs23933/web routing core

`xs23933/web` is a small Go web framework built on fasthttp. An application
creates a `Core` and registers routes on it in several ways:

- handlers for an HTTP method and a path (`pushMethod`);
- middleware (`Use`);
- static file directories (`Static`);
- controllers (`buildHands`), whose exported method names become routes.

For each request, the framework does three things:

- it takes a `Ctx` from a pool and normalises the request path;
- it scans the route table from a cursor, and the first route that matches runs its handler;
- a handler that calls `Next` resumes the scan after itself.

A Handlebars view engine keeps a cache of parsed templates. It renders a page
either on its own or inside a layout, which receives the page under `yield`.

This project models that core in Dafny and proves what the framework promises about it. It has these modules:

- `Strs`: string helpers with Go's semantics (`strings.Split`, `TrimLeft`, the replacer), and ASCII-only case mapping (`ToLower`, `ToUpper`).
- `Paths`: `path.Clean` and `path.Join`.
- `Utils`: `parseTokenList`, the status-phrase table and the method table.
- `Pattern`: `getParams` and `getRegex`. The regular expression is replaced by the segment pattern it denotes, and a backtracking matcher is proved to behave as the generated expression does.
- `Namer`: `toNamer` and `fixURI`, which derive a controller route from a Go method name.
- `Router`: `Route` and `matchRoute`.
- `Context`: `Ctx`, its request and response, the context pool and the `Ctx` operations.
- `Handler`: the embeddable controller base.
- `Core`: registration and dispatch. It is a `Core` class whose methods append to the route table; `nextRoute` is a loop proved against the `Dispatch` function.
- `Template`: the `HandlebarsEngine` class with its template cache and `ExecuteWriter`.

Code that updates state in place is modelled as classes with `modifies` clauses:

- `Core.routes`;
- the `Ctx` fields and the response;
- the pool's free list;
- `Handler.prefix`;
- the template cache;
- the caller's binding map.

Pure computations are modelled as functions, with lemmas about them.

Things outside the framework are parameters:

- the file server of a static route is `FileServer`;
- the template library's parse and exec are `parse` and `exec`;
- a controller's reflected methods are an explicit `ControllerMethod` list.

## Model

| member | source | states |
|---|---|---|
| Router.MatchRoute | router.go:28-62 | values are only ever returned by a non-middleware parameterised route that matched |
| Router.MiddlewareMatch | router.go:29-38 | a middleware route ignores the request method, matches when it is "*" or "/" or the path starts with its prefix, and yields no values |
| Router.IneligibleNeverMatches | router.go:39 | a route whose method is neither the request's, nor "*", nor GET-for-HEAD never matches |
| Router.HeadFollowsGet | router.go:39 | a GET route answers HEAD exactly as it answers GET |
| Router.StarAndSlash | router.go:40-45 | an eligible "*" route matches every path and an eligible "/" route matches "/", both without values |
| Router.PatternValues | router.go:46-53 | a parameterised route whose pattern matches returns the captures of the first match, and those captures rebuild the request path (with or without a trailing '/') |
| Router.PatternServes | router.go:46-53 | every path the route's pattern describes, with or without a trailing '/', is served |
| Router.ExactFallback | router.go:57-59 | past the special cases a route matches exactly its stored path, without values |
| Handler.Handler.constructor | handler.go:4-6 | a zero Handler has the empty prefix |
| Handler.Handler.SetPrefix | handler.go:9-11 | the prefix read back by Prefix is the one set |
| Handler.Handler.Init | handler.go:19 | the default Init changes nothing |
| Handler.Handler.Preload | handler.go:14-16 | the default Preload calls Next without error: it clears the match and resumes the scan from the same cursor |
| Utils.ParseTokenList | utils.go:26-50 | the scanning loop yields, for each comma-separated piece, that piece without its leading and trailing spaces |
| Utils.TokenListShape | utils.go:26-50 | one token more than there are commas; no token holds a comma or starts or ends with a space; "" gives one empty token |
| Utils.TokenOfPadded | utils.go:26-50 | surrounding spaces are dropped and inner spaces kept: padding a token and parsing it gives it back |
| Utils.StatusMessageRange | utils.go:137-200 | only codes 100 to 511 have a reason phrase; 404 reads "Not Found" |
| Utils.AcceptedMethodIff | utils.go:203-213 | the zero-value test of the method table accepts exactly its nine methods |
| Pattern.GetParams | utils.go:63-81 | the names listed are those of the ':' segments without ':' and '?', plus "*" for each segment containing '*', left to right |
| Pattern.SegmentNames | utils.go:68-79 | one segment contributes its stripped name when it starts with ':' and "*" when it contains '*' |
| Pattern.GetRegex | utils.go:83-106 | the pattern text is "^", one fragment per non-empty segment, then "/?$", and the matcher is the segment pattern it denotes |
| Pattern.PatternGroups | utils.go:83-106 | when no segment contains '(', the expression has exactly one capturing group per parameter or wildcard segment |
| Pattern.ParamsAlign | utils.go:63-106 | when every '*' leads its segment, getParams lists as many names as getRegex has groups, and "*" stands exactly at the wildcard groups |
| Pattern.StarInParamMisaligns | utils.go:63-106 | "/:id*" lists two names ("id*", "*") for a pattern with a single group |
| Pattern.MatchSound | utils.go:87-104 | a successful match yields one admissible capture per group, and the path is the pattern filled with them, optionally followed by '/' |
| Pattern.MatchComplete | utils.go:87-104 | every path the pattern describes with admissible captures, with or without a trailing '/', matches |
| Pattern.MatchNeedsSlash | utils.go:87-104 | a non-empty path not starting with '/' never matches |
| Pattern.MatchFillExact | utils.go:87-104 | for literal and required segments, matching the filled-in path gives back exactly the captures |
| Pattern.WildcardTakesRest | utils.go:98-99 | a trailing "*" after literals matches everything under them and captures the whole rest |
| Pattern.OptionalBothWays | utils.go:91-92 | an optional parameter matches both with and without its segment |
| Pattern.RequiredNeedsSegment | utils.go:93-94 | a required parameter does not match when its segment is absent, even with a trailing '/' |
| Pattern.LazyFirst | utils.go:91-94 | a parameter capture is the shortest slash-free text after which the rest of the pattern matches |
| Paths.CleanIdempotent | utils.go:229 | cleaning a cleaned path changes nothing |
| Paths.CleanShape | utils.go:229 | a cleaned path is never empty and is rooted exactly when its input was |
| Paths.CleanNoEmptySegment | utils.go:229 | a cleaned path other than "/" has no empty segment after its first, so no "//" and no trailing '/' |
| Paths.Join2Empty | utils.go:229-232 | the join is empty only when both parts are; an empty prefix leaves the cleaned name |
| Namer.ToNamer | utils.go:271-323 | the loop computes the route name: initialisms replaced, a '/' before each new word, lower case, then the parameter rewrites |
| Namer.SplitCamel | utils.go:287-313 | the case-tracking loop emits each position's character with the '/' its neighbours call for |
| Namer.CaseSplitOnlyInsertsSlashes | utils.go:287-315 | the case split changes nothing but where '/' stands |
| Namer.CaseSplitCamel | utils.go:287-315 | on a camel-case name a '/' is put before every word but the first |
| Namer.NamerNoUpper | utils.go:271-323 | a route name never contains an upper-case letter |
| Namer.NamerNoUnderscore | utils.go:271-323 | a route name never contains '_' |
| Namer.InitialismsFree | utils.go:260-282 | a name without two capitals in a row is untouched by the initialism replacer |
| Namer.NamerVerbWord | utils.go:271-323 | `GetAuthorize` becomes "get/authorize" |
| Namer.NamerOneWord | utils.go:271-323 | a one-word name such as `Get` becomes the lower-cased verb |
| Namer.NamerTwoWords | utils.go:271-323 | two capitalised words are lower-cased with one '/' between them before the parameter rewrites |
| Namer.NamerVerbTwoWords | utils.go:271-323 | `GetUserInfo` becomes "get/user/info" |
| Namer.NamerVerbParam | utils.go:271-323 | after any verb whose lower case holds no "param" (`Post`, `Put`, `Patch`), a trailing `Param` becomes the required parameter "/:param" |
| Namer.NamerVerbParams | utils.go:271-323 | after any such verb, a trailing `Params` becomes the optional parameter "/:param?", because "params" is rewritten before "param" |
| Namer.Verbs | utils.go:271-323 | `Post`, `Put` and `Patch` are verbs the parameter rewrites leave alone |
| Namer.FixURI | utils.go:228-234 | the URI is never empty, is clean, and is rooted when the prefix is |
| Namer.RouteVerbWord | utils.go:228-234 | under "/api", `GetAuthorize` is routed at "/api/authorize" |
| Namer.RouteOneWord | utils.go:228-234 | under "/api", `Get` is routed at "/api" itself |
| Namer.RouteVerbTwoWords | utils.go:228-234 | under "/api", a verb and two words are routed at "/api/first/second" |
| Namer.UserInfoRoute | utils.go:228-234 | under "/api", `GetUserInfo` is routed at "/api/user/info" |
| Namer.RouteVerbParam | utils.go:228-234 | under "/api", a verb followed by `Param` is routed at "/api/:param" |
| Namer.RouteVerbParams | utils.go:228-234 | under "/api", a verb followed by `Params` is routed at "/api/:param?" |
| Namer.PostParamRoute | example/main.go:48-52 | under "/api", `PostParam` is routed at "/api/:param" |
| Namer.PutParamsRoute | example/main.go:54-56 | under "/api", `PutParams` is routed at "/api/:param?" |
| Namer.PatchParamRoute | utils.go:228-234 | under "/api", `PatchParam` is routed at "/api/:param", although "patch" starts like "param" |
| Namer.VerbIsCutset | utils.go:229 | the verb is trimmed as a set of characters: `Gettext` under "/api" lands at "/api/xt" |
| Context.RequestCtx.ResetResponse | core.go:170 | the response returns to an empty 200; the request URI stays |
| Context.Ctx.constructor | context.go:22-32 | a new context has every field at its zero value |
| Context.Ctx.Method | context.go:73-84 | an override is accepted iff its upper case is one of the nine methods; an accepted one becomes the method, and nothing else changes |
| Context.Ctx.Get | context.go:153-159 | a request header by name, "" when absent; "referrer" reads the "referer" header |
| Context.ReferrerAlias | context.go:154-159 | both spellings of the referring page give the same value |
| Context.Ctx.Redirect | context.go:167-174 | sets Location and the status, 302 by default, and leaves the rest of the response |
| Context.Ctx.SendStatus | context.go:182-187 | the status always changes; only an empty body gets the reason phrase |
| Context.Ctx.Write | context.go:207-218 | appends the arguments, in order, to the body and changes nothing else |
| Context.Ctx.Send | context.go:199-204 | with arguments the body becomes their concatenation; with none it is left alone |
| Context.Ctx.Next | context.go:234-242 | always clears the match; an error is recorded and stops the scan, otherwise the scan resumes from the same cursor |
| Context.Ctx.IPs | context.go:330-336 | the X-Forwarded-For header split at commas, each address trimmed of spaces |
| Context.IPsCount | context.go:330-336 | one address per comma of the header, plus one |
| Context.Ctx.SetCookie | context.go:417-441 | sets the cookie under its name, replacing any earlier one, and leaves the rest of the response |
| Context.SameSiteTable | context.go:417-441 | "lax", "strict" and "none" (any case) select their modes; "none" forces Secure; anything else disables SameSite |
| Context.FirstIndex | context.go:224-229 | the position found is the first occurrence of the name |
| Context.ParamValueAligned | context.go:221-231 | with one value per name, Params gives the value at the first position of the name, or "" when it is absent |
| Context.ParamValueShort | context.go:226-227 | asking for a name past the last captured value fails (the source's index panic) |
| Context.Pool.constructor | context.go:49-51 | the pool starts empty |
| Context.Pool.Assign | context.go:54-62 | the context handed out has its cursor at -1 and the request's method, path and response, with no match or error; it is the last pooled one, or new |
| Context.Pool.Release | context.go:64-70 | the context forgets its request, match and error and rejoins the pool, which never holds it twice |
| Context.SubdomainsRootDomain | context.go:497-540 | the subdomain part, a dot and the root domain rebuild the host |
| Context.ShortHost | context.go:497-540 | a host with fewer labels than the offset is returned whole by both |
| Context.DefaultOffset | context.go:497-540 | by default the root domain is the last two labels |
| Context.DomainFirstBase | context.go:517-526 | Domain strips the first base the host ends with |
| Context.DomainNoBase | context.go:517-526 | with no matching base, Domain is the whole host |
| Core.Core.constructor | core.go:57-65 | a new Core has an empty route table |
| Core.CanonicalShape | core.go:279-291 | a normalised path is lower case, no longer than the input, a prefix of its lower case, and ends in '/' only when it is "/" |
| Core.CanonicalIdempotent | core.go:279-291 | normalising twice is normalising once |
| Core.SlashesVanish | core.go:286-291 | a path of two or more '/' normalises to "" |
| Core.Core.NewRoute | core.go:279-312 | the route built for one handler is the one Register describes |
| Core.RegisterShape | core.go:279-326 | each registered route: flags follow the method, the path is normalised, parameters come from the path as written, and it is a pattern exactly when it has parameters |
| Core.RegisterUniform | core.go:313-326 | all routes of one registration differ only in their handler |
| Core.RegisterAppend | core.go:313-326 | registering handlers in two calls gives the routes of one call |
| Core.RouteOfVerb | core.go:292-301 | USE and ALL get the method "*", only GET sets isGet, only USE makes a middleware |
| Core.Core.PushMethod | core.go:275-327 | appends one route per handler, in order; no handler is fatal and appends nothing |
| Core.EmptyPrefixPreload | core.go:218 | a preload under an empty prefix is a middleware at "/" that matches every request |
| Core.VerbOf | core.go:220-268 | a recognised route name starts with the verb's cutset and maps to a non-empty method other than USE |
| Core.VerbMethodRegistered | core.go:220-268 | a verb-named handler method is registered for that verb at fixURI(prefix, name, verb) |
| Core.NamedRouteShape | core.go:220-268 | a controller method contributes at most one route, never a middleware |
| Core.MethodRoutesShape | core.go:220-268 | the method loop adds at most one route per method, none a middleware |
| Core.HandRoutesShape | core.go:209-273 | a controller registers its preload first as a middleware at its prefix, then plain routes, then the health check |
| Core.CheckRouteRegistered | core.go:270-272 | the health check is GET /check answering "ok" |
| Core.TwoMethodRoutes | core.go:209-273 | a controller with two verb-named handler methods registers exactly its preload, their two routes in order, and the health check |
| Core.OneWordGetMethod | core.go:220-228 | a one-word method named after GET is a GET route at its controller's prefix itself |
| Core.GetMethod | core.go:220-228 | a method named `Get` under "/api" is a GET route at "/api" |
| Core.PostParamMethod | core.go:229-234 | a method named `PostParam` under "/api" is a POST route at "/api/:param" |
| Core.ExampleRegistered | core.go:279-326 | the example table is what registering the preload, the GET route, the POST parameter route and the health check stores |
| Core.ControllerTable | core.go:209-273 | a controller whose two methods route as GET "/a" and POST "/a/:n" registers the example table |
| Core.ApiControllerRoutes | core.go:209-273 | the controller under "/api" with `Get` and `PostParam` registers the preload, two routes and GET /check, in that order |
| Core.ParamCapture | router.go:46-53 | the pattern of "/a/:n" captures the segment after "/a" |
| Core.ExampleGet | core.go:466-485 | GET "/a": the preload passes the request on and the `Get` route answers it, with no values |
| Core.ExamplePost | core.go:466-485 | POST "/a/v": the GET route is skipped and the `PostParam` route answers with `v` as its parameter |
| Core.ApiControllerRequests | core.go:466-485 | GET "/api" gets the `Get` handler's body; POST "/api/42" gets the `PostParam` body and "42" for "param" |
| Core.Core.BuildHands | core.go:209-273 | appends exactly the controller's routes |
| Core.Core.RegisterMethods | core.go:220-268 | the loop appends each method's route in reflection order |
| Core.Core.Use | core.go:184-207 | Use registers its controllers as they are met and, unless one was met, its handlers as middleware at the last path given; a stray argument is fatal |
| Core.UsePathHandlers | core.go:184-207 | a path followed by handlers registers one middleware per handler there; with no handler it is fatal |
| Core.ScanUseFatal | core.go:197-198 | once an argument is fatal, no later argument is looked at |
| Core.Core.AddController | core.go:194-196 | a controller argument registers its routes at once and suppresses the handler registration |
| Core.StaticPrefix | core.go:92-98 | the starting prefix is "/" for "", and rooted unless it starts with '*' |
| Core.StaticPathShape | core.go:92-120 | the stored prefix has no '*' and no upper case, and the wildcard flag records any '*' |
| Core.StaticDirShape | core.go:107-113 | the directory is the root, "." for none, less one trailing '/' |
| Core.StaticRouteShape | core.go:91-175 | the static route is a middleware for every method; a '*' makes it rewrite every request to its prefix |
| Core.Core.RegStatic | core.go:91-175 | appends exactly the static route |
| Core.Core.NormaliseStatic | core.go:92-120 | computes the stored prefix, wildcard flag and root flag |
| Core.StaticStep | core.go:155-173 | a found file ends the scan keeping the match; otherwise the match is cleared and the scan goes on |
| Core.NewError | core.go:362-368 | the message given, or else the status's reason phrase |
| Core.ListenAddressShape | core.go:371-382 | an int port or a string without ':' becomes ":port"; a string with ':' is kept; any other address fails |
| Core.Step | core.go:468-480 | one step always advances the cursor by one |
| Core.Dispatch | core.go:466-485 | the cursor never moves back, and stops inside the table whenever it moved |
| Core.DispatchSkips | core.go:468-472 | routes that do not match are passed over |
| Core.FirstMatch | core.go:468-480 | the first route after the cursor that matches decides: a response ends the scan, an error is recorded, a passing handler resumes after it |
| Core.NoMatch | core.go:482-484 | with no matching route left, the cursor reaches the end and an empty body becomes 404 "Not Found" |
| Core.PassThrough | core.go:466-485 | a table of passing middleware answers every request with 404 |
| Core.Core.NextRoute | core.go:466-485 | the loop leaves the context and response as Dispatch describes, with method and path unchanged |
| Core.Core.ServeNext | core.go:468-480 | one loop pass is one Step |
| Core.Core.ServeStatic | core.go:155-173 | the static handler leaves the context as StaticStep describes |
| Core.Core.Handle | core.go:447-464 | a request is dispatched on its normalised path from cursor -1, and its context returns to the pool |
| Template.HandlebarsEngine.constructor | template.go:38-55 | a new engine has an empty cache and no layout |
| Template.HandlebarsEngine.Layout | template.go:103-106 | sets the default layout and keeps the cache |
| Template.GetLayout | template.go:315-320 | the render's own layout wins, and the engine's applies when none is given |
| Template.HandlebarsEngine.LoadTpls | template.go:140-153 | never replaces a cached template; new entries are parsed inputs; succeeds iff every new input parses, and then adds them all; an error is a real parse failure |
| Template.LoadedKeeps | template.go:140-153 | a load keeps every cached template and adds exactly the new names that parse |
| Template.LoadedIdempotent | template.go:140-153 | loading the same templates twice changes nothing |
| Template.HandlebarsEngine.FromCache | template.go:252-258 | found exactly when cached, with the cached template |
| Template.HandlebarsEngine.ExecuteTemplateBuf | template.go:259-265 | a name that is not cached renders as "" without error |
| Template.HandlebarsEngine.RenderHelper | template.go:47-53 | a partial's output, a not-found message when it fails, "" when not cached |
| Template.HandlebarsEngine.NamedRender | template.go:57-65 | the partial is looked up under the helper's name plus "s/": "" when not cached, exec's output when it succeeds, the not-found message naming the partial when it fails |
| Template.HandlebarsEngine.ExecuteWriter | template.go:267-313 | writes the outcome's text or returns its error with nothing written; the caller's map receives the page under "yield" |
| Template.PageWithoutLayout | template.go:276-285 | without a layout, the page itself is rendered and nothing is yielded |
| Template.LayoutChoice | template.go:276-285 | with a layout, the layout is the render target |
| Template.MissingTarget | template.go:285-312 | a target that is not loaded is an error naming it, and nothing is rendered |
| Template.LayoutNeedsMap | template.go:286-293 | with a layout, a binding that is not a map is refused |
| Template.LayoutYieldsPage | template.go:294-304 | the layout sees the page's output under "yield", and every other entry as given |
| Template.MissingPageYieldsEmpty | template.go:259-304 | a page that is not loaded yields "" to the layout |
| Template.NilMapLosesYield | template.go:294-304 | a nil map gets no "yield": the layout is rendered against the nil map |
| Template.PageErrorStops | template.go:294-304 | a failing page is the error, and the layout is not rendered |

## Left out

- Serve's listening, TLS, `prefork`, `isChild`, `newServer` and `Build` are operating-system I/O. Only the address normalisation (`ListenAddress`) is modelled.
- The fasthttp file server is the `FileServer` parameter: a function from the site and the request path to a status and a body. A file counts as found when that status is neither 404 nor 403. Its settings (compression, byte ranges, index pages, cache duration, the path-prefix stripper) are recorded in `StaticSite` but not interpreted. The headers it sets are not modelled.
- Go's `regexp` engine is replaced by the segment matcher `Pattern.Match`, which is faithful when no literal segment holds a regular-expression metacharacter. A `getRegex` compile failure therefore cannot occur in the model.
- `setETag`, `Fresh` and the ETag option of `nextRoute` are left out. They need CRC-32, HTTP dates and formatting, and the ETag pass only adds headers.
- JSON, XML, JSONP, form, query, file upload/download, `View`/`Render` on `Ctx`, `Vars`, `Cookies`/`ClearCookie`, `Body`, `Hostname`, `Router` and `Path` accessors are left out. They are encoders and thin fasthttp accessors.
- `sync.Pool`, `safeMap`, the `smap` cache and the engines' locks are modelled sequentially. The pool is a list of free contexts.
- `views.go` is not part of this model.
- Template file loading (`Load`, `loadDirectory`, `loadAssets`), the reload branch of `ExecuteWriter`, and the `Ext`, `Binary`, `Reload` and `Debug` setters are left out. They are filesystem walking and configuration flags.
- `AddFunc` and the helper registry are left out. Only the `render` helper's behaviour (`RenderHelper`, `NamedRender`) is modelled.
- raymond's template parsing and execution are the `parse` and `exec` parameters. Errors from writing to the `io.Writer` are not modelled.
- `%#v` formatting of a non-map binding is a `repr` string supplied with the binding.
- `Core.View`, `Core.LoadTpls` and `Core.RegView` (core.go:69-89) only forward to the view engine, so they have no model of their own.
- Debug logging, colours and banners are left out.
- The `unsafe` conversions `getBytes` and `getString` are the identity.
- Reflection in `buildHands` is replaced by an explicit `ControllerMethod` list in reflection order.
- A controller's own `Init` can run arbitrary code. Only the default (`Handler.Init`) is modelled, and `BuildHands` assumes it leaves the route table alone.
- Handlers are user code. `Action` keeps the behaviours that matter to dispatch: respond with a body (`Respond`), continue the scan (`Continue`), continue it with an error (`ContinueErr`), and serve static files (`Static`).
- Strings are sequences of characters, and case mapping is ASCII only. Go's `strings.ToLower` and `strings.ToUpper` also map non-ASCII letters (for example "É" to "é", and "ſ" to "S" when upper-casing), and Go indexes strings by byte. The next five lines name the members this affects.
- Strs.ToLower: maps only 'A'-'Z'; Go's version also lower-cases non-ASCII letters.
- Strs.ToUpper: maps only 'a'-'z'; Go's version also upper-cases non-ASCII letters.
- Core.Canonical: lower-cases ASCII only, so a route or request path with non-ASCII capitals is canonicalised differently from Go.
- Context.Ctx.Method: upper-cases ASCII only.
- Namer.ToNamer: works per character. Go's `toNamer` mixes runes and byte offsets, which differ on non-ASCII method names.
- Router.StaticSite: its `stripper` counts characters, not bytes.
- Header names are looked up exactly. fasthttp's case-insensitive matching is not modelled.
- `Ctx` does not keep its back-pointer to the `Core`. Dispatch receives the route table instead.
- Context.Subdomains: a negative offset cannot be expressed, because offsets are `nat`.
- Context.RootDomain: a negative offset cannot be expressed, because offsets are `nat`.
- Core.Core.Use: the controllers' prefixes are read when Use starts. A controller's `Init` that changed another argument's prefix is not modelled.
- Core.Dispatch: a handler that calls `Method` to override the request method mid-scan is not modelled. Dispatch keeps the method it started with.
- Context.Ctx.Params: the `Route.Params == nil` test is read as "no names". Both give "".
