# TrueConf one-click web conference — a Dafny model

The application lets a clinician type a patient's name in a web page and get a
TrueConf video conference with that patient. The page builds a conference
description and posts it to an Express server. The server obtains an OAuth
token from TrueConf Server, creates and starts the conference, and asks
TrueConf Web for the join clients of a synthetic user `2$<slug>*<name>`. The
page then mounts the iframe of the WebRTC web client.

This project models the local logic between those HTTP calls and proves what
it promises:

- `text.dfy` (module `Text`): the JavaScript string operations the code relies
  on. These are the whitespace class shared by `\s` and `trim`, ASCII case
  folding as a non-unicode `/i` regular expression does it, first-occurrence
  search, and `replace` with the `$`-patterns of its replacement string
  (`$$`, `$&`, `` $` ``, `$'`), modelled exactly. Both `replace` calls of
  `injectEnvConfig` and the one in `buildConferencePayload` go through these
  patterns, so a `$` in the published configuration or in the patient's name
  is expanded rather than copied.
- `js_values.dfy` (module `JsValues`): loosely typed values, plus truthiness,
  `typeof === 'object'`, optional property access, `||` chains, `String(v)`
  and `Array.prototype.find`.
- `server.js`, in two modules:
  - `server.dfy` (module `Server`): `maskSecret`, `normalizeServerUrl`,
    `slugifyName` and the `user` value, `inferDisplayName` (the regular
    expression `/patient\s+(.+)$/i` with its backtracking spelled out),
    `injectEnvConfig`, `getLanguageFromRequest`, `assertEnvConfig` and
    `getFrontendConfig`.
  - `conference_route.dfy` (module `ConferenceRoute`): the checks on each
    TrueConf answer, the order of the requests in `generateConferenceClients`,
    and the `POST /api/conference` handler with its mapping of errors to a
    status and a message.
- `public/js/utils.js`, in `client_utils.dfy` (module `ClientUtils`):
  - `formatErrorMessage`.
  - The choice of the web client in `buildIframeFromClients`.
  - `extractIframeElement`. The element is a class whose attribute map is
    updated in place by `RemoveAttribute`, in a loop over `onload` and
    `onerror`, as the source's `forEach` does.
- `public/js/conferencePayload.js`, in `conference_payload.dfy` (module
  `ConferencePayload`): `buildConferencePayload`, `getTrueConfId` and the
  rights template with its copies.
- `end_to_end.dfy` (module `EndToEnd`): a name typed in the page, followed
  through the published configuration, the payload and the server's
  display-name inference.

TrueConf Server is not modelled. It is the parameter `answer`: for every
request the server sends, it gives the response body or the error the HTTP
client rejects with. The transliteration library, `JSON.stringify` and the
browser's HTML parser are also parameters.

Two behaviours of the source are stated as lemmas because a reader might not
expect them:

- `replace` expands `$`-patterns in the patient's name. A patient called `$&`
  gets a topic that is the bare template (`DollarPatternInName`).
- The page's built-in Russian topic template holds no `patient`. For a name
  that holds no `p` either, the server's English pattern finds no match and
  the whole topic becomes the display name
  (`BuiltInTemplateKeepsWholeTopic`). A name that itself holds
  `patient<whitespace>` is matched inside the name instead. The server's own
  default template gives the name back exactly, as long as the published
  configuration and the name hold no `$`, the published configuration holds
  no `<` (so no `</script>`), and the name holds no line break
  (`DefaultTemplateNameRoundTrip`). A name with a line break inside, such as
  U+2028, is not matched, because `.` does not match line terminators; the
  server then takes the whole topic.

## Model

| member | source | states |
|---|---|---|
| Text.TrimStart | server.js:139 | the result is a suffix of the input that starts with a non-whitespace character, and everything dropped is whitespace |
| Text.TrimEnd | server.js:139 | the result is a prefix of the input that ends with a non-whitespace character, and everything dropped is whitespace |
| Text.Trim | server.js:139 | `trim` gives a trimmed slice of the input with only whitespace around it |
| Text.TrimOfTrimmed | server.js:143 | trimming text that is already trimmed changes nothing |
| Text.FindFrom | server.js:98 | the first index at or after `from` where the pattern occurs; none before it; `None` only when it occurs nowhere after `from` |
| Text.SubstituteLiteral | server.js:102 | a replacement string without `$` stands for itself |
| Text.Substitute | server.js:99-102 | GetSubstitution of a replacement string; its meaning is stated by `Text.SubstituteLiteral` (no `$`: the text itself) and `Text.ReplaceFirstWithMatch` (`$&`: the matched text) |
| Text.ReplaceFirst | server.js:99-102 | with no occurrence the text is unchanged; otherwise the text before the first occurrence and after it is kept |
| Text.ReplaceFirstLiteral | server.js:102 | with no `$` in the replacement, exactly the first occurrence is swapped for it |
| Text.FirstOccurrenceAfter | public/js/conferencePayload.js:39 | a pattern whose first character does not occur before it is first found right there |
| Text.ReplaceFirstWithMatch | public/js/conferencePayload.js:39 | the replacement `$&` leaves the text unchanged |
| Text.Repeat | server.js:53 | `'*'.repeat(n)` has length `n` and consists of that character |
| JsValues.Or | server.js:339-343 | an `\|\|` chain gives its first truthy operand, or the last operand when all before it are falsy |
| JsValues.FindIndex | server.js:148 | `find` picks the first element satisfying the predicate, and reports none when no element does |
| JsValues.Find | server.js:148 | `find` gives the first element satisfying the predicate, and `undefined` when no element does |
| JsValues.JsToString | server.js:222 | `String(v)`: a string is itself; a number is `-` exactly when negative, followed by decimal digits without a leading zero that spell its absolute value |
| JsValues.Digits | server.js:222 | the digits are decimal text without a leading zero, and they spell `n` |
| JsValues.DecimalTextUnique | server.js:222 | two decimal texts without leading zeros that spell the same number are the same text |
| JsValues.NumberText | server.js:222 | `String(n)` is exactly the decimal text of `n`, with `-` in front when negative |
| Server.MaskSecret | server.js:48-56 | empty gives empty; up to 6 characters gives as many `*`; longer gives 9 characters: the first 3, `***`, the last 3 |
| Server.MaskHidesMiddle | server.js:48-56 | two secrets of equal length that agree on their first and last three characters are logged identically, so the middle never reaches the log |
| Server.StripTrailingSlashes | server.js:109 | the longest prefix not ending in `/`; only slashes are removed |
| Server.HasHttpScheme | server.js:106 | `/^https?:\/\//i`; what it decides is stated by `Server.NormalizeServerUrl` |
| Server.NormalizeServerUrl | server.js:105-110 | the URL never ends in `/`; with an `http://` or `https://` scheme in any case only trailing slashes go; otherwise `https://` is prepended first |
| Server.NormalizeIdempotent | server.js:105-110 | normalising a normalised URL that keeps its scheme changes nothing |
| Server.CollapseSpaces | server.js:129 | the result has no whitespace and is no longer than the input |
| Server.CollapseWithoutSpace | server.js:129 | text without whitespace is unchanged by the whitespace replacement |
| Server.CollapseRun | server.js:129 | a maximal whitespace run becomes exactly one `_` |
| Server.KeepSlugChars | server.js:130 | only `a-z`, `0-9` and `_` survive the filter, and every slug character of the input occurs in the result |
| Server.KeepSlugCharsOfSlug | server.js:130 | text made only of slug characters passes the filter unchanged |
| Server.KeepSlugCharsAppend | server.js:130 | the filter distributes over concatenation; with `KeepSlugCharsOfSlug` and `KeepSlugCharsOfOthers` this pins it character by character, in order |
| Server.KeepSlugCharsOfOthers | server.js:130 | text with no slug character is filtered away completely |
| Server.SlugChars | server.js:128-130 | lower-casing, collapsing and filtering leave only slug characters, and no more characters than the input had |
| Server.SlugFromTransliteration | server.js:127-131 | the slug has 1 to 100 characters from `a-z0-9_`; `guest_user` when nothing survives; everything that survives when that is at most 100 characters; otherwise its first 100 |
| Server.SlugifyName | server.js:126-132 | the slug of any value has 1 to 100 slug characters |
| Server.UserQueryValue | server.js:222 | the `user` value `2$<slug>*<name>`; its format is stated by `Server.UserQueryValueRoundTrip` |
| Server.ParseSlugAndName | server.js:222 | a `2$<slug>*<name>` value splits back into slug and name, since a slug has no `*` |
| Server.UserQueryValueRoundTrip | server.js:222 | the `user` value of the clients request gives back the slug and the display name as the template literal renders it |
| Server.CaptureAt | server.js:141 | a match starting at an index captures a non-empty group 1 with no line break |
| Server.CaptureAfterWord | server.js:141 | `\s+(.+)$` after the word captures a non-empty text with no line break |
| Server.FirstMatchIndex | server.js:141 | `match` uses the leftmost start at which the pattern matches |
| Server.CaptureInTrimmed | server.js:139-143 | in a trimmed topic the capture is a non-empty, trimmed tail of the topic, so the second `trim` changes nothing |
| Server.TopicText | server.js:139 | the trimmed `topic` when it is a string, else empty; always trimmed |
| Server.InferDisplayName | server.js:134-154 | `guest` for a non-object or null payload; else the capture after the first `patient<whitespace>` of a non-blank topic, or the whole topic; with a blank topic, it throws exactly when `invitations` is present, not null or undefined, and not an array; else the first truthy invitation `display_name`; else `owner \|\| 'guest'`; any result is truthy |
| Server.NoCaptureWithoutP | server.js:141 | no match starts at a character other than `p`/`P` |
| Server.CaptureAfterPatient | server.js:141-143 | right after `patient ` the capture is the whole trimmed single-line rest |
| Server.PatientTopicRoundTrip | server.js:139-144 | a topic `<pre>patient <name>` whose prefix has no `p` gives back a trimmed, non-empty single-line name |
| Server.DefaultTopicRoundTrip | server.js:139-144 | the default topic `Meeting with patient <name>` gives back the name |
| Server.InjectEnvConfig | server.js:90-103 | with the marker, the text around its first occurrence is kept; without it, the text around the first `</body>` in any case is kept; with neither the page is unchanged |
| Server.InjectAtMarker | server.js:98-102 | exactly the first marker becomes the script block and a newline, with the JSON text right after `window.APP_CONFIG = ` |
| Server.InjectBeforeBody | server.js:98-99 | without a marker, the first `</body>` in any case becomes the script block, a newline and `</body>` |
| Server.PathSegment | server.js:290 | the first path segment: no `/` in it, read right after the leading `/` up to the next `/` or the end |
| Server.GetLanguageFromRequest | server.js:288-300 | the path segment if it names a loaded locale, else the query `lang` if it is non-empty and names one, else `en`; an empty query `lang` never becomes the language |
| Server.MissingFrom | server.js:113 | exactly the unset keys, in the order of the list |
| Server.AssertEnvConfig | server.js:112-116 | it fails exactly when a required variable is unset, naming the missing ones in `REQUIRED_ENV` order |
| Server.MissingClientSecret | server.js:112-116 | with only `CLIENT_SECRET` unset the message is `Missing environment variables: CLIENT_SECRET` |
| Server.GetFrontendConfig | server.js:59-66 | `SERVER_CONFIGURED` exactly when the three connection variables are set; the owner id is `CONF_OWNER_TRUECONF_ID` as set, or absent; the topic template is the set `CONF_TOPIC_TEMPLATE`, else `Meeting with patient {{name}}`; the language as given |
| ConferenceRoute.TokenCall | server.js:158-171 | the token request carries no bearer token |
| ConferenceRoute.AccessToken | server.js:172-175 | succeeds exactly when `access_token` is truthy; otherwise throws `OAuth server did not return an access_token` |
| ConferenceRoute.ConferenceId | server.js:203-207 | succeeds exactly when `conference.id` is truthy; otherwise throws `API did not return a conference ID` |
| ConferenceRoute.ClientList | server.js:227-229 | succeeds exactly when `clients` is a non-empty array; otherwise throws `TrueConf Web did not return a list of clients` |
| ConferenceRoute.CreateTrueConfClient | server.js:156-195 | no request and the configuration error when the environment is incomplete; otherwise exactly the token request: its rejection is passed on, an answer without a truthy token gives `OAuth server did not return an access_token`, and a truthy token gives the client for the normalised server with that token |
| ConferenceRoute.CreateConferenceLifecycle | server.js:197-215 | creation comes first; a rejected creation is passed on; an answer without a truthy `conference.id` gives `API did not return a conference ID`; otherwise run and re-read of that id follow, the first rejection is passed on, and two good answers give the id |
| ConferenceRoute.FetchWebClientClients | server.js:217-237 | exactly one request whose `user` is `2$<slug>*<name>`; its rejection is passed on, and an answer gives its `clients` when that is a non-empty array, else `TrueConf Web did not return a list of clients` |
| ConferenceRoute.ConferenceWithClients | server.js:244-249 | a failed lifecycle ends the flow as it is; then a failed name inference fails after the lifecycle's requests; otherwise the client-list request follows and its list and the id make `{ clients, conferenceId }` |
| ConferenceRoute.GenerateConferenceClients | server.js:239-250 | no request without a valid environment; the token request always comes first; a failed client ends the flow, otherwise its requests are followed by those of the conference and the flow ends as that does |
| ConferenceRoute.ApiCallsCarryToken | server.js:180-195 | every request after the token request goes to the normalised server with the token it returned |
| ConferenceRoute.SuccessfulFlow | server.js:239-250 | a successful flow created, ran and re-read one conference, then fetched its clients for the inferred name; it answers with that non-empty list and the id |
| ConferenceRoute.GoodClient | server.js:172-177 | a truthy token in the token answer gives the client for the normalised server with that token |
| ConferenceRoute.GoodLifecycle | server.js:203-214 | good answers to create, run and re-read give the conference id after exactly those three requests |
| ConferenceRoute.GoodConferenceWithClients | server.js:244-249 | good upstream answers and an inferable name give `{ clients, conferenceId }` after exactly four requests |
| ConferenceRoute.NameFailureLeavesConferenceRunning | server.js:244-246 | a payload whose display name cannot be inferred fails only after its conference was created and started |
| ConferenceRoute.ErrorResponse | server.js:337-350 | no response for a null or undefined error; otherwise a truthy status, the upstream one when truthy and else 500, and a truthy message |
| ConferenceRoute.OwnErrorResponse | server.js:338-343 | an error raised by the server itself gives 500 with its message |
| ConferenceRoute.ErrorMessagePriority | server.js:339-343 | the message is the first truthy of `error_description`, `data.message`, `error.message`, else `TrueConf API Error` |
| ConferenceRoute.HandleConferencePost | server.js:322-352 | 400 `Provide a conference object` exactly for a missing or non-object `conference`, with no request upstream; otherwise 200 with the flow's answer or the mapped error |
| ConferenceRoute.MissingConfigurationResponse | server.js:322-352 | an incomplete environment answers 500 naming the missing variables and calls nothing upstream |
| ConferenceRoute.OkExactlyOnSuccess | server.js:331-350 | status 200 is sent exactly when the flow succeeds, if no upstream rejection carries status 200 |
| ConferenceRoute.GoodAnswersSucceed | server.js:322-352 | when every upstream answer is good and the name can be inferred, the route sends the five requests in order and answers 200 with `{ clients, conferenceId }` |
| ClientUtils.StatusText | public/js/utils.js:12 | only null and undefined become `??`; any other status is `String(status)`, so 0 shows as `0` |
| ClientUtils.Details | public/js/utils.js:13-16 | `error_description`, else `message`, else the JSON text of the data |
| ClientUtils.FormatErrorMessage | public/js/utils.js:1-26 | the ordered case analysis: `Unknown error`, the string itself, `API <status>: <details>`, the no-response text, `message \|\| 'An error occurred'`; never empty |
| ClientUtils.FormatZeroStatus | public/js/utils.js:12-18 | a status 0 is shown as `API 0: …`, not `??` |
| ClientUtils.FormatBareResponse | public/js/utils.js:10-18 | a response without status or data reads `API ??: undefined` |
| ClientUtils.IframeElement.constructor | public/js/utils.js:35 | the element holds the parsed attributes |
| ClientUtils.IframeElement.RemoveAttribute | public/js/utils.js:41 | removes exactly the named attribute |
| ClientUtils.Sanitized | public/js/utils.js:41 | no `onload` and no `onerror`; every other attribute kept unchanged |
| ClientUtils.IsWebRtcClient | public/js/utils.js:52 | `type === 'web'` and `platform === 'webrtc'`; its role is stated by `ClientUtils.WebClientIframe` and `ClientUtils.FirstWebClientDecides` |
| ClientUtils.ExtractIframeElement | public/js/utils.js:28-44 | empty markup and markup without an iframe are errors; otherwise a fresh element with the sanitised attributes of the first iframe |
| ClientUtils.RemoveHandlers | public/js/utils.js:41 | removing `onload` and then `onerror` in place leaves exactly the sanitised attributes |
| ClientUtils.WebClientIframe | public/js/utils.js:46-57 | a non-array or empty list throws `Server did not return TrueConf clients`; the iframe of the first `web`/`webrtc` client if truthy, else `TrueConf Web did not return an iframe` |
| ClientUtils.FirstWebClientDecides | public/js/utils.js:51-57 | non-matching clients before the first match and all clients after it have no effect; a later match is never tried |
| ClientUtils.NoWebClientNoIframe | public/js/utils.js:51-57 | a list with no WebRTC web client fails with `TrueConf Web did not return an iframe` |
| ClientUtils.BuildIframeFromClients | public/js/utils.js:46-60 | the sanitised iframe of the first WebRTC web client, or the first error on the way |
| ConferencePayload.RightsTemplate | public/js/conferencePayload.js:1-16 | the 14 flags, all true |
| ConferencePayload.CloneRights | public/js/conferencePayload.js:18-21 | both the guest and the user record equal the template |
| ConferencePayload.GetTrueConfId | public/js/conferencePayload.js:23-32 | `undefined` exactly for the placeholder `your_trueconf_username` or a missing id; otherwise the configured id unchanged |
| ConferencePayload.SafeName | public/js/conferencePayload.js:35 | the trimmed name, or `guest` when that is empty; never empty and always trimmed |
| ConferencePayload.TopicTemplate | public/js/conferencePayload.js:38 | the configured template when truthy, else the built-in Russian template; never empty |
| ConferencePayload.BuildConferencePayload | public/js/conferencePayload.js:34-58 | the owner is the checked id and the only invitation has that id; the topic is the template with its first `{{name}}` replaced; the fixed settings; both rights records equal the template |
| ConferencePayload.TopicNamesPatient | public/js/conferencePayload.js:39 | with no `$` in the name, the topic is the template with the first `{{name}}` swapped for the name |
| ConferencePayload.TopicWithoutPlaceholder | public/js/conferencePayload.js:39 | a template without `{{name}}` is the topic as it stands |
| ConferencePayload.DollarPatternInName | public/js/conferencePayload.js:39 | a patient called `$&` yields the bare template as topic |
| ConferencePayload.AsJsValue | public/js/main.js:18 | after `JSON.stringify`, topic and owner reach the server as strings and an undefined owner id is dropped, both at the top and in the invitation |
| EndToEnd.TopicFromTemplate | public/js/conferencePayload.js:38-39 | a template `<pre>{{name}}` with no `{` in `pre` yields the topic `<pre><name>` |
| EndToEnd.DefaultTemplateNameRoundTrip | server.js:139-144 | with the server's default template, the server infers exactly the name typed in the page, given no `$` and no line break in the name and neither `$` nor `<` in the published configuration |
| EndToEnd.WholeTopicInferred | server.js:139-146 | a topic without the letter `p` is taken whole as the display name |
| EndToEnd.NoMatchInTopic | server.js:141 | a text without the letter `p` holds no match |
| EndToEnd.BuiltInTemplateKeepsWholeTopic | public/js/conferencePayload.js:38 | with the built-in Russian template, a name without the letter `p` makes the whole topic the display name |

## Left out

- Network calls are not modelled. The OAuth exchange, the conference requests and the clients request are the parameter `answer`. Timeouts, headers and URL building are not modelled.
- Process and server setup is not modelled: dotenv, the `ALLOW_SELF_SIGNED` switch, Express routing, static serving and `app.listen`.
- `loadTranslations` is not modelled because it reads files. The loaded locales are the set parameter `locales` of `Server.GetLanguageFromRequest`.
- `injectTranslations` is not modelled. Its lazy, dot-all regular expressions with back-references need a regular-expression engine.
- `logAction` and `safeStringify` are not modelled, because timestamps and the console are I/O.
- The `GET /` route is not modelled as a whole. Its parts are: `GetLanguageFromRequest`, `GetFrontendConfig` and `InjectEnvConfig`. Reading `index.html` is I/O.
- public/js/main.js, public/js/dom.js and public/js/MessageChannel.js are not modelled: they hold DOM and event plumbing and the re-entrancy flag of a click handler.
- The transliteration library, `JSON.stringify` and the HTML parser are parameters (`transliterate`, `configJson`/`stringify`, `parse`).
- Server.SlugChars: `toLowerCase` folds ASCII letters only. Non-ASCII letters that transliteration leaves are dropped by the filter either way, unless they lower-case to ASCII.
- Server.MaskSecret: lengths and slices count Unicode code points, not UTF-16 code units, so secrets with characters outside the BMP are measured differently.
- Server.GetLanguageFromRequest: the query `lang` is a single string. Repeated or nested query values are not modelled, and neither are lookups that hit inherited keys such as `constructor`.
- JsValues.Prop: only own properties of plain objects are read. Inherited properties and properties of arrays and strings count as `undefined`.
- JsValues.JsToString: numbers are integers. NaN, fractions and exponent notation are not modelled, and neither are objects with their own `toString`.
- Server.InferDisplayName: the TypeError for a non-array `invitations` is an object with a fixed `message`, not V8's exact wording or prototype.
- ConferenceRoute.ErrorResponse: the status is passed on as the error carries it. What Express does with a status that is not a valid HTTP code is not modelled.
- ClientUtils.FormatErrorMessage: `stringify` always returns text. `JSON.stringify` throwing on cyclic data is not modelled.
- ClientUtils.ExtractIframeElement: only the element's attributes are modelled, not the rest of its DOM state.
- ClientUtils.Sanitized: `parse` is taken to give lower-case attribute names, as the browser's HTML parser does. A mixed-case `ONLOAD` from a different parser would be kept.
- EndToEnd.PublishedConfig: the page is taken to read `window.APP_CONFIG` back unchanged. That holds only when the JSON text has no `$`, because `injectEnvConfig` passes it as a `replace` replacement string. A `$'` in `CONF_OWNER_TRUECONF_ID` would paste the rest of the page into the script. It also needs the JSON to stay inside its `<script>` element: `JSON.stringify` does not escape `<`, so a `</script>` in `CONF_OWNER_TRUECONF_ID` would close the element early, `window.APP_CONFIG` would stay unset and the page would fall back to its built-in template. So the end-to-end lemmas require every published text to be free of `$` and `<` (`PublishedLiterally`). The HTML tokenizer and evaluating the injected script are not modelled.
- ConferencePayload.CloneRights: the records are values. That the two copies are distinct objects, and distinct from the frozen template, is not expressible here.
- ConferencePayload.AsJsValue: states the members the server reads (`topic`, `owner`, `invitations`), not the JSON text.
