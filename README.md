# NodeGoat end-to-end harness: gate, brute-force probe and ReDoS probe

NodeGoat ships a Cypress suite that demonstrates each of its deliberate
vulnerabilities against a running instance. Nearly all of the suite drives a
browser or sends HTTP requests. This project models the part that makes
decisions of its own:

- **Plugin configuration** (`test/e2e/plugins/index.js`). Cypress hands the
  plugins function its resolved configuration. The function points `baseUrl`
  at `http://<hostName>:<port>` and turns `env.TEST_TAGS` into a list, in place.
  An array is kept as it is. An absent value becomes `[]`. A string is split
  on `","`. Modelled as the method `Plugins.Configure` on the classes
  `Config` and `Env`. The JavaScript built-ins it relies on (`split`,
  `join`) are pure functions in `JsText`.
- **Environment gate** (`vulnerabilities_spec.js:2-5`). The suite is defined
  only when the tag list holds the tag `"CI"` (`Array.prototype.includes`,
  so a whole element) or the run is interactive.
- **Brute-force probe** (`vulnerabilities_spec.js:154-175`). It sends login
  guesses 0, 1, 2, … with the password `attemptIndex.toString()`. It fails on
  a reply at or over `maxDuration`, looked at before the status. It stops at
  the first 302 and passes only if the redirect goes to `/dashboard`. It fails
  before sending guess 20.
- **ReDoS probe** (`vulnerabilities_spec.js:370-390`). It posts a
  `bankRouting` of fifteen `'9'`s, then one more `'9'` per request. It keeps
  `minDuration = Math.min(duration, minDuration)`, which starts at
  `Infinity`. It goes on while `duration < minDuration + 400`. It fails before
  sending a payload of 50 characters.

Both probes are recursive closures in the source. Here they are recursive
functions over a reply oracle `reply: nat -> Reply`:

- Brute force: `reply(k)` is the application's answer to guess `k`.
- ReDoS: `reply(k)` is the answer to the payload of length `k`.

A `Reply` is either `Answered(Response(status, location, duration))` or
`RequestFailed`, a request that never completed (a timeout, a network error).
`cy.request` hands a response to the probe only when its status is 2xx or 3xx:
`formPostRequest` (`test/e2e/support/commands.js:39-48`) keeps the default
`failOnStatusCode`. The predicate `Delivered` says which replies get through.
Any other reply fails the test with `RequestError` before the probe looks at
it. `Infinity` is `None` in an `Option<nat>`. Durations are natural numbers
of milliseconds.

Each run returns its verdict (`Pass` or `Fail(reason)`) and its trace:

- brute force: the login requests sent;
- ReDoS: for every answered request, the payload, the duration and the
  running minimum after the update.

Two behaviours of the code to note:

- A 302 whose location is not `/dashboard` fails the brute-force probe at
  once (`vulnerabilities_spec.js:167-168`). The probe does not go on to the
  next guess.
- A lockout that answers with a non-2xx/3xx status fails the probe through
  `cy.request`. A lockout that answers 200 exhausts the twenty attempts.

## Model

| member | source | states |
|---|---|---|
| `JsText.Split` | test/e2e/plugins/index.js:27 | `tags.split(",")`. It gives one more part than there are commas, so `""` gives `[""]`. No part contains a comma. |
| `JsText.JoinSplit` | test/e2e/plugins/index.js:27 | Joining the split parts with the separator gives back the original string. |
| `JsText.SplitJoin` | test/e2e/plugins/index.js:27 | Take a non-empty list of comma-free parts, join it, and split it again: the result is that list. |
| `JsText.Includes` | test/e2e/integration/vulnerabilities_spec.js:3 | `includes` on a string array is true exactly when the string is an element. |
| `JsText.NumberToString` | test/e2e/integration/vulnerabilities_spec.js:161 | `toString()` of a non-negative integer (below 10^21, which covers the indices 0..19 used here) is a non-empty string of digits with no leading zero. |
| `JsText.DecimalValueOfNumberToString` | test/e2e/integration/vulnerabilities_spec.js:161 | Reading the decimal numeral back gives the number. |
| `JsText.NumberToStringInjective` | test/e2e/integration/vulnerabilities_spec.js:161 | Different indices give different password strings. |
| `JsText.Nines` | test/e2e/integration/vulnerabilities_spec.js:390 | `"9".repeat(n)` has length `n` and holds only `'9'`. |
| `JsText.Join` | test/e2e/plugins/index.js:27 | The partner of the `split` at this line: joining with a one-character separator starts with the first part, and `JoinSplit`/`SplitJoin` make it the inverse of the split. |
| `JsText.JoinSeparatorCount` | test/e2e/plugins/index.js:27 | Joining separator-free parts gives a string with exactly one separator fewer than there are parts (none for no parts). |
| `Plugins.BaseUrl` | test/e2e/plugins/index.js:20 | The URL is `http://`, then the host name, then `:`, then the port, and nothing else. |
| `Plugins.Configure` | test/e2e/plugins/index.js:17-33 | Returns the same config object and changes only `baseUrl` and `env.TEST_TAGS`. `baseUrl` becomes `"http://" + hostName + ":" + port`. `TEST_TAGS` is always a list afterwards: an array is unchanged and undefined becomes `[]`. A string becomes its split on `","`, which joined with `","` gives the string back; the empty string gives `[""]`, not `[]`. |
| `Plugins.BaseUrlParts` | test/e2e/plugins/index.js:20 | For a host name without a colon: the base URL starts with `http://`. Splitting the rest on `":"` gives back the host name, and also the port when the port holds no colon. |
| `VulnerabilitiesSpec.SuiteDefined` | test/e2e/integration/vulnerabilities_spec.js:2-5 | The suite is defined exactly when the run is interactive or some element of the tag list equals `"CI"`. A tag that only contains `"CI"` does not count. |
| `VulnerabilitiesSpec.SuiteGate` | test/e2e/integration/vulnerabilities_spec.js:2-5 | Read from the configuration after the plugins function ran: the suite is defined exactly when `isInteractive` is set or `"CI"` is an element of `TEST_TAGS`. |
| `VulnerabilitiesSpec.LoginGuess` | test/e2e/integration/vulnerabilities_spec.js:159-163 | A guess keeps the user name and the CSRF token. Its password is the decimal numeral of the attempt index without leading zeros, which fixes the string. |
| `VulnerabilitiesSpec.NextLoginAttempt` | test/e2e/integration/vulnerabilities_spec.js:156-173 | Started at index `i` below 20, the probe sends between 1 and `20 - i` guesses. Guess `j` is for index `i + j`: the same user name, the same CSRF token, and the password that is the index in decimal. From index 20 on it sends nothing. |
| `VulnerabilitiesSpec.BruteForceProbe` | test/e2e/integration/vulnerabilities_spec.js:156-175 | Started as `nextRequest()`, the probe sends between 1 and 20 guesses, and guess `k` is the guess for index `k`. |
| `VulnerabilitiesSpec.StartBruteForce` | test/e2e/integration/vulnerabilities_spec.js:155-175 | With the duration cap read from `defaultCommandTimeout`, the probe passes exactly when the first stopping reply is delivered, under that cap, a 302, and goes to `/dashboard`. |
| `VulnerabilitiesSpec.FirstStop` | test/e2e/integration/vulnerabilities_spec.js:164-171 | Gives the first index from `from` whose reply is not delivered (failed request or status outside 2xx/3xx), is at or over the duration cap, or is a 302. Gives 20 when there is none. |
| `VulnerabilitiesSpec.BruteForceEndsAtFirstStop` | test/e2e/integration/vulnerabilities_spec.js:156-172 | The probe sends every guess up to the first stopping reply and no more. That reply decides the verdict: an undelivered reply fails with a request error, a duration at or over the cap fails whatever the status, and an in-time 302 passes exactly when its location is `/dashboard` and otherwise fails naming the location it got. With no stopping reply, all guesses up to index 19 go out and the probe fails on the attempt limit. |
| `VulnerabilitiesSpec.BruteForcePassesIff` | test/e2e/integration/vulnerabilities_spec.js:154-175 | The probe started at 0 passes exactly when, within the first twenty replies, the first stopping reply is an in-time 302 to `/dashboard`. |
| `VulnerabilitiesSpec.ErrorStatusFailsProbe` | test/e2e/support/commands.js:39-48 | A first reply with a status outside 2xx/3xx fails the probe with a request error after one guess. |
| `VulnerabilitiesSpec.RejectedGuessIsFollowed` | test/e2e/integration/vulnerabilities_spec.js:169-171 | A delivered (2xx/3xx) non-302 reply under the duration cap, below index 19, is followed by exactly one further guess, the next index. The run then matches the run started from that index. |
| `VulnerabilitiesSpec.BruteForceGuesses` | test/e2e/integration/vulnerabilities_spec.js:154-163 | Between 1 and 20 guesses go out. Guess `k` carries the fixed user name, the fixed CSRF token and the password `k.toString()`. No password is tried twice. |
| `VulnerabilitiesSpec.MinWith` | test/e2e/integration/vulnerabilities_spec.js:383 | `Math.min(duration, minDuration)` with `Infinity` as `None`. The result is at most both arguments and equal to one of them. |
| `VulnerabilitiesSpec.NextRoutingRequest` | test/e2e/integration/vulnerabilities_spec.js:371-388 | No payload of 50 or more characters is sent. The running minimum goes from sample to sample as `Math.min(duration, previous)`, starting from the initial `minDuration`. |
| `VulnerabilitiesSpec.RedosRequests` | test/e2e/integration/vulnerabilities_spec.js:372-385 | Request `j` carries the start payload followed by `j` nines, with the same CSRF token. Its sample holds the oracle's duration for that payload length. |
| `VulnerabilitiesSpec.RedosOutcome` | test/e2e/integration/vulnerabilities_spec.js:371-387 | Every sample except the last stayed within the slack band. The probe passes only on a last sample outside the band. It fails on length only after the payload of length 49 was sent and stayed in the band. It fails on a request error only for the request after the last sample. |
| `VulnerabilitiesSpec.RedosProbe` | test/e2e/integration/vulnerabilities_spec.js:371-390 | Started as `nextRequest("9".repeat(15))` with `Infinity`, the probe answers at most 35 requests, threads the running minimum, and the first sample's minimum is its own duration. |
| `VulnerabilitiesSpec.RedosPayloads` | test/e2e/integration/vulnerabilities_spec.js:370-390 | Request `k` carries `15 + k` nines, each under 50 characters long. At most 35 requests are answered, fewer when the run ends in a request error, so at most 35 are sent. |
| `VulnerabilitiesSpec.ThreadedMinimum` | test/e2e/integration/vulnerabilities_spec.js:371-383 | Start from `Infinity` and thread a running minimum. At each sample it is at most every duration so far and equal to one of them. |
| `VulnerabilitiesSpec.RedosMinDuration` | test/e2e/integration/vulnerabilities_spec.js:371-383 | In the probe, `minDuration` after each response is the minimum of all durations so far, the current one included. It never increases. |
| `VulnerabilitiesSpec.RedosContinuesIff` | test/e2e/integration/vulnerabilities_spec.js:383-386 | A sample lets the probe go on exactly when its duration is below `minDuration + 400`. A sample that sets a new minimum never ends the probe, and neither does the first one. |
| `VulnerabilitiesSpec.RedosStopsAtSlowLength` | test/e2e/integration/vulnerabilities_spec.js:383-390 | Take a responder that answers every payload shorter than `k` in `c` ms and the payload of length `k` in at least `c + 400` ms. Against it, the probe passes after exactly the payloads of lengths 15 to `k`. |

## Left out

- The vulnerability scenarios in `vulnerabilities_spec.js`: SSJS/NoSQL injection, session cookies, headers, XSS, access control, CSRF, redirects and SSRF. They are browser navigation, DOM queries and HTTP assertions against a live application, with no logic of their own.
- `test/e2e/support/commands.js`:
  - `signIn`, `userSignIn`, `adminSignIn`, `visitPage`, `enterFormText` and `dbReset` (with its `before` hook) are thin wrappers over Cypress commands and external processes.
  - `noRetry` returns its subject unchanged. Its meaning lives in Cypress's retry scheduler.
  - `formPostRequest` and `cy.request` are absorbed into the reply oracle and the `Delivered` filter. Redirect following on the profile request (`followRedirect` left on) is inside the oracle: its reply is the final response.
- Wall-clock timing and Cypress's asynchronous command queue. Durations are oracle values, and the `.then` recursion is treated as strictly sequential.
- JsText.NumberToString: gives the plain digit string for every natural number, whereas JavaScript prints integers from 10^21 on in exponent form and loses exactness above 2^53. The probe only converts indices 0..19 (`vulnerabilities_spec.js:157`).
- Logging: `console.log` of the tags (`plugins/index.js:30`) and `cy.log` of each duration.
- Where `hostName` and `port` come from. `config/env/all` is not part of this model. Both are taken as strings already in the form the template literal renders.
- A `TEST_TAGS` value that is defined but neither an array nor a string. The source would throw at `tags.split`. The model's `TagsValue` type excludes it.
- The fixtures that give the brute-force user name and the CSRF token. Both are parameters.
- The value of `defaultCommandTimeout`. `StartBruteForce` reads it from the configuration; the probe functions take it as the parameter `maxDuration`.
