# Multi-account like/recast bot: a Dafny model

`multi_account_bot.py` reads a file of account tokens and a file of cast hashes, and
for every (token, hash) pair sends a "like" and a "recast" request. Each request goes
through one retry loop, and the outcome of each pair becomes one CSV row. This project
models the logic under the HTTP and file I/O, and proves what that logic promises:

- **Input** (`input.dfy`) models the line filter of `load_lines`: Python's `str.strip()`
  on each line, with blank lines dropped and order kept. A missing file yields no lines.
  It also models `normalize_token`: a case-insensitive `"bearer "` prefix test, and
  `"Bearer "` put in front when the prefix is missing.
- **Retries** (`retries.dfy`) models `request_with_retries` as a method with the
  source's `while` loop over an `attempt` counter. The network is a *script*: element k
  is what the k-th call of `session.request` produces, either a network exception or a
  response with a status and a `Retry-After` header. The method returns the response or
  `None`, with the number of calls it made and the list of backoff sleeps it took. It is
  proved equal to a recursive reference function, `Retry`. Lemmas about `Retry` give the
  whole behaviour in closed form:
  - a request makes at most `MAX_RETRIES + 1` = 6 calls;
  - `None` comes back exactly when the first six outcomes are network errors, 429s or
    5xx, and then each of the six calls is followed by a sleep;
  - any response that comes back is the first outcome in the script that is not retried;
  - sleep j follows call j and uses the exponent j + 1.
- **Grids** (`grids.dfy`) models the layout of `main`'s nested loops. A grid of rows,
  one list per token, is written out list by list. Element j of list i lands at position
  i * h + j.
- **Bot** (`bot.dfy`) models `like_and_recast` and `main`. `main` stops before opening
  the CSV file when either input list is empty. Otherwise it writes the header and one
  row per pair: tokens outer, hashes inner. The row fields are:
  - `token_index`, counted from 1;
  - the 12-character preview of the token;
  - the two status cells: the numeric status, or `no-response`;
  - the note: `failed_retries` when either request gave no response.

Three points where the code does more than its own comments say; the model follows the
code:

- The comment at multi_account_bot.py:78 speaks of "other status codes (4xx)", but any
  status other than 200, 201, 204, 401, 429 and 500..599 is returned at once, 1xx, 3xx
  and 6xx and above included.
- The comment at multi_account_bot.py:66 speaks of the `Retry-After` header for 429,
  but lines 67-72 read it for 5xx responses as well.
- `main` returns at lines 95-97 or 100-102, before the `open` at line 108, when either
  list is empty, so no CSV file is created at all, not even one with only the header.

Two facts that the code does not state outright are proved:

- A normalised token is never empty, so the `""` branch of the preview is never taken
  (`Bot.PreviewOfNormalized`).
- Only ASCII letters are lower-cased. The `"bearer "` test gives the same answer as
  Python's full Unicode `lower()`, for two reasons. First, the only character whose
  lower case is longer than one character is U+0130, so the first seven characters of
  the lowered line come from the first seven characters of the line. Second, the only
  characters outside ASCII whose lower case contains an ASCII character are U+0130
  (lowered to `i` followed by U+0307) and U+212A KELVIN SIGN (lowered to `k`). Neither
  gives `b`, `e`, `a`, `r` or a space, so a non-ASCII character never matches a
  position of the prefix under either lowering.

## Model

| member | source | states |
|---|---|---|
| `Input.TrimStartShape` | multi_account_bot.py:27 | the leading part `strip()` removes is all whitespace, and what is kept is a suffix of the line that does not start with whitespace |
| `Input.TrimEndShape` | multi_account_bot.py:27 | the trailing part `strip()` removes is all whitespace, and what is kept is a prefix that does not end with whitespace |
| `Input.StripEnds` | multi_account_bot.py:27 | a stripped line is empty or starts and ends with a character that is not whitespace |
| `Input.StripSlice` | multi_account_bot.py:27 | `strip()` keeps one contiguous slice of the line, and everything before and after that slice is whitespace |
| `Input.StripEmptyIff` | multi_account_bot.py:27 | a line strips to the empty string exactly when it is all whitespace (the `if ln.strip()` test) |
| `Input.StripIdempotent` | multi_account_bot.py:27 | stripping a stripped line changes nothing |
| `Input.KeepLinesTrimmed` | multi_account_bot.py:27 | every line `load_lines` returns is non-empty and has no whitespace left to strip |
| `Input.KeepLinesAppend` | multi_account_bot.py:27 | the filter of a concatenation is the concatenation of the filters, so lines keep their file order |
| `Input.KeepLinesSingle` | multi_account_bot.py:27 | one line is kept, in stripped form, exactly when it is not all whitespace |
| `Input.KeepLinesNoBlank` | multi_account_bot.py:27 | with no blank line, nothing is dropped: line k of the result is line k stripped |
| `Input.LoadLines` | multi_account_bot.py:21-28 | a missing file gives no lines; otherwise there are at most as many lines as in the file, each non-empty and stripped |
| `Input.Strip` | multi_account_bot.py:27 | Python's `str.strip()`: leading whitespace removed, then trailing whitespace; never longer than the line. Its meaning is stated by `TrimStartShape`, `TrimEndShape`, `StripEnds` and `StripSlice` |
| `Input.KeepLines` | multi_account_bot.py:27 | the comprehension `[ln.strip() for ln in f if ln.strip()]`: each line stripped, the empty results dropped, order kept; never more lines than the file. Its meaning is stated by `KeepLinesTrimmed`, `KeepLinesAppend`, `KeepLinesSingle` and `KeepLinesNoBlank` |
| `Input.HasBearerPrefix` | multi_account_bot.py:31 | the test `line.lower().startswith("bearer ")`, with the ASCII lowering argued above |
| `Input.NormalizeToken` | multi_account_bot.py:30-33 | the result always has the bearer prefix (in any case) and ends with the input; it equals the input exactly when the input already had the prefix, and otherwise it is exactly `"Bearer "` followed by the input (it starts with `"Bearer "` and is 7 characters longer than the input) |
| `Input.NormalizeTokenIdempotent` | multi_account_bot.py:30-33 | normalising twice is normalising once |
| `Input.NormalizedLength` | multi_account_bot.py:30-33 | a normalised token has at least the 7 characters of the prefix |
| `Retries.BackoffFor` | multi_account_bot.py:49-74 | the sleep taken after a retryable outcome, by kind: network backoff after an exception, the `Retry-After` value when the header parses as a number, server backoff when it is absent, empty or unparsable; the exponent is the incremented counter |
| `Retries.RetryFrom` | multi_account_bot.py:44-80 | the reference recursion for the loop from a given counter value: return an accepted, 401 or other final response; after a retryable outcome, record the sleep and go on with the counter incremented; `None` once the counter passes `MAX_RETRIES`. Its closed form is stated by `RetryFromExhausted`, `RetryFromAnswer` and `RetryFromDelays` |
| `Retries.Retry` | multi_account_bot.py:44-80 | the reference recursion started at counter 0, the specification of `RequestWithRetries`; its meaning is stated by `CallsBounded`, `ExhaustedIff`, `AnswerIsFirstFinal` and `OneBackoffPerRetry` |
| `Retries.RetryFromExhausted` | multi_account_bot.py:44-80 | from any counter value: at most the remaining attempts are called, and the loop falls through to `return None` exactly when every remaining attempt is retryable, after calling each of them and sleeping after each |
| `Retries.RetryFromAnswer` | multi_account_bot.py:44-79 | from any counter value: a response that comes back is the outcome of the last call made, it is not retryable, and one sleep was taken per earlier call |
| `Retries.RetryFromDelays` | multi_account_bot.py:49-77 | from any counter value: the sleeps follow the calls in order, each after a retryable outcome, with the incremented counter as exponent; there are no more sleeps than attempts left |
| `Retries.CallsBounded` | multi_account_bot.py:45-46 | a request makes at least 1 and at most `MAX_RETRIES + 1` calls |
| `Retries.ExhaustedIff` | multi_account_bot.py:44-80 | `None` exactly when the first six outcomes are all network errors, 429 or 5xx; then there were six calls and six sleeps, the last sleep after the last call |
| `Retries.AnswerIsFirstFinal` | multi_account_bot.py:57-79 | a returned response is the first outcome that is not retried; its status is neither 429 nor 5xx; every earlier outcome was retried; one sleep was taken per earlier call |
| `Retries.OneBackoffPerRetry` | multi_account_bot.py:49-77 | sleep j follows call j, which was retryable. Its kind comes from that outcome: network backoff, `Retry-After` value, or server backoff. Its exponent is the incremented counter j + 1 |
| `Retries.ImmediateAnswer` | multi_account_bot.py:57-62 | a first response that is not 429 or 5xx (200, 201, 204, 401 or any other) is returned after one call and no sleep |
| `Retries.RateLimitedThenAccepted` | multi_account_bot.py:63-77 | 429 without `Retry-After` followed by 200 gives two calls, one exponential backoff with exponent 1, and the 200 response |
| `Retries.ServerDown` | multi_account_bot.py:63-80 | 500 on every attempt gives `None` after six calls, with server backoffs of exponents 1 to 6 |
| `Retries.RequestWithRetries` | multi_account_bot.py:44-80 | the loop's result, its number of calls and its list of sleeps are exactly those of the reference `Retry` |
| `Bot.LikeAndRecast` | multi_account_bot.py:82-90 | both requests run through the retry loop, each on its own script; the recast request is always made (at least one call), whatever the like request gave |
| `Bot.PreviewShape` | multi_account_bot.py:118 | the preview is empty only for an empty token; otherwise it is up to 12 leading characters of the token followed by `"..."` |
| `Bot.PreviewOfNormalized` | multi_account_bot.py:104-118 | for a normalised token the preview is never empty; it is 10 to 15 characters long and starts with the bearer prefix |
| `Bot.NormalizeAll` | multi_account_bot.py:104 | one normalised token per loaded token, and every one carries the bearer prefix |
| `Bot.Take` | multi_account_bot.py:118 | Python's `s[:12]`: the first 12 characters, or the whole string when shorter |
| `Bot.Preview` | multi_account_bot.py:118 | `(token[:12] + "...") if token else ""`; its meaning is stated by `PreviewShape` and `PreviewOfNormalized` |
| `Bot.StatusCell` | multi_account_bot.py:125-126 | `resp.status_code if resp is not None else "no-response"`; its meaning is stated by `StatusCellMeaning` |
| `Bot.StatusCellMeaning` | multi_account_bot.py:125-126 | the cell is `no-response` exactly when there is no response, it is numeric exactly when there is one, and then it is that response's status code |
| `Bot.MakeRow` | multi_account_bot.py:123-134 | the row of one (token, hash) pair: index, preview, hash, both status cells, and `failed_retries` when either request gave no response; its meaning is stated by `RowEncoding` |
| `Bot.RowEncoding` | multi_account_bot.py:125-129 | a status cell is `no-response` exactly when that request's first six outcomes were all retried; otherwise it is a status that is neither 429 nor 5xx. The note is `failed_retries` exactly when either cell is `no-response`, and `""` otherwise |
| `Bot.RowStatusIsLastCall` | multi_account_bot.py:123-126 | a numeric status cell is the status of the response to that request's last call, which is among the first six |
| `Bot.ServerDownRow` | multi_account_bot.py:125-129 | a like request that meets 500 on every attempt logs `no-response` and `failed_retries` |
| `Bot.TokenRows` | multi_account_bot.py:120-134 | the reference rows of one account, one per hash in hash order, one row per hash |
| `Bot.Rows` | multi_account_bot.py:116-134 | the reference rows of all accounts: the per-account rows concatenated in token order; its meaning is stated by `MatrixSize`, `MatrixAt` and `MatrixTokenSlice` |
| `Bot.MatrixSize` | multi_account_bot.py:112-120 | `len(tokens) * len(cast_hashes)` data rows |
| `Bot.MatrixAt` | multi_account_bot.py:117-134 | row i * \|hashes\| + j is the row of token i + 1 and hash j: tokens outer, hashes inner, every pair once |
| `Bot.MatrixTokenSlice` | multi_account_bot.py:117-120 | the rows of one token are consecutive and in hash order |
| `Bot.WriteTokenRows` | multi_account_bot.py:120-134 | the inner loop over the hashes builds exactly the reference rows of one account, in hash order |
| `Bot.WriteRows` | multi_account_bot.py:116-134 | the outer loop over the accounts, numbering them from 1 and computing each preview, builds exactly the reference rows |
| `Bot.RunBatch` | multi_account_bot.py:93-134 | no CSV exactly when the loaded token list or hash list is empty; otherwise the header followed by the reference rows of the normalised tokens |

## Left out

- HTTP is not modelled: `make_session`, the request headers, the 15-second timeout and the
  two URLs (multi_account_bot.py:17-18, 35-42, 48). The server's behaviour is a
  parameter, one script of outcomes per request.
- Each request's script must describe the six calls the loop can make
  (`Retries.RequestWithRetries` requires `|script| >= 6`). In the source every call
  produces an outcome, so this only sizes the environment; it does not restrict callers.
- Sleep durations are not modelled. The model does not compute `BACKOFF_BASE ** attempt`,
  the `random.random()` jitter, `float(Retry-After)`, the like/recast jitter `uniform(0.08, 0.2)`
  or the pacing delay `uniform(DELAY_MIN, DELAY_MAX)`. Backoff sleeps are recorded by
  kind and exponent. The jitter and pacing sleeps are not recorded.
- Parsing of `Retry-After` is taken as already done: the header is absent or empty,
  a number, or text that `float()` rejects.
- `time.sleep` raises, ending the run, when the `Retry-After` value plus the jitter in
  [0, 1) is negative (always so for values of -1 or less), or when the value is NaN or
  infinite; `float()` also accepts `"inf"` and `"nan"`, which `Hint(real)` cannot hold.
  The model records the hint as given and does not model that exception.
- Exceptions other than `requests.RequestException` are not modelled. They would leave
  the loop and end the run.
- Only file contents are modelled, not file I/O. A file is `None` when it is missing, or
  its lines as Python yields them. Splitting into lines, decoding and the missing-file
  message are not modelled.
- CSV writing is not modelled. Rows are typed values (`Cell` is an int or a string); the
  model does not cover CSV quoting, flushing or the file name.
- Console output is not modelled: the banner, the progress lines with `op_count` /
  `total_ops`, and the retry and 401 messages.
