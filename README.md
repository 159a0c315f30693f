# bot01 Telegram delivery, modelled in Dafny

bot01 sends text messages to a Telegram chat through the Telegram Bot API.
A standalone scheduler also sends a fixed message of market links once a day.
This project models the two parts of that code that hold logic:

- `send_telegram_message` in `common/telegram_client.py`. It reads the bot
  token and chat id from the environment, falling back to a second chat id
  variable. It then POSTs the message up to `retries + 1` times. Each attempt
  is classified as delivered or failed, and the call sleeps `2^attempt`
  seconds before the next attempt when the code's backoff step is reached.
- `build_daily_message`, `run_daily_send` and the test-mode switch in
  `scheduler/daily_telegram_sender.py`.

Modules and files:

- `environment.dfy` (`Environment`): the process environment as a map, and
  Python truthiness of optional strings.
- `telegram_client.dfy` (`TelegramClient`): the configuration lookup, the
  response classification, a reference definition of the retry loop
  (`Attempts`, `Send`) and the imperative loop (`SendTelegramMessage`,
  `PostWithRetries`). The loop is proved equal to the reference definition.
- `retry_policy.dfy` (`RetryPolicy`): the retry policy proved about the
  reference definition. It covers attempt counts, the result, stopping at the
  first success, the exact sleep schedule and the total backoff. It also
  holds the backoff finding below.
- `text_lines.dfy` (`TextLines`): Python's `"\n".join` and `str.split("\n")`,
  and the round trips between them.
- `daily_telegram_sender.dfy` (`DailyTelegramSender`): the daily message
  text, the `run_daily_send` call and the `SCHEDULER_TEST_MODE` flag.

The HTTP transport is an oracle `transport: nat -> Response` that gives the
outcome of each attempt, by attempt index. An outcome is either a
`RequestException` or an HTTP reply with a status and a body. Each POST and
each sleep is recorded in a ghost log (`posts`, `sleeps`), so attempt counts,
payloads and backoff time can be stated exactly.

Facts about the code that the model keeps:

- HTTP ok is requests' `response.ok`, which is false only for status 400 to
  599. So a 3xx reply counts as ok.
- A failure caused by an HTTP error status or by a body that is not JSON ends
  the iteration with `continue`. That skips the backoff sleep. Only API-level
  errors (`ok` falsy) and `RequestException`s are followed by a sleep. See
  "Findings".
- A negative `retries` is accepted and makes no attempt
  (`range(retries + 1)` is empty).

## Model

| member | source | states |
|---|---|---|
| `TelegramClient.BotToken` | common/telegram_client.py:32-40 | A usable token exists iff SPORTSDATAIO_API_KEY is set and non-empty, and then it is that variable's value. There is no other source. |
| `TelegramClient.ChatId` | common/telegram_client.py:25-46 | TELEGRAM_CHAT_ID wins when non-empty. Otherwise TELEGRAM_CHATID is returned as it is, absent or empty included. A usable chat id exists iff one of the two is non-empty. |
| `TelegramClient.Classify` | common/telegram_client.py:71-96 | An attempt is delivered iff the reply is HTTP-ok, its body is a JSON object and the object's `ok` is truthy. A transport exception is a failure that reaches the backoff step. A failed reply skips the backoff step iff its status is an HTTP error or its body is not JSON. |
| `TelegramClient.SendTelegramMessage` | common/telegram_client.py:49-103 | The result, the POSTs and the sleeps are exactly those of `Send`: the configuration guard, then the retry loop. |
| `TelegramClient.PostWithRetries` | common/telegram_client.py:69-103 | The imperative loop with `continue`, early `return True` and the conditional sleep produces exactly the trace of the reference definition `Attempts`. |
| `RetryPolicy.AttemptsPosts` | common/telegram_client.py:69-71 | From any loop index: at most one POST per remaining iteration, at least one if any remain, and every POST is the same request. |
| `RetryPolicy.AttemptsSentIff` | common/telegram_client.py:69-88 | The loop reports success iff some remaining attempt's outcome is a success. |
| `RetryPolicy.AttemptsStopAtFirstSuccess` | common/telegram_client.py:86-88 | When attempt k is the first success, the loop returns True after exactly k - attempt + 1 POSTs. |
| `RetryPolicy.AttemptsExhaust` | common/telegram_client.py:69-103 | When every remaining attempt fails, every iteration runs and the result is False. |
| `RetryPolicy.AttemptsSleeps` | common/telegram_client.py:72-101 | The sleeps are exactly 2^i for each failed attempt i before the last attempt made whose failure reaches the backoff step. There is no sleep after a success or after the final attempt. |
| `RetryPolicy.PausesTotal` | common/telegram_client.py:98-101 | The backoffs of attempts from..to-1 sum to at most 2^to - 2^from seconds, with equality when every one of those failures reaches the backoff step. |
| `RetryPolicy.SendMakesNoAttempt` | common/telegram_client.py:61-69 | No POST happens iff the token or chat id is missing or empty, or retries < 0. In that case the result is False and nothing is slept. |
| `RetryPolicy.SendPosts` | common/telegram_client.py:66-71 | At most retries + 1 POSTs. Each goes to `https://api.telegram.org/bot<token>/sendMessage` with the configured chat id, the text unchanged and the given timeout. |
| `RetryPolicy.SendSentIff` | common/telegram_client.py:61-103 | The result is True iff the configuration is present and one of the first retries + 1 transport outcomes is a success. |
| `RetryPolicy.SendFirstSuccess` | common/telegram_client.py:69-101 | After k failures and then a success (k <= retries): exactly k + 1 POSTs, result True, and only the backoffs of those k failures are slept. |
| `RetryPolicy.SendAllFail` | common/telegram_client.py:69-103 | When every attempt fails: exactly retries + 1 POSTs and result False. Total backoff is at most 2^retries - 1 seconds, exactly that when every failure reaches the backoff step. |
| `RetryPolicy.SendBackoffBound` | common/telegram_client.py:98-101 | For any transport: at most retries sleeps, totalling at most 2^retries - 1 seconds. |
| `RetryPolicy.TwoFailuresThenSuccess` | common/telegram_client.py:69-103 | With retries = 2, two failures then a success give 3 POSTs and True. |
| `RetryPolicy.AlwaysFailing` | common/telegram_client.py:69-103 | With retries = 2 and a transport that always fails: 3 POSTs and False. |
| `RetryPolicy.HttpErrorRetriesWithoutPause` | common/telegram_client.py:72-101 | With retries = 1 and two HTTP 500 replies, the code makes 2 POSTs and sleeps nothing. The intended loop sleeps 1 second. |
| `RetryPolicy.HttpErrorsNeverPause` | common/telegram_client.py:69-101 | As written, when every reply has an HTTP error status, every remaining iteration POSTs, nothing is slept and the result is False, for any `retries`. |
| `RetryPolicy.AttemptsIntended` | common/telegram_client.py:98-101 | Corrected loop: same result and POSTs as the code. After attempt `attempt + j` it sleeps 2^(attempt+j), and there is one sleep between any two consecutive POSTs. |
| `RetryPolicy.IntendedAllFailBackoff` | common/telegram_client.py:98-101 | Corrected loop: when every attempt fails, the total backoff is 2^retries - 2^attempt seconds, which is 2^retries - 1 from the start. |
| `TextLines.Join` | scheduler/daily_telegram_sender.py:72 | Python's `"\n".join(parts)`. No contract of its own: its properties are the `SplitJoin` and `JoinSplit` rows. |
| `TextLines.SplitJoin` | scheduler/daily_telegram_sender.py:72 | Splitting on newlines undoes `"\n".join` of newline-free lines. |
| `TextLines.JoinSplit` | scheduler/daily_telegram_sender.py:72 | `"\n".join` undoes splitting on newlines. |
| `DailyTelegramSender.BuildDailyMessage` | scheduler/daily_telegram_sender.py:61-72 | `"\n".join([header, ""] + body)`, with the date label as an input. No contract of its own: its properties are the `DailyMessage*` and `DateLabelRoundTrip` rows. |
| `DailyTelegramSender.DailyMessageShape` | scheduler/daily_telegram_sender.py:61-72 | The message is `"[자동 알림] "`, then the date label, then a fixed tail. |
| `DailyTelegramSender.DailyMessageJoin` | scheduler/daily_telegram_sender.py:66-72 | The `""` element and the leading newline of the last body element make the message the newline-join of seven lines. |
| `DailyTelegramSender.DailyMessageLines` | scheduler/daily_telegram_sender.py:61-72 | For a newline-free label the message has exactly 7 lines: header `"[자동 알림] " + label + " 시장 링크"`, blank, heading, calendar link, central-banks link, blank, `#bot01 #daily`. |
| `DailyTelegramSender.DailyMessageEnd` | scheduler/daily_telegram_sender.py:70-72 | The message ends with `"\n\n#bot01 #daily"` and has no trailing newline. |
| `DailyTelegramSender.DateLabelRoundTrip` | scheduler/daily_telegram_sender.py:64-72 | The date label can be read back out of the message, so different labels give different messages. |
| `DailyTelegramSender.DailyMessageInjective` | scheduler/daily_telegram_sender.py:61-72 | Two labels give the same message iff they are equal. |
| `DailyTelegramSender.RunDailySend` | scheduler/daily_telegram_sender.py:75-83 | Sends the built message with timeout 10 and retries 1. That means at most 2 POSTs, each carrying that text and timeout, and either no sleep or one 1-second sleep. It succeeds iff the configuration is present and attempt 0 or 1 succeeds. |
| `DailyTelegramSender.TestMode` | scheduler/daily_telegram_sender.py:123 | Test mode is on iff SCHEDULER_TEST_MODE spells "true" in any mix of case. An absent variable means off. |
| `DailyTelegramSender.LowerIsTrue` | scheduler/daily_telegram_sender.py:123 | A string lowers to "true" iff it is "true" up to the case of its letters. |

## Findings

| source | as written | input that shows it | evidently intended | confidence | as-written member | corrected member |
|---|---|---|---|---|---|---|
| common/telegram_client.py:72-84 | An HTTP error status or a non-JSON body ends the iteration with `continue`, so the backoff at lines 98-101 is skipped and the next POST follows at once. | `retries=1` and a server answering HTTP 500 twice: 2 POSTs and no sleep at all. | A `2^attempt` second sleep after every failed attempt except the last, which totals `2^retries - 1` seconds when all attempts fail. The backoff at lines 98-101 comes after the try/except, so every failure was meant to reach it. The replies the `continue` skips (HTTP 429, 5xx) are exactly those a backoff exists for. | medium, not executed | `RetryPolicy.HttpErrorRetriesWithoutPause` | `RetryPolicy.AttemptsIntended` |

The corrected loop makes the same POSTs and gives the same result as the
code. Only its sleeps differ, as proved in `AttemptsIntended`'s
postcondition and `IntendedAllFailBackoff`. `SendTelegramMessage` and
`RunDailySend` model the code as written. So their sleep logs are those of
the code, and the retry-policy lemmas state the code's behaviour.

## Left out

- The HTTP call (`requests.post`), the timeout it enforces and JSON decoding
  are not modelled. They become the `transport` oracle of per-attempt
  outcomes. The timeout is only recorded in each logged POST.
- Classify: a reply whose JSON body is not an object (a list, say) would make
  `data.get` raise `AttributeError` out of `send_telegram_message`. The oracle
  offers only object bodies, which is what the Telegram Bot API returns.
- JSON numbers are modelled as reals. Python's truthy NaN has no counterpart.
- `time.sleep` is not modelled. Sleeps become the ghost `sleeps` log, in
  seconds.
- Logging is not modelled. This includes the error `_get_env_variable` logs
  for a missing variable and the success or failure lines of
  `run_daily_send`.
- `load_dotenv` is not modelled: the environment is an input map.
- RunDailySend: the source returns nothing and only logs the outcome. The
  model returns the sender's result so that the outcome can be stated.
- `strftime`, `datetime.now` and the Asia/Seoul time zone are not modelled.
  The date label is an input. The line-structure lemmas assume the label
  has no newline, which `"%Y-%m-%d (%a)"` never produces.
- LowerIsTrue: `str.lower()` is modelled on ASCII letters only. No
  non-ASCII character lowers to `t`, `r`, `u` or `e`, so the comparison with
  `"true"` comes out the same.
- `create_scheduler`, `scheduler.start`, `parse_args`, `--run-once`
  handling and `setup_logging` are not modelled. They are APScheduler, CLI and
  filesystem plumbing, and the cron/date triggers with
  `max_instances`/`coalesce` behave as that library defines. Only the
  test-mode flag that `main` computes is modelled.
- `main.py`, the Flask route, is not modelled. It does one unchecked POST and
  always answers `'OK'`.
- The default arguments `timeout=10` and `retries=1` of
  `send_telegram_message` (common/telegram_client.py:49) are not modelled:
  both are always parameters. The only caller here, `run_daily_send`, passes
  both explicitly, so no proved property depends on the defaults.
