# 3x-ui Fail2ban Manager — a Dafny model of its monitor core

`UserLimit-V3.py` watches the Fail2ban log. When Fail2ban bans an IP, the script looks up which
3x-ui user last connected from that IP, disables that user in the 3x-ui panel and force-disconnects
all sessions. When the IP is unbanned, it re-enables the user. This project models the sequential
core of the script and proves what it promises:

- `text.dfy` (module `Text`): the Python string operations the core relies on: `str.strip()` and
  `str.strip('[]')`, `str.split()[-1]`, `sub in s`, and splitting a file into lines at `'\n'`.
  Each comes with a lemma that characterises it.
- `access_log.dfy` (module `AccessLog`): `find_email_for_ip_in_log`. `FindEmailForIp` keeps the
  source's loop: it walks the log from its end one character at a time and rebuilds each line by
  prepending. It is proved equal to `EmailForIp`, which returns the email of the qualifying line
  nearest the end of the file, looking only at the lines that follow a `'\n'`. The file's first line
  is never examined (the loop stops at `position == -1` without testing what is left). The model
  keeps that behaviour as written, and `FirstLineNeverExamined` / `SingleLineLogFindsNothing`
  state it.
- `panel.dfy` (module `Panel`): `XUIApiClient`. The class `XuiApiClient` holds the two cache fields
  and a record of every request sent to the panel (`sent`). Each method is proved against a
  function of the old state (`ListedInbounds`, `Lookup`, `Disabling`, `Enabling`). The properties
  are lemmas about those functions: the freshness rule, what a failed fetch leaves behind, the one
  re-login after a 401, first-match lookup, the copy-and-override update, and the order of the
  side effects.
- `monitor.dfy` (module `Monitor`): one iteration of `monitor_log`'s loop. The class `BanMonitor`
  holds `processed_bans`, `banned_ip_to_email` and the API client. `HandleLine` is proved equal to
  the function `Handling`. The lemmas cover Ban/Unban priority, de-duplication, "map before
  login", pop semantics, and the Ban-then-Unban round trip.
- `wrappers.dfy` (module `Wrappers`): `Option`.

The panel's answer to each request is an input (`PanelReplies`: login, list, re-login after a
401, update, force-disconnect). Each answer is a `Reply`: a transport error, or a status with a
JSON body that may fail to parse. The two readings of `time.time()` in `_get_inbounds` are an input
(`Clock`). So are the formatted timestamp and the access log's content (`Event`); `None` stands
for a log that cannot be opened or read.

## Model

| member | source | states |
|---|---|---|
| `Text.TrimLeftIsSuffix` | UserLimit-V3.py:243 | what `lstrip` keeps is a suffix, everything dropped is in the strip set, and the result does not start with a strip character |
| `Text.TrimRightIsPrefix` | UserLimit-V3.py:243 | what `rstrip` keeps is a prefix, everything dropped is in the strip set, and the result does not end with a strip character |
| `Text.StripIsMiddle` | UserLimit-V3.py:243 | `strip(chars)` gives a middle slice of the input, with only strip characters around it and at neither end |
| `Text.TrailingWordIsMaximal` | UserLimit-V3.py:245-248 | the trailing word is a whitespace-free suffix that cannot be extended to the left |
| `Text.LastTokenIsLastRun` | UserLimit-V3.py:298 | `split()[-1]` is the last maximal run of non-whitespace, with only whitespace after it; it is empty exactly when the string is all whitespace |
| `Text.ContainsIff` | UserLimit-V3.py:244 | `sub in s` holds exactly when `sub` occurs at some index of `s` |
| `Text.ContainsChars` | UserLimit-V3.py:296 | every character of a contained substring occurs in the string |
| `Text.LinesAtNewline` | UserLimit-V3.py:239-254 | the lines of `a + "\n" + b` are the lines of `a` followed by the lines of `b` |
| `Text.JoinLinesOfLines` | UserLimit-V3.py:239-254 | joining the lines of a text with `'\n'` gives the text back |
| `Text.LinesOfJoinLines` | UserLimit-V3.py:239-254 | splitting a `'\n'`-join of newline-free lines gives those lines back |
| `Text.LinesOfLineFree` | UserLimit-V3.py:239-254 | a text without a newline is a single line |
| `AccessLog.FindEmailForIp` | UserLimit-V3.py:231-262 | the backwards scan (same loop, `position` from the file size down to -1, the line rebuilt by prepending) returns exactly `EmailForIp`: the email of the last qualifying line among the lines after the first, or `None` for an unreadable log or when no such line exists |
| `AccessLog.LastMatchIsLast` | UserLimit-V3.py:242-250 | the scan's answer is `None` exactly when no examined line qualifies; otherwise it is the email of a qualifying line after which no line qualifies |
| `AccessLog.LastMatchAppend` | UserLimit-V3.py:239-255 | a qualifying line nearer the end decides; the earlier lines matter only when the later ones have none |
| `AccessLog.QualifyingLineHasToken` | UserLimit-V3.py:245-251 | a line holding "accepted" always has a last token, so the `IndexError` handler is never reached |
| `AccessLog.FirstLineNeverExamined` | UserLimit-V3.py:239-242 | the answer for `first + "\n" + rest` depends only on the lines of `rest`: the first line is never tested |
| `AccessLog.SingleLineLogFindsNothing` | UserLimit-V3.py:239-262 | a log with no newline yields `None` even if its one line qualifies |
| `AccessLog.ScanPassesChar` | UserLimit-V3.py:253-254 | prepending a non-newline byte extends the line being rebuilt by that byte and leaves the completed lines after it unchanged |
| `AccessLog.ScanPassesNewline` | UserLimit-V3.py:242-252 | at a `'\n'` after a line that does not qualify, the rebuilt line is reset to empty and still no completed line qualifies |
| `AccessLog.ScanFindsLine` | UserLimit-V3.py:242-250 | at a `'\n'` after a qualifying line, that line's email is the answer for the whole log, as the early `return` makes it |
| `AccessLog.LinesAroundNewline` | UserLimit-V3.py:239-255 | the examined lines of a log split at a `'\n'` are the examined lines before it followed by every line after it |
| `Panel.CacheServedIffFresh` | UserLimit-V3.py:141-143 | `_get_inbounds` sends no request exactly when `now - cache_time < 60` and the cache is non-empty, and it then returns the cache unchanged |
| `Panel.EmptyCacheIsRefetched` | UserLimit-V3.py:142 | an empty cached list is always fetched again |
| `Panel.FetchSuccessRefreshesCache` | UserLimit-V3.py:144-150 | a successful fetch stores `obj` (default `[]`) and the second clock reading, and returns the stored list |
| `Panel.FetchFailureKeepsCache` | UserLimit-V3.py:151-160 | a failed fetch returns `None` and leaves both cache fields unchanged; a 401 adds exactly one login and the list is not fetched again |
| `Panel.CacheWindowScenario` | UserLimit-V3.py:141-150 | a list fetched at t=0 is reused at t=30 with no request and fetched again at t=61 |
| `Panel.FirstWithEmail` | UserLimit-V3.py:171-174 | returns the index of the first client whose `email` equals the argument, or `None` when no client has it |
| `Panel.Locate` | UserLimit-V3.py:162-178 | returns the first (inbound, client) position with that email, in inbound order then client order; inbounds whose settings failed to parse are skipped; `None` when nothing matches |
| `Panel.FindClient` | UserLimit-V3.py:162-178 | finds nothing exactly when no client matches; a match carries the email and its inbound's id |
| `Panel.FindClientTakesFirst` | UserLimit-V3.py:166-174 | when emails are duplicated, the earliest match wins |
| `Panel.WithEnable` | UserLimit-V3.py:182-184 | the submitted copy has the input's keys plus `enable`, `enable` set to the requested value, and every other field unchanged |
| `Panel.WithEnableLastWins` | UserLimit-V3.py:183-184 | overriding `enable` twice is overriding it once, to the second value |
| `Panel.WithEnableUnchangedIff` | UserLimit-V3.py:183-184 | the copy equals the input exactly when the input already had that `enable` value |
| `Panel.UpdateSettings` | UserLimit-V3.py:186-187 | the `settings` form field is `{"clients": [copy]}` and nothing else |
| `Panel.DisablingEffects` | UserLimit-V3.py:210-219 | no update and no disconnect when the lookup fails; the disconnect follows the update only when the update succeeded; success returns the client record as found (not the updated copy) with its inbound's remark |
| `Panel.DisablingIgnoresDisconnectReply` | UserLimit-V3.py:218-219 | what `disable_client` returns and sends does not depend on the force-disconnect's result |
| `Panel.LookupSendsOnlyListAndLogin` | UserLimit-V3.py:162-165 | the lookup only lists inbounds and, after a 401, logs in again |
| `Panel.EnablingNeverDisconnects` | UserLimit-V3.py:221-229 | `enable_client` never sends a force-disconnect |
| `Panel.EnablingResult` | UserLimit-V3.py:221-229 | `enable_client` sends exactly one update with `enable` true after a successful lookup, and returns the record as found exactly when that update succeeds |
| `Panel.XuiApiClient.constructor` | UserLimit-V3.py:115-124 | a new client has no cached list, cache time 0 and has sent nothing |
| `Panel.XuiApiClient.Login` | UserLimit-V3.py:126-139 | sends one login; succeeds on status 200 with a true `success` |
| `Panel.XuiApiClient.GetInbounds` | UserLimit-V3.py:141-160 | the returned list and the new cache, time and requests are those of `ListedInbounds` on the old state |
| `Panel.XuiApiClient.FindClientByEmail` | UserLimit-V3.py:162-178 | the result and new state are those of `Lookup`: `FindClient` over the listed inbounds |
| `Panel.XuiApiClient.UpdateClientStatus` | UserLimit-V3.py:180-193 | sends one update carrying the inbound id, the client's `id` and `UpdateSettings`; succeeds on status 200 with a true `success` |
| `Panel.XuiApiClient.ForceDisconnectAll` | UserLimit-V3.py:195-208 | sends one force-disconnect; succeeds on status 200 with a true `success` |
| `Panel.XuiApiClient.DisableClient` | UserLimit-V3.py:210-219 | result and new state are those of `Disabling` |
| `Panel.XuiApiClient.EnableClient` | UserLimit-V3.py:221-229 | result and new state are those of `Enabling` |
| `Monitor.BanTakesPriority` | UserLimit-V3.py:296-330 | a line with both "Ban" and "Unban" takes the Ban branch |
| `Monitor.ClassifiedLineHasIp` | UserLimit-V3.py:298 | a Ban or Unban line always has a last token, so `split()[-1]` cannot fail there |
| `Monitor.OtherLineChangesNothing` | UserLimit-V3.py:296-330 | a line with neither marker changes nothing, sends nothing and notifies nothing |
| `Monitor.ProcessedBansOnlyGrow` | UserLimit-V3.py:299-302 | handled ban keys are never forgotten, and a line adds at most its own key |
| `Monitor.HandledBanKeyIgnored` | UserLimit-V3.py:301 | a Ban whose `timestamp-ip` key was already handled changes nothing, sends nothing and notifies nothing |
| `Monitor.DuplicateBanHandledOnce` | UserLimit-V3.py:299-302 | the same Ban line at the same timestamp is handled at most once |
| `Monitor.BanRecordsMappingFirst` | UserLimit-V3.py:306-312 | a new Ban whose IP resolves to an email stores `ip -> email` and the key, then logs in, whatever the panel answers |
| `Monitor.UnresolvedBanOnlyRecordsKey` | UserLimit-V3.py:301-307 | a new Ban whose IP does not resolve (or resolves to "") only records its key |
| `Monitor.UnbanPopsMapping` | UserLimit-V3.py:330-337 | an Unban removes its IP from the map whatever the login or enable result |
| `Monitor.UnknownUnbanIgnored` | UserLimit-V3.py:337-355 | an Unban with no mapping makes no request and sends no notice |
| `Monitor.SecondUnbanFindsNothing` | UserLimit-V3.py:337 | a second Unban for the same IP finds nothing |
| `Monitor.BanThenUnbanRestoresEmail` | UserLimit-V3.py:296-355 | after a Ban stores `ip -> email`, an Unban of that IP re-enables exactly that email, notifies (if at all) about that email, and leaves the IP unmapped |
| `Monitor.HandleLineKeepsEmailsNonEmpty` | UserLimit-V3.py:307-309 | every stored email stays non-empty |
| `Monitor.BanMonitor.constructor` | UserLimit-V3.py:273-281 | the monitor starts with no handled keys and an empty map |
| `Monitor.BanMonitor.HandleLine` | UserLimit-V3.py:293-360 | the new collections, the client's new state and the notice are those of `Handling` on the old state |

## Left out

- The configuration wizard and `load_config`: interactive input, file writes and process exit.
- `send_telegram_message`: an HTTP call and URL encoding. The model returns the notice (`Notice`) that
  would be handed to it, not its Markdown text. Its branded footer is built but never sent.
- HTTP, `requests.Session`, TLS settings, URLs, cookies, timeouts and JSON encoding. Requests are
  recorded as `Request` values and replies are inputs. The model assumes the modern `requests`
  behaviour, where a 200 reply whose body is not JSON raises a request exception, so it counts as
  a failure.
- Login has no effect on later replies in the model, because the session cookie is not modelled.
- `time.time()`, `datetime.now()`, `time.sleep` and the tail/follow `readline` loop. One call
  handles one line. Times are exact reals, not floating point.
- UTF-8 decoding with `errors='ignore'`. The access log is modelled as characters.
- JSON values that are not plain data are not modelled: `obj` given as `null`, non-list settings.
  So are the exceptions the source does not catch: a settings object that is a JSON list, a client
  that is not an object, an inbound without `id`. Each would end the monitor.
- Printed status lines, the `KeyboardInterrupt` handler, and the unused `threading` import.
