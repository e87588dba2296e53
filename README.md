# Gmail Monitor — a Dafny model of its core

Gmail Monitor is a PyQt desktop application that watches several Gmail
accounts at once. For each registered account it fetches the ten most recent
messages and shows them as rows of "sender / subject / date / snippet". The
rows can be filtered with a case-insensitive search. A dashboard shows the
total message count, one unread-count label per account and the subjects of
each account's five most recent messages. A few settings are kept: dark mode,
font size, refresh interval, emails to display, notifications and theme
colour. The refresh interval drives a timer that re-fetches everything.

This project models that logic in Dafny and proves what it promises.

- `util.dfy` (`Util`): `Option` and duplicate-free sequences.
- `provider.dfy` (`Provider`): the Gmail service as data. A `Service` holds
  - the responses to the four `messages().list` calls the application makes;
  - a map from id to message, giving what `messages().get` returns. An id
    missing from the map is a `get` that raises.

  `Fetched` is the loop "get each listed message until one raises", the
  `for message in messages` loop with its `get` of main.py:33-34.
- `headers.dfy` (`Headers`): the first-match header lookup with its
  defaults. `Lookup` is the `next((h['value'] for h in ... if h['name'] == key), default)`
  expression of main.py:35-37. `Subject`, `Sender` and `Date` are its three uses.
- `fetcher.dfy` (`Fetcher`): `EmailFetcherThread.run`. `Emitted` is the
  specification of what one run emits (main.py:29-39), one `Summarize` per
  `email_fetched.emit` of main.py:39. `Run` is the loop, proved equal to it.
- `display.dfy` (`Display`): the list row, `CustomListWidgetItem`, and its
  four-line text. `Item.Text` is the f-string of main.py:49. `Lower` is
  `str.lower()` over ASCII. `Contains` is Python's `in` on strings.
  `Matches` is the test `query in item.text().lower()` of main.py:432-435.
- `dashboard.dfy` (`Dashboard`): `update_dashboard`. `Total` is the sum of
  main.py:109-114. `Upsert` is the find-or-add label step of main.py:121-127,
  and `Relabelled` repeats it over the accounts. `Important` is the refill of
  main.py:131-139. The file also holds the class `DashboardWidget`.
- `app.dfy` (`App`): the class `GmailMonitor`, the main window reduced to its
  state:
  - the account registry and the rows of the account list;
  - the two text inputs;
  - the email rows;
  - the dashboard;
  - the settings and the timer period.

  Its methods are `add_account`, `fetch_emails`, `add_email_to_list`,
  `search_emails`, `refresh_emails` and the settings handlers. `Refreshed`
  is the email list the loop of main.py:467-469 builds. `add_account` has
  two models: `AddAccountAsWritten` models the code as written and
  `AddAccount` models the intended behaviour (see "## Findings").

Every provider answer an operation depends on is a parameter of that
operation: a `Service`, or a `Mailboxes` value mapping each client handle to
its `Service`. Fetching is synchronous, so one fetch's emissions are appended
as it runs. In this synchronous model each account's rows after a refresh are
exactly those of its own fetch (`RefreshedRowsOf`), and the accounts' rows come
one block after another, in registry order. The program fetches each account on
its own thread and only delivers one thread's emissions in order. It promises
neither the registry order nor the per-account view (see "## Left out"). A Python dict iterates in insertion order. Accounts are only
ever added, and the model appends to `accountList` in the same step as it
inserts into `accounts`. So `accountList` is the order in which
`accounts.items()` visits the accounts.

## Model

| member | source | states |
|---|---|---|
| Provider.FetchedSpec | main.py:32-34 | The get loop retrieves one message per listed reference, in order, each being that get's answer. It stops early exactly at the first get that raises, and it reaches the end iff every get succeeds. |
| Headers.LookupFirst | main.py:35-37 | `next(... if h['name'] == key ..., default)` gives the value of the first header whose name equals the key exactly, or the default when no header has that name. |
| Headers.FirstNamedExists | main.py:35-37 | When some header has the name, exactly one header is the first such header. |
| Headers.LookupIgnoresLater | main.py:35-37 | Headers after the first match never change the result. |
| Headers.LookupSkipsOthers | main.py:35-37 | Headers with other names in front of the first match are skipped. |
| Headers.MessageFields | main.py:35-37 | Subject, sender and date are the first "Subject", "From" and "Date" headers. The defaults are "No Subject", "Unknown" and "". |
| Fetcher.EmittedSpec | main.py:29-39 | A run emits the summaries of the listed messages in listing order, each built from its get's answer. It stops only at a get that raises. |
| Fetcher.Run | main.py:29-39 | The fetch loop emits exactly `Emitted`. |
| Fetcher.EmittedInListingOrder | main.py:32-39 | When every get succeeds, there is exactly one summary per listed message, in listing order. |
| Fetcher.EmittedTagged | main.py:39 | Every emitted summary carries the fetching account's name. |
| Fetcher.NoMessagesKeyEmitsNothing | main.py:30-31 | A list response without a `messages` key yields no emission. |
| Fetcher.EmittedWithinFetchLimit | main.py:30 | When the service honours `maxResults=10`, a run emits at most ten summaries. |
| Display.TextRoundTrip | main.py:49 | The four fields can be read back from the text `sender\nsubject\ndate\nsnippet` when sender, subject and date hold no line break. |
| Display.TextInjective | main.py:49 | Two rows with the same text have the same four fields, under the same condition. |
| Display.Contains | main.py:435 | `q in t` holds iff q occurs in t at some position. |
| Display.EmptyQueryMatches | main.py:432-436 | An empty query matches every row, so the search unhides every row. |
| Display.ExactOccurrenceMatches | main.py:432-435 | A query that occurs with its exact case also passes the case-insensitive test. |
| Display.QueryCaseIrrelevant | main.py:432 | Lowering the query before searching does not change which rows match. |
| Dashboard.TotalAppend | main.py:109-114 | The total over two runs of accounts is the sum of their totals. |
| Dashboard.TotalPermutation | main.py:109-114 | The total over all accounts (each `resultSizeEstimate`, 0 when absent) does not depend on the visiting order. |
| Dashboard.FindLabel | main.py:121 | `findChild` finds the first label with the account's name, or none. |
| Dashboard.UpsertSpec | main.py:121-127 | After one upsert the account's label shows the new count. Every other label stays in place. A label is appended iff the account had none, so labels stay one per account. |
| Dashboard.UpsertKeepsOthers | main.py:121-127 | An upsert neither moves nor changes another account's label. |
| Dashboard.RelabelledDistinct | main.py:110-127 | The counting loop keeps labels one per account. |
| Dashboard.RelabelledCounts | main.py:110-127 | After the loop, each visited account's label holds that account's unread count. |
| Dashboard.RelabelledKeepsAccounts | main.py:110-127 | Visiting only accounts that already have labels adds no label. |
| Dashboard.RelabelledFollowsOrder | main.py:110-127 | New labels are added in visiting order. When the labels name a prefix of the accounts, afterwards they name all of them. |
| Dashboard.RelabelledInOrder | main.py:110-127 | When the labels follow the accounts, label i shows account i's unread count. |
| Dashboard.ImportantComplete | main.py:131-139 | The refill reaches the end iff every get for every account succeeds. It then holds one entry per listed message of every account. |
| Dashboard.ImportantStops | main.py:131-139 | Once a get raises, later accounts add nothing: the update ends there. |
| Dashboard.ImportantBounded | main.py:133-135 | When every visited service honours `maxResults=5`, the important list holds at most five entries per visited account. |
| Dashboard.RecentSubjects | main.py:133-139 | The inner loop yields "account: subject" for the five most recent messages in listing order. It also reports whether every get succeeded. |
| Dashboard.DashboardWidget.constructor | main.py:59-78 | A new dashboard has total 0, no unread labels and an empty important list. |
| Dashboard.DashboardWidget.Update | main.py:108-139 | After `update_dashboard`, the total is the sum of the estimates, the labels are upserted in visiting order and the important list is refilled. Labels stay one per account. |
| Dashboard.DashboardWidget.Count | main.py:109-129 | The counting loop accumulates the total and upserts each unread label. |
| Dashboard.DashboardWidget.RefillImportant | main.py:131-139 | The important list is cleared, then refilled account by account until a get raises. |
| App.Services | main.py:110 | `accounts.items()` pairs each registered account with its service. |
| App.RefreshedRowsOf | main.py:466-470 | In the synchronous model, after a refresh, each registered account's rows are exactly the rows of its own fetch, in emission order. Other names have no rows. |
| App.GmailMonitor.constructor | main.py:150-170 | The starting state has no accounts, no rows and empty inputs. The settings are dark mode off, font size 10, interval 5, 10 emails, notifications on and colour "#1a73e8". The timer period is 300000 ms. |
| App.GmailMonitor.SetAccountInput | main.py:206-207 | The user's edit of the account name line sets the text `add_account` reads. |
| App.GmailMonitor.SetSearchInput | main.py:230-231 | The user's edit of the search line sets the text `search_emails` reads. Rows are not filtered until the search runs. |
| App.GmailMonitor.AddEmailToList | main.py:427-429 | Exactly one visible row is appended, built from the emission. Earlier rows are unchanged. |
| App.GmailMonitor.FetchEmails | main.py:422-425 | One row per emission of the account's fetch is appended, in emission order. |
| App.GmailMonitor.UpdateDashboard | main.py:418 | The dashboard shows the total summed over all accounts, each account's unread count and the recent subjects. Labels follow the account rows, one per account. |
| App.GmailMonitor.Register | main.py:402-415 | The intended behaviour (see "## Findings"): accepting a name adds exactly that key and that account row, and clears the input. |
| App.GmailMonitor.Admit | main.py:402-418 | The intended behaviour (see "## Findings"): the accepted path registers the account, appends its fetched rows and recomputes the dashboard. |
| App.GmailMonitor.AddAccount | main.py:380-420 | The intended behaviour (see "## Findings"). The warning is shown iff the name is empty or already registered, and then nothing changes. Otherwise the registry gains exactly that key, the input is cleared, the account's rows are appended and the dashboard is recomputed. |
| App.AddTwiceAsWrittenDuplicates | main.py:403-407 | As written, one accepted add lists a name the registry lacks. Adding the same name again lists it twice, so the account rows are no longer duplicate-free. |
| App.GmailMonitor.AddAccountAsWritten | main.py:380-407 | As written, the warning is shown iff the name is empty or already registered. Otherwise only the account row is added before the animation raises. Registry, input, email rows and dashboard stay as they were. |
| App.GmailMonitor.SearchEmails | main.py:431-438 | Length, order and row contents are kept. Row i is hidden iff its lowered text does not contain the lowered query. |
| App.GmailMonitor.FetchAll | main.py:467-469 | The email list is cleared, then every account is fetched in registry order. |
| App.GmailMonitor.RefreshEmails | main.py:466-470 | The list becomes the fresh fetch of every account and the dashboard is recomputed. Registry, inputs and settings are unchanged. |
| App.GmailMonitor.ToggleDarkMode | main.py:440-442 | Dark mode is on iff the checkbox state is Checked (2). |
| App.GmailMonitor.ChangeFontSize | main.py:444-446 | The font size becomes the chosen size. |
| App.GmailMonitor.ChangeRefreshInterval | main.py:448-450 | The interval is stored and the timer period becomes interval × 60 × 1000 ms. No refresh happens. |
| App.GmailMonitor.ChangeEmailsToDisplay | main.py:452-454 | The count is stored and a full refresh follows. The registry, both inputs and the timer are unchanged. The count does not affect the fetch size. |
| App.GmailMonitor.ToggleNotifications | main.py:456-457 | Notifications are on iff the checkbox state is Checked (2). |
| App.GmailMonitor.ChangeThemeColor | main.py:459-464 | The colour is taken from the dialog only when the dialog returns a valid colour. |

## Left out

- OAuth flow, pickle token files and credential refresh (main.py:383-400) are file I/O and foreign library calls. `AddAccount` receives the resulting client handle as a parameter.
- The Gmail API calls themselves are not modelled; their responses are data (`Service`). Responses are assumed to have the shape the code reads with subscripts: `message['id']`, `msg['payload']['headers']`, `h['name']`, `h['value']` and `msg['snippet']`. A missing key, which raises `KeyError`, is not modelled. A `messages().list` call that raises is not modelled. Only `messages().get` failures are, as an id missing from the service's message map.
- Threads and signals are not modelled: `QThread`, `pyqtSignal` delivery, the overwriting of `self.thread` and the interleaving of different accounts' emissions. Fetching is synchronous.
- The program does not cancel a running fetch. `email_list.clear()` in `refresh_emails` (main.py:467) leaves a fetch from an earlier `add_account`, timer tick or emails-to-display change running, and its queued emissions arrive after the clear. Overlapping refreshes can therefore duplicate or mix an account's rows. When `refresh_emails` returns, the program's list is still empty, and the rows arrive later through the event loop. The model's refresh completes every fetch before it returns.
- GmailMonitor.FetchAll, GmailMonitor.RefreshEmails and GmailMonitor.ChangeEmailsToDisplay state the list as `Refreshed`: one block of rows per account, in registry order. The program starts one thread per account and does not promise that order. The per-account view proved by `RefreshedRowsOf` also holds only in the synchronous model, as the line above explains. Likewise, `AddAccount` appends the new account's rows after all earlier rows.
- An uncaught exception is not modelled at the process level. A `get` that raises is not caught in `run`, `update_dashboard`, `add_account` or `refresh_emails`. By PyQt's default, an exception that escapes a thread's `run` or a slot aborts the process. The model keeps the state reached before the raise: the fetched prefix, and the dashboard's partial important list with `complete` false.
- Each operation sees one snapshot of the provider's answers (`Mailboxes`). Mailbox changes during an operation are not represented.
- Widget construction, layout, stylesheets (`apply_styles`) and SVG icons are UI only. The add-account animation is not UI only: as written it raises (see "## Findings"). Its size-hint effect is not modelled.
- The activity chart (main.py:80-106, 141-147) holds placeholder float data.
- The model assumes the chart module imports. main.py:11 imports `PyQt6.QtChart`, but PyQt6's chart bindings are named `PyQt6.QtCharts`. As written, the import fails before any window exists.
- `QColorDialog` is a foreign call; its answer is the `picked` parameter of `ChangeThemeColor`.
- `str.lower()` is modelled over ASCII letters only; Unicode case mapping is not modelled.
- `ChangeRefreshInterval`: the timer period is an unbounded integer. The C `int` taken by `QTimer.setInterval` is not modelled.
- The dashboard's `findChild` searches by object name. The model keeps labels in a sequence and looks them up by account.
- `emails_to_display` is stored but, as in the source, does not change how many messages a fetch asks for.

## Findings

| source | as written | input that shows it | evidently intended | confidence | as-written member | corrected member |
|---|---|---|---|---|---|---|
| main.py:407 | `QPropertyAnimation(new_item, b"sizeHint")` passes a `QListWidgetItem`, which is not a `QObject`, so the call raises `TypeError`. That happens after the account row is added (main.py:405) and before the registry, input, fetch and dashboard steps (main.py:414-418). By PyQt's default the process aborts. If it survives, the same name passes the guard again and is listed twice. | any new, non-empty account name, e.g. "a" with an empty registry | register the account, clear the input, fetch its emails and update the dashboard, keeping the account rows duplicate-free and in step with the registry | not executed; rests on `QListWidgetItem` not deriving from `QObject` in PyQt6 | App.GmailMonitor.AddAccountAsWritten, App.AddTwiceAsWrittenDuplicates | App.GmailMonitor.AddAccount |
