# scrape-wayback-machine: a verified model of `fetch.py`

`fetch.py` reads a file of Wayback Machine URLs (or bare queries), one per
line. For each query found, it asks the Wayback Machine's search API for two
lists: anchors (known links) and hosts (suggested domains). It then writes all
anchors and hosts, one per line, to a file or to standard output. Requests can
carry a user agent taken from a list and a proxy taken in turn from a proxy
list.

This project models the sequential core of that program in Dafny and proves
what it does:

- `Text`: the string operations the program relies on:
  - `str.rstrip` with Python's whitespace set;
  - `posixpath.basename`;
  - ASCII percent-decoding (`unquote`), with an encoder that it inverts;
  - substring search;
  - `'\n'.join` and `split('\n')`.
- `Loading`: the `while True: readline` loops.
  - The URL file becomes the query list `queries` and the index `query_urls`, which maps each query to its raw line.
  - The user-agent and proxy files become plain lists.
  - Also here: the single-proxy fallback and the worker-count clamp.
- `Dispatch`: the task list. There is one task per query. User agents are popped from the end of the list, and every task shares one proxy list.
- `Executor`: what `task_runner` computes for one task, written as functions:
  - the request options (the `User-agent` header and the proxy mapping);
  - the requests sent;
  - the proxy-cursor step;
  - the result dictionary, built from the two replies.
- `Aggregation`: the result loop. It fills `json_obj`, `object_lines` and the error lines, and forms the saved text.
- `Wayback`: the `fetch_wayback_machine` object as class `Fetcher`.
  - Its `_proxy_index` field is initialised to -1.
  - `TaskRunner` is `task_runner`: an imperative method that advances the cursor and builds the result key by key, returning early on an anchor error. It is proved equal to `Executor.Execute`.
  - `Run` is the core of `run`. It composes the loading loops, the clamp, the task builder, the tasks run in submission order, the aggregation and the output text.

The model treats the outside world as inputs and outputs:

- Files are given as their sequences of lines. A `readline` past the last line yields the empty string, which ends every loop.
- Each HTTP request with its JSON decoding is replaced by a `Reply`: `Failed(message)`, `Interrupted`, or `Ok(body)`.
  - An anchor body is a JSON `null` or an array of objects, each with an optional `link`.
  - A host body is `null` or an object whose `hosts` key is optional and holds objects with an optional `display_name`.
  - In `Run`, task `i` receives the replies `anchorNet(i)` and `hostNet(i)`.
- Outputs are returned, not printed:
  - the saved text;
  - the error lines (`<raw line> ended with an error: <message>`);
  - `json_obj`;
  - the requests each task sent.

Details of the code the model keeps, where a reader might expect otherwise:

- A line that is only whitespace also ends the URL file, not just an empty line, because the line is right-stripped before the test.
- The cursor is reset to 0 once it reaches the list length, rather than reduced modulo it. For a cursor within the list the two agree (`Executor.Advance`).
- `json_obj` is keyed by `query_urls[res['query']]`. So when two raw lines yield the same query, both results are stored under the later line, and the earlier raw line never becomes a key (`Aggregation.LastResultWins` with `Loading.LastWriteWins`).
- The early return on an empty `json_obj` (fetch.py:213-214) cannot happen once a query was loaded: `Run` proves that `json_obj` then has a key. Only an interrupt or exception in the top-level loop, which is not modelled, could reach it.

## Model

| member | source | states |
|---|---|---|
| `Text.StrippedLength` | fetch.py:137 | the length `rstrip` keeps: every character after it is whitespace (Python's `str.isspace` set) and the one before it is not |
| `Text.RFind` | fetch.py:140 | the position of the last occurrence of a character, or -1; no occurrence lies after it |
| `Text.BasenameIsLastSegment` | fetch.py:140 | `basename` is a suffix without `/` that is either the whole text or preceded by `/`, i.e. the text after the last `/` |
| `Text.BasenameAfterSlash` | fetch.py:140 | the last segment of `a/b` is `b` when `b` has no `/` |
| `Text.BasenameWithoutSlash` | fetch.py:140 | a text without `/` is its own last segment |
| `Text.Contains` | fetch.py:99 | Python's `in` on strings: true exactly when the pattern occurs at some position |
| `Text.UnquoteQuote` | fetch.py:138 | percent-decoding undoes percent-encoding of any text |
| `Text.UnquoteWithoutPercent` | fetch.py:138 | a line without `%` decodes to itself |
| `Text.UnquotePlain` | fetch.py:138 | a `%`-free prefix passes through decoding unchanged |
| `Text.QuoteLast` | fetch.py:137 | an encoded text that did not end in whitespace does not end in whitespace, so `rstrip` keeps it whole |
| `Text.RStripKeeps` | fetch.py:137 | a text not ending in whitespace is unchanged by `rstrip` |
| `Text.SplitJoin` | fetch.py:219 | `'\n'.join` is undone by splitting at newlines when no line contains a newline |
| `Text.JoinAppendEmpty` | fetch.py:219 | joining one more empty line appends a newline |
| `Loading.StopAtFirstEnd` | fetch.py:136-139 | reading stops exactly at the first line that is empty after right-stripping and decoding, or at the end of the file |
| `Loading.LoadQueries` | fetch.py:133-144 | after the loop, `queries` and `query_urls` are the in-order fold of the lines read before the stopping line: a line adds the right-stripped last segment of its decoded form, when that segment is non-empty, and maps it to the right-stripped raw line |
| `Loading.QueriesAppend` | fetch.py:142-143 | queries of consecutive lines concatenate: order and duplicates are kept |
| `Loading.IndexKeysAreQueries` | fetch.py:142-144 | a query is a key of `query_urls` exactly when it is in `queries`, so the lookups at fetch.py:190 and fetch.py:200 cannot fail |
| `Loading.QueriesComeFromEntries` | fetch.py:140-143 | a query is stored exactly when some line read yields it |
| `Loading.LastWriteWins` | fetch.py:144 | for a duplicated query, `query_urls` holds the raw line of the last entry yielding it |
| `Loading.LastLineWins` | fetch.py:137-144 | the same on the file's lines: a query maps to the right-stripped last line read that yields it |
| `Loading.EncodedQueryLine` | fetch.py:137-143 | a line `prefix/` followed by the percent-encoded query (`…/dog%20and%20cat`) does not end the input and yields exactly that query, recorded under the whole line |
| `Loading.BareQueryLine` | fetch.py:137-143 | a bare query line without `%` or `/` (`dog and cat`) yields itself |
| `Loading.ListedStopsAtEmptyLine` | fetch.py:155-158 | the loaded list holds the right-stripped lines, none empty, up to the first line that is empty after right-stripping |
| `Loading.LoadList` | fetch.py:153-158 | the user-agent loop (and the identical proxy loop at fetch.py:169-174) returns the list `Listed` of the file's lines |
| `Loading.ChooseProxies` | fetch.py:176-177 | the proxy file's list when non-empty; otherwise the single `-p` proxy when it is set and non-empty; otherwise no proxies |
| `Loading.EffectiveWorkers` | fetch.py:164 | a positive worker count is kept, any other becomes 1 |
| `Dispatch.BuildTasks` | fetch.py:188 | one task per query in query order, all sharing the proxy list; task `k` gets an agent exactly when `k` is below the number of agents, and then the agent `k` places from the end |
| `Dispatch.AgentsHandedOut` | fetch.py:188 | exactly `min(#queries, #agents)` tasks carry an agent |
| `Executor.Links` | fetch.py:107 | `[x['link'] for x in objects]`: fails exactly when some object has no `link`, otherwise lists the links in order |
| `Executor.DisplayNames` | fetch.py:120 | `[x['display_name'] for x in objects['hosts']]`: fails exactly when some object has no `display_name`, otherwise lists the names in order |
| `Executor.Execute` | fetch.py:101-126 | the result always holds the query. `error` is set exactly when the anchor request fails (its message) or an anchor lacks `link` (`'link'`), and then there are no anchors and no hosts. A null or empty anchor body gives `anchors = []`, otherwise the links in order. An interrupt in the anchor phase leaves only the query. `hosts` is set exactly when hosts are not excluded, the anchor phase succeeded and the reply has a non-empty `hosts` array whose objects all have `display_name`; it then lists the names in order |
| `Executor.ProxyKey` | fetch.py:99 | the proxy scheme key is `https` when the proxy contains `https://` at some position, otherwise `http` |
| `Executor.Options` | fetch.py:89-99 | the only header is `User-agent`, present exactly when the agent is set and non-empty, with that agent; a chosen proxy gives exactly one proxy entry, under its scheme key; no proxy gives no proxy mapping |
| `Executor.Requests` | fetch.py:85-116 | the anchor search URL is always requested first; the host search URL is requested second exactly when hosts are not excluded and the anchor phase succeeded; both use the same options |
| `Executor.Advance` | fetch.py:93-96 | from a cursor of at least -1 the step lands in `[0, n)`, and for a cursor below `n` it is `(cursor + 1) mod n` |
| `Executor.Cursor` | fetch.py:92-96 | after at least one step from a cursor of at least -1, the cursor indexes the proxy list |
| `Executor.FirstRound` | fetch.py:34 | from the initial -1, the first `n` tasks select proxies 0, 1, …, n-1 |
| `Executor.Periodic` | fetch.py:92-98 | the selection repeats with period `n`: after proxy n-1 comes proxy 0 again |
| `Executor.ZeroTwice` | fetch.py:92-98 | `n + 1` consecutive selections from the start visit proxy 0 exactly twice |
| `Aggregation.Aggregate` | fetch.py:189-207 | the loop leaves `json_obj`, `object_lines` and the error lines equal to the in-order folds `JsonObj`, `ObjectLines` and `ErrorLines` of the results |
| `Aggregation.AppendLines` | fetch.py:201-207 | a result without error adds its anchors, then its hosts |
| `Aggregation.Extend` | fetch.py:204 | `for x in items: lines.append(x)` appends all the items, in order (also the host loop at fetch.py:207) |
| `Aggregation.ObjectLinesAppend` | fetch.py:201-207 | the lines of consecutive batches of results concatenate, preserving submission order |
| `Aggregation.LineOrigin` | fetch.py:194-207 | a line is saved exactly when some result without an error lists it among its anchors or hosts |
| `Aggregation.ErrorsAddNothing` | fetch.py:194-200 | dropping every result with an error leaves the saved lines unchanged |
| `Aggregation.EveryResultRecorded` | fetch.py:190 | the keys of `json_obj` are exactly the raw lines of the results' queries |
| `Aggregation.LastResultWins` | fetch.py:190 | a raw line maps to the last result recorded under it |
| `Aggregation.FlattenExample` | fetch.py:203-207 | a result with anchors `a`, `b` and hosts `c` flattens to `a`, `b`, `c` |
| `Aggregation.NetworkErrorExample` | fetch.py:194-200 | a failed anchor request gives no saved line and exactly one error line naming the raw line and the message |
| `Aggregation.ScenarioExample` | fetch.py:101-126 | one anchor object with link `x` and a host reply with host `y` give the saved lines `x`, `y` |
| `Aggregation.OutputRoundTrip` | fetch.py:219 | the saved text, split at newlines, gives back the lines followed by the empty piece after the final newline (a single newline when there are no lines) |
| `Wayback.Fetcher.constructor` | fetch.py:32-34 | the proxy cursor starts at -1 |
| `Wayback.Fetcher.RequestKwargs` | fetch.py:89-99 | the options are `Options` of the agent and the proxy now under the cursor. With proxies the cursor takes one `Advance` step; without proxies it is unchanged |
| `Wayback.Fetcher.TaskRunner` | fetch.py:81-126 | the result is `Execute` of the task's query and the replies; the requests sent are `Requests`; the cursor moves as in `RequestKwargs` and never drops below -1 |
| `Wayback.Fetcher.RunTasks` | fetch.py:189 | the tasks run in submission order. Result `i` is `Execute` of task `i`, and task `i` uses the proxy of rotation step `i + 1` from the starting cursor |
| `Wayback.Fetcher.Run` | fetch.py:128-219 | no loaded query means no task and no request, with the cursor unchanged. Otherwise: the worker clamp; the tasks of `BuildTasks` over the loaded queries, agents and proxies; the results and requests of `RunTasks`; a non-empty `json_obj`; and the text and error lines of the aggregation |

## Left out

- Argument parsing and file-path validation (fetch.py:40-75) are argparse and operating-system checks; the options arrive as parameters of `Run`.
- File reading is modelled through the lines it yields. Writing the output file, `realpath`, and printing to standard output, to standard error or to the error log (fetch.py:147, fetch.py:195-200, fetch.py:216-226) are modelled as returned values. This includes the fallback print after a failed save. The text printed when no save path is given equals `OutputText`, because `print` appends the final newline.
- `requests.get` and `r.json()` are a foreign library and the network. Their outcomes are the `Reply` inputs. JSON shapes beyond those described above are not modelled: non-object array entries, non-string links and non-list `hosts`.
- How `requests` applies the proxy mapping is not modelled. The mapping is recorded as it is built. `requests` picks a proxy by the scheme of the requested URL, and both endpoints are `http://`. So a proxy registered under `https` (one whose text contains `https://`) is not applied to these requests.
- The thread pool (fetch.py:179-189) and the unsynchronised update of `_proxy_index` from several threads are not modelled. Tasks run one after another in submission order. The worker count is computed and returned but schedules nothing.
- `shuffle(user_agents)` (fetch.py:160-161) is randomness: the agent list is taken in an arbitrary given order.
- `KeyboardInterrupt` appears only as the `Interrupted` reply of a request. An interrupt in the host phase ends the task like a host failure. The top-level interrupt and the `Caught exception` handler (fetch.py:208-211) are not modelled.
- `Text.Unquote`: decodes only `%XX` escapes naming an ASCII character. Python decodes the other escapes as UTF-8, with replacement characters; here they stay as written.
- `Loading.EffectiveWorkers`: the worker count is an integer input. Without `-m`, `int(None)` at fetch.py:164 raises, and that case is not modelled.
- The `if not res` branch (fetch.py:192) is dead, because every result holds its query.
