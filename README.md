# Configuration manager and task handlers of a Redis-backed Celery demo

The repository is a set of demonstration scripts around a third-party task
queue (Celery) and a Redis-compatible store. Queueing, workers, retries and the
result store belong to those libraries. The repository's own logic is small.
This project models the parts below; "## Left out" lists the rest:

- **The configuration manager** (`config_manager.py`). The configuration is a
  nested JSON document with the sections `redis`, `celery` and `flower`. It is
  either the parsed configuration file or a built-in default. From it the
  manager derives:
  - the three sections, each defaulting to `{}`;
  - the broker URL: a configured `celery.broker_url` is returned as it is,
    whatever its value. Otherwise the URL is `redis://[:password@]host:port/db`,
    built from the `redis` section with the defaults `localhost`, `6379` and `0`;
  - the result-backend URL: a configured `celery.result_backend`, or else the
    broker URL;
  - the keyword arguments for the Redis client.

  The configuration is modelled as a JSON value (`PyValue.Value`). The Python
  operations applied to it are `d.get(k, default)`, `k in c`, `c[k]`,
  truthiness and `str()`. Each is modelled with the error Python raises when
  the value has the wrong kind, so a malformed configuration file is an input
  like any other.
  Two tests behave differently and the model keeps the difference:
  - `'broker_url' in celery` tests whether the key is present;
  - `if password:` tests truthiness, so `None`, `""`, `0` and `False` count as
    no password.
- **The task handler bodies** (`tasks.py`), without the Celery decorators:
  - `add` and `multiply` on unbounded integers;
  - `process_list` (the numbers, their sum, their count and their average);
  - `generate_random_numbers`, where each value is an arbitrary choice
    in [1, 100];
  - `long_running_task`, as a method that appends one PROGRESS state
    update per step to a trace and then returns its completion record.

The URL text has a partner, `RedisUrl.Parse`, a reader written for this model.
It splits at the first `@`, then the first `/`, then the first `:`. Reading a
URL written from well-formed parts (`RedisUrl.WellFormed`) gives back those
parts, and writing the parts of a URL that reads gives back the URL. Parts that
are not well-formed are written unchecked and may read back differently.
"Reads back" below always means this reader. Libraries that parse URLs
differently may read the same text otherwise (see "## Left out").

The decimal text of integers (`Decimal.IntToDecimal`, Python's `str(int)`) has
`Decimal.ParseInt` as a left inverse: `ParseInt(IntToDecimal(i)) == Some(i)`.
The converse does not hold, because `ParseInt` also accepts text such as `007`
and `-0`, which `IntToDecimal` never writes.

The code holds no queue, worker or result-store logic of its own.

Files: `wrappers.dfy` (Option, Result), `strings.dfy` (first index of a
separator), `pyvalue.dfy`, `decimal.dfy`,
`redis_url.dfy`, `config.dfy`, `config_properties.dfy`, `tasks.dfy`.

## Model

| member | source | states |
|---|---|---|
| `Config.DefaultConfig` | config_manager.py:36-71 | the default has exactly the sections redis, celery and flower, and its broker_url and result_backend are the same literal |
| `Config.ConfigManager.constructor` | config_manager.py:17-34 | the configuration is the parsed file when loading succeeded, and the default when the file is missing or fails to load |
| `Config.ConfigManager.GetRedisConfig` | config_manager.py:73-75 | the `redis` section when present, `{}` when absent, AttributeError when the document is not an object |
| `Config.ConfigManager.GetCeleryConfig` | config_manager.py:77-79 | the `celery` section when present, `{}` when absent, AttributeError when the document is not an object |
| `Config.ConfigManager.GetFlowerConfig` | config_manager.py:81-83 | the `flower` section when present, `{}` when absent, AttributeError when the document is not an object |
| `Config.SectionAddress` | config_manager.py:141-147 | host, port and db are the section's values or the defaults localhost/6379/0, as text; the password part is present exactly when the password is truthy |
| `Config.RedisSectionUrl` | config_manager.py:141-150 | the URL built from the redis section is the URL text of SectionAddress, and it fails exactly when that does |
| `Config.ConfigManager.GetBrokerUrl` | config_manager.py:133-150 | a present broker_url is returned unchanged, even if it is empty; otherwise the URL is built from the redis section. The error for each malformed section: AttributeError for a non-object document or redis section; TypeError for a celery section that is None, a bool or an int, and for a string or list celery section that `in` reports as holding the key |
| `Config.ConfigManager.GetResultBackendUrl` | config_manager.py:152-160 | a present result_backend is returned unchanged; a string or list celery section that `in` reports as holding the key gives TypeError; otherwise the result equals the broker URL |
| `Config.ConfigManager.ConnectionParams` | config_manager.py:89-111 | the key set is the eight base keys, plus `password` exactly when the password is truthy, plus `ssl`/`ssl_cert_reqs` exactly when ssl is truthy; each value and default (localhost, 6379, 0, True, 5, 5, True, 20); which errors escape and which are reported |
| `Config.BaseParams` | config_manager.py:93-102 | exactly the eight base keys, each the configured value or its default (localhost, 6379, 0, True, 5, 5, True, 20) |
| `ConfigProperties.DefaultsWhenKeysMissing` | config_manager.py:142-150 | with no host, port, db or password key, the URL is exactly `redis://localhost:6379/0` |
| `ConfigProperties.SectionUrlReadsBack` | config_manager.py:141-150 | when the section's parts are well-formed, the built URL reads back as those parts, and it carries a password exactly when the password is truthy |
| `ConfigProperties.NoAtWithoutPassword` | config_manager.py:149-150 | without a truthy password, the URL contains `@` only if host, port or db does |
| `ConfigProperties.BrokerUrlReadsBack` | config_manager.py:133-150 | when the celery section has no broker_url, the broker URL is a string that reads back as the redis section's parts |
| `ConfigProperties.DefaultUrlsCoincide` | config_manager.py:54-55 | with the default configuration, broker and result backend are the same URL, the celery section's literal |
| `ConfigProperties.DefaultLiteralMatchesRedisSection` | config_manager.py:39-55 | the default broker_url literal is also the URL the default redis section would produce |
| `RedisUrl.Format` | config_manager.py:148-150 | the URL starts with `redis://`; without a password, `@` occurs only if it occurs in host, port or db |
| `RedisUrl.ParseFormat` | config_manager.py:148-150 | reading a URL written from well-formed parts gives back those parts |
| `RedisUrl.FormatParse` | config_manager.py:148-150 | writing the parts of any URL that reads gives back that URL |
| `RedisUrl.FormatInjective` | config_manager.py:148-150 | distinct well-formed parts give distinct URLs |
| `PyValue.Get` | config_manager.py:94-101 | `d.get(k, default)`: the value at k, or the default; AttributeError exactly when d is not a dict |
| `PyValue.Truthy` | config_manager.py:104-109 | Python truthiness: a value is falsy exactly when it is None, False, 0, `""`, `[]` or `{}` |
| `PyValue.Contains` | config_manager.py:137 | `k in c`: key presence for a dict, element equality for a list, substring for a string, TypeError exactly for None, bools and numbers |
| `PyValue.Subscript` | config_manager.py:138 | `c[k]`: the value for a present key, KeyError for a missing key, TypeError for a non-dict |
| `PyValue.Format` | config_manager.py:148 | `str(v)` of a string is the string and of an int its decimal text; it fails exactly for lists and dicts |
| `Decimal.NatToDecimal` | config_manager.py:148 | at least one digit, only digits, no leading zero |
| `Decimal.IntToDecimal` | config_manager.py:148 | a leading `-` exactly for negative numbers, followed by digits |
| `Decimal.NatToDecimalRoundTrip` | config_manager.py:148 | the digit string reads back as the number |
| `Decimal.IntToDecimalRoundTrip` | config_manager.py:148 | `ParseInt(str(i)) == i` for every int |
| `Decimal.IntToDecimalInjective` | config_manager.py:148 | distinct ints have distinct text |
| `Tasks.Add` | tasks.py:7-12 | the result minus either argument gives the other (unbounded, no wrap-around) |
| `Tasks.Multiply` | tasks.py:15-20 | the result divided by either non-zero argument is the other, with no remainder; it is 0 exactly when an argument is 0 |
| `Tasks.SumAppend` | tasks.py:50 | `sum` adds front to back: extending a list by x adds x to its sum |
| `Tasks.ProcessList` | tasks.py:47-59 | numbers echoed unchanged, count is the length, sum is the sequence sum, average times count is the sum, average 0 for an empty list |
| `Tasks.SumBounds` | tasks.py:50 | a sum of n numbers in [lo, hi] lies in [n·lo, n·hi] |
| `Tasks.SummaryOfRandomNumbers` | tasks.py:39-59 | a summary of numbers in [1, 100] has count ≤ sum ≤ 100·count, and for a non-empty list an average in [1, 100] |
| `Tasks.GenerateRandomNumbers` | tasks.py:39-44 | the list has max(count, 0) elements, each in [1, 100] |
| `Tasks.ProgressReport` | tasks.py:30-33 | the state is PROGRESS, current is the step, total is the duration, and the status starts with the progress prefix |
| `Tasks.ProgressStatusReadsBack` | tasks.py:32 | the status text `处理中... k/d` reads back as the step k and the total d |
| `Tasks.ProgressStatusInjective` | tasks.py:32 | distinct steps or totals give distinct status texts |
| `Tasks.LongRunningTask` | tasks.py:23-36 | exactly max(d, 0) PROGRESS updates; the k-th (from 1) has current k and total d; current strictly increases and stays in [1, total]; the returned record has current = total = d, the last update's current |

## Left out

- Reading and parsing the configuration file (config_manager.py:21-34) is file I/O. The model takes what loading came to as a parameter (`Config.LoadOutcome`): no file, a failed load, or the parsed document. The file name field and the status prints are not modelled.
- `create_example_config` (config_manager.py:162-209) only writes a file.
- The second half of `test_redis_connection` (config_manager.py:113-131) is left out: creating the client, `ping()`, and the result messages. `ConnectionParams` says which errors escape that function (`Raised`) and which its `except Exception` turns into a failed test (`Reported`).
- `main` (config_manager.py:211-248) only prints and calls the members above.
- celery_app.py configures the library. It probes Redis over the network and updates Celery's settings.
- The demo drivers (producer.py, simple_demo.py, final_demo.py, flower_demo.py) are sequences of library calls, sleeps and prints. The handlers defined inside them repeat those of tasks.py. `Tasks.SummaryOfRandomNumbers` states what their generate-then-summarise chain (producer.py:46-51) can expect.
- `failing_task` (tasks.py:61-65) only raises. Recording the failure is the library's job.
- `retry_task` (tasks.py:67-77) depends on randomness and on the library's automatic retry machinery, which is not part of this repository.
- JSON floating-point numbers are not values of `PyValue.Value`, so a configuration with a float in it cannot be written down.
- `PyValue.Format`: `str()` of a list or dict (Python's repr) is not modelled. It yields the error `ReprNotModelled`. So `Config.RedisSectionUrl` and `Config.ConfigManager.GetBrokerUrl` fail where Python would write that repr into the URL.
- `Tasks.ProcessList`: the average is the exact rational quotient, not an IEEE double. For an empty list Python returns the int 0, and the model gives 0.0. The list holds ints only, so the TypeError that `sum` raises on other elements is not modelled.
- `Tasks.Add` and `Tasks.Multiply` take ints only. Python would also concatenate or repeat strings and lists passed to them.
- `Tasks.GenerateRandomNumbers`: `random.randint` is modelled as an arbitrary choice in [1, 100]. Nothing is said about the distribution.
- The default arguments (`count=5`, `duration=10`, `config_file="config.json"`) are not modelled. Every modelled operation takes the value explicitly.
- `RedisUrl.Parse` is this model's own reader. The source inserts the password into the URL without percent-encoding (config_manager.py:148). URL parsers such as Python's `urllib.parse` split the userinfo at the last `@` and end the host at `/`, `?` or `#`. So a password containing `/`, `?`, `#` or `%` may be misread by such a library, even though the URL reads back under `RedisUrl.Parse`. How the broker libraries read the URL is not modelled.
- `RedisUrl.ParseFormat` and `ConfigProperties.SectionUrlReadsBack` hold only for well-formed parts: no `@` in the password, host, port or db, no `:` or `/` in the host, and no `/` in the port. The source writes such values into the URL unchecked, so for example an IPv6 host such as `::1`, or a password containing `@`, gives a URL that does not read back as its parts.
- `Tasks.LongRunningTask`: the one-second sleep per step and the prints are left out. `update_state` is modelled only as appending to the trace; what the result store does with those updates is the library's.
