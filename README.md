# ntfy logging handler, modelled in Dafny

`NtfyHandler` is a Python `logging.Handler` that forwards each log record to
an ntfy topic as an HTTP POST. At construction it builds the topic URL,
copies the caller's headers, derives an `Authorization` header when the
caller gave none (a Bearer access token first, then HTTP Basic credentials),
and normalises the level-to-priority map. Its `emit` rounds the record's
level down to a multiple of ten, looks the priority up (default 3), writes
`X-Priority` and `X-Title` into the session's shared header map in place,
posts the rendered message and contains every failure in `handleError`.

Files and modules:

- `wrappers.dfy`: `Wrappers` (`Option`, `Result`) and `Bytes` (the octet type).
- `decimal.dfy`: `Decimal`, Python's `str(int)` and `int(str)` on plain decimal text, with the round trip.
- `utf8.dfy`: `Utf8`, `str.encode()` (UTF-8).
- `base64.dfy`: `Base64`, the encoding of section 4 of RFC 4648 with a decoder as its inverse.
- `priority.dfy`: `Priority`, the built-in map, rounding, lookup, and the key-normalisation loop of construction.
- `handler.dfy`: `Handler`, header resolution, the `NtfyHandler` class with `Create` (the constructor's logic) and `Emit`, and `ExampleAlert`, a client that constructs a handler for topic `alerts` and checks that an ERROR record from logger `diskmon` is posted to `https://ntfy.sh/alerts` with `X-Priority: 4` and `X-Title: ERROR: diskmon`.

Python truthiness is explicit: optional arguments are `Option` values, and
an absent value behaves like an empty one (`IsSet`, `SuppliedHeaders`,
`NormalisePriorityMap`'s guard). A Python constructor that raises becomes
`NtfyHandler.Create` returning `Failure(NonNumericLevel)`; the plain Dafny
constructor only stores the state `Create` computed. The transport is a
parameter of `Emit` (`Ok(status)` or `NetworkError`), message rendering is
the `Message` datatype (`Rendered(text)` or `Unrenderable`), and the
requests handed to the transport and the errors passed to `handleError` are
ghost state of the handler.

The code writes `X-Priority` and `X-Title` into the shared session headers
in place (ntfy_handler/ntfy_handler.py:93-94), and the model does the same.
`Emit`'s contract shows that, one call at a time, every request carries the
construction-time headers stamped with that record's priority and title.

## Model

| member | source | states |
|---|---|---|
| `Decimal.NatToString` | ntfy_handler/ntfy_handler.py:93 | `str(n)` of a natural number is a non-empty digit string with no leading zero except for 0 itself |
| `Decimal.IntToString` | ntfy_handler/ntfy_handler.py:93 | `str(n)` is an optional `-`, present exactly when n is negative, then canonical digits with no leading zero except for 0 itself |
| `Decimal.ParseInt` | ntfy_handler/ntfy_handler.py:82 | `int(s)` succeeds exactly on an optional `+` or `-` followed by one or more ASCII digits, and raises otherwise |
| `Decimal.ParseIntToString` | ntfy_handler/ntfy_handler.py:82 | `int(str(n)) == n` for every integer n |
| `Decimal.ParseIntRejectsNonDigit` | ntfy_handler/ntfy_handler.py:82 | `int(s)` raises when s has a character that is neither a digit nor a leading sign |
| `Decimal.ParseIntExamples` | ntfy_handler/ntfy_handler.py:82 | `"+5"`, `"007"`, `"-0"`, `"-12"` parse to 5, 7, 0, -12; `""`, `"+"`, `"-"`, `"1a"`, `"--1"` raise |
| `Utf8.EncodeChar` | ntfy_handler/ntfy_handler.py:72 | a character encodes to 1 to 4 octets, a single octet exactly for ASCII, equal to the code point |
| `Utf8.Encode` | ntfy_handler/ntfy_handler.py:72 | `.encode()` gives between one and four octets per character |
| `Utf8.EncodeConcat` | ntfy_handler/ntfy_handler.py:72 | encoding distributes over concatenation, so `username:password` encodes piecewise |
| `Utf8.EncodeAscii` | ntfy_handler/ntfy_handler.py:72 | ASCII text encodes to its own code points, one octet per character |
| `Base64.Encode` | ntfy_handler/ntfy_handler.py:72 | `b64encode` of n octets has 4 * ceil(n / 3) characters, all from the alphabet of RFC 4648 section 4 except `=`, and `=` is exactly the last (3 - n mod 3) mod 3 characters |
| `Base64.EncodeTail` | ntfy_handler/ntfy_handler.py:72 | a final group of one or two octets encodes to four characters ending in two or one `=` |
| `Base64.DecodeEncode` | ntfy_handler/ntfy_handler.py:72 | decoding the encoding gives back exactly the octets, so the token determines the credentials |
| `Base64.TestVectors` | ntfy_handler/ntfy_handler.py:72 | the encoding agrees with the test vectors "", "f", "fo", "foo" of RFC 4648 section 10 |
| `Priority.Rounded` | ntfy_handler/ntfy_handler.py:89 | `levelno // 10 * 10` is a multiple of ten with `rounded <= levelno < rounded + 10` |
| `Priority.PriorityFor` | ntfy_handler/ntfy_handler.py:90-92 | the lookup is total: a priority the map holds or 3, exactly 3 when the rounded level is unmapped, and the entry of the multiple of ten at or below the level when there is one |
| `Priority.RoundedIsUnique` | ntfy_handler/ntfy_handler.py:89 | the rounded level is the only multiple of ten in `(levelno - 10, levelno]` |
| `Priority.DecadeSharesPriority` | ntfy_handler/ntfy_handler.py:89-92 | every level of one decade gets the priority of the decade's multiple of ten: its map entry, or 3 when absent |
| `Priority.AbsentDecadeDefaults` | ntfy_handler/ntfy_handler.py:89-92 | a level whose rounded level is not a key of the map gets `DEFAULT_PRIORITY` 3, and so does every level of its decade |
| `Priority.DefaultMapPriorities` | ntfy_handler/ntfy_handler.py:11-20 | with the built-in map, levels 10 to 59 get priority `levelno // 10` (1 to 5) and every other level gets 3 |
| `Priority.KeyLevel` | ntfy_handler/ntfy_handler.py:82 | `int(key)` never fails on an integer key, and fails on a string key exactly when it is not a decimal literal |
| `Priority.Normalised` | ntfy_handler/ntfy_handler.py:81-82 | a successful normalisation has parsed every key and holds every parsed level |
| `Priority.NormalisedFails` | ntfy_handler/ntfy_handler.py:81-82 | normalising the caller's map fails exactly when some key is not numeric |
| `Priority.NormalisedKeys` | ntfy_handler/ntfy_handler.py:81-82 | the normalised map's keys are exactly the integer parses of the caller's keys |
| `Priority.NormalisedLastWins` | ntfy_handler/ntfy_handler.py:81-82 | each parsed level holds the unchanged value of the last item whose key parses to it, so a later duplicate wins |
| `Priority.NormalisePriorityMap` | ntfy_handler/ntfy_handler.py:78-84 | an absent or empty map gives exactly {10:1, 20:2, 30:3, 40:4, 50:5}; a non-empty one gives the result of the key-by-key normalisation, failing on a non-numeric key |
| `Handler.TopicUrl` | ntfy_handler/ntfy_handler.py:58 | the topic URL is the server URL, a `/`, then the topic name |
| `Handler.BuildHeaders` | ntfy_handler/ntfy_handler.py:61-74 | an explicit `Authorization` (case-sensitive) leaves a key-for-key copy whatever the credentials; otherwise a non-empty token gives `Bearer <token>` even with username and password; otherwise non-empty username and password give `Basic <base64 of user:pass>`; otherwise the caller's headers exactly; absent and empty headers agree |
| `Handler.ResolvedHeaders` | ntfy_handler/ntfy_handler.py:61-74 | resolved headers keep every caller header and value, add at most `Authorization`, and hold it exactly when the caller gave one or a credential source applies |
| `Handler.CredentialOctets` | ntfy_handler/ntfy_handler.py:72 | the octets fed to base64 are the UTF-8 of the username, one colon octet, then the UTF-8 of the password |
| `Handler.BasicToken` | ntfy_handler/ntfy_handler.py:72 | the Basic token of the n octets of `username:password` has 4 * ceil(n / 3) characters (alphabet and padding as `Base64.Encode`) and decodes back to those octets |
| `Handler.Stamp` | ntfy_handler/ntfy_handler.py:93-94 | after the header writes, `X-Priority` is `str(priority)` and `X-Title` is `levelname: name`, overriding caller values, and every other header, `Authorization` included, is kept |
| `Handler.Title` | ntfy_handler/ntfy_handler.py:94 | the title is the level name, then `: `, then the logger name |
| `Handler.StampKeepsOthers` | ntfy_handler/ntfy_handler.py:93-94 | the header writes change nothing but the two stamped keys |
| `Handler.StampOverwrites` | ntfy_handler/ntfy_handler.py:93-94 | what the two stamped keys held before the writes does not affect the result |
| `Handler.StampIdempotent` | ntfy_handler/ntfy_handler.py:93-94 | emitting the same record twice leaves the headers as emitting it once |
| `Handler.NtfyHandler.constructor` | ntfy_handler/ntfy_handler.py:75-84 | stores the topic URL, the session headers and the priority map, with no request sent and no error reported |
| `Handler.NtfyHandler.Create` | ntfy_handler/ntfy_handler.py:22-84 | construction fails exactly when a non-empty priority map has a non-numeric key; otherwise the handler has the topic URL, the resolved headers (recorded as its construction-time headers) and the normalised or built-in map |
| `Handler.NtfyHandler.Emit` | ntfy_handler/ntfy_handler.py:86-100 | the session headers are stamped in place and stay stamped even when rendering or the post fails; the request, when the message renders, carries the stamped headers, the topic URL and the message; emit never raises, and reports an error, exactly once, exactly on a rendering failure, a network failure or a 4xx/5xx status |

## Left out

- The HTTP transport (`requests.Session`, the POST itself, TLS, connection pooling, the session's default headers): foreign library I/O. `Emit` takes the post's outcome as a parameter.
- The `logging.Handler` base class, what `handleError` prints, and `record.getMessage()`'s `%`-formatting: host framework code. An error report is a ghost counter; rendering is a value that is either text or a failure.
- Concurrent emits and the race on the shared session headers: concurrency is out of scope, and `Emit` is modelled one call at a time.
- `int()` on strings is plain decimal with an optional sign: surrounding whitespace, digit-group underscores, non-ASCII digits, and float or bool keys are not modelled.
- Header values given as `bytes` are not modelled: header values are strings.
- `BaseException` subclasses such as `KeyboardInterrupt` are not distinguished: every failure during emit is treated alike.
- A Python `str` holding a lone surrogate makes `.encode()` raise; Dafny characters are Unicode scalar values, so that case does not arise in the model.
- The topic name is not checked for being non-empty, because the code does not check it.
