# Chain-simulator test harness: a verified model

The repository drives a local MultiversX chain simulator for tests. This
project models and proves properties of the four parts that hold logic:

- **The supervisor object** (`python_files/chain_simulator.py`).
  - It checks that the binary exists.
  - It builds a whitespace-normalised command line.
  - It captures the node's output streams into an append-only log list.
  - It stops the process.
  - It scans the log list for the selection line of a transaction. The scan runs under a time bound and uses a forward-only cursor. The line must match an anchored regular expression, and the captured JSON must then decode.
- **The chain commander** (`python_files/chain_commander.py`).
  - Status queries, including the rule that "transaction not found" means `"expired"`.
  - Block generation.
  - The blocks needed to reach the end of the epoch.
  - The forced epoch change.
  - The bounded confirmation loop.
  - The liveness retry loop.
- **The wallet** (`python_files/wallet.py`).
  - Choosing where the PEM comes from.
  - The lazily fetched, post-incremented nonce counter.
- **The hex encoders** (`utils/data_converstion.py`): `int_to_hex` and `string_to_hex` (UTF-8 bytes as lowercase hex).

## How the outside world is modelled

- **Operating system.**
  - These facts become parameters: whether the binary exists, the identifier of a launched process, and whether its process group still exists.
  - The reader threads become batches of raw lines. A batch arrives while the scan sleeps between two passes.
  - The clock becomes the sequence of elapsed-time readings the scan makes. `ClockRunsOut` asks that the last reading reaches the timeout and that a batch is given for every pause before it.
- **HTTP.**
  - Every reply is a value: `Reply` (a success flag, raw text and decoded body) and `PostReply`.
  - A loop indexes its replies by round (`nat -> Reply`).
  - Every commander operation returns the requests it sent, in order, next to its result or raised exception (`Call`). This lets the model state how many blocks were requested and when a request is sent.
- **Wallet nonce.** The server's nonce is a parameter. `None` stands for a query that raises.
- **Text.**
  - Python strings are Dafny strings.
  - `str.strip`, `str.split` and `\s` use Python's whitespace set (`Text.IsSpace`). `\d` matches the decimal digits of Unicode 15.0, not only ASCII ones (`SelectionLog.IsDecimalDigit`).
  - `json.loads` reads numbers as its C scanner does: only ASCII digits, converted before what follows them is checked.
  - `string_to_hex` works on a sequence of code points, so that lone surrogates (which make `.encode("utf-8")` raise) can be represented.

## Module layout

| file | module | content |
|---|---|---|
| `Common.dfy` | `Common` | `Option`, `Result`, regrouping of concatenations |
| `Settings.dfy` | `Settings` | the string settings of `python_files/config.py` |
| `Text.dfy` | `Text` | whitespace, `strip`, `split`/`join`, substring search |
| `DataConversion.dfy` | `DataConversion` | `int_to_hex`, UTF-8, `bytes.hex`, `string_to_hex` |
| `SelectionLog.dfy` | `SelectionLog` | the selection-line grammar, its recogniser, `json.loads` of the captured object |
| `ChainSimulator.dfy` | `Simulator` | the command line, capture, the scan as a function, the `ChainSimulator` class |
| `ChainCommander.dfy` | `Commander` | the HTTP-driven operations and both loops |
| `Wallet.dfy` | `Wallets` | PEM source choice, the nonce state machine, the `Wallet` class |

## Model

| member | source | states |
|---|---|---|
| Text.StripSpec | python_files/chain_simulator.py:83 | `strip` removes a whitespace prefix and a whitespace suffix and leaves a result that neither starts nor ends with whitespace |
| Text.Strip | python_files/chain_simulator.py:83 | `line.strip()` is no longer than the line and neither starts nor ends with whitespace; `StripSpec` states which prefix and suffix it removes |
| Text.StripEmptyIffAllSpace | python_files/chain_simulator.py:83-84 | a stripped line is empty exactly when the raw line is all whitespace |
| Text.StripIdempotent | python_files/chain_simulator.py:83 | stripping twice is stripping once |
| Text.Words | python_files/chain_simulator.py:55 | `split()` yields only non-empty words without whitespace |
| Text.NormaliseShape | python_files/chain_simulator.py:55 | `" ".join(s.split())` has no leading or trailing whitespace and no two consecutive spaces |
| Text.NormaliseIdempotent | python_files/chain_simulator.py:55 | normalising twice is normalising once |
| Text.WordsOfJoin | python_files/chain_simulator.py:55 | splitting words joined by single spaces gives the words back |
| Text.WordsOfInterleave | python_files/chain_simulator.py:49-55 | words separated by any non-empty whitespace split back into exactly those words |
| Text.Normalise | python_files/chain_simulator.py:55 | `" ".join(s.split())`, specified by `NormaliseShape`, `NormaliseIdempotent` and `WordsOfJoin` |
| Simulator.CommandNormalised | python_files/chain_simulator.py:49-55 | the launched command is normalised and normalising it again changes nothing |
| Simulator.CommandOfWords | python_files/chain_simulator.py:49-55 | when each configured value is one word, the command is the thirteen tokens joined by single spaces, and the log level is always the literal `'*:DEBUG,txcache:TRACE'` |
| Simulator.DefaultCommandText | python_files/chain_simulator.py:49-55 | with the configuration values of `python_files/config.py` the command is exactly the listed thirteen words |
| Simulator.Command | python_files/chain_simulator.py:49-55 | the launched command, the f-string normalised; specified by `CommandNormalised`, `CommandOfWords` and `DefaultCommandText` |
| Simulator.CapturedStripped | python_files/chain_simulator.py:82-87 | every captured line is non-empty and already stripped |
| Simulator.CapturedConcat | python_files/chain_simulator.py:82-87 | capturing two parts of a stream in turn keeps what capturing the whole keeps |
| Simulator.CapturedLine | python_files/chain_simulator.py:83-87 | one raw line is kept, stripped, exactly when it is not all whitespace |
| Simulator.Captured | python_files/chain_simulator.py:82-87 | what `read_output` keeps of a stream, at most one entry per raw line; specified by `CapturedStripped`, `CapturedConcat` and `CapturedLine` |
| Simulator.ChainSimulator.constructor | python_files/chain_simulator.py:26-36 | fields copied from the configuration; no process; empty queue and log list |
| Simulator.ChainSimulator.Create | python_files/chain_simulator.py:26-46 | `FileNotFoundError` with the source's message exactly when the binary is missing; otherwise a fresh object with no process and empty logs |
| Simulator.ChainSimulator.Start | python_files/chain_simulator.py:48-68 | the process runs the normalised command in the binary's folder; a failed launch changes nothing |
| Simulator.ChainSimulator.ReadOutput | python_files/chain_simulator.py:79-90 | both the queue and the log list grow by exactly the captured lines of the stream, in order; earlier entries are unchanged |
| Simulator.ChainSimulator.Stop | python_files/chain_simulator.py:92-107 | without a process: a warning and no state change; with one: the group is signalled and the process waited for, `ProcessLookupError` once it is gone; `process` is never reset |
| Simulator.ChainSimulator.ScanFrom | python_files/chain_simulator.py:123-134 | one pass over `all_logs[from:]` stops at the first entry at or after `from` that qualifies, or that holds the hash and has a number past the digit limit: the record of the first kind, which carries the hash, or the `ValueError` of the second; nothing when there is neither |
| Simulator.FirstWhereSpec | python_files/chain_simulator.py:124-132 | the search finds a qualifying entry and no earlier entry qualifies |
| Simulator.FirstWhereSkip | python_files/chain_simulator.py:123-135 | starting the search later, but not past the first qualifying entry, finds the same entry |
| Simulator.FirstWhereExtend | python_files/chain_simulator.py:135-136 | entries appended later do not move an entry already found; without one, the search continues into the new entries |
| Simulator.Wait | python_files/chain_simulator.py:122-137 | the scan ends within the clock readings it is given, and an entry it returns lies inside the buffer of its last pass; `WaitPass`, `WaitTiming` and `WaitFirst` state the rest |
| Simulator.BufferStep | python_files/chain_simulator.py:135-136 | a pause appends its captured output to the buffer, and the next cursor is the end of the buffer the previous pass saw |
| Simulator.Cursor | python_files/chain_simulator.py:115-135 | the cursor never passes the end of the buffer it indexes; `BufferStep` ties each later cursor to the buffer the previous pass saw |
| Simulator.WaitTiming | python_files/chain_simulator.py:122-140 | every pass begins with elapsed time below the timeout, and the scan gives up only once the clock has reached it |
| Simulator.WaitFirst | python_files/chain_simulator.py:122-136 | the entry returned is the first qualifying entry of the whole buffer, since no entry is skipped by the cursor |
| Simulator.WaitExpired | python_files/chain_simulator.py:122 | with a timeout of 0 or less, no pass is made and the scan gives up |
| Simulator.FirstSelectedParses | python_files/chain_simulator.py:125-133 | an entry the scan's test finds either decodes to a record whose hash is the one asked for, or holds the hash and has a number past the digit limit |
| Simulator.ScanOutcome | python_files/chain_simulator.py:109-140 | the scan stops at the first entry in buffer order that qualifies or overflows the digit limit; one that qualifies parses to a record carrying the hash, one that does not holds the hash and overflows; a timeout happens only at the time bound, with no examined entry stopping the scan |
| Simulator.ChainSimulator.GetFirstMatchingSelection | python_files/chain_simulator.py:109-140 | the result and the new logs are those of `Wait` with the scan's test: the record of the entry found when it qualifies, the digit-limit `ValueError` when it overflows, and at the time bound `TimeoutError` with the hash and the timeout |
| SelectionLog.MatchJsonSound | python_files/chain_simulator.py:116-120 | every JSON object the pattern accepts is exactly the text of well-shaped fields in fixed order: 64 hex characters for `hash` and `sender`, one or more for `receiver`, and decimal digits of any script for the numbers |
| SelectionLog.MatchJsonComplete | python_files/chain_simulator.py:116-120 | the pattern accepts the JSON text of any well-shaped fields and captures them |
| SelectionLog.MatchSelectionSound | python_files/chain_simulator.py:116-126 | every matched line has the form `selection#<digits>:<whitespace><object>`, with at most one final newline |
| SelectionLog.MatchSelectionComplete | python_files/chain_simulator.py:116-128 | every such line matches, and group 1 yields its fields |
| SelectionLog.MatchSelection | python_files/chain_simulator.py:116-127 | `pattern.search(log_entry)` with group 1 split into its fields; specified by `MatchSelectionSound` and `MatchSelectionComplete` |
| SelectionLog.DecodeEncode | python_files/chain_simulator.py:130 | decoding the texts of a record gives the record back when every number has at most 4300 digits, and the digit-limit error otherwise |
| SelectionLog.EncodeDecode | python_files/chain_simulator.py:129-134 | a well-shaped object decodes exactly when every number is ASCII digits with no leading zero and at most 4300 of them, and what decodes re-encodes to the same texts; a leading zero or another script's digit alone gives `JSONDecodeError`, an over-long canonical number alone the `ValueError` |
| SelectionLog.ReadNumberSpec | python_files/chain_simulator.py:130 | one number reads exactly when it is a canonical ASCII integer of at most 4300 digits; the `ValueError` comes exactly when its text opens with an over-long integer, whatever digits follow |
| SelectionLog.DecodeJson | python_files/chain_simulator.py:129-133 | `json.loads` of the captured object keeps the hash, sender and receiver texts; `DecodeEncode` and `EncodeDecode` say when it fails and with which exception |
| SelectionLog.DecimalRoundTrip | python_files/chain_simulator.py:130 | reading the decimal text of a number gives the number |
| SelectionLog.DecimalCanonical | python_files/chain_simulator.py:130 | every canonical digit string is the decimal text of its value |
| SelectionLog.ParseLineOfRecord | python_files/chain_simulator.py:116-133 | the line written for a well-formed record parses back to that record when its numbers have at most 4300 digits, and otherwise does not parse and overflows |
| SelectionLog.ParseSelectionLine | python_files/chain_simulator.py:126-131 | the pattern, then `json.loads`; specified by `ParseLineOfRecord`, `LeadingZeroSkipped` and `OverlongNumberRaises` |
| SelectionLog.LeadingZeroSkipped | python_files/chain_simulator.py:126-134 | a line whose pattern matches but whose number has a leading zero is rejected at decoding with `JSONDecodeError`, not by the pattern, and the scan goes past it |
| SelectionLog.OverlongNumberRaises | python_files/chain_simulator.py:126-133 | a line whose pattern matches and whose `ppu` opens with more than 4300 ASCII digits raises the `ValueError`, whatever decimal digits follow or fill the later fields: it does not qualify, yet it stops the scan |
| SelectionLog.ForeignDigitSkipped | python_files/chain_simulator.py:116-133 | a line whose `ppu` opens with a non-ASCII decimal digit matches the pattern, fails in `json.loads` with `JSONDecodeError`, and the scan goes past it |
| SelectionLog.HashOccursInLine | python_files/chain_simulator.py:125 | the hash field of a selection line occurs in the line at a known offset |
| SelectionLog.QualifiesIffParsedHash | python_files/chain_simulator.py:125-132 | the `tx_hash in log_entry` pre-test changes nothing: an entry qualifies exactly when it parses to a record with that hash |
| SelectionLog.Qualifies | python_files/chain_simulator.py:125-132 | the entries the loop returns a record for; specified by `QualifiesIffParsedHash` |
| Commander.GetStatusOfTx | python_files/chain_commander.py:11-23 | one status query; an error status raises `HTTPError`, a body that is not JSON `JSONDecodeError`, a missing `data` object `AttributeError`; the phrase "transaction not found" gives `"expired"` whatever the data says; otherwise `data.status` |
| Commander.NotFoundOverridesData | python_files/chain_commander.py:17-18 | two decodable replies that both hold the phrase give the same status |
| Commander.AddBlocks | python_files/chain_commander.py:43-52 | one request for `n` blocks; its text, or `HTTPError` |
| Commander.StatusEntry | python_files/chain_commander.py:114-120 | the network-status entry for the key, `None` when it is absent; an error status raises `HTTPError`, a body that is not JSON `JSONDecodeError`, a missing `data` or `status` object `AttributeError` |
| Commander.RoundsPerEpochValue | python_files/chain_commander.py:122 | `int(rounds_per_epoch)` reads the configured string exactly: it is the canonical decimal text of 50 |
| Commander.AddBlocksUntilEpochReached | python_files/chain_commander.py:67-75 | the generate-until-epoch request, then exactly one more block; the first request's text |
| Commander.UntilEpochOneExtraBlock | python_files/chain_commander.py:67-75 | reaching an epoch requests exactly one block |
| Commander.AddBlocksUntilLastBlockOfEpoch | python_files/chain_commander.py:113-128 | reads the metachain status and requests `50 - passed` blocks; an absent entry raises `TypeError` |
| Commander.EpochDeficit | python_files/chain_commander.py:122-126 | the blocks requested and the nonces passed add up to `rounds_per_epoch`; with no guard, more than 50 nonces passed gives a negative request |
| Commander.ForceMoveToEpoch | python_files/chain_commander.py:131-164 | the forced change is sent if and only if the current epoch is below the target; otherwise `None` and no post; an absent epoch number raises `TypeError` |
| Commander.BlocksRequestedAppend | python_files/chain_commander.py:82-84 | the blocks of two request sequences add up |
| Commander.BlocksOfRounds | python_files/chain_commander.py:82-87 | `m` rounds of the loop request exactly `m` blocks |
| Commander.SettledSpec | python_files/chain_commander.py:88-92 | the rounds before the settling round end pending, and the settling round does not |
| Commander.Confirm | python_files/chain_commander.py:82-95 | the loop from a round on: at most two requests per remaining round, and the limit error names the hash and the limit; `ConfirmOutcome` and `ConfirmationBlocks` state the rest |
| Commander.ConfirmOutcome | python_files/chain_commander.py:78-95 | the exact result and request trace of the loop: the limit error after `limit` full rounds, a block request's error, or the first non-pending status after that many rounds |
| Commander.ConfirmationBlocks | python_files/chain_commander.py:82-95 | at most `limit` blocks are requested; a returned status is the first non-pending one, read after as many blocks as its 1-based position; the limit error is raised, after exactly `limit` blocks, if and only if every status is pending |
| Commander.SettledAt | python_files/chain_commander.py:88-92 | a round that does not end pending, after rounds that all did, is the settling round |
| Commander.SuccessAtTwentiethBlock | python_files/chain_commander.py:82-92 | nineteen pending statuses then `"success"`: the loop returns `"success"` after twenty blocks |
| Commander.AddBlocksUntilTxFullyExecuted | python_files/chain_commander.py:78-95 | the loop with counter and early return computes exactly `Confirm` with the limit of 20 |
| Commander.IsChainOnline | python_files/chain_commander.py:98-110 | probes that raise `requests`' `ConnectionError` (a refused connection, a proxy or TLS failure, a connect timeout) are retried; the first other probe decides: a success returns `True`, an error status or any other exception is re-raised |
| DataConversion.NatToHex | utils/data_converstion.py:21 | lowercase hex digits, no prefix, no leading zero, `"0"` for 0 |
| DataConversion.IntToHex | utils/data_converstion.py:21 | `hex(v)[2:]`: the digits of `v` for `v >= 0`, and `"x"` followed by the digits of `-v` for `v < 0` |
| DataConversion.PyHex | utils/data_converstion.py:21 | Python's `hex(v)`; specified through the contract of `IntToHex` and by `IntToHexRoundTrip` |
| DataConversion.IntToHexShape | utils/data_converstion.py:21 | the output is non-empty lowercase hex with no leading zero, and `int_to_hex(0) == "0"` |
| DataConversion.IntToHexRoundTrip | utils/data_converstion.py:21 | reading `int_to_hex(v)` in base 16 gives `v` back |
| DataConversion.IntToHexCanonical | utils/data_converstion.py:21 | every lowercase hex string without a leading zero is `int_to_hex` of its value |
| DataConversion.Utf8Encode | utils/data_converstion.py:31 | encoding fails exactly on a lone surrogate |
| DataConversion.Utf8EncodeLength | utils/data_converstion.py:31 | the UTF-8 length is the sum of the widths, between one and four bytes per character |
| DataConversion.Utf8EncodeConcat | utils/data_converstion.py:31 | encoding distributes over concatenation |
| DataConversion.Utf8CharDecodes | utils/data_converstion.py:31 | the bytes of one character decode back to that character |
| DataConversion.Utf8RoundTrip | utils/data_converstion.py:31 | decoding the UTF-8 encoding gives the string back |
| DataConversion.BytesToHex | utils/data_converstion.py:31 | two lowercase hex digits per byte, in order |
| DataConversion.BytesToHexRoundTrip | utils/data_converstion.py:31 | reading the hex pairs back gives the bytes |
| DataConversion.BytesToHexConcat | utils/data_converstion.py:31 | hex distributes over concatenation |
| DataConversion.StringToHexSpec | utils/data_converstion.py:30-34 | `None` exactly for a string with a lone surrogate; otherwise twice the UTF-8 length, each byte as two hex digits in order |
| DataConversion.StringToHex | utils/data_converstion.py:26-34 | `None` exactly for a string with a lone surrogate; otherwise lowercase hex of even length; `StringToHexSpec` gives its length and round trip |
| DataConversion.StringToHexConcat | utils/data_converstion.py:31 | `string_to_hex("") == ""`, and the hex of a concatenation of encodable strings is the concatenation of the hexes |
| Wallets.PemSourceOf | python_files/wallet.py:22-29 | non-empty PEM text wins over a path; the path is used otherwise; with neither, `ValueError` |
| Wallets.Wallet.constructor | python_files/wallet.py:18-20 | a new wallet keeps its arguments and has no nonce |
| Wallets.Wallet.Create | python_files/wallet.py:15-29 | the wallet with the source `PemSourceOf` chooses and no nonce, or the `ValueError` |
| Wallets.Wallet.FromPemText | python_files/wallet.py:37-39 | PEM text alone; empty text raises `ValueError` |
| Wallets.Increment | python_files/wallet.py:119-135 | the server is asked exactly when no nonce is cached; the value returned is the cached or fetched one, and the field ends one past it |
| Wallets.Wallet.GetNonceAndIncrement | python_files/wallet.py:119-135 | result, new nonce and one fetch at most, as `Increment` says |
| Wallets.Wallet.GetNonce | python_files/wallet.py:105-117 | always queries; the answer overwrites the nonce and is returned; a failed query leaves it unchanged |
| Wallets.IssueFromCached | python_files/wallet.py:113-135 | with `v` cached (for instance after `get_nonce`), successive calls return `v, v+1, ...` and never ask the server |
| Wallets.IssueFromFresh | python_files/wallet.py:119-135 | from a fresh wallet the server value `n` is fetched once, and successive calls return `n, n+1, ...` with no further fetch |
| Wallets.IssueAll | python_files/wallet.py:119-135 | successive `get_nonce_and_increment` calls, one result per call; specified by `IssueFromCached` and `IssueFromFresh` |

## Left out

- Process control (`subprocess.Popen`, `os.setsid`, `os.killpg`, `wait`, thread start and join) and the logger: the model keeps only the guard branches, the command text and the process fields.
- Simulator.ChainSimulator.GetFirstMatchingSelection: lines arrive only between passes. In the source a reader thread may append during a pass. Such lines lie between the slice taken at python_files/chain_simulator.py:123 and the `len` read at :135, so they are never examined. The sequential model cannot show this race.
- Simulator.ChainSimulator.GetFirstMatchingSelection: `time.time()` and `time.sleep` become a sequence of clock readings, one per loop test.
- SelectionLog.IsDecimalDigit: `\d` is the Nd category of Unicode 15.0, which CPython 3.12 uses. Other interpreter versions use other Unicode versions, with slightly different digit sets.
- SelectionLog.ReadNumber: follows `json`'s C scanner. The pure-Python fallback, used only where the C accelerator is missing, is not modelled.
- General `json.loads`: only the fixed object of the selection grammar is decoded.
- SelectionLog.DecodeJson: the digit limit is 4300, the default of `sys.get_int_max_str_digits()` in CPython 3.11 and later and in the 3.7 to 3.10 security releases that carry it. Interpreters without it have no limit. A limit changed at run time or through `PYTHONINTMAXSTRDIGITS` is not modelled. The fields are read in text order, so when a leading zero comes before an over-long number, `JSONDecodeError` wins, as it does in `json`.
- Simulator.ChainSimulator.ReadOutput: each of the two reader threads does `logs.put` and then `all_logs.append` (python_files/chain_simulator.py:86-87). Interleaved, the queue and the list can end in different orders. The model reads one stream at a time, so both always share one order.
- Simulator.DefaultTimeout: the default `timeout=10` of python_files/chain_simulator.py:109. The method takes the timeout as a parameter.
- HTTP transport: replies are parameters, and `WAIT_UNTIL_API_REQUEST_IN_SEC` sleeps are not modelled. `send_egld_to_address`, `get_block` and the wallet's balance, account and address calls are not part of this model; they are SDK or HTTP plumbing with no decision logic.
- Commander.GetStatusOfTx: `data.status` is a string. The source returns whatever JSON value is there: a number, a boolean, a list or an object. Its only use is the loop's comparison with `"pending"`, so the control flow is the same.
- Commander.StatusEntry: network-status values are integers. A non-integer value would make the source's subtraction or comparison raise differently.
- Commander.IsChainOnline: retries only as many times as probes are given. The source retries without bound, and its one-second pauses are not modelled.
- Commander.ConfirmationBlocks: proved for any limit. The method uses `MaxBlocks` = 20 (python_files/constants.py:60).
- Wallets.Wallet.GetNonceAndIncrement: leaves out the `public_address()` calls of the log messages. Those run after the increment and could raise through the SDK.
- `UserPEM`, `UserSigner`, `Address` and `bech32_to_hex`: MultiversX SDK wrappers whose code is not part of this model.
- Configuration values are taken as given (`python_files/config.py:45-53`).
