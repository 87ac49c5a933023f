/**
 * `python_files/chain_simulator.py`: the supervisor object that owns the node
 * process, the log lines captured from its output streams, and the scan that
 * waits for a transaction's selection line to appear in those logs.
 *
 * The operating system is replaced by parameters: whether the binary exists,
 * the identifier of the launched process, whether its process group is still
 * there when it is signalled; the reader threads are replaced by batches of raw
 * lines that arrive between two passes of the scan; the clock by the sequence
 * of elapsed times the scan reads.
 */
module Simulator {
  import opened Common
  import opened Text
  import opened SelectionLog
  import Settings

  /** The start-up settings that the constructor copies from the configuration module. */
  datatype Config = Config(
    roundsPerEpoch: string, numValidatorsPerShard: string, numValidatorsMeta: string,
    numWaitingValidatorsPerShard: string, numWaitingValidatorsMeta: string, logLevel: string)

  /** The values of `python_files/config.py`. */
  const DefaultConfig := Config(Settings.RoundsPerEpoch, Settings.NumValidatorsPerShard, Settings.NumValidatorsMeta,
                                Settings.NumWaitingValidatorsPerShard, Settings.NumWaitingValidatorsMeta, Settings.LogLevel)

  /** The log level written into the command line: a literal, not `Config.logLevel`. */
  const LogLevelArgument := "'*:DEBUG,txcache:TRACE'"

  /** The indentation that each continued line of the command literal carries. */
  const Continuation := "                    "

  const BinaryName := "/chainsimulator"

  /** The words of the command line, in order. */
  function CommandTokens(c: Config): seq<string> {
    ["./chainsimulator", "--rounds-per-epoch", c.roundsPerEpoch,
     "-num-validators-per-shard", c.numValidatorsPerShard,
     "-num-waiting-validators-per-shard", c.numWaitingValidatorsPerShard,
     "-num-validators-meta", c.numValidatorsMeta,
     "-num-waiting-validators-meta", c.numWaitingValidatorsMeta,
     "--log-level", LogLevelArgument]
  }

  /** What stands between the words in the command literal: a space, or a space,
    * the escaped line break (which contributes nothing) and the next line's indentation. */
  function CommandSeparators(): seq<string> {
    [" ", " ", " " + Continuation, " ", " " + Continuation, " ", " " + Continuation,
     " ", " " + Continuation, " ", " " + Continuation, " "]
  }

  /** The f-string of `start` before normalisation. */
  function RawCommand(c: Config): string {
    Interleave(CommandTokens(c), CommandSeparators())
  }

  /** `" ".join(command.split())`. */
  function Command(c: Config): string {
    Normalise(RawCommand(c))
  }

  /** The command has no leading or trailing whitespace and no consecutive spaces,
    * and normalising it again changes nothing. */
  lemma CommandNormalised(c: Config)
    ensures Normalised(Command(c))
    ensures Normalise(Command(c)) == Command(c)
  {
    NormaliseShape(RawCommand(c));
    NormaliseIdempotent(RawCommand(c));
  }

  /** Every word of the command is a word: the literals because they hold no
    * whitespace, the configured values by assumption. */
  lemma TokensAreWords(c: Config)
    requires IsWord(c.roundsPerEpoch) && IsWord(c.numValidatorsPerShard) && IsWord(c.numValidatorsMeta)
    requires IsWord(c.numWaitingValidatorsPerShard) && IsWord(c.numWaitingValidatorsMeta)
    ensures forall k :: 0 <= k < |CommandTokens(c)| ==> IsWord(CommandTokens(c)[k])
  {
    LeadingFlagsAreWords();
    TrailingFlagsAreWords();
    var ws := CommandTokens(c);
    assert forall k :: 0 <= k < |ws| ==> IsWord(ws[k]) by {
      assert ws == ["./chainsimulator", "--rounds-per-epoch", c.roundsPerEpoch,
                    "-num-validators-per-shard", c.numValidatorsPerShard,
                    "-num-waiting-validators-per-shard", c.numWaitingValidatorsPerShard,
                    "-num-validators-meta", c.numValidatorsMeta,
                    "-num-waiting-validators-meta", c.numWaitingValidatorsMeta,
                    "--log-level", LogLevelArgument];
    }
  }

  lemma LeadingFlagsAreWords()
    ensures IsWord("./chainsimulator") && IsWord("--rounds-per-epoch")
    ensures IsWord("-num-validators-per-shard") && IsWord("-num-waiting-validators-per-shard")
  {
    LiteralIsWord("./chainsimulator");
    LiteralIsWord("--rounds-per-epoch");
    LiteralIsWord("-num-validators-per-shard");
    LiteralIsWord("-num-waiting-validators-per-shard");
  }

  lemma TrailingFlagsAreWords()
    ensures IsWord("-num-validators-meta") && IsWord("-num-waiting-validators-meta")
    ensures IsWord("--log-level") && IsWord(LogLevelArgument)
  {
    LiteralIsWord("-num-validators-meta");
    LiteralIsWord("-num-waiting-validators-meta");
    LiteralIsWord("--log-level");
    LiteralIsWord(LogLevelArgument);
  }

  /** A literal made of printable ASCII other than the space is a word. */
  lemma LiteralIsWord(w: string)
    requires w != []
    requires forall i :: 0 <= i < |w| ==> '!' <= w[i] <= '~'
    ensures IsWord(w)
  {
  }

  lemma SeparatorsAreSpace()
    ensures forall k :: 0 <= k < |CommandSeparators()| ==>
      CommandSeparators()[k] != [] && AllSpace(CommandSeparators()[k])
  {
    assert AllSpace(" ");
    assert AllSpace(" " + Continuation);
  }

  /** When every configured value is one word, the command is the tokens joined by
    * single spaces and splits back into exactly those tokens; the log level is
    * always the literal, whatever `logLevel` holds. */
  lemma CommandOfWords(c: Config)
    requires IsWord(c.roundsPerEpoch) && IsWord(c.numValidatorsPerShard) && IsWord(c.numValidatorsMeta)
    requires IsWord(c.numWaitingValidatorsPerShard) && IsWord(c.numWaitingValidatorsMeta)
    ensures Command(c) == Join(CommandTokens(c))
    ensures Words(Command(c)) == CommandTokens(c)
  {
    TokensAreWords(c);
    SeparatorsAreSpace();
    WordsOfInterleave(CommandTokens(c), CommandSeparators());
    WordsOfJoin(CommandTokens(c));
  }

  /** The command that the default configuration produces: these thirteen words,
    * one space between each two. */
  lemma DefaultCommandText(c: Config)
    requires c == DefaultConfig
    ensures Words(Command(c)) ==
      ["./chainsimulator", "--rounds-per-epoch", "50", "-num-validators-per-shard", "10",
       "-num-waiting-validators-per-shard", "6", "-num-validators-meta", "10",
       "-num-waiting-validators-meta", "6", "--log-level", "'*:DEBUG,txcache:TRACE'"]
    ensures Command(c) == Join(Words(Command(c)))
  {
    LiteralIsWord("50"); LiteralIsWord("10"); LiteralIsWord("6");
    CommandOfWords(c);
  }

  // ---------------------------------------------------------------------------
  // Capturing the output streams

  /** What `read_output` keeps of the raw lines of a stream: each line stripped,
    * blank lines dropped, order kept. */
  function Captured(lines: seq<string>): (r: seq<string>)
    ensures |r| <= |lines|
  {
    if lines == [] then []
    else Captured(lines[..|lines| - 1]) + Kept(lines[|lines| - 1])
  }

  /** What `read_output` keeps of one raw line: the stripped line, unless it is empty. */
  function Kept(line: string): (r: seq<string>)
    ensures |r| <= 1
  {
    var d := Strip(line);
    if d == [] then [] else [d]
  }

  /** Reading one more line of a stream keeps what that line contributes. */
  lemma CapturedPrefix(lines: seq<string>, k: nat)
    requires k < |lines|
    ensures Captured(lines[..k + 1]) == Captured(lines[..k]) + Kept(lines[k])
  {
    assert lines[..k + 1][..k] == lines[..k];
  }

  /** Every captured line is non-empty and already stripped. */
  lemma {:induction false} CapturedStripped(lines: seq<string>)
    ensures forall k :: 0 <= k < |Captured(lines)| ==> Captured(lines)[k] != [] && Strip(Captured(lines)[k]) == Captured(lines)[k]
  {
    if lines != [] {
      CapturedStripped(lines[..|lines| - 1]);
      StripIdempotent(lines[|lines| - 1]);
    }
  }

  /** Reading two parts of a stream one after the other keeps what reading the
    * whole keeps. */
  lemma {:induction false} CapturedConcat(a: seq<string>, b: seq<string>)
    ensures Captured(a + b) == Captured(a) + Captured(b)
    decreases |b|
  {
    if b == [] {
      assert a + b == a;
    } else {
      var b' := b[..|b| - 1];
      assert (a + b)[..|a + b| - 1] == a + b';
      assert (a + b)[|a + b| - 1] == b[|b| - 1];
      CapturedConcat(a, b');
      AppendAssociative(Captured(a), Captured(b'), Kept(b[|b| - 1]));
    }
  }

  /** A single line is kept, stripped, exactly when it holds something other than whitespace. */
  lemma CapturedLine(line: string)
    ensures Captured([line]) == if AllSpace(line) then [] else [Strip(line)]
  {
    assert [line][..0] == [];
    StripEmptyIffAllSpace(line);
  }

  /** What `cap` keeps of the first `n` batches of delivered output, in order. */
  function Delivered(cap: seq<string> -> seq<string>, batches: seq<seq<string>>, n: nat): seq<string>
    requires n <= |batches|
  {
    if n == 0 then [] else Delivered(cap, batches, n - 1) + cap(batches[n - 1])
  }

  lemma DeliveredStep(cap: seq<string> -> seq<string>, batches: seq<seq<string>>, n: nat)
    requires n < |batches|
    ensures Delivered(cap, batches, n + 1) == Delivered(cap, batches, n) + cap(batches[n])
  {
  }

  // ---------------------------------------------------------------------------
  // Where a scan stops

  /** The test that ends the scan at an entry, for one hash: the entry yields
    * the record, or its decoding raises past the `except`. */
  function Selects(txHash: string): string -> bool {
    line => StopsScan(line, txHash)
  }

  /** The index of the first line at or after `from` that passes `q`, or `|lines|`
    * when there is none. */
  function FirstWhere(lines: seq<string>, from: nat, q: string -> bool): (i: nat)
    requires from <= |lines|
    ensures from <= i <= |lines|
    decreases |lines| - from
  {
    if from == |lines| then from
    else if q(lines[from]) then from
    else FirstWhere(lines, from + 1, q)
  }

  /** `FirstWhere` finds a line that passes, and no line before it passes. */
  lemma {:induction false} FirstWhereSpec(lines: seq<string>, from: nat, q: string -> bool)
    requires from <= |lines|
    ensures FirstWhere(lines, from, q) < |lines| ==> q(lines[FirstWhere(lines, from, q)])
    ensures forall j :: from <= j < FirstWhere(lines, from, q) ==> !q(lines[j])
    decreases |lines| - from
  {
    if from < |lines| && !q(lines[from]) {
      FirstWhereSpec(lines, from + 1, q);
    }
  }

  /** Starting later, but not past the first passing line, finds the same line. */
  lemma {:induction false} FirstWhereSkip(lines: seq<string>, from: nat, later: nat, q: string -> bool)
    requires from <= |lines|
    requires from <= later <= FirstWhere(lines, from, q)
    ensures FirstWhere(lines, later, q) == FirstWhere(lines, from, q)
    decreases later - from
  {
    if from < later {
      FirstWhereSkip(lines, from + 1, later, q);
    }
  }

  /** Appending lines does not move a passing line already found, and when there
    * was none the search continues into the new lines. */
  lemma {:induction false} FirstWhereExtend(lines: seq<string>, more: seq<string>, from: nat, q: string -> bool)
    requires from <= |lines|
    ensures FirstWhere(lines, from, q) < |lines| ==>
      FirstWhere(lines + more, from, q) == FirstWhere(lines, from, q)
    ensures FirstWhere(lines, from, q) == |lines| ==>
      FirstWhere(lines + more, from, q) == FirstWhere(lines + more, |lines|, q)
    decreases |lines| - from
  {
    if from < |lines| {
      assert (lines + more)[from] == lines[from];
      if !q(lines[from]) {
        FirstWhereExtend(lines, more, from + 1, q);
      }
    }
  }

  /** `Qualifies`, `Overflows` and `ParseSelectionLine` spelled out as the scan's
    * chain of tests. */
  lemma QualifiesSteps(line: string, txHash: string)
    ensures Qualifies(line, txHash) <==>
      Contains(line, txHash) && MatchSelection(line).Some? && DecodeJson(MatchSelection(line).value).Ok?
      && DecodeJson(MatchSelection(line).value).value.hash == txHash
    ensures Overflows(line) <==>
      MatchSelection(line).Some? && DecodeJson(MatchSelection(line).value) == Err(TooManyDigits)
    ensures MatchSelection(line).Some? && DecodeJson(MatchSelection(line).value).Ok? ==>
      ParseSelectionLine(line) == Some(DecodeJson(MatchSelection(line).value).value)
  {
  }

  // ---------------------------------------------------------------------------
  // The supervisor

  /** The launched shell: its process identifier, the command it runs and its
    * working directory. */
  datatype Process = Process(pid: nat, command: string, workingDirectory: string)

  datatype InitError = BinaryNotFound(message: string)
  datatype StartError = LaunchFailed
  datatype StopReport = NoProcessFound | Stopped(pid: nat)
  datatype StopError = ProcessLookupError(pid: nat)

  /** The outcome of the selection scan: the decoded record, the `ValueError` that
    * `json.loads` raises for a number past the digit limit (it is not a
    * `JSONDecodeError`, so the `except` lets it through), or the timeout error. */
  datatype Extraction = Found(record: SelectionRecord) | DigitLimitExceeded | TimedOut(txHash: string, timeout: real)

  /** The default of the `timeout` argument, in seconds. */
  const DefaultTimeout: real := 10.0

  const BinaryMissing := "ChainSimulator binary not found at the specified path."

  // ---------------------------------------------------------------------------
  // The selection scan as a function of its inputs

  /** What the environment must provide: a clock reading at or past the timeout
    * eventually, and a batch of output for every pause before it. */
  predicate ClockRunsOut(timeout: real, clock: seq<real>, arrivals: seq<seq<string>>) {
    clock != [] && clock[|clock| - 1] >= timeout && |clock| <= |arrivals| + 1
  }

  /** A pass that begins before the timeout is not the last clock reading. */
  lemma NextPass(timeout: real, clock: seq<real>, arrivals: seq<seq<string>>, p: nat)
    requires ClockRunsOut(timeout, clock, arrivals) && p < |clock| && clock[p] < timeout
    ensures p + 1 < |clock|
  {
  }

  /** The buffer after `n` pauses: the starting buffer and what `cap` keeps of the
    * output of each pause. */
  function Buffer(cap: seq<string> -> seq<string>, arrivals: seq<seq<string>>, start: seq<string>, n: nat): seq<string>
    requires n <= |arrivals|
  {
    start + Delivered(cap, arrivals, n)
  }

  /** The cursor of the pass after `n` pauses: 0 for the first pass, and the end of
    * the buffer as the previous pass saw it for every later one. */
  function Cursor(cap: seq<string> -> seq<string>, arrivals: seq<seq<string>>, start: seq<string>, n: nat): (c: nat)
    requires n <= |arrivals|
    ensures c <= |Buffer(cap, arrivals, start, n)|
  {
    if n == 0 then 0 else |Buffer(cap, arrivals, start, n - 1)|
  }

  /** A pause appends its kept output to the buffer. */
  lemma BufferStep(cap: seq<string> -> seq<string>, arrivals: seq<seq<string>>, start: seq<string>, n: nat)
    requires n < |arrivals|
    ensures Buffer(cap, arrivals, start, n + 1) == Buffer(cap, arrivals, start, n) + cap(arrivals[n])
    ensures Cursor(cap, arrivals, start, n + 1) == |Buffer(cap, arrivals, start, n)|
  {
    DeliveredStep(cap, arrivals, n);
    AppendAssociative(start, Delivered(cap, arrivals, n), cap(arrivals[n]));
  }

  /** Where the scan ends: the index, in the buffer after `pauses` pauses, of the
    * entry it returns, or `None` when it gives up after `pauses` pauses. */
  datatype Waited = Waited(found: Option<nat>, pauses: nat)

  /** The number of passes made: one more than the pauses when an entry was found. */
  function Passes(w: Waited): (n: nat)
    ensures w.found.Some? ==> n == w.pauses + 1
    ensures w.found.None? ==> n == w.pauses
  {
    if w.found.Some? then w.pauses + 1 else w.pauses
  }

  /** The scan from pass `p` on, for the entry test `q`: while the elapsed time is
    * below the timeout, look for the first entry of the buffer at or after the
    * cursor that passes `q`; if there is none, pause and let a batch arrive. */
  function Wait(q: string -> bool, cap: seq<string> -> seq<string>, timeout: real, clock: seq<real>, arrivals: seq<seq<string>>,
                start: seq<string>, p: nat): (w: Waited)
    requires ClockRunsOut(timeout, clock, arrivals) && p < |clock|
    ensures p <= w.pauses < |clock| && Passes(w) < |clock|
    ensures w.found.Some? ==> w.found.value < |Buffer(cap, arrivals, start, w.pauses)|
    decreases |clock| - p
  {
    if clock[p] >= timeout then Waited(None, p)
    else
      NextPass(timeout, clock, arrivals, p);
      var logs := Buffer(cap, arrivals, start, p);
      var i := FirstWhere(logs, Cursor(cap, arrivals, start, p), q);
      if i < |logs| then Waited(Some(i), p)
      else Wait(q, cap, timeout, clock, arrivals, start, p + 1)
  }

  /** One pass of `Wait`: at the timeout it gives up; otherwise it returns the entry
    * its search finds, or pauses and goes on with the next pass. */
  lemma WaitPass(q: string -> bool, cap: seq<string> -> seq<string>, timeout: real, clock: seq<real>, arrivals: seq<seq<string>>,
                 start: seq<string>, p: nat)
    requires ClockRunsOut(timeout, clock, arrivals) && p < |clock|
    ensures clock[p] >= timeout ==> Wait(q, cap, timeout, clock, arrivals, start, p) == Waited(None, p)
    ensures clock[p] < timeout ==>
      var logs := Buffer(cap, arrivals, start, p);
      var i := FirstWhere(logs, Cursor(cap, arrivals, start, p), q);
      && p + 1 < |clock|
      && (i < |logs| ==> Wait(q, cap, timeout, clock, arrivals, start, p) == Waited(Some(i), p))
      && (i == |logs| ==> Wait(q, cap, timeout, clock, arrivals, start, p) == Wait(q, cap, timeout, clock, arrivals, start, p + 1))
  {
    if clock[p] < timeout {
      NextPass(timeout, clock, arrivals, p);
    }
  }

  /** Every pass begins before the timeout, and the scan gives up only once the
    * clock has reached it. */
  lemma {:induction false} WaitTiming(q: string -> bool, cap: seq<string> -> seq<string>, timeout: real, clock: seq<real>, arrivals: seq<seq<string>>,
                                      start: seq<string>, p: nat)
    requires ClockRunsOut(timeout, clock, arrivals) && p < |clock|
    requires forall k :: 0 <= k < p ==> clock[k] < timeout
    ensures var w := Wait(q, cap, timeout, clock, arrivals, start, p);
      && (forall k :: 0 <= k < Passes(w) ==> clock[k] < timeout)
      && (w.found.None? ==> clock[w.pauses] >= timeout)
    decreases |clock| - p
  {
    if clock[p] < timeout {
      NextPass(timeout, clock, arrivals, p);
      var logs := Buffer(cap, arrivals, start, p);
      if FirstWhere(logs, Cursor(cap, arrivals, start, p), q) == |logs| {
        WaitTiming(q, cap, timeout, clock, arrivals, start, p + 1);
      }
    }
  }

  /** When no entry before the cursor passes, the entry the scan returns is the
    * first passing entry of its buffer, and when the scan gives up no entry before
    * the last pass's cursor passes. */
  lemma {:induction false} WaitFirst(q: string -> bool, cap: seq<string> -> seq<string>, timeout: real, clock: seq<real>, arrivals: seq<seq<string>>,
                                     start: seq<string>, p: nat)
    requires ClockRunsOut(timeout, clock, arrivals) && p < |clock|
    requires Cursor(cap, arrivals, start, p) <= FirstWhere(Buffer(cap, arrivals, start, p), 0, q)
    ensures var w := Wait(q, cap, timeout, clock, arrivals, start, p);
      var logs := Buffer(cap, arrivals, start, w.pauses);
      && Cursor(cap, arrivals, start, w.pauses) <= FirstWhere(logs, 0, q)
      && (w.found.Some? ==> w.found.value == FirstWhere(logs, 0, q) < |logs|)
    decreases |clock| - p
  {
    if clock[p] < timeout {
      NextPass(timeout, clock, arrivals, p);
      var logs := Buffer(cap, arrivals, start, p);
      FirstWhereSkip(logs, 0, Cursor(cap, arrivals, start, p), q);
      if FirstWhere(logs, Cursor(cap, arrivals, start, p), q) == |logs| {
        BufferStep(cap, arrivals, start, p);
        FirstWhereExtend(logs, cap(arrivals[p]), 0, q);
        WaitFirst(q, cap, timeout, clock, arrivals, start, p + 1);
      }
    }
  }

  /** A timeout that has already passed when the scan begins gives up with no
    * pass made. */
  lemma WaitExpired(q: string -> bool, cap: seq<string> -> seq<string>, timeout: real, clock: seq<real>, arrivals: seq<seq<string>>, start: seq<string>)
    requires ClockRunsOut(timeout, clock, arrivals)
    requires timeout <= 0.0 && clock[0] >= 0.0
    ensures Wait(q, cap, timeout, clock, arrivals, start, 0) == Waited(None, 0)
  {
  }

  /** The line a search with the scan's test finds either parses, to a record with
    * the hash, or holds the hash and overflows the digit limit. */
  lemma FirstSelectedParses(logs: seq<string>, from: nat, txHash: string)
    requires from <= |logs| && FirstWhere(logs, from, Selects(txHash)) < |logs|
    ensures var e := logs[FirstWhere(logs, from, Selects(txHash))];
      && (Qualifies(e, txHash) ==> ParseSelectionLine(e).Some? && ParseSelectionLine(e).value.hash == txHash)
      && (!Qualifies(e, txHash) ==> Contains(e, txHash) && Overflows(e))
  {
    FirstWhereSpec(logs, from, Selects(txHash));
    QualifiesIffParsedHash(logs[FirstWhere(logs, from, Selects(txHash))], txHash);
  }

  /** The scan over a buffer that starts as `start`, for `txHash`: it stops at the
    * first entry of the buffer it ends with that qualifies or overflows, and
    * such an entry that qualifies parses to a record carrying the hash; it gives
    * up only at the timeout, with no entry it examined stopping it. */
  lemma ScanOutcome(txHash: string, timeout: real, clock: seq<real>, arrivals: seq<seq<string>>, start: seq<string>)
    requires ClockRunsOut(timeout, clock, arrivals)
    ensures var w := Wait(Selects(txHash), Captured, timeout, clock, arrivals, start, 0);
      var logs := Buffer(Captured, arrivals, start, w.pauses);
      && (w.found.Some? ==>
            && w.found.value == FirstWhere(logs, 0, Selects(txHash)) < |logs|
            && (Qualifies(logs[w.found.value], txHash) ==>
                  ParseSelectionLine(logs[w.found.value]).Some?
                  && ParseSelectionLine(logs[w.found.value]).value.hash == txHash)
            && (!Qualifies(logs[w.found.value], txHash) ==>
                  Contains(logs[w.found.value], txHash) && Overflows(logs[w.found.value]))
            && (forall j :: 0 <= j < w.found.value ==> !StopsScan(logs[j], txHash)))
      && (w.found.None? ==>
            && clock[w.pauses] >= timeout
            && (forall j :: 0 <= j < Cursor(Captured, arrivals, start, w.pauses) ==> !StopsScan(logs[j], txHash)))
      && (forall k :: 0 <= k < Passes(w) ==> clock[k] < timeout)
  {
    var q := Selects(txHash);
    var w := Wait(q, Captured, timeout, clock, arrivals, start, 0);
    var logs := Buffer(Captured, arrivals, start, w.pauses);
    WaitTiming(q, Captured, timeout, clock, arrivals, start, 0);
    WaitFirst(q, Captured, timeout, clock, arrivals, start, 0);
    FirstWhereSpec(logs, 0, q);
    if w.found.Some? {
      FirstSelectedParses(logs, 0, txHash);
    }
  }

  class ChainSimulator {
    const path: string
    const folder: string
    const config: Config
    /** `self.process`: `None` until `start`, and never reset by `stop`. */
    var process: Option<Process>
    /** Whether `stop` has waited for the current process, so that its identifier
      * no longer names a process. */
    var reaped: bool
    /** The queue of captured lines (only ever appended to). */
    var logs: seq<string>
    /** Every captured line, in the order of capture. */
    var allLogs: seq<string>

    constructor (path: string, folder: string, config: Config)
      ensures this.path == path && this.folder == folder && this.config == config
      ensures process == None && !reaped && logs == [] && allLogs == []
    {
      this.path := path;
      this.folder := folder;
      this.config := config;
      process := None;
      reaped := false;
      logs := [];
      allLogs := [];
    }

    /** `ChainSimulator(path)`: the object is built, then discarded with
      * `FileNotFoundError` when `folder/chainsimulator` is not among the existing files. */
    static method Create(path: string, folder: string, config: Config, files: set<string>)
      returns (r: Result<ChainSimulator, InitError>)
      ensures r.Err? <==> folder + BinaryName !in files
      ensures r.Err? ==> r.error == BinaryNotFound(BinaryMissing)
      ensures r.Ok? ==>
        fresh(r.value) && r.value.path == path && r.value.folder == folder
        && r.value.config == config && r.value.process == None && r.value.logs == [] && r.value.allLogs == []
    {
      var sim := new ChainSimulator(path, folder, config);
      if folder + BinaryName !in files {
        return Err(BinaryNotFound(BinaryMissing));
      }
      return Ok(sim);
    }

    /** `start`: launches the normalised command in the binary's folder. `launched`
      * is the identifier the operating system gives the new process, or `None`
      * when launching fails, in which case nothing changes. */
    method Start(launched: Option<nat>) returns (r: Result<Process, StartError>)
      modifies this`process, this`reaped
      ensures launched.None? ==> r == Err(LaunchFailed) && process == old(process) && reaped == old(reaped)
      ensures launched.Some? ==>
        r == Ok(Process(launched.value, Command(config), folder)) && process == Some(r.value) && !reaped
    {
      if launched.None? {
        return Err(LaunchFailed);
      }
      var p := Process(launched.value, Command(config), folder);
      process := Some(p);
      reaped := false;
      return Ok(p);
    }

    /** `read_output`: consumes one stream, appending each non-blank stripped line
      * to both the queue and the list of all logs. */
    method ReadOutput(stream: seq<string>)
      modifies this`logs, this`allLogs
      ensures logs == old(logs) + Captured(stream)
      ensures allLogs == old(allLogs) + Captured(stream)
    {
      for k := 0 to |stream|
        invariant logs == old(logs) + Captured(stream[..k])
        invariant allLogs == old(allLogs) + Captured(stream[..k])
      {
        var decoded := Strip(stream[k]);
        CapturedPrefix(stream, k);
        if decoded != [] {
          AppendAssociative(old(logs), Captured(stream[..k]), [decoded]);
          AppendAssociative(old(allLogs), Captured(stream[..k]), [decoded]);
          logs := logs + [decoded];
          allLogs := allLogs + [decoded];
        } else {
          assert Captured(stream[..k]) + Kept(stream[k]) == Captured(stream[..k]);
        }
      }
      assert stream[..|stream|] == stream;
    }

    /** `stop`: signals the process group and waits for the process. Without a
      * process it only warns. The identifier of a process that has already been
      * waited for, or whose group `groupExists` says is gone, no longer resolves,
      * and `os.getpgid` raises. `process` is never reset. */
    method Stop(groupExists: bool) returns (r: Result<StopReport, StopError>)
      modifies this`reaped
      ensures process.None? ==> r == Ok(NoProcessFound) && reaped == old(reaped)
      ensures process.Some? && (old(reaped) || !groupExists) ==>
        r == Err(ProcessLookupError(process.value.pid)) && reaped == old(reaped)
      ensures process.Some? && !old(reaped) && groupExists ==>
        r == Ok(Stopped(process.value.pid)) && reaped
    {
      if process.None? {
        return Ok(NoProcessFound);
      }
      if reaped || !groupExists {
        return Err(ProcessLookupError(process.value.pid));
      }
      reaped := true;
      return Ok(Stopped(process.value.pid));
    }

    /** One pass of the scan over `all_logs[from:]`: at the first entry, in order,
      * that contains the hash and matches the pattern, and whose decoding either
      * carries the hash or overflows the digit limit, the record or the
      * `ValueError`; `None` when the pass ends without one. */
    method ScanFrom(from: nat, txHash: string) returns (r: Option<Extraction>)
      requires from <= |allLogs|
      ensures r.Some? <==> FirstWhere(allLogs, from, Selects(txHash)) < |allLogs|
      ensures r.Some? ==>
        var e := allLogs[FirstWhere(allLogs, from, Selects(txHash))];
        && (r.value.Found? <==> Qualifies(e, txHash))
        && (r.value.Found? ==> Some(r.value.record) == ParseSelectionLine(e) && r.value.record.hash == txHash)
        && (!r.value.Found? ==> r.value == DigitLimitExceeded)
    {
      var current := allLogs[from..];
      for k := 0 to |current|
        invariant FirstWhere(allLogs, from + k, Selects(txHash)) == FirstWhere(allLogs, from, Selects(txHash))
      {
        var entry := current[k];
        assert entry == allLogs[from + k];
        QualifiesSteps(entry, txHash);
        if Contains(entry, txHash) {
          var matched := MatchSelection(entry);
          if matched.Some? {
            var decoded := DecodeJson(matched.value);
            if decoded.Ok? {
              if decoded.value.hash == txHash {
                return Some(Found(decoded.value));
              }
            } else if decoded.error == TooManyDigits {
              return Some(DigitLimitExceeded);
            }
          }
        }
      }
      return None;
    }

    /** `get_first_matching_transaction_selection_log`. `clock[p]` is the elapsed
      * time read before pass `p`; `arrivals[p]` the raw lines the reader threads
      * deliver while the scan sleeps after pass `p`. The outcome and the buffer
      * are those of `Wait` with the scan's test; `ScanOutcome` says what that
      * means. */
    method GetFirstMatchingSelection(txHash: string, timeout: real, clock: seq<real>, arrivals: seq<seq<string>>)
      returns (r: Extraction)
      requires ClockRunsOut(timeout, clock, arrivals)
      modifies this`logs, this`allLogs
      ensures var w := Wait(Selects(txHash), Captured, timeout, clock, arrivals, old(allLogs), 0);
        && allLogs == Buffer(Captured, arrivals, old(allLogs), w.pauses)
        && logs == old(logs) + Delivered(Captured, arrivals, w.pauses)
        && (w.found.None? ==> r == TimedOut(txHash, timeout))
        && (w.found.Some? && Qualifies(allLogs[w.found.value], txHash) ==>
              r.Found? && Some(r.record) == ParseSelectionLine(allLogs[w.found.value]))
        && (w.found.Some? && !Qualifies(allLogs[w.found.value], txHash) ==> r == DigitLimitExceeded)
    {
      ghost var start := allLogs;
      var lastIndex: nat := 0;
      var p := 0;
      while clock[p] < timeout
        invariant 0 <= p < |clock| && p <= |arrivals|
        invariant allLogs == Buffer(Captured, arrivals, start, p)
        invariant logs == old(logs) + Delivered(Captured, arrivals, p)
        invariant lastIndex == Cursor(Captured, arrivals, start, p)
        invariant Wait(Selects(txHash), Captured, timeout, clock, arrivals, start, p)
               == Wait(Selects(txHash), Captured, timeout, clock, arrivals, start, 0)
        decreases |clock| - p
      {
        WaitPass(Selects(txHash), Captured, timeout, clock, arrivals, start, p);
        var found := ScanFrom(lastIndex, txHash);
        if found.Some? {
          return found.value;
        }
        lastIndex := |allLogs|;
        ReadOutput(arrivals[p]);
        BufferStep(Captured, arrivals, start, p);
        DeliveredStep(Captured, arrivals, p);
        AppendAssociative(old(logs), Delivered(Captured, arrivals, p), Captured(arrivals[p]));
        p := p + 1;
      }
      WaitPass(Selects(txHash), Captured, timeout, clock, arrivals, start, p);
      return TimedOut(txHash, timeout);
    }
  }
}
