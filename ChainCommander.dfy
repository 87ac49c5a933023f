/**
 * `python_files/chain_commander.py`: the calls that drive the simulated chain
 * over its HTTP interface. The node is replaced by the replies it gives; every
 * operation reports the requests it sends, in order, beside its result, so that
 * what the source sends and when it stops can be stated.
 */
module Commander {
  import opened Common
  import opened Text
  import opened SelectionLog
  import Settings

  /** `MAX_NUM_OF_BLOCKS_UNTIL_TX_SHOULD_BE_EXECUTED` of `python_files/constants.py`. */
  const MaxBlocks: nat := 20

  /** `int(rounds_per_epoch)`: the configured string read in base 10. */
  const RoundsPerEpoch: int := DecimalValue(Settings.RoundsPerEpoch)

  /** The configured string is the canonical decimal text of the value, so
    * `int` reads it exactly; the value is fifty. */
  lemma RoundsPerEpochValue()
    ensures Settings.RoundsPerEpoch == NatToDecimal(RoundsPerEpoch)
    ensures RoundsPerEpoch == 50
  {
    DecimalCanonical(Settings.RoundsPerEpoch);
  }

  /** The shard the network status is read from; `4294967295` is the metachain. */
  const Shard0: nat := 0
  const Metachain: nat := 4294967295

  const PendingStatus := "pending"
  const ExpiredStatus := "expired"
  const TxNotFound := "transaction not found"

  /** The requests the commander sends to the node's proxy. */
  datatype Request =
    | GetTxStatus(txHash: string)           // GET  /transaction/<hash>/process-status
    | GetNetworkStatus(shard: nat)          // GET  /network/status/<shard>
    | GenerateBlocks(blocks: int)           // POST /simulator/generate-blocks/<n>
    | GenerateUntilEpoch(epoch: int)        // POST /simulator/generate-blocks-until-epoch-reached/<e>
    | ForceEpochChange(target: int)         // POST /simulator/force-epoch-change?targetEpoch=<e>

  /** The exceptions that leave the commander's functions. */
  datatype Error =
    | HttpError                             // `raise_for_status` on an error status
    | JsonDecodeError                       // `response.json()` on a body that is not JSON
    | AttributeError                        // `.get` on something that is not a dictionary
    | TypeError                             // arithmetic or comparison with `None`
    | OtherError                            // any other exception of a liveness probe
    | NotExecutedWithin(txHash: string, blocks: nat)

  /** The `"status"` entry of the `"data"` object; `None` when it is missing or null. */
  datatype Data<S> = Data(status: Option<S>)

  /** The decoded body: not JSON, JSON but not an object, or an object whose
    * `"data"` entry is an object (`Some`) or missing, null or of another type (`None`). */
  datatype Body<S> = NotJson | NotObject | Object(data: Option<Data<S>>)

  /** A reply to a GET: whether its status is a success, its raw text, its decoded body. */
  datatype Reply<S> = Reply(ok: bool, text: string, body: Body<S>)

  /** A reply to a POST: whether its status is a success, and its text. */
  datatype PostReply = PostReply(ok: bool, text: string)

  /** A call's result, or the exception it raises, and the requests it sent. */
  datatype Call<T> = Call(result: Result<T, Error>, sent: seq<Request>)

  /** The network status of a shard: the integer entries of `data.status`. */
  type NetworkStatus = map<string, int>

  // ---------------------------------------------------------------------------
  // Single requests

  /** `get_status_of_tx`. The body is decoded before the text is searched, so a
    * text that is not JSON raises even when it holds the phrase. */
  function GetStatusOfTx(txHash: string, reply: Reply<string>): (c: Call<Option<string>>)
    ensures c.sent == [GetTxStatus(txHash)]
    ensures c.result.Ok? <==>
      reply.ok && !reply.body.NotJson? && (Contains(reply.text, TxNotFound) || (reply.body.Object? && reply.body.data.Some?))
    ensures !reply.ok ==> c.result == Err(HttpError)
    ensures reply.ok && reply.body.NotJson? ==> c.result == Err(JsonDecodeError)
    ensures reply.ok && !reply.body.NotJson? && c.result.Err? ==> c.result == Err(AttributeError)
    ensures reply.ok && !reply.body.NotJson? && Contains(reply.text, TxNotFound) ==> c.result == Ok(Some(ExpiredStatus))
    ensures c.result.Ok? && !Contains(reply.text, TxNotFound) ==> c.result.value == reply.body.data.value.status
  {
    var sent := [GetTxStatus(txHash)];
    if !reply.ok then Call(Err(HttpError), sent)
    else if reply.body.NotJson? then Call(Err(JsonDecodeError), sent)
    else if Contains(reply.text, TxNotFound) then Call(Ok(Some(ExpiredStatus)), sent)
    else if reply.body.NotObject? || reply.body.data.None? then Call(Err(AttributeError), sent)
    else Call(Ok(reply.body.data.value.status), sent)
  }

  /** The phrase decides the status alone: two decodable replies that hold it give
    * the same status whatever their `data` says. */
  lemma NotFoundOverridesData(txHash: string, r1: Reply<string>, r2: Reply<string>)
    requires r1.ok && r2.ok && !r1.body.NotJson? && !r2.body.NotJson?
    requires Contains(r1.text, TxNotFound) && Contains(r2.text, TxNotFound)
    ensures GetStatusOfTx(txHash, r1) == GetStatusOfTx(txHash, r2)
  {
  }

  /** `add_blocks(n)`: one POST for `n` blocks; its text, or `HTTPError`. */
  function AddBlocks(n: int, reply: PostReply): (c: Call<string>)
    ensures c.sent == [GenerateBlocks(n)]
    ensures c.result.Ok? <==> reply.ok
    ensures c.result.Ok? ==> c.result.value == reply.text
    ensures c.result.Err? ==> c.result.error == HttpError
  {
    Call(if reply.ok then Ok(reply.text) else Err(HttpError), [GenerateBlocks(n)])
  }

  /** `parsed.get("data").get("status").get(key)` on a network-status reply, after
    * `raise_for_status` and `response.json()`. */
  function StatusEntry(reply: Reply<NetworkStatus>, key: string): (r: Result<Option<int>, Error>)
    ensures r.Ok? <==>
      reply.ok && reply.body.Object? && reply.body.data.Some? && reply.body.data.value.status.Some?
    ensures r.Ok? ==> (r.value.Some? <==> key in reply.body.data.value.status.value)
    ensures r.Ok? && r.value.Some? ==> r.value.value == reply.body.data.value.status.value[key]
    ensures !reply.ok ==> r == Err(HttpError)
    ensures reply.ok && reply.body.NotJson? ==> r == Err(JsonDecodeError)
    ensures reply.ok && !reply.body.NotJson? && r.Err? ==> r == Err(AttributeError)
  {
    if !reply.ok then Err(HttpError)
    else if reply.body.NotJson? then Err(JsonDecodeError)
    else if reply.body.NotObject? || reply.body.data.None? || reply.body.data.value.status.None? then Err(AttributeError)
    else
      var status := reply.body.data.value.status.value;
      Ok(if key in status then Some(status[key]) else None)
  }

  /** The number of blocks a sequence of requests asks the node to generate. */
  function BlocksRequested(sent: seq<Request>): int {
    if sent == [] then 0
    else BlocksOf(sent[0]) + BlocksRequested(sent[1..])
  }

  lemma {:induction false} BlocksRequestedAppend(a: seq<Request>, b: seq<Request>)
    ensures BlocksRequested(a + b) == BlocksRequested(a) + BlocksRequested(b)
  {
    if a == [] {
      assert a + b == b;
    } else {
      assert (a + b)[0] == a[0];
      assert (a + b)[1..] == a[1..] + b;
      BlocksRequestedAppend(a[1..], b);
    }
  }

  /** The blocks of a request: its count for a block request, 0 for any other. */
  function BlocksOf(q: Request): int {
    if q.GenerateBlocks? then q.blocks else 0
  }

  lemma BlocksOfPair(a: Request, b: Request)
    ensures BlocksRequested([a, b]) == BlocksOf(a) + BlocksOf(b)
  {
    assert [a, b][1..] == [b];
    assert [b][1..] == [];
    assert BlocksRequested([b]) == BlocksOf(b) + BlocksRequested([]);
  }

  // ---------------------------------------------------------------------------
  // Epochs

  /** `add_blocks_until_epoch_reached(epoch)`: asks the node to reach the epoch,
    * then generates one more block; returns the text of the first request. */
  function AddBlocksUntilEpochReached(epoch: int, reached: PostReply, extra: PostReply): (c: Call<string>)
    ensures c.result.Ok? <==> reached.ok && extra.ok
    ensures c.result.Ok? ==> c.result.value == reached.text
    ensures reached.ok ==> c.sent == [GenerateUntilEpoch(epoch), GenerateBlocks(1)]
    ensures !reached.ok ==> c == Call(Err(HttpError), [GenerateUntilEpoch(epoch)])
  {
    if !reached.ok then Call(Err(HttpError), [GenerateUntilEpoch(epoch)])
    else
      var added := AddBlocks(1, extra);
      Call(if added.result.Ok? then Ok(reached.text) else Err(added.result.error), [GenerateUntilEpoch(epoch)] + added.sent)
  }

  /** Reaching an epoch costs exactly one block beyond what the node generates itself. */
  lemma UntilEpochOneExtraBlock(epoch: int, reached: PostReply, extra: PostReply)
    requires reached.ok
    ensures BlocksRequested(AddBlocksUntilEpochReached(epoch, reached, extra).sent) == 1
  {
    var sent := AddBlocksUntilEpochReached(epoch, reached, extra).sent;
    BlocksOfPair(GenerateUntilEpoch(epoch), GenerateBlocks(1));
  }

  /** `add_blocks_until_last_block_of_current_epoch`: reads the metachain status and
    * asks for `int(rounds_per_epoch)` less the nonces already passed in the epoch,
    * with no check that the difference is positive. */
  function AddBlocksUntilLastBlockOfEpoch(status: Reply<NetworkStatus>, post: PostReply): (c: Call<string>)
    ensures c.sent != [] && c.sent[0] == GetNetworkStatus(Metachain)
    ensures StatusEntry(status, "erd_nonces_passed_in_current_epoch").Err? ==>
      c == Call(Err(StatusEntry(status, "erd_nonces_passed_in_current_epoch").error), [GetNetworkStatus(Metachain)])
    ensures StatusEntry(status, "erd_nonces_passed_in_current_epoch") == Ok(None) ==>
      c == Call(Err(TypeError), [GetNetworkStatus(Metachain)])
    ensures StatusEntry(status, "erd_nonces_passed_in_current_epoch").Ok? && StatusEntry(status, "erd_nonces_passed_in_current_epoch").value.Some? ==>
      var passed := StatusEntry(status, "erd_nonces_passed_in_current_epoch").value.value;
      c == Call(AddBlocks(RoundsPerEpoch - passed, post).result, [GetNetworkStatus(Metachain), GenerateBlocks(RoundsPerEpoch - passed)])
  {
    var get := [GetNetworkStatus(Metachain)];
    match StatusEntry(status, "erd_nonces_passed_in_current_epoch")
    case Err(e) => Call(Err(e), get)
    case Ok(None) => Call(Err(TypeError), get)
    case Ok(Some(passed)) =>
      var added := AddBlocks(RoundsPerEpoch - passed, post);
      Call(added.result, get + added.sent)
  }

  /** The blocks requested and the nonces already passed add up to one epoch. */
  lemma EpochDeficit(status: Reply<NetworkStatus>, post: PostReply, passed: int)
    requires StatusEntry(status, "erd_nonces_passed_in_current_epoch") == Ok(Some(passed))
    ensures BlocksRequested(AddBlocksUntilLastBlockOfEpoch(status, post).sent) + passed == RoundsPerEpoch
    ensures passed > RoundsPerEpoch ==> BlocksRequested(AddBlocksUntilLastBlockOfEpoch(status, post).sent) < 0
  {
    BlocksOfPair(GetNetworkStatus(Metachain), GenerateBlocks(RoundsPerEpoch - passed));
  }

  /** `force_move_to_epoch(target)`: reads the epoch of shard 0 and posts the forced
    * change, returning its text, only when the current epoch is below the target;
    * otherwise returns `None`. A missing epoch number makes the comparison raise. */
  function ForceMoveToEpoch(target: int, status: Reply<NetworkStatus>, post: PostReply): (c: Call<Option<string>>)
    ensures c.sent != [] && c.sent[0] == GetNetworkStatus(Shard0)
    ensures (ForceEpochChange(target) in c.sent) <==>
      exists current :: StatusEntry(status, "erd_epoch_number") == Ok(Some(current)) && current < target
    ensures StatusEntry(status, "erd_epoch_number") == Ok(None) ==> c.result == Err(TypeError)
    ensures StatusEntry(status, "erd_epoch_number").Err? ==> c.result == Err(StatusEntry(status, "erd_epoch_number").error)
    ensures forall current :: StatusEntry(status, "erd_epoch_number") == Ok(Some(current)) ==>
      (current >= target ==> c == Call(Ok(None), [GetNetworkStatus(Shard0)]))
      && (current < target ==> c.result == (if post.ok then Ok(Some(post.text)) else Err(HttpError)))
  {
    var get := [GetNetworkStatus(Shard0)];
    match StatusEntry(status, "erd_epoch_number")
    case Err(e) => Call(Err(e), get)
    case Ok(None) => Call(Err(TypeError), get)
    case Ok(Some(current)) =>
      if current < target then
        Call(if post.ok then Ok(Some(post.text)) else Err(HttpError), get + [ForceEpochChange(target)])
      else Call(Ok(None), get)
  }

  // ---------------------------------------------------------------------------
  // Waiting for a transaction

  /** The requests of `m` rounds of the confirmation loop: a block, then a status query. */
  function Rounds(txHash: string, m: nat): (s: seq<Request>)
    ensures |s| == 2 * m
  {
    if m == 0 then [] else [GenerateBlocks(1), GetTxStatus(txHash)] + Rounds(txHash, m - 1)
  }

  lemma {:induction false} BlocksOfRounds(txHash: string, m: nat)
    ensures BlocksRequested(Rounds(txHash, m)) == m
  {
    if m > 0 {
      var s := Rounds(txHash, m);
      assert s[1..] == [GetTxStatus(txHash)] + Rounds(txHash, m - 1);
      assert s[1..][1..] == Rounds(txHash, m - 1);
      BlocksOfRounds(txHash, m - 1);
    }
  }

  /** Round `k` of the loop ends pending: its block was accepted and the status it
    * read is `"pending"`. */
  predicate Pending(txHash: string, posts: nat -> PostReply, replies: nat -> Reply<string>, k: nat) {
    posts(k).ok && GetStatusOfTx(txHash, replies(k)).result == Ok(Some(PendingStatus))
  }

  /** The first round at or after `from` that does not end pending, or `limit`. */
  function Settled(txHash: string, limit: nat, posts: nat -> PostReply, replies: nat -> Reply<string>, from: nat): (f: nat)
    requires from <= limit
    ensures from <= f <= limit
    decreases limit - from
  {
    if from == limit then limit
    else if Pending(txHash, posts, replies, from) then Settled(txHash, limit, posts, replies, from + 1)
    else from
  }

  lemma {:induction false} SettledSpec(txHash: string, limit: nat, posts: nat -> PostReply, replies: nat -> Reply<string>, from: nat)
    requires from <= limit
    ensures forall k :: from <= k < Settled(txHash, limit, posts, replies, from) ==> Pending(txHash, posts, replies, k)
    ensures Settled(txHash, limit, posts, replies, from) < limit ==>
      !Pending(txHash, posts, replies, Settled(txHash, limit, posts, replies, from))
    decreases limit - from
  {
    if from < limit && Pending(txHash, posts, replies, from) {
      SettledSpec(txHash, limit, posts, replies, from + 1);
    }
  }

  /** The confirmation loop from round `counter` on, as a function of the replies:
    * `posts(k)` answers the block request of round `k`, `replies(k)` its status query. */
  function Confirm(txHash: string, limit: nat, posts: nat -> PostReply, replies: nat -> Reply<string>, counter: nat): (c: Call<Option<string>>)
    requires counter <= limit
    ensures |c.sent| <= 2 * (limit - counter)
    ensures c.result.Err? && c.result.error.NotExecutedWithin? ==> c.result.error == NotExecutedWithin(txHash, limit)
    decreases limit - counter
  {
    if counter == limit then Call(Err(NotExecutedWithin(txHash, limit)), [])
    else
      var added := AddBlocks(1, posts(counter));
      if added.result.Err? then Call(Err(added.result.error), added.sent)
      else
        var status := GetStatusOfTx(txHash, replies(counter));
        if status.result.Err? || status.result.value != Some(PendingStatus) then Call(status.result, added.sent + status.sent)
        else
          var rest := Confirm(txHash, limit, posts, replies, counter + 1);
          Call(rest.result, added.sent + status.sent + rest.sent)
  }

  /** What the loop returns and sends, from the first round `f` that does not end
    * pending: the limit error after `limit` full rounds when there is none, the
    * block request's error, or the status `f` read, after `f + 1` rounds. */
  lemma {:induction false} ConfirmOutcome(txHash: string, limit: nat, posts: nat -> PostReply, replies: nat -> Reply<string>, from: nat)
    requires from <= limit
    ensures var c := Confirm(txHash, limit, posts, replies, from);
      var f := Settled(txHash, limit, posts, replies, from);
      && (f == limit ==> c == Call(Err(NotExecutedWithin(txHash, limit)), Rounds(txHash, limit - from)))
      && (f < limit && !posts(f).ok ==> c == Call(Err(HttpError), Rounds(txHash, f - from) + [GenerateBlocks(1)]))
      && (f < limit && posts(f).ok ==> c == Call(GetStatusOfTx(txHash, replies(f)).result, Rounds(txHash, f + 1 - from)))
    decreases limit - from
  {
    if from < limit {
      var round := [GenerateBlocks(1), GetTxStatus(txHash)];
      assert [GenerateBlocks(1)] + [GetTxStatus(txHash)] == round;
      if Pending(txHash, posts, replies, from) {
        ConfirmOutcome(txHash, limit, posts, replies, from + 1);
        var f := Settled(txHash, limit, posts, replies, from);
        var rest := Confirm(txHash, limit, posts, replies, from + 1);
        assert Confirm(txHash, limit, posts, replies, from) == Call(rest.result, round + rest.sent);
        if f < limit && !posts(f).ok {
          assert Rounds(txHash, f - from) == round + Rounds(txHash, f - (from + 1));
          AppendAssociative(round, Rounds(txHash, f - (from + 1)), [GenerateBlocks(1)]);
        }
      } else {
        assert Rounds(txHash, 1) == round + [];
      }
    }
  }


  /** What the loop promises for any limit (the source's is 20): it never asks for
    * more blocks than the limit; a status it returns is the first that is not
    * `"pending"`, read after as many blocks as its 1-based position; and it raises
    * the limit error, after exactly `limit` blocks, exactly when all rounds end pending. */
  lemma ConfirmationBlocks(txHash: string, limit: nat, posts: nat -> PostReply, replies: nat -> Reply<string>)
    ensures var c := Confirm(txHash, limit, posts, replies, 0);
      && 0 <= BlocksRequested(c.sent) <= limit
      && (c.result.Ok? ==>
            var b := BlocksRequested(c.sent);
            && 1 <= b
            && (forall k :: 0 <= k < b - 1 ==> Pending(txHash, posts, replies, k))
            && posts(b - 1).ok
            && c.result == GetStatusOfTx(txHash, replies(b - 1)).result
            && c.result.value != Some(PendingStatus))
      && (c.result == Err(NotExecutedWithin(txHash, limit)) <==>
            forall k :: 0 <= k < limit ==> Pending(txHash, posts, replies, k))
      && (c.result == Err(NotExecutedWithin(txHash, limit)) ==> BlocksRequested(c.sent) == limit)
  {
    var c := Confirm(txHash, limit, posts, replies, 0);
    var f := Settled(txHash, limit, posts, replies, 0);
    ConfirmOutcome(txHash, limit, posts, replies, 0);
    SettledSpec(txHash, limit, posts, replies, 0);
    if f == limit {
      BlocksOfRounds(txHash, limit);
    } else if !posts(f).ok {
      assert c.sent == Rounds(txHash, f) + [GenerateBlocks(1)] && c.result == Err(HttpError);
      BlocksRequestedAppend(Rounds(txHash, f), [GenerateBlocks(1)]);
      BlocksOfRounds(txHash, f);
      assert BlocksRequested([GenerateBlocks(1)]) == 1 by {
        assert [GenerateBlocks(1)][1..] == [];
      }
      assert !Pending(txHash, posts, replies, f);
    } else {
      assert c.sent == Rounds(txHash, f + 1) && c.result == GetStatusOfTx(txHash, replies(f)).result;
      BlocksOfRounds(txHash, f + 1);
      assert !Pending(txHash, posts, replies, f);
    }
  }

  /** When the rounds before `f` end pending and round `f` does not, round `f` is
    * the first that settles. */
  lemma {:induction false} SettledAt(txHash: string, limit: nat, posts: nat -> PostReply, replies: nat -> Reply<string>, from: nat, f: nat)
    requires from <= f < limit
    requires forall k :: from <= k < f ==> Pending(txHash, posts, replies, k)
    requires !Pending(txHash, posts, replies, f)
    ensures Settled(txHash, limit, posts, replies, from) == f
    decreases f - from
  {
    if from < f {
      SettledAt(txHash, limit, posts, replies, from + 1, f);
    }
  }

  /** Nineteen pending statuses and then `"success"`: the loop returns `"success"`
    * after twenty blocks. */
  lemma SuccessAtTwentiethBlock(txHash: string, posts: nat -> PostReply, replies: nat -> Reply<string>)
    requires forall k :: 0 <= k < 19 ==> Pending(txHash, posts, replies, k)
    requires posts(19).ok && GetStatusOfTx(txHash, replies(19)).result == Ok(Some("success"))
    ensures Confirm(txHash, MaxBlocks, posts, replies, 0).result == Ok(Some("success"))
    ensures BlocksRequested(Confirm(txHash, MaxBlocks, posts, replies, 0).sent) == 20
  {
    SettledAt(txHash, MaxBlocks, posts, replies, 0, 19);
    ConfirmOutcome(txHash, MaxBlocks, posts, replies, 0);
    BlocksOfRounds(txHash, 20);
  }

  /** `add_blocks_until_tx_fully_executed`: one block, then one status query, per
    * round, until a status other than `"pending"` or 20 rounds. */
  method AddBlocksUntilTxFullyExecuted(txHash: string, posts: nat -> PostReply, replies: nat -> Reply<string>)
    returns (r: Result<Option<string>, Error>, sent: seq<Request>)
    ensures Call(r, sent) == Confirm(txHash, MaxBlocks, posts, replies, 0)
  {
    var counter := 0;
    sent := [];
    while counter < MaxBlocks
      invariant counter <= MaxBlocks
      invariant Confirm(txHash, MaxBlocks, posts, replies, 0)
             == Call(Confirm(txHash, MaxBlocks, posts, replies, counter).result,
                     sent + Confirm(txHash, MaxBlocks, posts, replies, counter).sent)
      decreases MaxBlocks - counter
    {
      var added := AddBlocks(1, posts(counter));
      if added.result.Err? {
        return Err(added.result.error), sent + added.sent;
      }
      var status := GetStatusOfTx(txHash, replies(counter));
      counter := counter + 1;
      ghost var rest := Confirm(txHash, MaxBlocks, posts, replies, counter);
      if status.result.Err? || status.result.value != Some(PendingStatus) {
        return status.result, sent + (added.sent + status.sent);
      }
      AppendAssociative(sent, added.sent + status.sent, rest.sent);
      sent := sent + (added.sent + status.sent);
    }
    assert sent + [] == sent;
    return Err(NotExecutedWithin(txHash, MaxBlocks)), sent;
  }

  // ---------------------------------------------------------------------------
  // Waiting for the chain

  /** How one probe of `is_chain_online` ends: `requests` raises a `ConnectionError`
    * (a refused connection, a proxy or TLS failure, a connect timeout), the node
    * answers with a success or an error status, or another exception is raised. */
  datatype Probe = ConnectionFailed | Answered(ok: bool) | Broken

  /** `True`, the exception that leaves the function, or no answer before the
    * probes run out (the source would go on retrying). */
  datatype Liveness = Online | Raised(error: Error) | StillOffline

  /** `is_chain_online`: probes until one does not raise `ConnectionError`; a success status returns
    * `True`, an error status or any other exception is re-raised. */
  method IsChainOnline(probes: seq<Probe>) returns (r: Liveness, attempts: nat)
    ensures attempts <= |probes|
    ensures forall j :: 0 <= j < attempts - 1 ==> probes[j] == ConnectionFailed
    ensures r == Online <==> attempts > 0 && probes[attempts - 1] == Answered(true)
    ensures r == Raised(HttpError) <==> attempts > 0 && probes[attempts - 1] == Answered(false)
    ensures r == Raised(OtherError) <==> attempts > 0 && probes[attempts - 1] == Broken
    ensures r == StillOffline <==> forall j :: 0 <= j < |probes| ==> probes[j] == ConnectionFailed
    ensures r == StillOffline ==> attempts == |probes|
  {
    attempts := 0;
    while attempts < |probes|
      invariant attempts <= |probes|
      invariant forall j :: 0 <= j < attempts ==> probes[j] == ConnectionFailed
    {
      var probe := probes[attempts];
      attempts := attempts + 1;
      match probe
      case Answered(ok) =>
        if ok {
          return Online, attempts;
        }
        return Raised(HttpError), attempts;
      case Broken =>
        return Raised(OtherError), attempts;
      case ConnectionFailed =>
    }
    return StillOffline, attempts;
  }
}
