/**
 * `python_files/wallet.py`: a wallet loaded from PEM text or a PEM file, and the
 * nonce counter it keeps for the transactions it signs. The key material, the
 * signer and the address are the SDK's and are not modelled; the node's answer to
 * a nonce query is a parameter (`None` when the query raises).
 */
module Wallets {
  import opened Common

  /** Where the PEM comes from. */
  datatype PemSource = FromText(content: string) | FromFile(path: string)

  datatype WalletError =
    | NoPemSource        // `ValueError("No PEM content or file path provided.")`
    | FetchFailed        // the nonce query raised (`raise_for_status`, a missing key)

  /** The branch `__init__` takes: PEM text when it is given and non-empty (Python
    * truthiness), else the path (a `Path` object is always true), else `ValueError`. */
  function PemSourceOf(path: Option<string>, pemContent: Option<string>): (r: Result<PemSource, WalletError>)
    ensures r.Err? <==> (pemContent.None? || pemContent.value == "") && path.None?
    ensures r.Err? ==> r.error == NoPemSource
    ensures pemContent.Some? && pemContent.value != "" ==> r == Ok(FromText(pemContent.value))
    ensures (pemContent.None? || pemContent.value == "") && path.Some? ==> r == Ok(FromFile(path.value))
  {
    if pemContent.Some? && pemContent.value != "" then Ok(FromText(pemContent.value))
    else if path.Some? then Ok(FromFile(path.value))
    else Err(NoPemSource)
  }

  // ---------------------------------------------------------------------------
  // The nonce counter as a function of its state

  /** One `get_nonce_and_increment`: the result, the new `nonce`, and whether the
    * server was asked. */
  datatype Step = Step(result: Result<int, WalletError>, nonce: Option<int>, fetched: bool)

  /** `get_nonce_and_increment` on the field value `nonce`, where `server` is what a
    * query would return: the cached value if there is one, else the server's; the
    * field ends one past the value returned. A failed query leaves `nonce` unset. */
  function Increment(nonce: Option<int>, server: Option<int>): (s: Step)
    ensures s.fetched <==> nonce.None?
    ensures s.result.Ok? <==> nonce.Some? || server.Some?
    ensures s.result.Ok? ==> s.nonce == Some(s.result.value + 1)
    ensures s.result.Ok? && nonce.Some? ==> s.result.value == nonce.value
    ensures s.result.Ok? && nonce.None? ==> s.result.value == server.value
    ensures s.result.Err? ==> s.result.error == FetchFailed && s.nonce == nonce
  {
    if nonce.Some? then Step(Ok(nonce.value), Some(nonce.value + 1), false)
    else if server.Some? then Step(Ok(server.value), Some(server.value + 1), true)
    else Step(Err(FetchFailed), nonce, true)
  }

  /** The results of successive calls, starting from field value `nonce`; `servers[k]`
    * is what a query during call `k` would return. */
  datatype Issued = Issued(values: seq<Result<int, WalletError>>, nonce: Option<int>, fetches: nat)

  function IssueAll(nonce: Option<int>, servers: seq<Option<int>>): (r: Issued)
    ensures |r.values| == |servers|
    decreases |servers|
  {
    if servers == [] then Issued([], nonce, 0)
    else
      var s := Increment(nonce, servers[0]);
      var rest := IssueAll(s.nonce, servers[1..]);
      Issued([s.result] + rest.values, rest.nonce, (if s.fetched then 1 else 0) + rest.fetches)
  }

  /** With a value cached, successive calls return it and the integers after it, in
    * order, and never ask the server. */
  lemma {:induction false} IssueFromCached(v: int, servers: seq<Option<int>>)
    ensures forall i :: 0 <= i < |servers| ==> IssueAll(Some(v), servers).values[i] == Ok(v + i)
    ensures IssueAll(Some(v), servers).fetches == 0
    ensures IssueAll(Some(v), servers).nonce == Some(v + |servers|)
    decreases |servers|
  {
    if servers != [] {
      IssueFromCached(v + 1, servers[1..]);
      var r := IssueAll(Some(v), servers);
      forall i | 0 <= i < |servers| ensures r.values[i] == Ok(v + i) {
        if i > 0 {
          assert r.values[i] == IssueAll(Some(v + 1), servers[1..]).values[i - 1];
        }
      }
    }
  }

  /** From a fresh wallet, the first call fetches the server's value `n` once, and
    * successive calls return `n, n + 1, n + 2, ...` with no further query. */
  lemma {:induction false} IssueFromFresh(n: int, servers: seq<Option<int>>)
    requires servers != [] && servers[0] == Some(n)
    ensures forall i :: 0 <= i < |servers| ==> IssueAll(None, servers).values[i] == Ok(n + i)
    ensures IssueAll(None, servers).fetches == 1
    ensures IssueAll(None, servers).nonce == Some(n + |servers|)
  {
    var rest := IssueAll(Some(n + 1), servers[1..]);
    IssueFromCached(n + 1, servers[1..]);
    assert IssueAll(None, servers).values == [Ok(n)] + rest.values;
  }

  // ---------------------------------------------------------------------------
  // The wallet object

  class Wallet {
    const path: Option<string>
    const pemContent: Option<string>
    const source: PemSource
    /** `self.nonce`: `None` until the first query. */
    var nonce: Option<int>
    /** The nonce queries this wallet has sent. */
    ghost var fetches: nat

    constructor (path: Option<string>, pemContent: Option<string>, source: PemSource)
      ensures this.path == path && this.pemContent == pemContent && this.source == source
      ensures nonce == None && fetches == 0
    {
      this.path := path;
      this.pemContent := pemContent;
      this.source := source;
      nonce := None;
      fetches := 0;
    }

    /** `Wallet(path, pem_content)`: the wallet with the source `PemSourceOf` selects,
      * or the `ValueError`. */
    static method Create(path: Option<string>, pemContent: Option<string>) returns (r: Result<Wallet, WalletError>)
      ensures PemSourceOf(path, pemContent).Err? ==> r == Err(PemSourceOf(path, pemContent).error)
      ensures PemSourceOf(path, pemContent).Ok? ==>
        r.Ok? && fresh(r.value) && r.value.source == PemSourceOf(path, pemContent).value
        && r.value.path == path && r.value.pemContent == pemContent
        && r.value.nonce == None && r.value.fetches == 0
    {
      var source := PemSourceOf(path, pemContent);
      if source.Err? {
        return Err(source.error);
      }
      var w := new Wallet(path, pemContent, source.value);
      return Ok(w);
    }

    /** `Wallet.from_pem_text(pem)`: the same as giving only the PEM text, so empty
      * text raises `ValueError`. */
    static method FromPemText(pemContent: string) returns (r: Result<Wallet, WalletError>)
      ensures pemContent == "" ==> r == Err(NoPemSource)
      ensures pemContent != "" ==>
        r.Ok? && fresh(r.value) && r.value.source == FromText(pemContent) && r.value.nonce == None
    {
      r := Create(None, Some(pemContent));
    }

    /** `get_nonce`: queries the server and overwrites `nonce` with its answer. */
    method GetNonce(server: Option<int>) returns (r: Result<int, WalletError>)
      modifies this`nonce, this`fetches
      ensures fetches == old(fetches) + 1
      ensures server.Some? ==> r == Ok(server.value) && nonce == server
      ensures server.None? ==> r == Err(FetchFailed) && nonce == old(nonce)
    {
      fetches := fetches + 1;
      if server.None? {
        return Err(FetchFailed);
      }
      nonce := server;
      return Ok(server.value);
    }

    /** `get_nonce_and_increment`: the step `Increment` describes. */
    method GetNonceAndIncrement(server: Option<int>) returns (r: Result<int, WalletError>)
      modifies this`nonce, this`fetches
      ensures var s := Increment(old(nonce), server);
        && r == s.result && nonce == s.nonce
        && fetches == old(fetches) + (if s.fetched then 1 else 0)
    {
      if nonce.None? {
        fetches := fetches + 1;
        if server.None? {
          return Err(FetchFailed);
        }
        nonce := server;
      }
      var current := nonce.value;
      nonce := Some(current + 1);
      return Ok(current);
    }
  }
}
