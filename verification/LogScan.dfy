/** Sorting a receipt's logs into the transfers of each user operation, in one pass. */
module LogScan {
  import opened UserOps

  datatype TokenTransfer = TokenTransfer(token: nat, sender: nat, recipient: nat, amount: nat)

  datatype NativeTransfer = NativeTransfer(sender: nat, recipient: nat, amount: nat)

  /** A log by its first topic; None stands for arguments (or token details) that could not be obtained. */
  datatype Log =
    | BeforeExecution
    | OperationEnd(userOpHash: Option<nat>)
    | Transfer(token: Option<TokenTransfer>)
    | Withdrawn(native: Option<NativeTransfer>)
    | Other

  datatype Group = Group(natives: seq<NativeTransfer>, tokens: seq<TokenTransfer>)

  // ----- The split specification -----

  function Tokens(logs: seq<Log>): seq<TokenTransfer> {
    if logs == [] then []
    else
      var last := logs[|logs| - 1];
      Tokens(logs[..|logs| - 1]) + if last.Transfer? && last.token.Some? then [last.token.value] else []
  }

  function Natives(logs: seq<Log>): seq<NativeTransfer> {
    if logs == [] then []
    else
      var last := logs[|logs| - 1];
      Natives(logs[..|logs| - 1]) + if last.Withdrawn? && last.native.Some? then [last.native.value] else []
  }

  /** The position of the first BeforeExecution, or the number of logs. */
  function Start(logs: seq<Log>): (start: nat)
    ensures start <= |logs|
    ensures start < |logs| ==> logs[start].BeforeExecution?
    ensures forall j :: 0 <= j < start ==> !logs[j].BeforeExecution?
  {
    if logs == [] then 0
    else if logs[0].BeforeExecution? then 0
    else
      var start := Start(logs[1..]);
      assert forall j :: 0 < j < start + 1 ==> logs[j] == logs[1..][j - 1];
      start + 1
  }

  /** Where the operation that is running at position e began: after the operation end before it, or at the start. */
  function Begin(logs: seq<Log>, e: nat): (begin: nat)
    requires Start(logs) <= e <= |logs|
    ensures Start(logs) <= begin <= e
  {
    if e == Start(logs) || logs[e - 1].OperationEnd? then e else Begin(logs, e - 1)
  }

  function GroupOf(logs: seq<Log>, e: nat): Group
    requires Start(logs) <= e <= |logs|
  {
    Group(Natives(logs[Begin(logs, e)..e]), Tokens(logs[Begin(logs, e)..e]))
  }

  lemma {:induction false} TokensAreTransfers(logs: seq<Log>, t: TokenTransfer)
    ensures multiset(Tokens(logs))[t] == multiset(logs)[Transfer(Some(t))]
  {
    if logs != [] {
      var n := |logs| - 1;
      TokensAreTransfers(logs[..n], t);
      assert logs == logs[..n] + [logs[n]];
    }
  }

  lemma {:induction false} NativesAreWithdrawals(logs: seq<Log>, t: NativeTransfer)
    ensures multiset(Natives(logs))[t] == multiset(logs)[Withdrawn(Some(t))]
  {
    if logs != [] {
      var n := |logs| - 1;
      NativesAreWithdrawals(logs[..n], t);
      assert logs == logs[..n] + [logs[n]];
    }
  }

  /** A group has every decodable transfer between the end before and position e as often as the logs do. */
  lemma {:induction false} GroupHasItsTransfers(logs: seq<Log>, e: nat, t: TokenTransfer, n: NativeTransfer)
    requires Start(logs) <= e <= |logs|
    ensures var part := multiset(logs[Begin(logs, e)..e]);
            && multiset(GroupOf(logs, e).tokens)[t] == part[Transfer(Some(t))]
            && multiset(GroupOf(logs, e).natives)[n] == part[Withdrawn(Some(n))]
  {
    TokensAreTransfers(logs[Begin(logs, e)..e], t);
    NativesAreWithdrawals(logs[Begin(logs, e)..e], n);
  }

  /** An operation ends at position e, and its hash is known. */
  predicate Ends(logs: seq<Log>, e: nat, h: nat) {
    Start(logs) <= e < |logs| && logs[e] == OperationEnd(Some(h))
  }

  /** The groups of the operations that end before position n; a repeated hash is overwritten. */
  function Groups(logs: seq<Log>, n: nat): map<nat, Group>
    requires n <= |logs|
  {
    if n == 0 then map[]
    else
      var groups := Groups(logs, n - 1);
      if Start(logs) <= n - 1 && logs[n - 1].OperationEnd? && logs[n - 1].userOpHash.Some? then
        groups[logs[n - 1].userOpHash.value := GroupOf(logs, n - 1)]
      else groups
  }

  // ----- The scan -----

  method GetUserOpTransfers(receiptLogs: seq<Log>) returns (userOpGroups: map<nat, Group>)
    ensures userOpGroups == Groups(receiptLogs, |receiptLogs|)
  {
    hide GroupOf, Tokens, Natives;
    NothingAtStart(receiptLogs);
    userOpGroups := map[];
    var natives: seq<NativeTransfer>, tokens: seq<TokenTransfer> := [], [];
    var startTrackingTransfers := false;
    for i := 0 to |receiptLogs|
      invariant userOpGroups == Groups(receiptLogs, i)
      invariant startTrackingTransfers <==> Start(receiptLogs) < i
      invariant Start(receiptLogs) <= i ==> Group(natives, tokens) == GroupOf(receiptLogs, i)
      invariant i <= Start(receiptLogs) ==> natives == [] && tokens == []
    {
      var log := receiptLogs[i];
      if log.BeforeExecution? {
        startTrackingTransfers := true;
      }
      if !startTrackingTransfers {
        continue;
      }
      NextGroup(receiptLogs, i);
      match log
      case OperationEnd(userOpHash) =>
        if userOpHash.Some? {
          userOpGroups := userOpGroups[userOpHash.value := Group(natives, tokens)];
        }
        natives, tokens := [], [];
      case Transfer(token) =>
        if token.Some? {
          tokens := tokens + [token.value];
        }
      case Withdrawn(native) =>
        if native.Some? {
          natives := natives + [native.value];
        }
      case _ =>
    }
  }

  lemma NothingAtStart(logs: seq<Log>)
    ensures GroupOf(logs, Start(logs)) == Group([], [])
  {
  }

  /** What one more log adds to the running group. */
  lemma {:induction false} NextGroup(logs: seq<Log>, i: nat)
    requires Start(logs) <= i < |logs|
    ensures var log, group := logs[i], GroupOf(logs, i);
            GroupOf(logs, i + 1) ==
            if log.OperationEnd? then Group([], [])
            else Group(group.natives + if log.Withdrawn? && log.native.Some? then [log.native.value] else [],
                       group.tokens + if log.Transfer? && log.token.Some? then [log.token.value] else [])
  {
    if logs[i].OperationEnd? {
      assert Begin(logs, i + 1) == i + 1;
    } else {
      var b := Begin(logs, i);
      assert Begin(logs, i + 1) == b;
      assert logs[b..i + 1][..i - b] == logs[b..i];
    }
  }

  // ----- The scan gives each transfer to at most one operation -----

  /** A log after the start belongs to the operation that ends next, and to no other. */
  lemma {:induction false} TransferBelongsToNextEnd(logs: seq<Log>, j: nat, e: nat)
    requires Start(logs) <= j < e <= |logs|
    ensures Begin(logs, e) <= j <==> forall k :: j <= k < e ==> !logs[k].OperationEnd?
  {
    if !logs[e - 1].OperationEnd? && j < e - 1 {
      TransferBelongsToNextEnd(logs, j, e - 1);
    }
  }

  /** The logs of two operations do not overlap, so no transfer is counted for both. */
  lemma {:induction false} OperationsAreDisjoint(logs: seq<Log>, e: nat, e': nat)
    requires Start(logs) <= e < e' < |logs| && logs[e].OperationEnd? && logs[e'].OperationEnd?
    ensures e < Begin(logs, e')
  {
    TransferBelongsToNextEnd(logs, e, e');
  }

  ghost predicate DistinctEnds(logs: seq<Log>) {
    forall e, e', h :: Ends(logs, e, h) && Ends(logs, e', h) ==> e == e'
  }

  lemma {:induction false} LastEndWins(logs: seq<Log>, n: nat, h: nat)
    requires n <= |logs|
    ensures h in Groups(logs, n) <==> exists e: nat :: e < n && Ends(logs, e, h)
    ensures forall e: nat :: e < n && Ends(logs, e, h) && (forall k: nat :: e < k < n ==> !Ends(logs, k, h)) ==>
              h in Groups(logs, n) && Groups(logs, n)[h] == GroupOf(logs, e)
  {
    hide GroupOf;
    if n != 0 {
      LastEndWins(logs, n - 1, h);
      if Ends(logs, n - 1, h) {
        assert logs[n - 1].userOpHash.value == h;
      }
    }
  }

  /**
   * With distinct hashes, the result has one entry for each operation whose end could be decoded, with
   * exactly the decodable transfers between the end before it and its own, in order.
   */
  lemma {:induction false} ScanIsSplit(logs: seq<Log>, h: nat)
    requires DistinctEnds(logs)
    ensures h in Groups(logs, |logs|) <==> exists e: nat :: Ends(logs, e, h)
    ensures forall e: nat :: Ends(logs, e, h) ==> h in Groups(logs, |logs|) && Groups(logs, |logs|)[h] == GroupOf(logs, e)
  {
    hide GroupOf, Groups;
    LastEndWins(logs, |logs|, h);
  }
}
