/**
 * The event watchers (`useContractEvents`): each subscription receives batches
 * of logs of one event and turns them into toasts. Six events toast once per
 * log, in log order; `Paused` and `Unpaused` toast once per batch whatever it
 * holds. `formatEther` (wei to decimal ETH text) is a parameter.
 */
module ContractEvents {
  import opened JsText
  import opened Notifications

  datatype EventName =
    | Deposit
    | Withdrawal
    | MerchantAdded
    | MerchantRemoved
    | Paused
    | Unpaused
    | OwnershipTransferred
    | EmergencyWithdrawal

  /** The decoded arguments of one log the handlers read; any may be absent. */
  datatype LogArgs = LogArgs(
    amount: Option<nat>,
    amountReceived: Option<nat>,
    feeTaken: Option<nat>,
    merchant: Option<string>,
    newOwner: Option<string>)

  /** The two events whose handler ignores its logs and toasts once. */
  predicate OncePerBatch(e: EventName) {
    e == Paused || e == Unpaused
  }

  /** `x || 0n`: an absent amount reads as zero. */
  function WeiOrZero(x: Option<nat>): nat {
    if x.Some? then x.value else 0
  }

  /** `` `${a?.slice(0, 6)}...${a?.slice(-4)}` ``; an absent address prints as `undefined`. */
  function AddressSnippet(a: Option<string>): (r: string)
    ensures a == None ==> r == "undefined...undefined"
    ensures a.Some? && |a.value| >= 6 ==> r == a.value[..6] + "..." + a.value[|a.value| - 4..]
    ensures a.Some? && |a.value| < 4 ==> r == a.value + "..." + a.value
  {
    if a.None? then "undefined...undefined"
    else if |a.value| >= 6 then
      ShortenKeepsEnds(a.value, 6, 4);
      Shorten(a.value, 6, 4)
    else if |a.value| < 4 then
      ShortenOfShortString(a.value, 6, 4);
      Shorten(a.value, 6, 4)
    else Shorten(a.value, 6, 4)
  }

  const PausedToast := Toast("\U{23F8}\U{FE0F} Contract Paused", "All operations are temporarily suspended", true)
  const UnpausedToast := Toast("\U{25B6}\U{FE0F} Contract Resumed", "Operations are now active", false)

  /** The toast for one log of an event that toasts per log. Only the
      emergency withdrawal is shown as destructive. */
  function LogToast(e: EventName, log: LogArgs, formatEther: nat -> string): (t: Toast)
    requires !OncePerBatch(e)
    ensures t.destructive <==> e == EmergencyWithdrawal
  {
    match e
    case Deposit =>
      Toast("\U{1F4B0} Deposit Received", formatEther(WeiOrZero(log.amount)) + " ETH deposited", false)
    case Withdrawal =>
      Toast("\U{1F4B8} Withdrawal Processed",
            formatEther(WeiOrZero(log.amountReceived)) + " ETH withdrawn (" + formatEther(WeiOrZero(log.feeTaken)) + " ETH fee)",
            false)
    case MerchantAdded =>
      Toast("\U{2705} Merchant Added", AddressSnippet(log.merchant), false)
    case MerchantRemoved =>
      Toast("\U{274C} Merchant Removed", AddressSnippet(log.merchant), false)
    case OwnershipTransferred =>
      Toast("\U{1F451} Ownership Transferred", "New owner: " + AddressSnippet(log.newOwner), false)
    case EmergencyWithdrawal =>
      Toast("\U{1F6A8} Emergency Withdrawal", formatEther(WeiOrZero(log.amount)) + " ETH withdrawn", true)
  }

  /** `logs.forEach(log => toast(...))`: one toast per log, in log order. */
  function PerLogToasts(e: EventName, logs: seq<LogArgs>, formatEther: nat -> string): (r: seq<Toast>)
    requires !OncePerBatch(e)
    ensures |r| == |logs|
    ensures forall i :: 0 <= i < |logs| ==> r[i] == LogToast(e, logs[i], formatEther)
  {
    if logs == [] then []
    else PerLogToasts(e, logs[..|logs| - 1], formatEther) + [LogToast(e, logs[|logs| - 1], formatEther)]
  }

  /** The toasts one batch produces: one per log in order, except for `Paused`
      (one destructive toast) and `Unpaused` (one plain toast). */
  function BatchToasts(e: EventName, logs: seq<LogArgs>, formatEther: nat -> string): (r: seq<Toast>)
    ensures OncePerBatch(e) ==> |r| == 1 && (r[0].destructive <==> e == Paused)
    ensures !OncePerBatch(e) ==>
      |r| == |logs| && (forall i :: 0 <= i < |logs| ==> r[i] == LogToast(e, logs[i], formatEther))
  {
    if e == Paused then [PausedToast]
    else if e == Unpaused then [UnpausedToast]
    else PerLogToasts(e, logs, formatEther)
  }

  /** For a per-log event, how the logs are split into batches does not change
      the toasts shown: two batches toast what their concatenation toasts. */
  lemma BatchToastsSplit(e: EventName, a: seq<LogArgs>, b: seq<LogArgs>, formatEther: nat -> string)
    requires !OncePerBatch(e)
    ensures BatchToasts(e, a + b, formatEther) == BatchToasts(e, a, formatEther) + BatchToasts(e, b, formatEther)
  {
    var whole, left, right := BatchToasts(e, a + b, formatEther), BatchToasts(e, a, formatEther), BatchToasts(e, b, formatEther);
    assert forall i :: 0 <= i < |a| ==> whole[i] == left[i] by {
      forall i | 0 <= i < |a| ensures whole[i] == left[i] {
        assert (a + b)[i] == a[i];
      }
    }
    assert forall j :: 0 <= j < |b| ==> whole[|a| + j] == right[j] by {
      forall j | 0 <= j < |b| ensures whole[|a| + j] == right[j] {
        assert (a + b)[|a| + j] == b[j];
      }
    }
    assert whole == left + right;
  }

  /** For `Paused` and `Unpaused` the batching does matter: the toast does not
      depend on the logs, so two batches toast twice where one batch toasts once. */
  lemma OncePerBatchIgnoresLogs(e: EventName, a: seq<LogArgs>, b: seq<LogArgs>, formatEther: nat -> string)
    requires OncePerBatch(e)
    ensures BatchToasts(e, a, formatEther) == BatchToasts(e, b, formatEther)
    ensures |BatchToasts(e, a + b, formatEther)| == 1
    ensures |BatchToasts(e, a, formatEther) + BatchToasts(e, b, formatEther)| == 2
  {
  }

  /** An absent amount, received amount or fee is formatted as zero wei. */
  lemma MissingAmountReadsAsZero(e: EventName, log: LogArgs, formatEther: nat -> string)
    requires e == Deposit || e == Withdrawal || e == EmergencyWithdrawal
    ensures LogToast(e, log, formatEther) ==
      LogToast(e, log.(amount := Some(WeiOrZero(log.amount)),
                       amountReceived := Some(WeiOrZero(log.amountReceived)),
                       feeTaken := Some(WeiOrZero(log.feeTaken))), formatEther)
    ensures e != Withdrawal && log.amount == None ==>
      LogToast(e, log, formatEther) == LogToast(e, log.(amount := Some(0)), formatEther)
  {
  }

  /** For an address of at least ten characters the merchant and new-owner
      toasts show its first six and last four characters around "...". */
  lemma AddressToastShape(e: EventName, log: LogArgs, formatEther: nat -> string, addr: string)
    requires e == MerchantAdded || e == MerchantRemoved || e == OwnershipTransferred
    requires |addr| >= 10
    requires (if e == OwnershipTransferred then log.newOwner else log.merchant) == Some(addr)
    ensures LogToast(e, log, formatEther).description ==
      (if e == OwnershipTransferred then "New owner: " else "") + addr[..6] + "..." + addr[|addr| - 4..]
  {
    ShortenKeepsEnds(addr, 6, 4);
  }

  /** A withdrawal of 0.99 ETH after a 0.01 ETH fee reads "0.99 ETH withdrawn (0.01 ETH fee)"
      when `formatEther` renders those two wei amounts as "0.99" and "0.01". */
  lemma WithdrawalExample(formatEther: nat -> string)
    requires formatEther(990000000000000000) == "0.99" && formatEther(10000000000000000) == "0.01"
    ensures LogToast(Withdrawal, LogArgs(None, Some(990000000000000000), Some(10000000000000000), None, None),
                     formatEther).description == "0.99 ETH withdrawn (0.01 ETH fee)"
  {
  }

  /** Handling one more log appends exactly its toast. */
  lemma PerLogToastsStep(e: EventName, logs: seq<LogArgs>, i: nat, formatEther: nat -> string)
    requires !OncePerBatch(e) && i < |logs|
    ensures PerLogToasts(e, logs[..i + 1], formatEther) ==
      PerLogToasts(e, logs[..i], formatEther) + [LogToast(e, logs[i], formatEther)]
  {
    assert logs[..i + 1][..i] == logs[..i];
  }

  /** The `onLogs` callback of the subscription to event `e`. */
  method OnLogs(toaster: Toaster, e: EventName, logs: seq<LogArgs>, formatEther: nat -> string)
    modifies toaster
    ensures toaster.shown == old(toaster.shown) + BatchToasts(e, logs, formatEther)
  {
    if e == Paused {
      toaster.Show(PausedToast);
      return;
    }
    if e == Unpaused {
      toaster.Show(UnpausedToast);
      return;
    }
    for i := 0 to |logs|
      invariant toaster.shown == old(toaster.shown) + PerLogToasts(e, logs[..i], formatEther)
    {
      PerLogToastsStep(e, logs, i, formatEther);
      toaster.Show(LogToast(e, logs[i], formatEther));
    }
    assert logs[..|logs|] == logs;
  }
}
