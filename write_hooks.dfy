/**
 * The nine write callbacks (`deposit`, `withdraw`, `addMerchant`,
 * `removeMerchant`, `pause`, `unpause`, `emergencyWithdraw`,
 * `transferOwnership`, `renounceOwnership`). All share one shape: without a
 * connected address, one error toast and no write; otherwise one attempt to
 * build and send the write, and one error toast if anything in that attempt
 * throws. The wallet library's answer to a write is a parameter.
 */
module WriteHooks {
  import opened JsText
  import opened Notifications

  /** What a thrown value offers for display: `err?.shortMessage` and `err?.message`. */
  datatype ErrorInfo = ErrorInfo(shortMessage: Option<string>, message: Option<string>)

  /** A step that either returns a value or throws. */
  datatype Outcome<+T> = Returned(value: T) | Threw(error: ErrorInfo)

  /** One invocation of a write callback, with the arguments it was given. */
  datatype WriteRequest =
    | Deposit(amount: string)
    | Withdraw(amount: string)
    | AddMerchant(merchant: string)
    | RemoveMerchant(merchant: string)
    | Pause
    | Unpause
    | EmergencyWithdraw(to: string, amount: string)
    | TransferOwnership(newOwner: string)
    | RenounceOwnership
  {
    /** The callbacks that run `parseEther` on a text amount before writing. */
    predicate TakesAmount() {
      Deposit? || Withdraw? || EmergencyWithdraw?
    }

    /** The contract function the callback writes to. */
    function FunctionName(): string {
      match this
      case Deposit(_) => "deposit"
      case Withdraw(_) => "withdraw"
      case AddMerchant(_) => "addMerchant"
      case RemoveMerchant(_) => "removeMerchant"
      case Pause => "pause"
      case Unpause => "unpause"
      case EmergencyWithdraw(_, _) => "emergencyWithdraw"
      case TransferOwnership(_) => "transferOwnership"
      case RenounceOwnership => "renounceOwnership"
    }
  }

  datatype Arg = AddressArg(address: string) | UintArg(wei: int)

  /** What `writeContractAsync` is asked to send: the function, its arguments,
      the ETH value attached (deposit only) and the sending account. */
  datatype ContractCall = ContractCall(functionName: string, args: seq<Arg>, value: Option<int>, account: string)

  const ConnectWalletToast := Toast("Error", "Please connect your wallet", true)

  /** `err?.shortMessage || err?.message || 'Transaction failed'`: never empty,
      always one of the three, and a usable short message always wins. */
  function ErrorText(err: ErrorInfo): (r: string)
    ensures r != ""
    ensures r == "Transaction failed" || Some(r) == err.shortMessage || Some(r) == err.message
    ensures Truthy(err.shortMessage) ==> r == err.shortMessage.value
    ensures !Truthy(err.shortMessage) && Truthy(err.message) ==> r == err.message.value
    ensures !Truthy(err.shortMessage) && !Truthy(err.message) ==> r == "Transaction failed"
  {
    if Truthy(err.shortMessage) then err.shortMessage.value
    else if Truthy(err.message) then err.message.value
    else "Transaction failed"
  }

  function ErrorToast(err: ErrorInfo): Toast {
    Toast("Error", ErrorText(err), true)
  }

  /** The request each callback builds inside its `try` block. Only the
      amount-taking callbacks can fail here, and only when `parseEther` throws.
      A deposit attaches the parsed amount as its value; `withdraw` passes it as
      its one argument and `emergencyWithdraw` passes the recipient, then the
      parsed amount; the address-taking callbacks pass their address alone and
      the rest pass nothing. */
  function BuildCall(req: WriteRequest, account: string, parseEther: string -> Outcome<int>): (r: Outcome<ContractCall>)
    ensures r.Returned? ==> r.value.functionName == req.FunctionName() && r.value.account == account
    ensures r.Returned? ==> (r.value.value.Some? <==> req.Deposit?)
    ensures r.Threw? <==> req.TakesAmount() && parseEther(req.amount).Threw?
    ensures r.Threw? ==> r.error == parseEther(req.amount).error
    ensures req.Deposit? && r.Returned? ==> r.value.args == [] && r.value.value == Some(parseEther(req.amount).value)
    ensures req.Withdraw? && r.Returned? ==> r.value.args == [UintArg(parseEther(req.amount).value)]
    ensures req.EmergencyWithdraw? && r.Returned? ==>
      r.value.args == [AddressArg(req.to), UintArg(parseEther(req.amount).value)]
    ensures req.AddMerchant? || req.RemoveMerchant? ==> r.Returned? && r.value.args == [AddressArg(req.merchant)]
    ensures req.TransferOwnership? ==> r.Returned? && r.value.args == [AddressArg(req.newOwner)]
    ensures req.Pause? || req.Unpause? || req.RenounceOwnership? ==> r.Returned? && r.value.args == []
  {
    match req
    case Deposit(amount) =>
      (match parseEther(amount)
       case Threw(e) => Threw(e)
       case Returned(wei) => Returned(ContractCall("deposit", [], Some(wei), account)))
    case Withdraw(amount) =>
      (match parseEther(amount)
       case Threw(e) => Threw(e)
       case Returned(wei) => Returned(ContractCall("withdraw", [UintArg(wei)], None, account)))
    case AddMerchant(merchant) =>
      Returned(ContractCall("addMerchant", [AddressArg(merchant)], None, account))
    case RemoveMerchant(merchant) =>
      Returned(ContractCall("removeMerchant", [AddressArg(merchant)], None, account))
    case Pause =>
      Returned(ContractCall("pause", [], None, account))
    case Unpause =>
      Returned(ContractCall("unpause", [], None, account))
    case EmergencyWithdraw(to, amount) =>
      (match parseEther(amount)
       case Threw(e) => Threw(e)
       case Returned(wei) => Returned(ContractCall("emergencyWithdraw", [AddressArg(to), UintArg(wei)], None, account)))
    case TransferOwnership(newOwner) =>
      Returned(ContractCall("transferOwnership", [AddressArg(newOwner)], None, account))
    case RenounceOwnership =>
      Returned(ContractCall("renounceOwnership", [], None, account))
  }

  /** The toasts and writes of one callback invocation. */
  datatype Effects = Effects(toasts: seq<Toast>, writes: seq<ContractCall>)

  /** What one invocation does, given the connected account, the amount parser
      and the wallet's answer should a write be sent:
      no account gives exactly the connect-wallet toast and no write; otherwise
      at most one write goes out, from the connected account, and exactly one
      destructive error toast appears unless that write returned. */
  function CallbackEffects(account: Option<string>, req: WriteRequest,
                           parseEther: string -> Outcome<int>, writeResult: Outcome<string>): (e: Effects)
    ensures !Truthy(account) ==> e == Effects([ConnectWalletToast], [])
    ensures |e.toasts| <= 1 && |e.writes| <= 1
    ensures |e.toasts| == 1 ==> e.toasts[0].destructive && e.toasts[0].title == "Error"
    ensures e.writes != [] ==> Truthy(account) && e.writes[0].account == account.value
                               && e.writes[0].functionName == req.FunctionName()
    ensures Truthy(account) ==> (e.toasts == [] <==> e.writes != [] && writeResult.Returned?)
    ensures Truthy(account) && !req.TakesAmount() ==> |e.writes| == 1
    ensures Truthy(account) && e.writes == [] ==>
      req.TakesAmount() && parseEther(req.amount).Threw? && e.toasts == [ErrorToast(parseEther(req.amount).error)]
    ensures e.writes != [] && writeResult.Threw? ==> e.toasts == [ErrorToast(writeResult.error)]
    ensures e.writes != [] ==> BuildCall(req, account.value, parseEther) == Returned(e.writes[0])
  {
    if !Truthy(account) then
      Effects([ConnectWalletToast], [])
    else
      match BuildCall(req, account.value, parseEther)
      case Threw(err) => Effects([ErrorToast(err)], [])
      case Returned(call) => Effects(if writeResult.Threw? then [ErrorToast(writeResult.error)] else [], [call])
  }

  /** The wallet connector's `writeContractAsync`, as a log of the requests sent. */
  class Wallet {
    var sent: seq<ContractCall>

    constructor ()
      ensures sent == []
    {
      sent := [];
    }

    /** Sends `call`; the wallet and the chain decide the answer, `result`. */
    method WriteContract(call: ContractCall, result: Outcome<string>) returns (r: Outcome<string>)
      modifies this
      ensures sent == old(sent) + [call] && r == result
    {
      sent := sent + [call];
      r := result;
    }
  }

  /** The shared body of the nine callbacks: guard, try { parse; await write } catch { toast }. */
  method InvokeWrite(toaster: Toaster, wallet: Wallet, account: Option<string>, req: WriteRequest,
                     parseEther: string -> Outcome<int>, writeResult: Outcome<string>)
    modifies toaster, wallet
    ensures toaster.shown == old(toaster.shown) + CallbackEffects(account, req, parseEther, writeResult).toasts
    ensures wallet.sent == old(wallet.sent) + CallbackEffects(account, req, parseEther, writeResult).writes
  {
    if !Truthy(account) {
      toaster.Show(ConnectWalletToast);
      return;
    }
    var built := BuildCall(req, account.value, parseEther);
    if built.Threw? {
      toaster.Show(ErrorToast(built.error));
      return;
    }
    var result := wallet.WriteContract(built.value, writeResult);
    if result.Threw? {
      toaster.Show(ErrorToast(result.error));
    }
  }
}
