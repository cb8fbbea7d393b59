/**
 * The owner's admin panel (`AdminSection`): five text inputs, the handlers that
 * validate an input, invoke a write callback and clear the input, the
 * button-enable rules, and the gate that shows non-owners only a notice.
 */
module AdminSectionView {
  import opened JsText
  import opened WriteHooks
  import UserRole

  predicate IsHexDigit(c: char) {
    '0' <= c <= '9' || 'a' <= c <= 'f' || 'A' <= c <= 'F'
  }

  /** `[a-fA-F0-9]{n}` matched against the whole of s, one character at a time. */
  predicate HexDigits(s: string, n: nat)
    decreases n
  {
    if n == 0 then s == [] else s != [] && IsHexDigit(s[0]) && HexDigits(s[1..], n - 1)
  }

  /** `/^0x[a-fA-F0-9]{40}$/.test(addr)`: `0x` (lower-case x), then exactly 40 hex digits, then the end. */
  predicate IsValidAddress(addr: string): (b: bool)
    ensures b ==> |addr| == 42 && addr[..2] == "0x"
  {
    if |addr| < 2 then false
    else
      HexDigitsIff(addr[2..], 40);
      addr[0] == '0' && addr[1] == 'x' && HexDigits(addr[2..], 40)
  }

  /** A run of n hex digits is a string of length n made only of hex digits. */
  lemma {:induction false} HexDigitsIff(s: string, n: nat)
    ensures HexDigits(s, n) <==> |s| == n && forall i :: 0 <= i < |s| ==> IsHexDigit(s[i])
    decreases n
  {
    if n > 0 && s != [] {
      HexDigitsIff(s[1..], n - 1);
      assert (forall i :: 0 <= i < |s| ==> IsHexDigit(s[i])) <==>
             IsHexDigit(s[0]) && forall i :: 0 <= i < |s[1..]| ==> IsHexDigit(s[1..][i]) by {
        if IsHexDigit(s[0]) && forall i :: 0 <= i < |s[1..]| ==> IsHexDigit(s[1..][i]) {
          forall i | 0 <= i < |s| ensures IsHexDigit(s[i]) {
            if i > 0 { assert s[i] == s[1..][i - 1]; }
          }
        }
      }
    }
  }

  /** A valid address is exactly 42 characters: "0x" followed by 40 hex digits. */
  lemma ValidAddressIff(addr: string)
    ensures IsValidAddress(addr) <==>
      |addr| == 42 && addr[..2] == "0x" && forall i :: 2 <= i < 42 ==> IsHexDigit(addr[i])
  {
    if |addr| >= 2 {
      HexDigitsIff(addr[2..], 40);
      assert (forall i :: 0 <= i < |addr[2..]| ==> IsHexDigit(addr[2..][i])) <==>
             (forall i :: 2 <= i < |addr| ==> IsHexDigit(addr[i])) by {
        if forall i :: 0 <= i < |addr[2..]| ==> IsHexDigit(addr[2..][i]) {
          forall i | 2 <= i < |addr| ensures IsHexDigit(addr[i]) {
            assert addr[i] == addr[2..][i - 2];
          }
        }
      }
      assert addr[..2] == "0x" <==> addr[0] == '0' && addr[1] == 'x';
    }
  }

  /** Lower-casing a valid address keeps it valid (the prefix "0x" is already lower case). */
  lemma ValidAddressLowered(addr: string)
    requires IsValidAddress(addr)
    ensures IsValidAddress(ToLower(addr))
  {
    ValidAddressIff(addr);
    ValidAddressIff(ToLower(addr));
    assert ToLower(addr)[..2] == "0x";
  }

  /** The five text inputs of the panel. */
  datatype Field = MerchantAddress | RemoveMerchantAddress | EmergencyTo | EmergencyAmount | NewOwner

  /** Which write callbacks report `isPending`. */
  datatype Pending = Pending(
    addingMerchant: bool,
    removingMerchant: bool,
    pausing: bool,
    unpausing: bool,
    emergencyWithdrawing: bool,
    transferring: bool,
    renouncing: bool)

  /** The contract-state part of the panel: the badge text, the one state
      button shown (as the callback it invokes) and whether it is disabled. */
  datatype StateControl = StateControl(badge: string, button: WriteRequest, disabled: bool)

  /** The `disabled` flag of each remaining button. */
  datatype Buttons = Buttons(
    addDisabled: bool,
    removeDisabled: bool,
    emergencyDisabled: bool,
    transferDisabled: bool,
    renounceDisabled: bool)

  /** What the panel renders: the access notice, or the controls. */
  datatype AdminView = AccessRequired | Controls(state: StateControl, buttons: Buttons)

  /** The contract-state controls: badge "Paused" and a resume button (`unpause`)
      exactly when the `paused()` read is `true`, otherwise badge "Active" and a
      pause button; the button is disabled while its own callback is pending. */
  function StateControlFor(isPaused: Option<bool>, pending: Pending): (c: StateControl)
    ensures c.badge == "Paused" <==> IsTrue(isPaused)
    ensures c.badge == "Active" <==> !IsTrue(isPaused)
    ensures c.button == Unpause <==> IsTrue(isPaused)
    ensures c.button == Pause <==> !IsTrue(isPaused)
    ensures c.disabled <==> if IsTrue(isPaused) then pending.unpausing else pending.pausing
  {
    if IsTrue(isPaused) then StateControl("Paused", Unpause, pending.unpausing)
    else StateControl("Active", Pause, pending.pausing)
  }

  class AdminSection {
    var merchantAddress: string
    var removeMerchantAddress: string
    var emergencyTo: string
    var emergencyAmount: string
    var newOwner: string
    /** The write callbacks invoked from this panel, in order. The handlers do
        not await them, so what a callback later does cannot affect the inputs. */
    var hookCalls: seq<WriteRequest>

    constructor ()
      ensures forall f :: Get(f) == ""
      ensures hookCalls == []
    {
      merchantAddress, removeMerchantAddress, emergencyTo, emergencyAmount, newOwner := "", "", "", "", "";
      hookCalls := [];
    }

    function Get(f: Field): string
      reads this
    {
      match f
      case MerchantAddress => merchantAddress
      case RemoveMerchantAddress => removeMerchantAddress
      case EmergencyTo => emergencyTo
      case EmergencyAmount => emergencyAmount
      case NewOwner => newOwner
    }

    /** The guard of `handleAddMerchant`. */
    predicate CanAddMerchant()
      reads this
    {
      IsValidAddress(merchantAddress)
    }

    /** The guard of `handleRemoveMerchant`. */
    predicate CanRemoveMerchant()
      reads this
    {
      IsValidAddress(removeMerchantAddress)
    }

    /** The guard of `handleEmergencyWithdraw`: a valid recipient and a non-empty amount. */
    predicate CanEmergencyWithdraw()
      reads this
    {
      IsValidAddress(emergencyTo) && emergencyAmount != ""
    }

    /** The guard of `handleTransferOwnership`. */
    predicate CanTransferOwnership()
      reads this
    {
      IsValidAddress(newOwner)
    }

    /** An input's `onChange`: that input takes the typed value, nothing else changes. */
    method Edit(f: Field, value: string)
      modifies this
      ensures Get(f) == value
      ensures forall g :: g != f ==> Get(g) == old(Get(g))
      ensures hookCalls == old(hookCalls)
    {
      match f
      case MerchantAddress => merchantAddress := value;
      case RemoveMerchantAddress => removeMerchantAddress := value;
      case EmergencyTo => emergencyTo := value;
      case EmergencyAmount => emergencyAmount := value;
      case NewOwner => newOwner := value;
    }

    /** `handleAddMerchant`: with a valid address, one `addMerchant` call with
        exactly that text, then the input is cleared; otherwise nothing happens. */
    method HandleAddMerchant()
      modifies this
      ensures old(CanAddMerchant()) ==>
        hookCalls == old(hookCalls) + [AddMerchant(old(merchantAddress))] && merchantAddress == ""
      ensures !old(CanAddMerchant()) ==> hookCalls == old(hookCalls) && merchantAddress == old(merchantAddress)
      ensures forall g :: g != MerchantAddress ==> Get(g) == old(Get(g))
    {
      if IsValidAddress(merchantAddress) {
        hookCalls := hookCalls + [AddMerchant(merchantAddress)];
        merchantAddress := "";
      }
    }

    /** `handleRemoveMerchant`: as for adding, on its own input. */
    method HandleRemoveMerchant()
      modifies this
      ensures old(CanRemoveMerchant()) ==>
        hookCalls == old(hookCalls) + [RemoveMerchant(old(removeMerchantAddress))] && removeMerchantAddress == ""
      ensures !old(CanRemoveMerchant()) ==>
        hookCalls == old(hookCalls) && removeMerchantAddress == old(removeMerchantAddress)
      ensures forall g :: g != RemoveMerchantAddress ==> Get(g) == old(Get(g))
    {
      if IsValidAddress(removeMerchantAddress) {
        hookCalls := hookCalls + [RemoveMerchant(removeMerchantAddress)];
        removeMerchantAddress := "";
      }
    }

    /** `handleEmergencyWithdraw`: with a valid recipient and any non-empty
        amount, one `emergencyWithdraw` call, then both inputs are cleared. */
    method HandleEmergencyWithdraw()
      modifies this
      ensures old(CanEmergencyWithdraw()) ==>
        hookCalls == old(hookCalls) + [EmergencyWithdraw(old(emergencyTo), old(emergencyAmount))]
        && emergencyTo == "" && emergencyAmount == ""
      ensures !old(CanEmergencyWithdraw()) ==>
        hookCalls == old(hookCalls) && emergencyTo == old(emergencyTo) && emergencyAmount == old(emergencyAmount)
      ensures forall g :: g != EmergencyTo && g != EmergencyAmount ==> Get(g) == old(Get(g))
    {
      if IsValidAddress(emergencyTo) && emergencyAmount != "" {
        hookCalls := hookCalls + [EmergencyWithdraw(emergencyTo, emergencyAmount)];
        emergencyTo := "";
        emergencyAmount := "";
      }
    }

    /** `handleTransferOwnership` (the confirm-dialog action): as for adding, on its own input. */
    method HandleTransferOwnership()
      modifies this
      ensures old(CanTransferOwnership()) ==>
        hookCalls == old(hookCalls) + [TransferOwnership(old(newOwner))] && newOwner == ""
      ensures !old(CanTransferOwnership()) ==> hookCalls == old(hookCalls) && newOwner == old(newOwner)
      ensures forall g :: g != NewOwner ==> Get(g) == old(Get(g))
    {
      if IsValidAddress(newOwner) {
        hookCalls := hookCalls + [TransferOwnership(newOwner)];
        newOwner := "";
      }
    }

    /** The state button's click: `unpause()` while paused, `pause()` otherwise. */
    method ClickStateButton(isPaused: Option<bool>)
      modifies this
      ensures hookCalls == old(hookCalls) + [if IsTrue(isPaused) then Unpause else Pause]
      ensures forall g :: Get(g) == old(Get(g))
    {
      if IsTrue(isPaused) {
        hookCalls := hookCalls + [Unpause];
      } else {
        hookCalls := hookCalls + [Pause];
      }
    }

    /** The renounce dialog's confirm action: `renounceOwnership()`, no input involved. */
    method ConfirmRenounce()
      modifies this
      ensures hookCalls == old(hookCalls) + [RenounceOwnership]
      ensures forall g :: Get(g) == old(Get(g))
    {
      hookCalls := hookCalls + [RenounceOwnership];
    }

    /** The `disabled` flags: each input's button is enabled exactly when its
        handler's guard holds and its callback is not pending; renounce is
        disabled only while pending. */
    function ButtonsFor(pending: Pending): (b: Buttons)
      reads this
      ensures !b.addDisabled <==> CanAddMerchant() && !pending.addingMerchant
      ensures !b.removeDisabled <==> CanRemoveMerchant() && !pending.removingMerchant
      ensures !b.emergencyDisabled <==> CanEmergencyWithdraw() && !pending.emergencyWithdrawing
      ensures !b.transferDisabled <==> CanTransferOwnership() && !pending.transferring
      ensures b.renounceDisabled <==> pending.renouncing
    {
      Buttons(
        !CanAddMerchant() || pending.addingMerchant,
        !CanRemoveMerchant() || pending.removingMerchant,
        !CanEmergencyWithdraw() || pending.emergencyWithdrawing,
        !CanTransferOwnership() || pending.transferring,
        pending.renouncing)
    }

    /** The rendered panel: a non-owner gets only the access notice, the owner
        gets the state controls and the buttons. */
    function View(isOwner: bool, isPaused: Option<bool>, pending: Pending): (v: AdminView)
      reads this
      ensures v.AccessRequired? <==> !isOwner
      ensures v.Controls? ==> v.state == StateControlFor(isPaused, pending) && v.buttons == ButtonsFor(pending)
    {
      if !isOwner then AccessRequired else Controls(StateControlFor(isPaused, pending), ButtonsFor(pending))
    }
  }

  /** The panel's controls appear exactly for a connected account whose address
      equals the contract owner's up to letter case; unresolved reads show the notice. */
  lemma ControlsOnlyForOwner(panel: AdminSection, isConnected: bool, address: Option<string>,
                             owner: Option<string>, isMerchantRead: Option<bool>,
                             isPaused: Option<bool>, pending: Pending)
    ensures panel.View(UserRole.ResolveRole(isConnected, address, owner, isMerchantRead).isOwner, isPaused, pending).Controls?
      <==> isConnected && address.Some? && owner.Some? && address.value != "" && owner.value != ""
           && EqualIgnoringCase(address.value, owner.value)
  {
    UserRole.IsOwnerIff(isConnected, address, owner, isMerchantRead);
  }
}
