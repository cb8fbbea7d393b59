# BasePOS front end: roles, write callbacks, event toasts, admin panel, dashboard

BasePOS is a React front end for the POSVault contract on Base Sepolia. This
project models the logic of three of its files:

- `usePOSVault.ts`:
  - how the connected account is classified as owner, merchant or user;
  - the shared shape of the nine write callbacks: a wallet guard, then build
    and send the write, and an error toast if anything in that attempt throws;
  - how contract events become toast notifications.
- `AdminSection.tsx`: the owner's panel. This covers the address check, the
  four input handlers, the `disabled` state of every button, the pause/resume
  control and the owner-only gate.
- `Dashboard.tsx`: the shell around the sections. This covers which tabs a role
  sees, which section the main area renders, the active tab and the mobile
  menu, the header badges and the shortened address in the sidebar.

The model contains these modules:

- `JsText`: the JavaScript string behaviour the code relies on. This covers
  truthiness of possibly-undefined values, `=== true`, `toLowerCase` on ASCII,
  and `slice(0, n)` / `slice(-n)` as used for `head...tail` short forms.
- `Notifications`: a toast, and the `Toaster` as a log of the toasts shown.
- `UserRole`: `useUserRole`.
- `WriteHooks`: the write callbacks. `Wallet` records the requests sent to
  `writeContractAsync`. `CallbackEffects` is the specification of one
  invocation, and `InvokeWrite` is the imperative callback proved against it.
- `ContractEvents`: the `onLogs` handlers. `BatchToasts` is the specification
  of one batch, and `OnLogs` is the loop proved against it.
- `AdminSectionView`: `AdminSection`. The component's `useState` inputs become
  fields of the class `AdminSection`. Each handler's call of a write hook is
  recorded in `hookCalls`.
- `DashboardView`: `Dashboard`. `activeTab` and `mobileMenuOpen` become fields
  of the class `Dashboard`.

Several inputs are not fixed by this model. Contract reads, the connected
account, each hook's `isPending`, `parseEther`, `formatEther` and the wallet's
answer to a write are all parameters. A read that has not resolved yet is
`None`.

Four behaviours of the code differ from what its intent suggests. The model
follows the code:

- Missing owner read: the role derivation only fails closed for the owner
  flag. With the owner read missing, an account whose `isMerchant` read is
  `true` is still a merchant (`UserRole.UnresolvedReadsGrantNothing` states
  exactly what is granted).
- Address prefix: the address check accepts hex digits in either case, but
  only the lower-case prefix `0x`. `0X…` is rejected.
- Emergency amount: the emergency-withdraw guard only checks that the amount
  field is non-empty. It does not check that the amount parses or is positive.
  A bad amount is caught later, when `parseEther` throws inside the callback,
  and becomes an error toast.
- Clearing inputs: the admin handlers clear their inputs as soon as they call
  the write hook. They do not wait for the transaction, so a failed write
  still clears the form.

## Model

| member | source | states |
|---|---|---|
| JsText.ToLower | src/hooks/usePOSVault.ts:74 | `toLowerCase` keeps the length and lowers each character on its own; A–Z map to a–z and every other character is unchanged |
| JsText.ToLowerEqualIff | src/hooks/usePOSVault.ts:74 | two strings have equal lower-case forms exactly when they are equal up to letter case, position by position |
| JsText.ToLowerIdempotent | src/hooks/usePOSVault.ts:74 | lowering twice is lowering once |
| JsText.Shorten | src/hooks/usePOSVault.ts:482 | the `slice(0, h)...slice(-t)` form has length min(h, n) + 3 + min(t, n), where `slice(-0)` is the whole string, and holds "..." right after the head part |
| JsText.ShortenKeepsEnds | src/hooks/usePOSVault.ts:482 | on a string at least as long as both ends, the short form is exactly the first h characters, "...", and the last t characters |
| JsText.ShortenOfShortString | src/hooks/usePOSVault.ts:482 | on a string shorter than both ends, each slice is the whole string |
| UserRole.RoleName | src/hooks/usePOSVault.ts:82 | the role names "owner", "merchant" and "user" each name exactly one role |
| UserRole.ResolveRole | src/hooks/usePOSVault.ts:69-84 | connection and address are passed through; owner implies merchant; a disconnected account holds no privilege and is a user; the role is owner iff the owner flag is set, merchant iff merchant but not owner, and user iff not merchant |
| UserRole.IsOwnerIff | src/hooks/usePOSVault.ts:74 | the owner flag holds exactly when connected, both addresses are present and non-empty, and they are equal ignoring case |
| UserRole.IsMerchantIff | src/hooks/usePOSVault.ts:75 | the merchant flag holds exactly when connected and the `isMerchant` read is literally `true` or the account is the owner |
| UserRole.UnresolvedReadsGrantNothing | src/hooks/usePOSVault.ts:74-75 | without the owner read nobody is the owner; without the merchant read only the owner is a merchant; without either grant the role is user |
| UserRole.OwnerIgnoresCase | src/hooks/usePOSVault.ts:74 | the derived role is unchanged when the owner address is lowered first |
| Notifications.Toaster.Show | src/hooks/usePOSVault.ts:98-102 | a `toast(...)` call appends its toast to those shown and changes nothing else |
| WriteHooks.ErrorText | src/hooks/usePOSVault.ts:115-121 | the error text is never empty; it is the short message, the message, or "Transaction failed"; a non-empty short message wins, otherwise a non-empty message, otherwise "Transaction failed" |
| WriteHooks.BuildCall | src/hooks/usePOSVault.ts:105-424 | the built request names the callback's contract function and sends from the given account; building throws exactly when the callback parses an amount and `parseEther` throws, with that error; a deposit attaches the parsed amount as its value and no arguments, and no other request attaches a value; `withdraw` sends `[parsed amount]`, `emergencyWithdraw` sends `[to, parsed amount]`, the merchant and ownership-transfer callbacks send `[their address]`, and `pause`/`unpause`/`renounceOwnership` send no arguments |
| WriteHooks.CallbackEffects | src/hooks/usePOSVault.ts:96-122 | without an address, exactly the "Please connect your wallet" toast and no write; at most one toast and one write; every toast is a destructive "Error"; any write goes from the connected address to the right function; with an address, no toast iff a write was sent and returned; requests without an amount always write; no write means `parseEther` threw and its error is shown; a failed write shows the write's error; a write sent is exactly the request `BuildCall` builds |
| WriteHooks.InvokeWrite | src/hooks/usePOSVault.ts:96-122 | the callback body appends to the toast log and to the wallet's sent requests exactly what `CallbackEffects` prescribes |
| WriteHooks.Wallet.WriteContract | src/hooks/usePOSVault.ts:107-114 | sending records the request and returns the wallet's answer |
| ContractEvents.AddressSnippet | src/hooks/usePOSVault.ts:477-540 | an absent address prints as "undefined...undefined"; an address of at least six characters prints as its first six characters, "...", and its last four; one shorter than four prints as itself twice around "..." |
| ContractEvents.LogToast | src/hooks/usePOSVault.ts:442-557 | the per-log toast of each event; only the emergency withdrawal is destructive |
| ContractEvents.PerLogToasts | src/hooks/usePOSVault.ts:446-454 | `logs.forEach(toast)` gives one toast per log, the i-th for the i-th log |
| ContractEvents.BatchToasts | src/hooks/usePOSVault.ts:439-558 | `Paused` and `Unpaused` toast once per batch (destructive iff `Paused`); every other event toasts once per log in order |
| ContractEvents.BatchToastsSplit | src/hooks/usePOSVault.ts:446-454 | for per-log events, two batches toast the same as their concatenation |
| ContractEvents.OncePerBatchIgnoresLogs | src/hooks/usePOSVault.ts:503-526 | `Paused`/`Unpaused` toasts do not depend on the logs, so two batches toast twice where one batch toasts once |
| ContractEvents.MissingAmountReadsAsZero | src/hooks/usePOSVault.ts:448 | `x \|\| 0n`: an absent amount, received amount or fee is formatted as zero |
| ContractEvents.AddressToastShape | src/hooks/usePOSVault.ts:477-540 | for an address of at least ten characters, the merchant and new-owner toasts show its first six and last four characters around "..." |
| ContractEvents.WithdrawalExample | src/hooks/usePOSVault.ts:461-469 | a withdrawal of 0.99 ETH with a 0.01 ETH fee reads "0.99 ETH withdrawn (0.01 ETH fee)" |
| ContractEvents.PerLogToastsStep | src/hooks/usePOSVault.ts:447 | handling one more log appends exactly its toast |
| ContractEvents.OnLogs | src/hooks/usePOSVault.ts:439-558 | the handler appends exactly `BatchToasts` of the batch to the toast log |
| AdminSectionView.IsValidAddress | src/components/AdminSection.tsx:46 | `/^0x[a-fA-F0-9]{40}$/` matches only 42-character strings that start with "0x" (the full characterisation is `ValidAddressIff`) |
| AdminSectionView.HexDigitsIff | src/components/AdminSection.tsx:46 | the `[a-fA-F0-9]{40}` part holds exactly when the rest has length 40 and every character is a hex digit |
| AdminSectionView.ValidAddressIff | src/components/AdminSection.tsx:46 | an address is valid exactly when it has 42 characters, starts with "0x", and has hex digits in positions 2 to 41 |
| AdminSectionView.ValidAddressLowered | src/components/AdminSection.tsx:46 | lowering a valid address keeps it valid |
| AdminSectionView.StateControlFor | src/components/AdminSection.tsx:159-178 | the badge reads "Paused" and the button resumes exactly when the `paused()` read is `true`; otherwise "Active" and a pause button; the button is disabled while its own callback is pending |
| AdminSectionView.AdminSection.constructor | src/components/AdminSection.tsx:32-36 | all five inputs start empty and no hook has been called |
| AdminSectionView.AdminSection.Edit | src/components/AdminSection.tsx:119-241 | typing into one input sets it and changes nothing else |
| AdminSectionView.AdminSection.HandleAddMerchant | src/components/AdminSection.tsx:48-53 | with a valid merchant address, `addMerchant` is called with it and the input is cleared; otherwise nothing changes; the other inputs are untouched |
| AdminSectionView.AdminSection.HandleRemoveMerchant | src/components/AdminSection.tsx:55-60 | with a valid address, `removeMerchant` is called with it and the input is cleared; otherwise nothing changes |
| AdminSectionView.AdminSection.HandleEmergencyWithdraw | src/components/AdminSection.tsx:62-68 | with a valid recipient and a non-empty amount, `emergencyWithdraw` is called with both and both inputs are cleared; otherwise nothing changes |
| AdminSectionView.AdminSection.HandleTransferOwnership | src/components/AdminSection.tsx:70-75 | with a valid new owner, `transferOwnership` is called with it and the input is cleared; otherwise nothing changes |
| AdminSectionView.AdminSection.ClickStateButton | src/components/AdminSection.tsx:168-178 | the state button calls `unpause` while paused and `pause` otherwise, touching no input |
| AdminSectionView.AdminSection.ConfirmRenounce | src/components/AdminSection.tsx:287 | confirming the dialog calls `renounceOwnership`, touching no input |
| AdminSectionView.AdminSection.ButtonsFor | src/components/AdminSection.tsx:124-273 | each input's button is enabled exactly when its handler's guard holds and its callback is not pending; renounce is disabled only while pending |
| AdminSectionView.AdminSection.View | src/components/AdminSection.tsx:77-93 | a non-owner gets exactly the access notice; the owner gets the state control and the buttons |
| AdminSectionView.ControlsOnlyForOwner | src/components/AdminSection.tsx:29-91 | the panel shows controls exactly for a connected account whose address equals the owner's up to case |
| DashboardView.TabVisible | src/components/Dashboard.tsx:29-33 | `all` tabs are visible to everyone and every tab to the owner; a `merchant` or `owner` tab is visible only to a merchant or the owner; an `owner` tab is visible exactly to the owner |
| DashboardView.FilterTabs | src/components/Dashboard.tsx:29-34 | the filter keeps tabs in their order, and a tab is kept exactly when it is visible to the flags |
| DashboardView.VisibleTabs | src/components/Dashboard.tsx:22-34 | `visibleTabs` keeps the declared tabs in their order, and a tab is listed exactly when it is visible to the caller's flags |
| DashboardView.VisibleTabsFor | src/components/Dashboard.tsx:22-34 | the owner sees all four tabs, a merchant every tab but Admin, anyone else Payment POS and Contract Info |
| DashboardView.VisibleTabsByRole | src/components/Dashboard.tsx:16-34 | for a derived role, the owner sees 4 tabs, a merchant 3 and a user 2; the Admin tab is listed exactly for the owner |
| DashboardView.RenderContent | src/components/Dashboard.tsx:36-72 | disconnected shows the connect prompt whatever the tab; connected shows the section of the active tab |
| DashboardView.AdminContentIsGated | src/components/Dashboard.tsx:29-66 | for a connected non-owner whose active tab is still Admin, the Admin tab is not listed, the main area renders the admin section, and that section shows only the access notice |
| DashboardView.HeaderBadges | src/components/Dashboard.tsx:97-108 | badges appear exactly when connected; the status reads "Paused" exactly when the `paused()` read is `true`, "Live" otherwise; the role badge names the role |
| DashboardView.SidebarTabs | src/components/Dashboard.tsx:158-177 | the sidebar appears exactly when connected and lists the visible tabs |
| DashboardView.SidebarAddress | src/components/Dashboard.tsx:179-186 | the address appears exactly when connected and present; its length is min(8, n) + 3 + min(6, n) |
| DashboardView.SidebarAddressOfValid | src/components/Dashboard.tsx:183 | a valid address shows as its first 8 characters, "...", and its last 6, which is 17 characters |
| DashboardView.Dashboard.constructor | src/components/Dashboard.tsx:14-15 | the dashboard starts on the Payment POS tab with the mobile menu closed |
| DashboardView.Dashboard.ToggleMenu | src/components/Dashboard.tsx:117 | the menu button flips the menu and keeps the tab |
| DashboardView.Dashboard.SelectFromMenu | src/components/Dashboard.tsx:134-137 | choosing a tab in the mobile menu selects it and closes the menu |
| DashboardView.Dashboard.SelectFromSidebar | src/components/Dashboard.tsx:166 | choosing a tab in the sidebar selects it and leaves the menu as it was |
| DashboardView.Dashboard.MobileMenu | src/components/Dashboard.tsx:126-151 | the mobile menu appears exactly when open and connected, and lists the visible tabs |

## Left out

- Wagmi and React machinery is not modelled: `useAccount`, `useReadContract`, `useWriteContract`, `useWaitForTransactionReceipt`, `useWatchContractEvent`, re-rendering and the returned `hash`/`isConfirming`/`isSuccess`/`error`. Read results, `isPending` flags and the wallet's answer are parameters.
- `parseEther` and `formatEther` from viem are parameters. The model does not fix their decimal conversion, so it does not say which amount strings `parseEther` rejects.
- JsText.ToLower: lowers ASCII letters only, while JavaScript's `toLowerCase` also folds non-ASCII letters. Addresses compared here are hex strings, where the two agree.
- JsText.SliceHead, JsText.SliceTail: count Unicode scalar values, while JavaScript's `slice` counts UTF-16 code units. They differ only on characters outside the Basic Multilingual Plane, which hex addresses never contain.
- The contract address, ABI and `chain: baseSepolia` sent with every write are constants of the deployment. They are left out of `ContractCall`.
- The asynchronous `await` is not modelled. A callback is modelled as finishing its write before the next one starts, so two overlapping callbacks are not modelled.
- Markup, icons, CSS classes (including the `capitalize` styling of the role badge), the footer and the `AlertDialog` open/close state are not modelled. Only the confirm action of each dialog is.
- `renderContent`'s `default:` branch cannot be reached, because `activeTab` only holds the four `TabType` values. The tab type is a datatype with exactly those values.
- The `CONTRACT_ERRORS` table in `src/config/contract.ts` is never consulted by the callbacks, so no error-name mapping is modelled.
- `POSSection`, `MerchantSection` and `InfoSection` are not part of this model. The dashboard only records which of them it renders.
- The read-only hooks (`useContractBalance`, `useMinDeposit`, `useProtocolFeeBps`, `useTreasury`) only forward a contract read. They appear as parameters where they are consumed.
