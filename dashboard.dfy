/**
 * The dashboard shell (`Dashboard`): which tabs a role sees, which section the
 * main area shows, the active-tab and mobile-menu state changed by clicks, the
 * header badges and the shortened address in the sidebar.
 */
module DashboardView {
  import opened JsText
  import opened UserRole
  import AdminSectionView

  /** `TabType`. */
  datatype TabId = PosTab | MerchantTab | AdminTab | InfoTab

  /** Who may see a tab. */
  datatype Access = All | MerchantAccess | OwnerAccess

  datatype Tab = Tab(id: TabId, title: string, access: Access)

  /** The tabs in their declared order. */
  const Tabs: seq<Tab> := [
    Tab(PosTab, "Payment POS", All),
    Tab(MerchantTab, "Merchant", MerchantAccess),
    Tab(AdminTab, "Admin", OwnerAccess),
    Tab(InfoTab, "Contract Info", All)
  ]

  /** The `visibleTabs` filter's test for one tab. */
  predicate TabVisible(access: Access, isMerchant: bool, isOwner: bool): (b: bool)
    ensures access == All ==> b
    ensures isOwner ==> b
    ensures b && access != All ==> isMerchant || isOwner
    ensures access == OwnerAccess ==> (b <==> isOwner)
  {
    match access
    case All => true
    case MerchantAccess => isMerchant || isOwner
    case OwnerAccess => isOwner
  }

  /** a is b with some elements left out, the rest kept in their order. */
  predicate IsSubsequence<T(==)>(a: seq<T>, b: seq<T>) {
    if a == [] then true
    else if b == [] then false
    else if a[0] == b[0] then IsSubsequence(a[1..], b[1..])
    else IsSubsequence(a, b[1..])
  }

  /** `tabs.filter(...)`: keeps exactly the visible tabs, in their order. */
  function FilterTabs(tabs: seq<Tab>, isMerchant: bool, isOwner: bool): (r: seq<Tab>)
    ensures IsSubsequence(r, tabs)
    ensures forall t :: t in r <==> t in tabs && TabVisible(t.access, isMerchant, isOwner)
  {
    if tabs == [] then []
    else if TabVisible(tabs[0].access, isMerchant, isOwner) then [tabs[0]] + FilterTabs(tabs[1..], isMerchant, isOwner)
    else FilterTabs(tabs[1..], isMerchant, isOwner)
  }

  /** `visibleTabs`: the declared tabs a caller with these flags may see, in order. */
  function VisibleTabs(isMerchant: bool, isOwner: bool): (r: seq<Tab>)
    ensures IsSubsequence(r, Tabs)
    ensures forall t :: t in r <==> t in Tabs && TabVisible(t.access, isMerchant, isOwner)
  {
    FilterTabs(Tabs, isMerchant, isOwner)
  }

  /** What each combination of flags shows, in declared order: with `isOwner`
      all four tabs, with only `isMerchant` every tab but Admin, otherwise
      Payment POS and Contract Info, which are always visible. */
  lemma VisibleTabsFor(isMerchant: bool, isOwner: bool)
    ensures VisibleTabs(isMerchant, isOwner) ==
      if isOwner then Tabs
      else if isMerchant then [Tabs[0], Tabs[1], Tabs[3]]
      else [Tabs[0], Tabs[3]]
  {
    var t1, t2, t3 := Tabs[1..], Tabs[2..], Tabs[3..];
    assert t1[1..] == t2 && t2[1..] == t3 && t3[1..] == [];
    assert FilterTabs(t3[1..], isMerchant, isOwner) == [];
    assert FilterTabs(t3, isMerchant, isOwner) == [Tabs[3]];
    assert FilterTabs(t2, isMerchant, isOwner) == if isOwner then [Tabs[2], Tabs[3]] else [Tabs[3]];
    assert FilterTabs(t1, isMerchant, isOwner) ==
      if isOwner then Tabs[1..] else if isMerchant then [Tabs[1], Tabs[3]] else [Tabs[3]];
  }

  /** The tabs of a resolved role: owner all four, merchant three, user two. */
  lemma VisibleTabsByRole(isConnected: bool, address: Option<string>, owner: Option<string>,
                          isMerchantRead: Option<bool>)
    ensures var r := ResolveRole(isConnected, address, owner, isMerchantRead);
      |VisibleTabs(r.isMerchant, r.isOwner)| == (match r.role case Owner => 4 case Merchant => 3 case User => 2)
    ensures var r := ResolveRole(isConnected, address, owner, isMerchantRead);
      Tabs[2] in VisibleTabs(r.isMerchant, r.isOwner) <==> r.role == Owner
  {
    var r := ResolveRole(isConnected, address, owner, isMerchantRead);
    VisibleTabsFor(r.isMerchant, r.isOwner);
  }

  /** What the main area shows. */
  datatype Content = ShowConnectPrompt | ShowPos | ShowMerchant | ShowAdmin | ShowInfo

  /** The tab a content belongs to; the connect prompt belongs to none. */
  function ContentTab(c: Content): Option<TabId> {
    match c
    case ShowConnectPrompt => None
    case ShowPos => Some(PosTab)
    case ShowMerchant => Some(MerchantTab)
    case ShowAdmin => Some(AdminTab)
    case ShowInfo => Some(InfoTab)
  }

  /** `renderContent`: the connect prompt whatever the active tab while
      disconnected, otherwise the section of the active tab. */
  function RenderContent(isConnected: bool, activeTab: TabId): (c: Content)
    ensures ContentTab(c) == if isConnected then Some(activeTab) else None
  {
    if !isConnected then ShowConnectPrompt
    else match activeTab
      case PosTab => ShowPos
      case MerchantTab => ShowMerchant
      case AdminTab => ShowAdmin
      case InfoTab => ShowInfo
  }

  /** The Admin tab is listed only for the owner, but the admin section does not
      rely on that: with a stale active tab a connected non-owner has the Admin
      tab hidden, still gets the admin section in the main area, and that
      section shows only the access notice. */
  lemma AdminContentIsGated(panel: AdminSectionView.AdminSection, isConnected: bool, address: Option<string>,
                            owner: Option<string>, isMerchantRead: Option<bool>,
                            isPaused: Option<bool>, pending: AdminSectionView.Pending)
    requires isConnected
    ensures var r := ResolveRole(isConnected, address, owner, isMerchantRead);
      !r.isOwner ==>
        Tabs[2] !in VisibleTabs(r.isMerchant, r.isOwner)
        && RenderContent(isConnected, AdminTab) == ShowAdmin
        && panel.View(r.isOwner, isPaused, pending) == AdminSectionView.AccessRequired
  {
    var r := ResolveRole(isConnected, address, owner, isMerchantRead);
    VisibleTabsFor(r.isMerchant, r.isOwner);
  }

  /** The header's status and role badges, shown only while connected:
      "Paused" exactly when the `paused()` read is `true`, otherwise "Live". */
  function HeaderBadges(isConnected: bool, isPaused: Option<bool>, role: Role): (b: Option<(string, string)>)
    ensures b.Some? <==> isConnected
    ensures b.Some? ==> (b.value.0 == "Paused" <==> IsTrue(isPaused)) && (b.value.0 == "Live" <==> !IsTrue(isPaused))
    ensures b.Some? ==> b.value.1 == RoleName(role)
  {
    if !isConnected then None
    else Some((if IsTrue(isPaused) then "Paused" else "Live", RoleName(role)))
  }

  /** The desktop sidebar's tab list; the sidebar is rendered only while connected. */
  function SidebarTabs(isConnected: bool, isMerchant: bool, isOwner: bool): (t: Option<seq<Tab>>)
    ensures t.Some? <==> isConnected
    ensures t.Some? ==> t.value == VisibleTabs(isMerchant, isOwner)
  {
    if isConnected then Some(VisibleTabs(isMerchant, isOwner)) else None
  }

  /** The sidebar's `address.slice(0, 8)...address.slice(-6)`, shown only while
      connected and only for a present, non-empty address. */
  function SidebarAddress(isConnected: bool, address: Option<string>): (r: Option<string>)
    ensures r.Some? <==> isConnected && Truthy(address)
    ensures r.Some? ==> |r.value| == Min(8, |address.value|) + 3 + Min(6, |address.value|)
  {
    if isConnected && Truthy(address) then Some(Shorten(address.value, 8, 6)) else None
  }

  /** For a well-formed 42-character address the sidebar shows its first eight
      and last six characters around "...", 17 characters in all. */
  lemma SidebarAddressOfValid(address: string)
    requires AdminSectionView.IsValidAddress(address)
    ensures |address| == 42
    ensures SidebarAddress(true, Some(address)) == Some(address[..8] + "..." + address[36..])
    ensures |SidebarAddress(true, Some(address)).value| == 17
  {
    AdminSectionView.ValidAddressIff(address);
    ShortenKeepsEnds(address, 8, 6);
  }

  /** The dashboard's own state: the active tab and whether the mobile menu is open. */
  class Dashboard {
    var activeTab: TabId
    var mobileMenuOpen: bool

    constructor ()
      ensures activeTab == PosTab && !mobileMenuOpen
    {
      activeTab := PosTab;
      mobileMenuOpen := false;
    }

    /** The menu button: `setMobileMenuOpen(!mobileMenuOpen)`. */
    method ToggleMenu()
      modifies this
      ensures mobileMenuOpen == !old(mobileMenuOpen)
      ensures activeTab == old(activeTab)
    {
      mobileMenuOpen := !mobileMenuOpen;
    }

    /** A tab in the mobile menu: select it, then close the menu. */
    method SelectFromMenu(tab: Tab)
      modifies this
      ensures activeTab == tab.id && !mobileMenuOpen
    {
      activeTab := tab.id;
      mobileMenuOpen := false;
    }

    /** A tab in the desktop sidebar: select it; the menu is left as it was. */
    method SelectFromSidebar(tab: Tab)
      modifies this
      ensures activeTab == tab.id && mobileMenuOpen == old(mobileMenuOpen)
    {
      activeTab := tab.id;
    }

    /** The mobile menu, listing the visible tabs; rendered only while open and connected. */
    function MobileMenu(isConnected: bool, isMerchant: bool, isOwner: bool): (m: Option<seq<Tab>>)
      reads this
      ensures m.Some? <==> mobileMenuOpen && isConnected
      ensures m.Some? ==> m.value == VisibleTabs(isMerchant, isOwner)
    {
      if mobileMenuOpen && isConnected then Some(VisibleTabs(isMerchant, isOwner)) else None
    }
  }
}
