/**
 * Role detection (`useUserRole`): the connected account, the `owner()` read and
 * the `isMerchant(address)` read decide whether the caller is treated as the
 * owner, a merchant or a plain user. Reads that have not resolved are `None`.
 */
module UserRole {
  import opened JsText

  datatype Role = Owner | Merchant | User

  /** The object `useUserRole` returns. */
  datatype RoleInfo = RoleInfo(
    isConnected: bool,
    address: Option<string>,
    isOwner: bool,
    isMerchant: bool,
    role: Role)

  /** The role badge text. */
  function RoleName(r: Role): (name: string)
    ensures name == "owner" <==> r == Owner
    ensures name == "merchant" <==> r == Merchant
    ensures name == "user" <==> r == User
  {
    match r
    case Owner => "owner"
    case Merchant => "merchant"
    case User => "user"
  }

  /** `isConnected && address && owner && address.toLowerCase() === owner.toLowerCase()`. */
  predicate OwnerMatches(isConnected: bool, address: Option<string>, owner: Option<string>) {
    isConnected && Truthy(address) && Truthy(owner) && ToLower(address.value) == ToLower(owner.value)
  }

  /** The role derivation. Being the owner implies being treated as a merchant,
      the role names the highest privilege held, and a disconnected caller holds none. */
  function ResolveRole(isConnected: bool, address: Option<string>, owner: Option<string>,
                       isMerchantRead: Option<bool>): (r: RoleInfo)
    ensures r.isConnected == isConnected && r.address == address
    ensures r.isOwner ==> r.isMerchant
    ensures !isConnected ==> !r.isOwner && !r.isMerchant && r.role == User
    ensures r.role == Owner <==> r.isOwner
    ensures r.role == Merchant <==> r.isMerchant && !r.isOwner
    ensures r.role == User <==> !r.isMerchant
  {
    var isOwner := OwnerMatches(isConnected, address, owner);
    var isMerchantUser := isConnected && (IsTrue(isMerchantRead) || isOwner);
    RoleInfo(isConnected, address, isOwner, isMerchantUser,
             if isOwner then Owner else if isMerchantUser then Merchant else User)
  }

  /** The caller is the owner exactly when connected, both addresses are
      present and non-empty, and they are equal up to letter case. */
  lemma IsOwnerIff(isConnected: bool, address: Option<string>, owner: Option<string>,
                   isMerchantRead: Option<bool>)
    ensures ResolveRole(isConnected, address, owner, isMerchantRead).isOwner <==>
      isConnected && address.Some? && owner.Some? && address.value != "" && owner.value != ""
      && EqualIgnoringCase(address.value, owner.value)
  {
    if address.Some? && owner.Some? {
      ToLowerEqualIff(address.value, owner.value);
    }
  }

  /** The merchant flag is set exactly when connected and the `isMerchant` read
      is literally `true` or the caller is the owner. */
  lemma IsMerchantIff(isConnected: bool, address: Option<string>, owner: Option<string>,
                      isMerchantRead: Option<bool>)
    ensures var r := ResolveRole(isConnected, address, owner, isMerchantRead);
      r.isMerchant <==> isConnected && (isMerchantRead == Some(true) || r.isOwner)
  {
  }

  /** Reads that have not resolved grant nothing: without the owner read nobody
      is the owner, and without the merchant read only the owner is a merchant. */
  lemma UnresolvedReadsGrantNothing(isConnected: bool, address: Option<string>, owner: Option<string>,
                                    isMerchantRead: Option<bool>)
    ensures owner == None ==> !ResolveRole(isConnected, address, owner, isMerchantRead).isOwner
    ensures isMerchantRead == None ==>
      ResolveRole(isConnected, address, owner, isMerchantRead).isMerchant ==
      ResolveRole(isConnected, address, owner, isMerchantRead).isOwner
    ensures owner == None && isMerchantRead != Some(true) ==>
      ResolveRole(isConnected, address, owner, isMerchantRead).role == User
  {
  }

  /** The owner comparison does not care about letter case in either address. */
  lemma OwnerIgnoresCase(isConnected: bool, address: string, owner: string, isMerchantRead: Option<bool>)
    ensures ResolveRole(isConnected, Some(address), Some(owner), isMerchantRead) ==
      ResolveRole(isConnected, Some(address), Some(ToLower(owner)), isMerchantRead)
  {
    ToLowerIdempotent(owner);
  }
}
