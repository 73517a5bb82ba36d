/**
 * The three permission flags the pages consult, all derived from the user's Cognito groups.
 */
module Permissions {

  import opened Wrappers
  import opened UserSession

  /** The group whose members manage templates and categories. */
  const AdminGroup: string := "ADMINS"

  /** `canManageTemplates`: membership of the admin group. */
  function CanManageTemplates(info: UserInfo): (r: bool)
    ensures r <==> AdminGroup in info.groups
  {
    HasGroup(info, AdminGroup)
  }

  /** `canManageCategories`: the same test as for templates. */
  function CanManageCategories(info: UserInfo): (r: bool)
    ensures r <==> AdminGroup in info.groups
  {
    HasGroup(info, AdminGroup)
  }

  /** `canManageImages`: everyone may. */
  function CanManageImages(info: UserInfo): (r: bool)
    ensures r
  {
    true
  }

  /** Categories and templates are always granted together. */
  lemma CategoriesFollowTemplates(info: UserInfo)
    ensures CanManageCategories(info) == CanManageTemplates(info)
  {
  }

  /** Group names are compared exactly: any spelling of the admin group other than "ADMINS"
      ("admins", "Admins", "ADMINS " ...) grants nothing beyond images. */
  lemma MatchingIsExact(info: UserInfo)
    requires forall i :: 0 <= i < |info.groups| ==> info.groups[i] != AdminGroup
    ensures !CanManageTemplates(info) && !CanManageCategories(info) && CanManageImages(info)
  {
  }

  /** Before the user information has loaded, and for an account in no group, only images may be
      managed. */
  lemma InitialPermissions()
    ensures !CanManageTemplates(InitialInfo) && !CanManageCategories(InitialInfo)
    ensures CanManageImages(InitialInfo)
  {
  }

  /** A successful load whose token lists "ADMINS" (among any other entries, strings or not)
      grants template and category management. */
  lemma AdminClaimGrants(a: Attributes, items: seq<ClaimItem>)
    requires StringItem(AdminGroup) in items
    ensures CanManageTemplates(LoadedInfo(a, Some(ArrayClaim(items))))
    ensures CanManageCategories(LoadedInfo(a, Some(ArrayClaim(items))))
  {
  }
}
