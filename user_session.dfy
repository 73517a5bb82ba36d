/**
 * The signed-in user as the console sees it: an email, a display name and the Cognito groups
 * read from the access token, plus a loading flag. The identity provider's calls are not part of
 * this model; what they return (or that they failed) is an input of `LoadUserInfo`.
 */
module UserSession {

  import opened Wrappers

  datatype UserInfo = UserInfo(email: string, groups: seq<string>, name: string)

  /** The user attributes that matter here; an absent attribute is `None`. */
  datatype Attributes = Attributes(email: Option<string>, nickname: Option<string>, name: Option<string>)

  /** One entry of the `cognito:groups` claim: a string, or a value of any other JSON type. */
  datatype ClaimItem = StringItem(s: string) | OtherItem

  /** The `cognito:groups` claim of a decoded access token: an array, or anything else (absent,
      `null`, a string, an object...). */
  datatype GroupsClaim = NotAnArray | ArrayClaim(items: seq<ClaimItem>)

  /** What the two identity calls produce together: a failure (either call, or decoding the
      token, threw), or the attributes and, when the session holds an access token, its groups
      claim. */
  datatype FetchResult = Failed | Fetched(attributes: Attributes, accessToken: Option<GroupsClaim>)

  // =============================================================================================
  // Groups

  /** `items.filter(group => typeof group === 'string')` */
  function StringItems(items: seq<ClaimItem>): (r: seq<string>)
    ensures |r| <= |items|
    ensures forall g :: g in r <==> StringItem(g) in items
  {
    if items == [] then []
    else
      var rest := StringItems(items[1..]);
      assert forall x :: x in items <==> x == items[0] || x in items[1..];
      match items[0]
      case StringItem(s) => [s] + rest
      case OtherItem => rest
  }

  /** Filtering keeps order: filtering a concatenation is concatenating the filtered parts. */
  lemma {:induction false} StringItemsAppend(a: seq<ClaimItem>, b: seq<ClaimItem>)
    ensures StringItems(a + b) == StringItems(a) + StringItems(b)
  {
    if a == [] {
      assert a + b == b;
    } else {
      assert (a + b)[0] == a[0];
      assert (a + b)[1..] == a[1..] + b;
      StringItemsAppend(a[1..], b);
    }
  }

  /** A claim made of strings only is kept whole and in its order. */
  lemma {:induction false} StringItemsOfStrings(gs: seq<string>)
    ensures StringItems(seq(|gs|, i requires 0 <= i < |gs| => StringItem(gs[i]))) == gs
  {
    var items := seq(|gs|, i requires 0 <= i < |gs| => StringItem(gs[i]));
    if gs != [] {
      assert items[1..] == seq(|gs[1..]|, i requires 0 <= i < |gs[1..]| => StringItem(gs[1..][i]));
      StringItemsOfStrings(gs[1..]);
    }
  }

  /** The groups of the session: the string entries of the token's claim when it is an array,
      and none when there is no access token or the claim is not an array. */
  function TokenGroups(accessToken: Option<GroupsClaim>): (r: seq<string>)
    ensures accessToken.None? || accessToken.value.NotAnArray? ==> r == []
    ensures accessToken.Some? && accessToken.value.ArrayClaim? ==>
              forall g :: g in r <==> StringItem(g) in accessToken.value.items
  {
    if accessToken.Some? && accessToken.value.ArrayClaim? then StringItems(accessToken.value.items) else []
  }

  // =============================================================================================
  // Email and display name

  /** `email.split('@')[0]`: the part of the email before its first `@`, or all of it. */
  function BeforeFirstAt(email: string): (r: string)
    ensures '@' !in r
    ensures |r| <= |email| && r == email[..|r|]
    ensures |r| == |email| || email[|r|] == '@'
  {
    if email == [] || email[0] == '@' then ""
    else [email[0]] + BeforeFirstAt(email[1..])
  }

  /** `s || ''` for an optional attribute. */
  function OrEmpty(s: Option<string>): string
  {
    if s.Some? then s.value else ""
  }

  /** `nickname || name || email.split('@')[0]`, with the email already defaulted to `""`. */
  function DisplayName(attributes: Attributes, email: string): (r: string)
    ensures OrEmpty(attributes.nickname) != "" ==> r == attributes.nickname.value
    ensures OrEmpty(attributes.nickname) == "" && OrEmpty(attributes.name) != "" ==> r == attributes.name.value
    ensures OrEmpty(attributes.nickname) == "" && OrEmpty(attributes.name) == "" ==> r == BeforeFirstAt(email)
  {
    if OrEmpty(attributes.nickname) != "" then attributes.nickname.value
    else if OrEmpty(attributes.name) != "" then attributes.name.value
    else BeforeFirstAt(email)
  }

  /** Without a nickname or name, the display name is a prefix of the email with no `@`; an
      email without `@` is used whole, and no email gives an empty name. */
  lemma NameFromEmail(attributes: Attributes)
    requires OrEmpty(attributes.nickname) == "" && OrEmpty(attributes.name) == ""
    ensures var email := OrEmpty(attributes.email);
            var n := DisplayName(attributes, email);
            '@' !in n && n == email[..|n|] && ('@' !in email ==> n == email) && (email == "" ==> n == "")
  {
  }

  /** The user information a successful load produces. */
  function LoadedInfo(attributes: Attributes, accessToken: Option<GroupsClaim>): (r: UserInfo)
    ensures r.email == OrEmpty(attributes.email)
    ensures r.groups == TokenGroups(accessToken)
    ensures r.name == DisplayName(attributes, r.email)
  {
    var email := OrEmpty(attributes.email);
    UserInfo(email, TokenGroups(accessToken), DisplayName(attributes, email))
  }

  // =============================================================================================
  // Group predicates

  /** `userInfo.groups.includes(group)` */
  function HasGroup(info: UserInfo, group: string): (r: bool)
    ensures r <==> group in info.groups
  {
    InGroups(info.groups, group)
  }

  function InGroups(groups: seq<string>, group: string): (r: bool)
    ensures r <==> exists i :: 0 <= i < |groups| && groups[i] == group
  {
    if groups == [] then false
    else if groups[0] == group then true
    else
      var r := InGroups(groups[1..], group);
      assert r ==> exists i :: 0 <= i < |groups| && groups[i] == group by {
        if r {
          var i :| 0 <= i < |groups[1..]| && groups[1..][i] == group;
          assert groups[i + 1] == group;
        }
      }
      r
  }

  /** `groups.some(group => userInfo.groups.includes(group))`: false for no groups. */
  function HasAnyGroup(info: UserInfo, gs: seq<string>): (r: bool)
    ensures r <==> exists i :: 0 <= i < |gs| && gs[i] in info.groups
  {
    if gs == [] then false
    else if HasGroup(info, gs[0]) then true
    else
      var r := HasAnyGroup(info, gs[1..]);
      assert r ==> exists i :: 0 <= i < |gs| && gs[i] in info.groups by {
        if r {
          var i :| 0 <= i < |gs[1..]| && gs[1..][i] in info.groups;
          assert gs[i + 1] in info.groups;
        }
      }
      r
  }

  /** `groups.every(group => userInfo.groups.includes(group))`: true for no groups. */
  function HasAllGroups(info: UserInfo, gs: seq<string>): (r: bool)
    ensures r <==> forall i :: 0 <= i < |gs| ==> gs[i] in info.groups
  {
    if gs == [] then true
    else if !HasGroup(info, gs[0]) then false
    else
      var r := HasAllGroups(info, gs[1..]);
      assert !r ==> exists i :: 0 <= i < |gs| && gs[i] !in info.groups by {
        if !r {
          var i :| 0 <= i < |gs[1..]| && gs[1..][i] !in info.groups;
          assert gs[i + 1] !in info.groups;
        }
      }
      r
  }

  /** For a non-empty list, belonging to all of the groups implies belonging to one of them. */
  lemma AllImpliesAny(info: UserInfo, gs: seq<string>)
    requires gs != [] && HasAllGroups(info, gs)
    ensures HasAnyGroup(info, gs)
  {
    assert gs[0] in info.groups;
  }

  /** The information the hook starts with, before any load. */
  const InitialInfo: UserInfo := UserInfo("", [], "")

  /** Before any load the user belongs to no group: `hasGroup` is false for every group, and so
      is `hasAnyGroup` for every list, while `hasAllGroups` holds only for the empty list. */
  lemma InitialBelongsNowhere(g: string, gs: seq<string>)
    ensures !HasGroup(InitialInfo, g)
    ensures !HasAnyGroup(InitialInfo, gs)
    ensures HasAllGroups(InitialInfo, gs) <==> gs == []
  {
    if gs != [] {
      assert gs[0] !in InitialInfo.groups;
    }
  }

  // =============================================================================================
  // The hook's state

  class Session {
    var userInfo: UserInfo
    var isLoading: bool

    /** The hook's initial state: no user information yet, and loading. */
    constructor ()
      ensures userInfo == InitialInfo && isLoading
    {
      userInfo := InitialInfo;
      isLoading := true;
    }

    /** `loadUserInfo`: on success the user information is replaced by what was fetched; on
        failure it is kept as it was. Either way loading has ended. */
    method LoadUserInfo(result: FetchResult)
      modifies this
      ensures result.Failed? ==> userInfo == old(userInfo)
      ensures result.Fetched? ==> userInfo == LoadedInfo(result.attributes, result.accessToken)
      ensures !isLoading
    {
      if result.Fetched? {
        var groups: seq<string> := [];
        if result.accessToken.Some? {
          var claim := result.accessToken.value;
          if claim.ArrayClaim? {
            groups := StringItems(claim.items);
          }
        }
        var email := OrEmpty(result.attributes.email);
        var name := DisplayName(result.attributes, email);
        userInfo := UserInfo(email, groups, name);
      }
      isLoading := false;
    }
  }
}
