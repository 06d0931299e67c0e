/**
 * The navigation sidebar: a fixed list of links, filtered by the current
 * user's role, with the link for the current page highlighted.
 */
module Sidebar {
  import opened Wrappers
  import opened AuthContext
  import SeqLemmas

  /** A link; `caption` is its label. `roles`, when present, lists the roles that may see it; `adminOnly` marks administration pages. */
  datatype NavItem = NavItem(caption: string, href: string, adminOnly: bool, roles: Option<seq<Role>>)

  function Plain(caption: string, href: string): NavItem {
    NavItem(caption, href, false, None)
  }

  function AdminPage(caption: string, href: string): NavItem {
    NavItem(caption, href, true, None)
  }

  /** The pages every visitor sees. */
  const GeneralItems: seq<NavItem> := [
    Plain("ダッシュボード", "/dashboard"),
    Plain("コース一覧", "/courses"),
    Plain("マイコース", "/my-courses"),
    Plain("プロフィール", "/profile")
  ]

  /** The administration pages. */
  const AdminItems: seq<NavItem> := [
    AdminPage("コース管理", "/admin/courses/new"),
    AdminPage("ユーザー管理", "/admin/users"),
    AdminPage("進捗管理", "/admin/progress")
  ]

  /** The submissions page, listed for administrators and instructors. */
  const SubmissionsItem := NavItem("提出管理", "/admin/submissions", false, Some([ADMIN, INSTRUCTOR]))

  /** The sidebar's list, in display order. */
  const NavItems: seq<NavItem> := GeneralItems + AdminItems + [SubmissionsItem]

  /** The role of the logged-in user, if any. */
  function UserRole(user: Option<User>): (r: Option<Role>)
    ensures r.Some? <==> user.Some?
    ensures r.Some? ==> r.value == user.value.role
  {
    if user.Some? then Some(user.value.role) else None
  }

  /**
   * Whether an item is shown. A `roles` list decides alone (and needs a
   * logged-in user whose role it lists); otherwise an administration page
   * needs the ADMIN role; any other item is always shown.
   */
  predicate IsVisible(item: NavItem, userRole: Option<Role>) {
    if item.roles.Some? then userRole.Some? && userRole.value in item.roles.value
    else if item.adminOnly then userRole == Some(ADMIN)
    else true
  }

  /** The items shown, in list order. */
  function VisibleItems(items: seq<NavItem>, userRole: Option<Role>): (r: seq<NavItem>)
    ensures |r| <= |items|
    ensures forall k :: 0 <= k < |r| ==> r[k] in items && IsVisible(r[k], userRole)
  {
    if items == [] then []
    else (if IsVisible(items[0], userRole) then [items[0]] else []) + VisibleItems(items[1..], userRole)
  }

  /**
   * The positions, from `from` on, of the entries that are shown: each is a
   * visible entry's position, they increase, and none is missed.
   */
  function VisibleFrom(items: seq<NavItem>, userRole: Option<Role>, from: nat): (r: seq<nat>)
    requires from <= |items|
    ensures forall k :: 0 <= k < |r| ==> from <= r[k] < |items| && IsVisible(items[r[k]], userRole)
    ensures forall k, l :: 0 <= k < l < |r| ==> r[k] < r[l]
    ensures forall i :: from <= i < |items| && IsVisible(items[i], userRole) ==> i in r
    decreases |items| - from
  {
    if from == |items| then []
    else (if IsVisible(items[from], userRole) then [from] else []) + VisibleFrom(items, userRole, from + 1)
  }

  /** One step of the filter. */
  lemma VisibleItemsStep(items: seq<NavItem>, j: nat, userRole: Option<Role>)
    requires j < |items|
    ensures VisibleItems(items[j..], userRole) ==
      (if IsVisible(items[j], userRole) then [items[j]] else []) + VisibleItems(items[j + 1..], userRole)
  {
    assert items[j..][1..] == items[j + 1..];
  }

  /** The filter's output, entry by entry, is the list's entries at the visible positions. */
  lemma {:induction false} VisibleFromSelects(items: seq<NavItem>, userRole: Option<Role>, from: nat)
    requires from <= |items|
    ensures |VisibleFrom(items, userRole, from)| == |VisibleItems(items[from..], userRole)|
    ensures forall k :: 0 <= k < |VisibleFrom(items, userRole, from)| ==>
      VisibleItems(items[from..], userRole)[k] == items[VisibleFrom(items, userRole, from)[k]]
    decreases |items| - from
  {
    if from < |items| {
      VisibleFromSelects(items, userRole, from + 1);
      VisibleItemsStep(items, from, userRole);
      var visible := IsVisible(items[from], userRole);
      var head: seq<nat> := if visible then [from] else [];
      var rest := VisibleFrom(items, userRole, from + 1);
      var picked := head + rest;
      var shown := (if visible then [items[from]] else []) + VisibleItems(items[from + 1..], userRole);
      forall k | 0 <= k < |picked|
        ensures shown[k] == items[picked[k]]
      {
        if k >= |head| {
          assert picked[k] == rest[k - |head|];
          assert shown[k] == VisibleItems(items[from + 1..], userRole)[k - |head|];
        }
      }
    }
  }

  /**
   * The shown items are exactly the visible entries of the list, picked at
   * increasing positions: filtering keeps the list's order and drops no
   * visible entry.
   */
  lemma VisibleItemsKeepOrder(items: seq<NavItem>, userRole: Option<Role>) returns (picked: seq<nat>)
    ensures |picked| == |VisibleItems(items, userRole)|
    ensures forall k :: 0 <= k < |picked| ==>
      picked[k] < |items| && VisibleItems(items, userRole)[k] == items[picked[k]]
    ensures forall k, l :: 0 <= k < l < |picked| ==> picked[k] < picked[l]
    ensures forall i :: 0 <= i < |items| ==> (i in picked <==> IsVisible(items[i], userRole))
  {
    picked := VisibleFrom(items, userRole, 0);
    VisibleFromSelects(items, userRole, 0);
    assert items[0..] == items;
  }

  /** Filtering a concatenation filters each part. */
  lemma {:induction false} VisibleItemsAppend(a: seq<NavItem>, b: seq<NavItem>, userRole: Option<Role>)
    ensures VisibleItems(a + b, userRole) == VisibleItems(a, userRole) + VisibleItems(b, userRole)
  {
    if a == [] {
      assert a + b == b;
    } else {
      var head := if IsVisible(a[0], userRole) then [a[0]] else [];
      assert (a + b)[0] == a[0] && (a + b)[1..] == a[1..] + b;
      VisibleItemsAppend(a[1..], b, userRole);
      SeqLemmas.ConcatAssociative(head, VisibleItems(a[1..], userRole), VisibleItems(b, userRole));
    }
  }

  /** A list whose entries are all shown is kept whole. */
  lemma {:induction false} VisibleItemsAll(items: seq<NavItem>, userRole: Option<Role>)
    requires forall i :: 0 <= i < |items| ==> IsVisible(items[i], userRole)
    ensures VisibleItems(items, userRole) == items
  {
    if items != [] {
      VisibleItemsAll(items[1..], userRole);
      assert [items[0]] + items[1..] == items;
    }
  }

  /** A list none of whose entries is shown is filtered away. */
  lemma {:induction false} VisibleItemsNone(items: seq<NavItem>, userRole: Option<Role>)
    requires forall i :: 0 <= i < |items| ==> !IsVisible(items[i], userRole)
    ensures VisibleItems(items, userRole) == []
  {
    if items != [] {
      VisibleItemsNone(items[1..], userRole);
    }
  }

  lemma GeneralItemsShown(userRole: Option<Role>)
    ensures VisibleItems(GeneralItems, userRole) == GeneralItems
  {
    VisibleItemsAll(GeneralItems, userRole);
  }

  lemma AdminItemsShown(userRole: Option<Role>)
    ensures VisibleItems(AdminItems, userRole) == if userRole == Some(ADMIN) then AdminItems else []
  {
    if userRole == Some(ADMIN) {
      VisibleItemsAll(AdminItems, userRole);
    } else {
      VisibleItemsNone(AdminItems, userRole);
    }
  }

  lemma SubmissionsItemShown(userRole: Option<Role>)
    ensures VisibleItems([SubmissionsItem], userRole) ==
      if userRole == Some(ADMIN) || userRole == Some(INSTRUCTOR) then [SubmissionsItem] else []
  {
    if userRole == Some(ADMIN) || userRole == Some(INSTRUCTOR) {
      VisibleItemsAll([SubmissionsItem], userRole);
    } else {
      VisibleItemsNone([SubmissionsItem], userRole);
    }
  }

  /** The items a role sees: the general pages, then the administration pages, then the submissions page. */
  lemma VisibleNavItems(userRole: Option<Role>)
    ensures VisibleItems(NavItems, userRole) ==
      GeneralItems +
      (if userRole == Some(ADMIN) then AdminItems else []) +
      (if userRole == Some(ADMIN) || userRole == Some(INSTRUCTOR) then [SubmissionsItem] else [])
  {
    VisibleItemsAppend(GeneralItems + AdminItems, [SubmissionsItem], userRole);
    VisibleItemsAppend(GeneralItems, AdminItems, userRole);
    GeneralItemsShown(userRole);
    AdminItemsShown(userRole);
    SubmissionsItemShown(userRole);
  }

  /**
   * Visitors who are not logged in and learners see the four general pages;
   * instructors also see the submissions page; administrators see all eight.
   */
  lemma VisibleItemsPerRole()
    ensures VisibleItems(NavItems, None) == GeneralItems
    ensures VisibleItems(NavItems, Some(LEARNER)) == GeneralItems
    ensures VisibleItems(NavItems, Some(INSTRUCTOR)) == GeneralItems + [SubmissionsItem]
    ensures VisibleItems(NavItems, Some(ADMIN)) == NavItems
    ensures |NavItems| == 8 && |GeneralItems| == 4 && SubmissionsItem.href == "/admin/submissions"
  {
    var nothing: seq<NavItem> := [];
    assert GeneralItems + nothing + nothing == GeneralItems;
    assert GeneralItems + nothing + [SubmissionsItem] == GeneralItems + [SubmissionsItem];
    assert GeneralItems + nothing + [SubmissionsItem] == GeneralItems + [SubmissionsItem];
    VisibleNavItems(None);
    VisibleNavItems(Some(LEARNER));
    VisibleNavItems(Some(INSTRUCTOR));
    VisibleNavItems(Some(ADMIN));
  }

  /**
   * The sidebar as the component renders it: the session comes from the auth
   * hook, which throws outside a provider, and the list shows what the
   * signed-in user's role may see.
   */
  function SidebarItems(context: Option<AuthContextValue>): (r: Result<seq<NavItem>, string>)
    ensures r.Failure? <==> context.None?
    ensures r.Failure? ==> r.error == OutsideProviderMessage
    ensures r.Success? && context.value.user.None? ==> r.value == GeneralItems
    ensures r.Success? && context.value.user.Some? ==>
      var role := context.value.user.value.role;
      r.value == GeneralItems + (if role == ADMIN then AdminItems else []) +
        (if role == ADMIN || role == INSTRUCTOR then [SubmissionsItem] else [])
  {
    match UseAuth(context)
    case Failure(e) => Failure(e)
    case Success(v) =>
      var role := UserRole(v.user);
      VisibleNavItems(role);
      VisibleItemsPerRole();
      Success(VisibleItems(NavItems, role))
  }

  /**
   * The sidebar through a session: after the check on mount it shows all
   * eight pages to an administrator and the general pages when no session
   * was restored; after a login it follows the new user's role; after a
   * logout, whatever the server answered, it shows the general pages.
   */
  method SidebarThroughSession(stored: map<string, string>, me: Option<User>, credentials: LoginRequest, login: AuthResponse, serverOk: bool)
    returns (afterRestore: Result<seq<NavItem>, string>, afterLogin: Result<seq<NavItem>, string>, afterLogout: Result<seq<NavItem>, string>)
    ensures HasAccessToken(stored) && me.Some? && me.value.role == ADMIN ==> afterRestore == Success(NavItems)
    ensures !HasAccessToken(stored) || me.None? ==> afterRestore == Success(GeneralItems)
    ensures login.user.role == ADMIN ==> afterLogin == Success(NavItems)
    ensures login.user.role == LEARNER ==> afterLogin == Success(GeneralItems)
    ensures login.user.role == INSTRUCTOR ==> afterLogin == Success(GeneralItems + [SubmissionsItem])
    ensures afterLogin == Success(GeneralItems + (if login.user.role == ADMIN then AdminItems else []) +
      (if login.user.role != LEARNER then [SubmissionsItem] else []))
    ensures afterLogout == Success(GeneralItems)
  {
    var provider := new AuthProvider(stored);
    var _ := provider.RestoreSession(me);
    afterRestore := SidebarItems(Some(provider.Value()));
    var _, _, _ := provider.Login(credentials, Some(login));
    afterLogin := SidebarItems(Some(provider.Value()));
    var nothing: seq<NavItem> := [];
    assert GeneralItems + nothing + nothing == GeneralItems;
    assert GeneralItems + nothing + [SubmissionsItem] == GeneralItems + [SubmissionsItem];
    var _, _ := provider.Logout(serverOk);
    afterLogout := SidebarItems(Some(provider.Value()));
  }

  /** Whether s begins with p. */
  predicate StartsWith(s: string, p: string) {
    |p| <= |s| && s[..|p|] == p
  }

  /** A link is highlighted on its own page and on every page below it. */
  predicate IsActive(pathname: string, href: string) {
    pathname == href || StartsWith(pathname, href + "/")
  }

  /**
   * The highlighting rule in terms of path segments: either the same path, or
   * a longer one that continues the link's path with a '/'.
   */
  lemma IsActiveIffSegmentPrefix(pathname: string, href: string)
    ensures IsActive(pathname, href) <==>
      pathname == href ||
      (|pathname| > |href| && pathname[..|href|] == href && pathname[|href|] == '/')
  {
    if |pathname| > |href| && pathname[..|href|] == href && pathname[|href|] == '/' {
      assert pathname[..|href| + 1] == href + "/";
    }
    if StartsWith(pathname, href + "/") {
      assert pathname[..|href|] == (href + "/")[..|href|];
      assert pathname[|href|] == pathname[..|href| + 1][|href|];
    }
  }

  lemma IsActiveExamples()
    ensures IsActive("/courses", "/courses")
    ensures IsActive("/courses/3", "/courses")
    ensures !IsActive("/coursesX", "/courses")
    ensures !IsActive("/course", "/courses")
  {
    IsActiveIffSegmentPrefix("/courses/3", "/courses");
    IsActiveIffSegmentPrefix("/coursesX", "/courses");
  }
}
