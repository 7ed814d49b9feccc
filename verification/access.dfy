/** The route-permission rule of the web console: `access(initialState)` yields
    `canAdmin`, the current user's super-admin flag, and `canAuth(route)`, which
    decides whether the current user may open a route. A super admin may open
    every route; anyone else only a route whose path is a prefix or a suffix of
    the `path` of some entry in their menu list. */
module RouteAccess {
  import opened Wrappers
  import opened JsStrings

  /** The JavaScript values the two fields can take: `undefined` or a boolean.
      Only their truthiness matters to a caller. */
  datatype JsBool = Undefined | Bool(b: bool) {
    predicate Truthy() {
      Bool? && b
    }
  }

  datatype User = User(superAdminFlag: bool)

  /** One entry of the user's menu list; its `path` may be missing. */
  datatype MenuItem = MenuItem(path: Option<string>)

  /** The logged-in user as the console holds it; the menu list may be missing,
      and each of its entries may be `null`. */
  datatype CurrentUser = CurrentUser(user: User, menuList: Option<seq<Option<MenuItem>>>)

  datatype InitialState = InitialState(currentUser: Option<CurrentUser>)

  /** A route: its `path`, and every other route property in `rest`. */
  datatype Route = Route(path: string, rest: map<string, string>)

  /** The object `access` returns: the `canAdmin` value and the current user
      that the `canAuth` closure captures. */
  datatype AccessRules = AccessRules(canAdmin: JsBool, currentUser: Option<CurrentUser>) {

    /** `canAuth({path, ...route})`. */
    function CanAuth(route: Route): (r: JsBool)
      ensures r.Truthy() <==>
        || (currentUser.Some? && currentUser.value.user.superAdminFlag)
        || (currentUser.Some? && currentUser.value.menuList.Some? &&
            exists i :: 0 <= i < |currentUser.value.menuList.value| &&
              PathGrants(currentUser.value.menuList.value[i], route.path))
      ensures currentUser.None? ==> r == Undefined
    {
      if currentUser.Some? && currentUser.value.user.superAdminFlag then
        Bool(true)
      else
        match currentUser
        case None => Undefined
        case Some(u) =>
          match u.menuList
          case None => Undefined
          case Some(items) => Bool(MenuSome(items, route.path))
    }
  }

  /** Declarative reading of the callback passed to `some`: the entry is present,
      has a path, and the requested path starts or ends that path. */
  ghost predicate PathGrants(item: Option<MenuItem>, path: string) {
    && item.Some? && item.value.path.Some?
    && ((exists rest :: item.value.path.value == path + rest) ||
        (exists front :: item.value.path.value == front + path))
  }

  /** `access(initialState)`; a missing initial state reads as `{}`. */
  function Access(initialState: Option<InitialState>): (a: AccessRules)
    ensures a.canAdmin.Truthy() <==>
      initialState.Some? && initialState.value.currentUser.Some? &&
      initialState.value.currentUser.value.user.superAdminFlag
    ensures a.currentUser == (if initialState.Some? then initialState.value.currentUser else None)
    ensures a.currentUser.Some? ==> a.canAdmin == Bool(a.currentUser.value.user.superAdminFlag)
    ensures a.currentUser.None? ==> a.canAdmin == Undefined
  {
    var currentUser := initialState.GetOr(InitialState(None)).currentUser;
    var canAdmin := match currentUser
      case None => Undefined
      case Some(u) => Bool(u.user.superAdminFlag);
    AccessRules(canAdmin, currentUser)
  }

  /** The callback `item => item?.path?.startsWith(path) || item?.path?.endsWith(path)`:
      `undefined` when the entry or its path is missing, a boolean otherwise. */
  function ItemMatches(item: Option<MenuItem>, path: string): (r: JsBool)
    ensures r.Truthy() <==> PathGrants(item, path)
    ensures item.None? || item.value.path.None? ==> r == Undefined
  {
    match item
    case None => Undefined
    case Some(m) =>
      match m.path
      case None => Undefined
      case Some(p) => Bool(StartsWith(p, path) || EndsWith(p, path))
  }

  /** `items.some(callback)`: visits the entries from the first and stops at the
      first whose callback result is truthy; true exactly when some entry's
      callback result is truthy. */
  function MenuSome(items: seq<Option<MenuItem>>, path: string): (r: bool)
    ensures r <==> exists i :: 0 <= i < |items| && PathGrants(items[i], path)
  {
    if items == [] then false
    else
      var r := ItemMatches(items[0], path).Truthy() || MenuSome(items[1..], path);
      assert forall j :: 0 <= j < |items[1..]| ==> items[1..][j] == items[j + 1];
      r
  }

  /** `some` over a concatenation is the disjunction of `some` over its parts. */
  lemma {:induction false} MenuSomeAppend(a: seq<Option<MenuItem>>, b: seq<Option<MenuItem>>, path: string)
    ensures MenuSome(a + b, path) == (MenuSome(a, path) || MenuSome(b, path))
  {
    if a == [] {
      assert a + b == b;
    } else {
      assert (a + b)[1..] == a[1..] + b;
      MenuSomeAppend(a[1..], b, path);
    }
  }

  /** The rule for a given current user, as the console evaluates it. */
  function Allowed(currentUser: Option<CurrentUser>, route: Route): (r: bool) {
    Access(Some(InitialState(currentUser))).CanAuth(route).Truthy()
  }

  /** A super admin may open every route, whatever the menu list holds. */
  lemma SuperAdminAllowed(u: CurrentUser, route: Route)
    requires u.user.superAdminFlag
    ensures Access(Some(InitialState(Some(u)))).CanAuth(route) == Bool(true)
  {
  }

  /** Without a current user `canAuth` yields `undefined`, so it never grants;
      a missing initial state behaves as one without a user. */
  lemma NoUserDenied(initialState: Option<InitialState>, route: Route)
    requires initialState.None? || initialState.value.currentUser.None?
    ensures Access(initialState).CanAuth(route) == Undefined
    ensures !Access(initialState).CanAuth(route).Truthy()
    ensures !Access(initialState).canAdmin.Truthy()
  {
  }

  /** A user who is not a super admin and has no menu list, or an empty one,
      may open nothing. */
  lemma NoMenuDenied(u: CurrentUser, route: Route)
    requires !u.user.superAdminFlag
    requires u.menuList.None? || u.menuList == Some([])
    ensures !Allowed(Some(u), route)
  {
  }

  /** For a user who is not a super admin, access is granted exactly when some
      entry of the menu list has a path that starts or ends with the requested
      path. */
  lemma NonAdminIff(u: CurrentUser, route: Route)
    requires !u.user.superAdminFlag
    ensures Allowed(Some(u), route) <==>
      u.menuList.Some? &&
      exists i :: 0 <= i < |u.menuList.value| &&
        u.menuList.value[i].Some? && u.menuList.value[i].value.path.Some? &&
        (StartsWith(u.menuList.value[i].value.path.value, route.path) ||
         EndsWith(u.menuList.value[i].value.path.value, route.path))
  {
  }

  /** An entry whose path equals the requested path grants access. */
  lemma ExactPathGrants(u: CurrentUser, route: Route, i: nat)
    requires u.menuList.Some? && i < |u.menuList.value|
    requires u.menuList.value[i] == Some(MenuItem(Some(route.path)))
    ensures Allowed(Some(u), route)
  {
    SelfAndEmpty(route.path);
    assert PathGrants(u.menuList.value[i], route.path);
  }

  /** An entry without a path (or a `null` entry) never grants: removing it
      from the menu list leaves every decision unchanged. */
  lemma PathlessIrrelevant(u: CurrentUser, a: seq<Option<MenuItem>>, x: Option<MenuItem>,
                           b: seq<Option<MenuItem>>, route: Route)
    requires x.None? || x.value.path.None?
    requires u.menuList == Some(a + [x] + b)
    ensures Allowed(Some(u), route) == Allowed(Some(u.(menuList := Some(a + b))), route)
  {
    assert !ItemMatches(x, route.path).Truthy();
    MenuSomeAppend(a + [x], b, route.path);
    MenuSomeAppend(a, [x], route.path);
    MenuSomeAppend(a, b, route.path);
    assert MenuSome([x], route.path) == (ItemMatches(x, route.path).Truthy() || MenuSome([], route.path));
  }

  /** Adding entries to the menu list never turns an allowed route into a
      denied one; neither does giving a menu list to a user who had none. */
  lemma MenuMonotonic(u: CurrentUser, extra: seq<Option<MenuItem>>, route: Route)
    ensures Allowed(Some(u), route) ==>
      Allowed(Some(u.(menuList := Some(u.menuList.GetOr([]) + extra))), route)
  {
    MenuSomeAppend(u.menuList.GetOr([]), extra, route.path);
  }

  /** The decision depends on the route's path only, never on its other fields. */
  lemma OnlyPathMatters(initialState: Option<InitialState>, r1: Route, r2: Route)
    requires r1.path == r2.path
    ensures Access(initialState).CanAuth(r1) == Access(initialState).CanAuth(r2)
  {
  }

  /** A truthy `canAdmin` means `canAuth` grants every route. */
  lemma CanAdminAllowsAll(initialState: Option<InitialState>, route: Route)
    requires Access(initialState).canAdmin.Truthy()
    ensures Access(initialState).CanAuth(route) == Bool(true)
  {
  }

  /** The empty path is a prefix of every path, so a user with any entry that
      has a path may open a route whose path is empty. */
  lemma EmptyPathAllowed(u: CurrentUser, route: Route, i: nat)
    requires route.path == ""
    requires u.menuList.Some? && i < |u.menuList.value|
    requires u.menuList.value[i].Some? && u.menuList.value[i].value.path.Some?
    ensures Allowed(Some(u), route)
  {
    SelfAndEmpty(u.menuList.value[i].value.path.value);
    assert PathGrants(u.menuList.value[i], route.path);
  }
}
