# Route permissions of the Dinky web console

The Dinky web console decides which pages a logged-in user may open with one
function, `access(initialState)` in `dinky-web/src/access.ts`. It returns two
fields:

- `canAdmin`: the current user's super-admin flag, or `undefined` when nobody
  is logged in;
- `canAuth({path, ...route})`: `true` for a super admin. For anyone else it is
  the result of `menuList.some(item => item.path startsWith path || item.path
  endsWith path)`, reached through optional chaining. So it is `undefined` when
  there is no user or no menu list.

The model is pure, as the source is:

- `Wrappers.Option` stands for a value that may be `undefined` or `null`.
- `JsBool` stands for the `undefined`-or-boolean values the two fields return. Its `Truthy()` is the way the console reads them.
- `JsStrings.StartsWith` and `JsStrings.EndsWith` are the two `String.prototype` tests.
- `MenuSome` is `Array.prototype.some`: it visits entries left to right and stops at the first truthy result. Its contract says it is true exactly when some entry matches.
- `RouteAccess.Access` builds the returned object. `AccessRules.CanAuth` is the closure, over the current user it captures.

Each string test and the `some` scan has a partner: a declarative reading with
an existential, and a proof that the two agree. The properties of the rule are
lemmas over `Access(...).CanAuth(route)`. They cover the super-admin override,
denial without a user or a menu, the exact characterisation for other users,
exact-path entries, path-less entries, monotonicity in the menu list, and
independence from the route's other fields.

## Model

| member | source | states |
|---|---|---|
| `JsStrings.StartsWith` | dinky-web/src/access.ts:36 | `s.startsWith(search)` holds exactly when `s` is `search` followed by some rest; `search` is then no longer than `s` |
| `JsStrings.EndsWith` | dinky-web/src/access.ts:36 | `s.endsWith(search)` holds exactly when `s` is some front followed by `search`; `search` is then no longer than `s` |
| `JsStrings.SelfAndEmpty` | dinky-web/src/access.ts:36 | every string starts and ends with itself and with the empty string |
| `Wrappers.Option.GetOr` | dinky-web/src/access.ts:24 | `x ?? default` keeps a defined value and yields the default for a missing one |
| `RouteAccess.Access` | dinky-web/src/access.ts:23-26 | `canAdmin` is truthy exactly when an initial state with a current user whose super-admin flag is set is given; it is that flag when a user is present and `undefined` otherwise; the captured current user is the initial state's, and none when the initial state is missing (read as `{}`) |
| `RouteAccess.AccessRules.CanAuth` | dinky-web/src/access.ts:27-37 | `canAuth` is truthy exactly when the user is a super admin or some menu entry has a path that starts or ends with the requested path; it is `undefined` without a user |
| `RouteAccess.ItemMatches` | dinky-web/src/access.ts:36 | the `some` callback is truthy exactly when the entry and its path are present and the path starts or ends with the requested path; it is `undefined` for a `null` entry or a missing path |
| `RouteAccess.MenuSome` | dinky-web/src/access.ts:35-37 | the left-to-right `some` scan is true exactly when some entry is present, has a path, and that path starts or ends with the requested path |
| `RouteAccess.MenuSomeAppend` | dinky-web/src/access.ts:35-37 | `some` over a concatenation of two menu lists is the disjunction of `some` over each |
| `RouteAccess.SuperAdminAllowed` | dinky-web/src/access.ts:28-30 | a super admin gets `true` for every route, whatever the menu list holds |
| `RouteAccess.NoUserDenied` | dinky-web/src/access.ts:23-35 | with no initial state or no current user, `canAuth` is `undefined` (falsy) for every route and `canAdmin` is falsy |
| `RouteAccess.NoMenuDenied` | dinky-web/src/access.ts:35 | a user who is not a super admin and whose menu list is missing or empty may open no route |
| `RouteAccess.NonAdminIff` | dinky-web/src/access.ts:35-37 | for a user who is not a super admin, access is granted exactly when the menu list has an entry with a defined path that starts with or ends with the requested path |
| `RouteAccess.ExactPathGrants` | dinky-web/src/access.ts:36 | an entry whose path equals the requested path grants access |
| `RouteAccess.PathlessIrrelevant` | dinky-web/src/access.ts:36 | a `null` entry or an entry without a path never grants: removing it from the menu list changes no decision |
| `RouteAccess.MenuMonotonic` | dinky-web/src/access.ts:35-37 | appending entries to the menu list (or giving a menu list to a user without one) never turns an allowed route into a denied one |
| `RouteAccess.OnlyPathMatters` | dinky-web/src/access.ts:27 | two routes with the same path get the same result; the other route fields are ignored |
| `RouteAccess.CanAdminAllowsAll` | dinky-web/src/access.ts:26-30 | when `canAdmin` is truthy, `canAuth` is `true` for every route |
| `RouteAccess.EmptyPathAllowed` | dinky-web/src/access.ts:36 | the empty path is a prefix of every path, so a user with any entry that has a path may open a route whose path is empty |

## Left out

- The type `API.CurrentUser` (`dinky-web/src/services/data`) is not part of this model. The user is taken to carry a boolean `superAdminFlag` and an optional `menuList` of optional entries with an optional string `path`. Other user and entry fields are not modelled because the rule does not read them.
- A route whose `path` is `undefined` is not modelled: JavaScript would turn it into the string `"undefined"` before comparing. The route path is always a string here.
- Strings are sequences of Unicode scalar values (`char`), while JavaScript compares UTF-16 code units. For well-formed strings the prefix and suffix tests give the same answer either way. Paths holding an unpaired surrogate have no counterpart in the model. No Unicode normalisation is involved.
- A `menuList` that is not an array (so `some` is missing and `?.()` yields `undefined`), and holes in sparse arrays, are not modelled. The menu list is a sequence.
- The role table page (`dinky-web/src/pages/AuthCenter/Role/components/RoleProTable/index.tsx`) is not modelled. It is React UI state, rendering and calls to back-end services; hiding the delete button for role id 1 is presentation.
- The tenant, watch-table and jar controllers (`dinky-admin/src/main/java/org/dinky/controller/`) are not modelled. They only forward to services whose code is not part of this model.
- The jar build that `generateJar` starts is not modelled. `UDFUtil.buildJar` and the compilers it calls are not part of this model, and the result messages are presentation.
