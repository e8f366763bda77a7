/** Route prefetching (`prefetchRoute`): which lazily loaded page a hovered
    link starts loading, and the set of pages already requested. The set is
    passed in and returned; a load is reported as the key it was started for,
    and its failure is a separate step. */
module RoutePrefetch {
  import opened Wrappers
  import opened Text

  /** The pages with a loader of their own. */
  const Routes: set<string> := {"/home", "/search", "/messages", "/notifications", "/settings"}

  /** The one key every profile page shares. */
  const ProfileKey := "/profile"
  const ProfilePrefix := "/profile/"

  /** The path without its query string and without one trailing `/`. */
  function Normalize(path: string): (r: string)
    ensures var base := BeforeFirst(path, '?');
      r == base || (|base| > 0 && base == r + "/")
    ensures var base := BeforeFirst(path, '?');
      |base| > 0 && base[|base| - 1] == '/' ==> base == r + "/"
    ensures var base := BeforeFirst(path, '?');
      |base| == 0 || base[|base| - 1] != '/' ==> r == base
    ensures '?' !in r
  {
    var base := BeforeFirst(path, '?');
    if |base| > 0 && base[|base| - 1] == '/' then
      assert base == base[..|base| - 1] + "/";
      base[..|base| - 1]
    else base
  }

  /** The cache key a path is prefetched under: the shared profile key for
      `/profile/<anything>`, the route itself for a table entry, and none for
      any other path. */
  function KeyFor(path: string): (r: Option<string>)
    ensures r.Some? ==> r.value in Routes || r.value == ProfileKey
    ensures r == Some(ProfileKey) <==> ProfilePrefix <= Normalize(path)
    ensures r.Some? && r.value != ProfileKey ==> r.value == Normalize(path)
    ensures !(ProfilePrefix <= Normalize(path)) ==> (r.Some? <==> Normalize(path) in Routes)
  {
    var n := Normalize(path);
    if ProfilePrefix <= n then Some(ProfileKey)
    else if n in Routes then Some(n)
    else None
  }

  /** One `prefetchRoute` call: a known key not yet in the set is added and
      its load started; otherwise nothing happens. */
  function Prefetch(requested: set<string>, path: string): (r: (set<string>, Option<string>))
    ensures r.1.Some? <==> KeyFor(path).Some? && KeyFor(path).value !in requested
    ensures r.1.Some? ==> r.1 == KeyFor(path) && r.0 == requested + {r.1.value}
    ensures r.1.None? ==> r.0 == requested
  {
    match KeyFor(path)
    case None => (requested, None)
    case Some(k) => if k in requested then (requested, None) else (requested + {k}, Some(k))
  }

  /** A failed load takes its key out of the set. */
  function LoadFailed(requested: set<string>, key: string): (r: set<string>)
    ensures key !in r
    ensures forall k :: k in r <==> k in requested && k != key
  {
    requested - {key}
  }

  /** A second prefetch of the same path does nothing. */
  lemma SecondPrefetchIsNoOp(requested: set<string>, path: string)
    ensures var after := Prefetch(requested, path).0;
      Prefetch(after, path) == (after, None)
  {
  }

  /** After a failed load the same path loads again. */
  lemma RetryAfterFailure(requested: set<string>, path: string)
    requires Prefetch(requested, path).1.Some?
    ensures var (after, load) := Prefetch(requested, path);
      Prefetch(LoadFailed(after, load.value), path) == (after, load)
  {
  }

  /** All profile pages share one key: after one of them is prefetched, any
      other is a no-op. */
  lemma ProfilePagesShareKey(requested: set<string>, user: string, other: string)
    requires user != "" && other != "" && '?' !in user && '?' !in other
    ensures KeyFor(ProfilePrefix + user) == Some(ProfileKey)
    ensures Prefetch(Prefetch(requested, ProfilePrefix + user).0, ProfilePrefix + other).1.None?
  {
    ProfilePathKey(user);
    ProfilePathKey(other);
  }

  /** `/profile/<user>` normalises to something that still starts with `/profile/`. */
  lemma ProfilePathKey(user: string)
    requires user != "" && '?' !in user
    ensures KeyFor(ProfilePrefix + user) == Some(ProfileKey)
  {
    var p := ProfilePrefix + user;
    assert '?' !in p;
    BeforeFirstAll(p, '?');
    assert ProfilePrefix <= Normalize(p);
  }

  /** The bare `/profile/` and `/profile` paths have no loader: the trailing
      slash is removed before the prefix test. */
  lemma BareProfilePathIgnored(requested: set<string>)
    ensures KeyFor("/profile/") == None && KeyFor("/profile") == None
    ensures Prefetch(requested, "/profile/") == (requested, None)
  {
    SlashProfileNormalizes();
    BareProfileNormalizes();
  }

  /** `/profile/` loses its trailing slash. */
  lemma SlashProfileNormalizes()
    ensures Normalize("/profile/") == ProfileKey
  {
    BeforeFirstAll("/profile/", '?');
  }

  /** `/profile` is already normalised. */
  lemma BareProfileNormalizes()
    ensures Normalize("/profile") == ProfileKey
  {
    BeforeFirstAll("/profile", '?');
  }

  /** A table route keeps its key with a query string or a trailing slash. */
  lemma RouteKeyIgnoresQueryAndSlash(route: string, query: string)
    requires route in Routes
    ensures KeyFor(route + "?" + query) == Some(route)
    ensures KeyFor(route + "/") == Some(route)
  {
    assert route == "/home" || route == "/search" || route == "/messages"
        || route == "/notifications" || route == "/settings";
    assert '?' !in route && |route| > 1 && route[|route| - 1] != '/' && route[1] != 'p';
    PlainRouteKey(route, query);
  }

  /** A route without `?`, trailing `/` or profile prefix keeps its key. */
  lemma PlainRouteKey(route: string, query: string)
    requires route in Routes
    requires '?' !in route && |route| > 0 && route[|route| - 1] != '/' && !(ProfilePrefix <= route)
    ensures KeyFor(route + "?" + query) == Some(route)
    ensures KeyFor(route + "/") == Some(route)
  {
    BeforeFirstSeparator(route, '?', query);
    assert Normalize(route + "?" + query) == route;
    var slashed := route + "/";
    assert '?' !in slashed;
    BeforeFirstAll(slashed, '?');
    assert slashed[..|slashed| - 1] == route;
    assert Normalize(slashed) == route;
  }
}
