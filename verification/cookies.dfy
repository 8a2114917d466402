/**
 * The cookie write-back `setAll` that src/hooks.server.ts hands to the
 * backend client: every cookie the auth library asks to set is written to
 * the request's cookie jar, in list order, with its options kept except that
 * `path` is forced to `/`.
 */
module Cookies {
  import opened Js

  /** One entry of `cookiesToSet`; the options object is a map of its properties. */
  datatype CookieToSet = CookieToSet(name: string, value: string, options: map<string, JsValue>)

  /** What the jar holds for a cookie name after `cookies.set`. */
  datatype StoredCookie = StoredCookie(value: string, options: map<string, JsValue>)

  const PathKey := "path"
  const RootPath := Str("/")

  /** `{ ...options, path: '/' }`: `path` is `/`, every other property kept,
      nothing else added. */
  function WithRootPath(options: map<string, JsValue>): (r: map<string, JsValue>)
    ensures PathKey in r && r[PathKey] == RootPath
    ensures forall k :: k != PathKey ==> (k in r <==> k in options)
    ensures forall k :: k != PathKey && k in options ==> r[k] == options[k]
  {
    options[PathKey := RootPath]
  }

  /** The jar entry `cookies.set(name, value, { ...options, path: '/' })` makes. */
  function Written(c: CookieToSet): (stored: StoredCookie)
    ensures stored.value == c.value
    ensures PathKey in stored.options && stored.options[PathKey] == RootPath
  {
    StoredCookie(c.value, WithRootPath(c.options))
  }

  /** The names `cookiesToSet` mentions. */
  function Names(toSet: seq<CookieToSet>): set<string> {
    set i | 0 <= i < |toSet| :: toSet[i].name
  }

  /** The jar after writing the cookies one by one, in list order. */
  function AfterSetAll(jar: map<string, StoredCookie>, toSet: seq<CookieToSet>): (after: map<string, StoredCookie>)
    ensures jar.Keys <= after.Keys
    decreases |toSet|
  {
    if toSet == [] then jar
    else
      var last := toSet[|toSet| - 1];
      AfterSetAll(jar, toSet[..|toSet| - 1])[last.name := Written(last)]
  }

  /** No later entry of `toSet` has the name of entry `i`. */
  predicate LastWithItsName(toSet: seq<CookieToSet>, i: int)
    requires 0 <= i < |toSet|
  {
    forall j :: i < j < |toSet| ==> toSet[j].name != toSet[i].name
  }

  /** The jar afterwards holds the old names plus every name written. */
  lemma {:induction false} SetAllKeys(jar: map<string, StoredCookie>, toSet: seq<CookieToSet>)
    ensures AfterSetAll(jar, toSet).Keys == jar.Keys + Names(toSet)
    decreases |toSet|
  {
    if toSet != [] {
      var front := toSet[..|toSet| - 1];
      SetAllKeys(jar, front);
      assert Names(toSet) == Names(front) + {toSet[|toSet| - 1].name} by {
        forall n | n in Names(toSet) ensures n in Names(front) + {toSet[|toSet| - 1].name} {
          var i :| 0 <= i < |toSet| && toSet[i].name == n;
          if i < |toSet| - 1 { assert front[i] == toSet[i]; }
        }
        forall n | n in Names(front) ensures n in Names(toSet) {
          var i :| 0 <= i < |front| && front[i].name == n;
          assert toSet[i] == front[i];
        }
      }
    }
  }

  /** Cookies the auth library does not mention keep their old entries. */
  lemma {:induction false} SetAllLeavesOthers(jar: map<string, StoredCookie>, toSet: seq<CookieToSet>, name: string)
    requires forall i :: 0 <= i < |toSet| ==> toSet[i].name != name
    ensures name in AfterSetAll(jar, toSet) <==> name in jar
    ensures name in jar ==> AfterSetAll(jar, toSet)[name] == jar[name]
    decreases |toSet|
  {
    if toSet != [] {
      var front := toSet[..|toSet| - 1];
      assert forall i :: 0 <= i < |front| ==> front[i] == toSet[i];
      SetAllLeavesOthers(jar, front, name);
    }
  }

  /** Later writes of a name win: the jar holds the last entry for each name,
      with its value, its options and the root path. */
  lemma {:induction false} SetAllLastWriteWins(jar: map<string, StoredCookie>, toSet: seq<CookieToSet>, i: int)
    requires 0 <= i < |toSet| && LastWithItsName(toSet, i)
    ensures toSet[i].name in AfterSetAll(jar, toSet)
    ensures AfterSetAll(jar, toSet)[toSet[i].name] == Written(toSet[i])
    decreases |toSet|
  {
    var front := toSet[..|toSet| - 1];
    if i < |toSet| - 1 {
      assert forall j :: 0 <= j < |front| ==> front[j] == toSet[j];
      assert LastWithItsName(front, i);
      SetAllLastWriteWins(jar, front, i);
    }
  }

  /** Every cookie written is scoped to the root path and keeps the value
      and the other options of its last entry. */
  lemma {:induction false} SetAllWritesRootPath(jar: map<string, StoredCookie>, toSet: seq<CookieToSet>, i: int)
    requires 0 <= i < |toSet| && LastWithItsName(toSet, i)
    ensures var stored := AfterSetAll(jar, toSet);
            toSet[i].name in stored && stored[toSet[i].name].value == toSet[i].value &&
            PathKey in stored[toSet[i].name].options &&
            stored[toSet[i].name].options[PathKey] == RootPath
    ensures var opts := AfterSetAll(jar, toSet)[toSet[i].name].options;
            forall k :: k != PathKey && k in toSet[i].options ==> k in opts && opts[k] == toSet[i].options[k]
  {
    SetAllLastWriteWins(jar, toSet, i);
  }

  /** The request's cookie jar (`event.cookies`), keyed by cookie name. */
  class CookieJar {
    var entries: map<string, StoredCookie>

    constructor (initial: map<string, StoredCookie>)
      ensures entries == initial
    {
      entries := initial;
    }

    /** `cookies.set(name, value, options)`: stores the cookie under its name. */
    method Set(name: string, value: string, options: map<string, JsValue>)
      modifies this
      ensures entries == old(entries)[name := StoredCookie(value, options)]
    {
      entries := entries[name := StoredCookie(value, options)];
    }

    /** `setAll`: `cookiesToSet.forEach` writing each cookie with the root path. */
    method SetAll(toSet: seq<CookieToSet>)
      modifies this
      ensures entries == AfterSetAll(old(entries), toSet)
    {
      for i := 0 to |toSet|
        invariant entries == AfterSetAll(old(entries), toSet[..i])
      {
        var c := toSet[i];
        Set(c.name, c.value, WithRootPath(c.options));
        assert toSet[..i + 1][..i] == toSet[..i];
      }
      assert toSet[..|toSet|] == toSet;
    }
  }
}
