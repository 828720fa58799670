/** The breadcrumb history: the list of visited paths that the updater
    rewrites on every navigation. */
module Breadcrumbs {
  import opened Text

  /** `prev.indexOf(path)`: the first position of `path`, if any. */
  function IndexOf(prev: seq<string>, path: string): (r: Option<nat>)
    ensures r.None? <==> path !in prev
    ensures r.Some? ==> r.value < |prev| && prev[r.value] == path && path !in prev[..r.value]
  {
    if prev == [] then None
    else if prev[0] == path then Some(0)
    else
      var rest := IndexOf(prev[1..], path);
      if rest.None? then None
      else
        assert prev[..rest.value + 1] == [prev[0]] + prev[1..][..rest.value];
        Some(rest.value + 1)
  }

  /** `prev.slice(0, index + 1)` when `path` is in `prev`. */
  function TruncateAt(prev: seq<string>, path: string): Option<seq<string>>
  {
    var index := IndexOf(prev, path);
    if index.Some? then Some(prev[..index.value + 1]) else None
  }

  /** The trail of a manager page that is not yet in the history. */
  function ManagerTrail(path: string): seq<string>
  {
    if path == "/manager/vehicles" then ["/manager/dashboard", "/manager/vehicles"]
    else if path == "/manager/vehicles/add" then ["/manager/dashboard", "/manager/vehicles", "/manager/vehicles/add"]
    else if path == "/manager/maintenance" then ["/manager/dashboard", "/manager/maintenance"]
    else if path == "/manager/pending-requests" then ["/manager/dashboard", "/manager/pending-requests"]
    else if path == "/manager/users" then ["/manager/dashboard", "/manager/users"]
    else if path == "/manager/reservations" then ["/manager/dashboard", "/manager/reservations"]
    else ["/manager/dashboard", path]
  }

  /** The updater run when the location becomes `path`. */
  function Update(prev: seq<string>, path: string): seq<string>
  {
    if prev != [] && path == prev[|prev| - 1] then prev
    else if StartsWith(path, "/admin/") then
      if path == "/admin/dashboard" then ["/admin/dashboard"]
      else if TruncateAt(prev, path).Some? then TruncateAt(prev, path).value
      else ["/admin/dashboard", path]
    else if StartsWith(path, "/manager/") then
      if path == "/manager/dashboard" then ["/manager/dashboard"]
      else if TruncateAt(prev, path).Some? then TruncateAt(prev, path).value
      else ManagerTrail(path)
    else if path == "/" then ["/"]
    else if TruncateAt(prev, path).Some? then TruncateAt(prev, path).value
    else prev + [path]
  }

  /** The admin and manager prefixes exclude each other, and the fixed pages
      fall under the prefix their name says. */
  lemma Prefixes(path: string)
    ensures StartsWith(path, "/manager/") ==> !StartsWith(path, "/admin/")
    ensures StartsWith("/admin/dashboard", "/admin/")
    ensures StartsWith("/manager/dashboard", "/manager/")
    ensures StartsWith("/manager/vehicles/add", "/manager/")
    ensures !StartsWith("/", "/admin/") && !StartsWith("/", "/manager/")
  {
    if StartsWith(path, "/manager/") {
      assert path[1] == "/manager/"[1];
    }
    assert "/admin/dashboard"[..|"/admin/"|] == "/admin/";
    assert "/manager/dashboard"[..|"/manager/"|] == "/manager/";
    assert "/manager/vehicles/add"[..|"/manager/"|] == "/manager/";
  }

  /** The history is never empty and always ends with the current path. */
  lemma UpdateEndsAtPath(prev: seq<string>, path: string)
    ensures var r := Update(prev, path); r != [] && r[|r| - 1] == path
  {
  }

  /** Staying on the last page changes nothing; a dashboard or the home page
      resets the history to itself; a page already in the history cuts it
      back to end there; a new page is appended, or for admin and manager
      pages starts a trail from their dashboard. */
  lemma UpdateCases(prev: seq<string>, path: string)
    ensures prev != [] && path == prev[|prev| - 1] ==> Update(prev, path) == prev
    ensures (prev == [] || path != prev[|prev| - 1]) ==>
              (path == "/admin/dashboard" ==> Update(prev, path) == ["/admin/dashboard"]) &&
              (path == "/manager/dashboard" ==> Update(prev, path) == ["/manager/dashboard"]) &&
              (path == "/" ==> Update(prev, path) == ["/"])
    ensures (prev == [] || path != prev[|prev| - 1]) && path !in {"/admin/dashboard", "/manager/dashboard", "/"} ==>
              (path in prev ==> exists k :: 0 <= k < |prev| && prev[k] == path && Update(prev, path) == prev[..k + 1]) &&
              (path !in prev && StartsWith(path, "/admin/") ==> Update(prev, path) == ["/admin/dashboard", path]) &&
              (path !in prev && path == "/manager/vehicles/add" ==>
                 Update(prev, path) == ["/manager/dashboard", "/manager/vehicles", "/manager/vehicles/add"]) &&
              (path !in prev && StartsWith(path, "/manager/") && path != "/manager/vehicles/add" ==>
                 Update(prev, path) == ["/manager/dashboard", path]) &&
              (path !in prev && !StartsWith(path, "/admin/") && !StartsWith(path, "/manager/") ==>
                 Update(prev, path) == prev + [path])
  {
    Prefixes(path);
    if (prev == [] || path != prev[|prev| - 1]) && path !in {"/admin/dashboard", "/manager/dashboard", "/"} && path in prev {
      var k := IndexOf(prev, path).value;
      assert prev[k] == path && Update(prev, path) == prev[..k + 1];
    }
  }

  /** A history without repeated pages. */
  predicate Distinct(h: seq<string>)
  {
    forall i, j :: 0 <= i < j < |h| ==> h[i] != h[j]
  }

  /** Starting from a history without repeats, the updater never repeats a
      page, so going back to a page cuts the history exactly at it. */
  lemma UpdateKeepsDistinct(prev: seq<string>, path: string)
    requires Distinct(prev)
    ensures Distinct(Update(prev, path))
  {
    var r := Update(prev, path);
    Prefixes(path);
    if prev != [] && path == prev[|prev| - 1] {
    } else if TruncateAt(prev, path).Some? && r == TruncateAt(prev, path).value {
      assert r == prev[..IndexOf(prev, path).value + 1];
    } else if r == prev + [path] {
      assert path !in prev;
      forall i, j | 0 <= i < j < |r|
        ensures r[i] != r[j]
      {
        if j == |prev| {
          assert r[i] == prev[i];
        }
      }
    } else if StartsWith(path, "/manager/") && path != "/manager/dashboard" {
      assert ManagerTrail(path)[0] == "/manager/dashboard";
    }
  }

  /** Going back to a page in a history without repeats cuts the history
      right after that page. */
  lemma BackCutsAtPage(prev: seq<string>, k: nat)
    requires Distinct(prev) && k + 1 < |prev|
    requires prev[k] !in {"/admin/dashboard", "/manager/dashboard", "/"}
    ensures Update(prev, prev[k]) == prev[..k + 1]
  {
    assert IndexOf(prev, prev[k]) == Some(k);
  }
}
