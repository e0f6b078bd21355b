/**
 * The route-to-export builder: it turns a list of routes into an Insomnia export with one
 * workspace, one base environment, one folder (`request_group`) per distinct first path segment
 * and one request per (route, method). Generated ids are a fixed prefix followed by a suffix
 * supplied for each call of the id generator.
 */
module Postman {
  import opened Text

  /** `getPrimarySegment`'s input without its leading `/`, if it has one. */
  function AfterSlash(fullPath: string): string {
    if StartsWith(fullPath, "/") then fullPath[1..] else fullPath
  }

  /** `getPrimarySegment(fullPath)`: the first path segment, `*` as `Wildcard` and none as `root`. */
  function GetPrimarySegment(fullPath: string): (r: string)
    ensures r != "" && '/' !in r
  {
    var p := if StartsWith(fullPath, "/") then fullPath else "/" + fullPath;
    var segments := Split(p, '/');
    var primary := if |segments| > 1 then segments[1] else "";
    SplitPartsFree(p, '/');
    assert forall j | 0 <= j < |primary| :: primary[j] != '/';
    if primary == "*" then "Wildcard" else if primary == "" then "root" else primary
  }

  /** `s` is the text of `q` up to its first `/`, or all of `q` when it has none. */
  predicate IsFirstSegment(q: string, s: string) {
    StartsWith(q, s) && '/' !in s && (|s| == |q| || q[|s|] == '/')
  }

  /** The sentinels: a `*` segment names the `Wildcard` folder and an empty one `root`. */
  function FolderKey(s: string): string {
    if s == "*" then "Wildcard" else if s == "" then "root" else s
  }

  lemma {:induction false} SplitFirstSegment(q: string)
    ensures IsFirstSegment(q, Split(q, '/')[0])
  {
    if q != [] && q[0] != '/' {
      SplitFirstSegment(q[1..]);
      var rest := Split(q[1..], '/');
      assert Split(q, '/')[0] == [q[0]] + rest[0];
      assert q == [q[0]] + q[1..];
    }
  }

  lemma FirstSegmentUnique(q: string, s: string, t: string)
    requires IsFirstSegment(q, s) && IsFirstSegment(q, t)
    ensures s == t
  {
    assert s == q[..|s|] && t == q[..|t|];
  }

  /**
   * The primary segment is the text after the optional leading `/` up to the next `/`, with the
   * two sentinels.
   */
  lemma PrimarySegmentIsFirstSegment(fullPath: string, s: string)
    requires IsFirstSegment(AfterSlash(fullPath), s)
    ensures GetPrimarySegment(fullPath) == FolderKey(s)
  {
    var q := AfterSlash(fullPath);
    var p := if StartsWith(fullPath, "/") then fullPath else "/" + fullPath;
    assert p == "/" + q;
    assert Split(p, '/') == [[]] + Split(q, '/');
    SplitFirstSegment(q);
    FirstSegmentUnique(q, s, Split(q, '/')[0]);
  }

  /** A path without its leading slash is read as if it had one. */
  lemma PrimarySegmentSlashInsensitive(path: string)
    requires !StartsWith(path, "/")
    ensures GetPrimarySegment(path) == GetPrimarySegment("/" + path)
  {
    assert ("/" + path)[..1] == "/";
  }

  /** The documented examples. */
  lemma PrimarySegmentAuth()
    ensures GetPrimarySegment("/auth/signup") == "auth"
  {
    var path, q := "/auth/signup", "auth/signup";
    assert path == "/" + q;
    assert ("/" + q)[1..] == q;
    assert q[..4] == "auth" && q[4] == '/';
    assert IsFirstSegment(AfterSlash(path), "auth");
    PrimarySegmentIsFirstSegment(path, "auth");
  }

  lemma PrimarySegmentSentinels()
    ensures GetPrimarySegment("/*") == "Wildcard"
    ensures GetPrimarySegment("/") == "root" && GetPrimarySegment("") == "root"
  {
    assert IsFirstSegment("*", "*");
    PrimarySegmentIsFirstSegment("/*", "*");
    PrimarySegmentIsFirstSegment("/", "");
    PrimarySegmentIsFirstSegment("", "");
  }

  /** `toUpperCase` on one character, for ASCII letters. */
  function UpperChar(c: char): (r: char)
    ensures 'a' <= c <= 'z' ==> 'A' <= r <= 'Z' && r as int == c as int - 32
    ensures !('a' <= c <= 'z') ==> r == c
  {
    if 'a' <= c <= 'z' then (c as int - 32) as char else c
  }

  /** `s.toUpperCase()`, for ASCII letters. */
  function Upper(s: string): (r: string)
    ensures |r| == |s| && forall k | 0 <= k < |s| :: r[k] == UpperChar(s[k])
  {
    seq(|s|, k requires 0 <= k < |s| => UpperChar(s[k]))
  }

  /** `capitalize(str)`: the first character upper-cased, the rest as it was. */
  function Capitalize(str: string): (r: string)
    ensures str == "" ==> r == ""
    ensures |r| == |str|
    ensures str != "" ==> r[0] == UpperChar(str[0]) && r[1..] == str[1..]
  {
    if str == "" then str else [UpperChar(str[0])] + str[1..]
  }

  /** Capitalizing twice is capitalizing once. */
  lemma CapitalizeIdempotent(str: string)
    ensures Capitalize(Capitalize(str)) == Capitalize(str)
  {
    if str != "" {
      assert Capitalize(str)[0] == UpperChar(str[0]);
    }
  }

  /** One route of the input list. */
  datatype Route = Route(path: string, methods: seq<string>)

  /** The export's resources, without the fields every resource of a kind shares. */
  datatype Resource =
    | Workspace(id: string, name: string, description: string, scope: string)
    | Environment(id: string, parentId: string, name: string)
    | RequestGroup(id: string, parentId: string, name: string)
    | Request(id: string, parentId: string, name: string, httpMethod: string, url: string)

  const BaseUrl: string := "http://localhost:3000"

  /** `generateId(prefix)` at its `k`-th call: the prefix and the supplied suffix. */
  function IdOf(prefix: string, suffix: nat -> string, k: nat): string {
    prefix + suffix(k)
  }

  /** The request for one method of a route. */
  function RequestFor(id: string, folderId: string, path: string, verb: string): (r: Resource)
    ensures r.Request? && r.parentId == folderId && r.httpMethod == Upper(verb)
    ensures r.name == "[" + verb + "] " + path && r.url == BaseUrl + path
  {
    Request(id, folderId, "[" + verb + "] " + path, Upper(verb), BaseUrl + path)
  }

  /** What the builder holds: the resources so far, the folder table and the id calls made. */
  datatype State = State(resources: seq<Resource>, folderMap: map<string, string>, calls: nat)

  /** The workspace and base environment the export starts with. */
  function Initial(suffix: nat -> string): State {
    var workspaceId := IdOf("wrk_", suffix, 0);
    State([Workspace(workspaceId, "NestJS Routes", "Workspace gerado automaticamente", "collection"),
           Environment(IdOf("env_", suffix, 1), workspaceId, "Base Environment")], map[], 2)
  }

  /** The export starts with the workspace and the environment under it, and nothing else. */
  lemma InitialHasNoFoldersOrRequests(suffix: nat -> string)
    ensures var st := Initial(suffix);
      && |st.resources| == 2 && st.resources[0].Workspace? && st.resources[1].Environment?
      && st.resources[1].parentId == st.resources[0].id
      && Folders(st.resources) == [] && RequestViews(st.resources) == [] && st.folderMap == map[]
  {
    var rs := Initial(suffix).resources;
    assert rs[1..][1..] == [];
    assert Folders(rs[1..]) == [] && RequestViews(rs[1..]) == [];
  }

  /** `getOrCreateFolderForPrefix(prefix)`: the new state and the folder's id. */
  function FolderStep(st: State, prefix: string, workspaceId: string, suffix: nat -> string): (State, string) {
    if prefix in st.folderMap then (st, st.folderMap[prefix])
    else
      var folderId := IdOf("fld_", suffix, st.calls);
      (State(st.resources + [RequestGroup(folderId, workspaceId, Capitalize(prefix))],
             st.folderMap[prefix := folderId], st.calls + 1), folderId)
  }

  /** The requests for `methods`, ids drawn from call `calls` on. */
  function Requests(folderId: string, path: string, methods: seq<string>, calls: nat, suffix: nat -> string): (r: seq<Resource>)
    ensures |r| == |methods|
    decreases |methods|
  {
    if methods == [] then []
    else [RequestFor(IdOf("req_", suffix, calls), folderId, path, methods[0])]
         + Requests(folderId, path, methods[1..], calls + 1, suffix)
  }

  /** One iteration of `routes.forEach`: the route's folder, then one request per method. */
  function RouteStep(st: State, route: Route, workspaceId: string, suffix: nat -> string): State {
    var (st', folderId) := FolderStep(st, GetPrimarySegment(route.path), workspaceId, suffix);
    State(st'.resources + Requests(folderId, route.path, route.methods, st'.calls, suffix),
          st'.folderMap, st'.calls + |route.methods|)
  }

  /** `routes.forEach(...)` over the whole list. */
  function ExpandAll(st: State, routes: seq<Route>, workspaceId: string, suffix: nat -> string): State
    decreases |routes|
  {
    if routes == [] then st else ExpandAll(RouteStep(st, routes[0], workspaceId, suffix), routes[1..], workspaceId, suffix)
  }

  // ---------------------------------------------------------------------------------------------
  // What the expansion produces.

  /** The folder view of one resource: its name and parent when it is a folder. */
  function FolderOf(r: Resource): seq<(string, string)> {
    if r.RequestGroup? then [(r.name, r.parentId)] else []
  }

  /** The request view of one resource: parent, name, method and url when it is a request. */
  function RequestOf(r: Resource): seq<(string, string, string, string)> {
    if r.Request? then [(r.parentId, r.name, r.httpMethod, r.url)] else []
  }

  /** The folders among the resources, by name and parent. */
  function Folders(rs: seq<Resource>): seq<(string, string)> {
    if rs == [] then [] else FolderOf(rs[0]) + Folders(rs[1..])
  }

  /** The requests among the resources, by parent, name, method and url. */
  function RequestViews(rs: seq<Resource>): seq<(string, string, string, string)> {
    if rs == [] then [] else RequestOf(rs[0]) + RequestViews(rs[1..])
  }

  lemma {:induction false} FoldersAppend(a: seq<Resource>, b: seq<Resource>)
    ensures Folders(a + b) == Folders(a) + Folders(b)
    ensures RequestViews(a + b) == RequestViews(a) + RequestViews(b)
  {
    FolderViewsAppend(a, b);
    RequestViewsAppend(a, b);
  }

  lemma {:induction false} FolderViewsAppend(a: seq<Resource>, b: seq<Resource>)
    ensures Folders(a + b) == Folders(a) + Folders(b)
  {
    if a == [] {
      assert a + b == b;
    } else {
      assert (a + b)[1..] == a[1..] + b && (a + b)[0] == a[0];
      calc {
        Folders(a + b);
        FolderOf(a[0]) + Folders(a[1..] + b);
        { FolderViewsAppend(a[1..], b); }
        FolderOf(a[0]) + (Folders(a[1..]) + Folders(b));
        { AppendAssoc(FolderOf(a[0]), Folders(a[1..]), Folders(b)); }
        (FolderOf(a[0]) + Folders(a[1..])) + Folders(b);
      }
    }
  }

  lemma {:induction false} RequestViewsAppend(a: seq<Resource>, b: seq<Resource>)
    ensures RequestViews(a + b) == RequestViews(a) + RequestViews(b)
  {
    if a == [] {
      assert a + b == b;
    } else {
      assert (a + b)[1..] == a[1..] + b && (a + b)[0] == a[0];
      calc {
        RequestViews(a + b);
        RequestOf(a[0]) + RequestViews(a[1..] + b);
        { RequestViewsAppend(a[1..], b); }
        RequestOf(a[0]) + (RequestViews(a[1..]) + RequestViews(b));
        { AppendAssoc(RequestOf(a[0]), RequestViews(a[1..]), RequestViews(b)); }
        (RequestOf(a[0]) + RequestViews(a[1..])) + RequestViews(b);
      }
    }
  }

  /** The views of `Requests(...)`: in method order, each with the route's folder, name and url. */
  function ExpectedRequests(folderId: string, path: string, methods: seq<string>): seq<(string, string, string, string)> {
    seq(|methods|, j requires 0 <= j < |methods| =>
      (folderId, "[" + methods[j] + "] " + path, Upper(methods[j]), BaseUrl + path))
  }

  lemma {:induction false} RequestsViews(folderId: string, path: string, methods: seq<string>, calls: nat, suffix: nat -> string)
    ensures Folders(Requests(folderId, path, methods, calls, suffix)) == []
    ensures RequestViews(Requests(folderId, path, methods, calls, suffix)) == ExpectedRequests(folderId, path, methods)
    decreases |methods|
  {
    if methods != [] {
      var rest := Requests(folderId, path, methods[1..], calls + 1, suffix);
      var head := RequestFor(IdOf("req_", suffix, calls), folderId, path, methods[0]);
      RequestsViews(folderId, path, methods[1..], calls + 1, suffix);
      FoldersAppend([head], rest);
      assert [head][1..] == [];
      assert ExpectedRequests(folderId, path, methods)
          == [(folderId, "[" + methods[0] + "] " + path, Upper(methods[0]), BaseUrl + path)]
             + ExpectedRequests(folderId, path, methods[1..]);
    }
  }

  /** The primary segments of the routes. */
  function Segments(routes: seq<Route>): set<string> {
    set k | 0 <= k < |routes| :: GetPrimarySegment(routes[k].path)
  }

  lemma SegmentsCons(routes: seq<Route>)
    requires routes != []
    ensures Segments(routes) == {GetPrimarySegment(routes[0].path)} + Segments(routes[1..])
  {
    forall x | x in Segments(routes) ensures x in {GetPrimarySegment(routes[0].path)} + Segments(routes[1..]) {
      var k :| 0 <= k < |routes| && x == GetPrimarySegment(routes[k].path);
      if k > 0 { assert routes[k] == routes[1..][k - 1]; }
    }
    forall x | x in Segments(routes[1..]) ensures x in Segments(routes) {
      var k :| 0 <= k < |routes[1..]| && x == GetPrimarySegment(routes[1..][k].path);
      assert routes[1..][k] == routes[k + 1];
    }
  }

  /** The primary segments in first-use order, those already in `known` left out. */
  function NewSegments(known: set<string>, routes: seq<Route>): seq<string>
    decreases |routes|
  {
    if routes == [] then []
    else
      var seg := GetPrimarySegment(routes[0].path);
      if seg in known then NewSegments(known, routes[1..])
      else [seg] + NewSegments(known + {seg}, routes[1..])
  }

  /** Every request view of the whole expansion, routes in order, methods in order within each. */
  function AllExpected(routes: seq<Route>, folderMap: map<string, string>): seq<(string, string, string, string)>
    requires forall k | 0 <= k < |routes| :: GetPrimarySegment(routes[k].path) in folderMap
    decreases |routes|
  {
    if routes == [] then []
    else ExpectedRequests(folderMap[GetPrimarySegment(routes[0].path)], routes[0].path, routes[0].methods)
         + AllExpected(routes[1..], folderMap)
  }

  function MethodCount(routes: seq<Route>): nat
    decreases |routes|
  {
    if routes == [] then 0 else |routes[0].methods| + MethodCount(routes[1..])
  }

  function Capitalized(segs: seq<string>, parent: string): seq<(string, string)> {
    seq(|segs|, k requires 0 <= k < |segs| => (Capitalize(segs[k]), parent))
  }

  /** A route step is its folder step followed by the route's requests. */
  lemma RouteStepParts(st: State, route: Route, workspaceId: string, suffix: nat -> string)
    ensures var (st1, folderId) := FolderStep(st, GetPrimarySegment(route.path), workspaceId, suffix);
      RouteStep(st, route, workspaceId, suffix)
        == State(st1.resources + Requests(folderId, route.path, route.methods, st1.calls, suffix),
                 st1.folderMap, st1.calls + |route.methods|)
  {
  }

  /**
   * One route adds a folder for its segment when the segment has none yet, then the route's
   * requests under the segment's folder.
   */
  lemma RouteStepEffect(st: State, route: Route, seg: string, workspaceId: string, suffix: nat -> string)
    requires seg == GetPrimarySegment(route.path)
    ensures var r := RouteStep(st, route, workspaceId, suffix);
      && r.folderMap == (if seg in st.folderMap then st.folderMap else st.folderMap[seg := IdOf("fld_", suffix, st.calls)])
      && Folders(r.resources) == Folders(st.resources) + (if seg in st.folderMap then [] else [(Capitalize(seg), workspaceId)])
      && RequestViews(r.resources) == RequestViews(st.resources) + ExpectedRequests(r.folderMap[seg], route.path, route.methods)
      && |r.resources| == |st.resources| + (if seg in st.folderMap then 0 else 1) + |route.methods|
  {
    var (st1, folderId) := FolderStep(st, seg, workspaceId, suffix);
    RouteStepParts(st, route, workspaceId, suffix);
    FolderStepEffect(st, seg, workspaceId, suffix);
    RequestsAppended(st1, folderId, route, suffix);
  }

  /** The folder step adds the segment's folder, under the workspace, when it has none yet. */
  lemma FolderStepEffect(st: State, seg: string, workspaceId: string, suffix: nat -> string)
    ensures var (st1, folderId) := FolderStep(st, seg, workspaceId, suffix);
      && st1.folderMap == (if seg in st.folderMap then st.folderMap else st.folderMap[seg := IdOf("fld_", suffix, st.calls)])
      && folderId == st1.folderMap[seg]
      && Folders(st1.resources) == Folders(st.resources) + (if seg in st.folderMap then [] else [(Capitalize(seg), workspaceId)])
      && RequestViews(st1.resources) == RequestViews(st.resources)
      && |st1.resources| == |st.resources| + (if seg in st.folderMap then 0 else 1)
  {
    if seg !in st.folderMap {
      var g := RequestGroup(IdOf("fld_", suffix, st.calls), workspaceId, Capitalize(seg));
      FoldersAppend(st.resources, [g]);
      assert [g][1..] == [];
    }
  }

  /** Appending a route's requests after the folder step adds their views and nothing else. */
  lemma RequestsAppended(st1: State, folderId: string, route: Route, suffix: nat -> string)
    ensures var reqs := Requests(folderId, route.path, route.methods, st1.calls, suffix);
      && Folders(st1.resources + reqs) == Folders(st1.resources)
      && RequestViews(st1.resources + reqs) == RequestViews(st1.resources) + ExpectedRequests(folderId, route.path, route.methods)
  {
    var reqs := Requests(folderId, route.path, route.methods, st1.calls, suffix);
    RequestsViews(folderId, route.path, route.methods, st1.calls, suffix);
    FoldersAppend(st1.resources, reqs);
    assert Folders(st1.resources) + [] == Folders(st1.resources);
  }

  /**
   * Expanding routes gives every primary segment a folder, keeps the ids of the folders already
   * known and adds no other key.
   */
  lemma {:induction false} ExpandFolderMap(st: State, routes: seq<Route>, workspaceId: string, suffix: nat -> string)
    ensures var r := ExpandAll(st, routes, workspaceId, suffix);
      && (forall s | s in st.folderMap :: s in r.folderMap && r.folderMap[s] == st.folderMap[s])
      && r.folderMap.Keys == st.folderMap.Keys + Segments(routes)
    decreases |routes|
  {
    if routes != [] {
      var st2 := RouteStep(st, routes[0], workspaceId, suffix);
      RouteStepKeeps(st, routes[0], workspaceId, suffix);
      ExpandFolderMap(st2, routes[1..], workspaceId, suffix);
      SegmentsCons(routes);
      FolderMapGrows(st.folderMap, st2.folderMap, ExpandAll(st2, routes[1..], workspaceId, suffix).folderMap,
                     GetPrimarySegment(routes[0].path), Segments(routes[1..]));
    }
  }

  /** One route keeps every folder id already known and adds its own segment's key. */
  lemma RouteStepKeeps(st: State, route: Route, workspaceId: string, suffix: nat -> string)
    ensures var r := RouteStep(st, route, workspaceId, suffix);
      && (forall s | s in st.folderMap :: s in r.folderMap && r.folderMap[s] == st.folderMap[s])
      && r.folderMap.Keys == st.folderMap.Keys + {GetPrimarySegment(route.path)}
  {
    RouteStepEffect(st, route, GetPrimarySegment(route.path), workspaceId, suffix);
  }

  /** Two growth steps of a folder table compose. */
  lemma FolderMapGrows(m: map<string, string>, m2: map<string, string>, m3: map<string, string>, seg: string, rest: set<string>)
    requires forall s | s in m :: s in m2 && m2[s] == m[s]
    requires m2.Keys == m.Keys + {seg}
    requires forall s | s in m2 :: s in m3 && m3[s] == m2[s]
    requires m3.Keys == m2.Keys + rest
    ensures forall s | s in m :: s in m3 && m3[s] == m[s]
    ensures m3.Keys == m.Keys + ({seg} + rest)
  {
  }

  lemma AllSegmentsFoldered(st: State, routes: seq<Route>, workspaceId: string, suffix: nat -> string)
    ensures forall k | 0 <= k < |routes| ::
      GetPrimarySegment(routes[k].path) in ExpandAll(st, routes, workspaceId, suffix).folderMap
  {
    ExpandFolderMap(st, routes, workspaceId, suffix);
  }

  lemma CapitalizedCons(segs: seq<string>, parent: string)
    requires segs != []
    ensures Capitalized(segs, parent) == [(Capitalize(segs[0]), parent)] + Capitalized(segs[1..], parent)
  {
  }

  /**
   * Expanding routes appends one folder per primary segment not seen before, in first-use order,
   * each under the workspace and named after its segment, capitalized.
   */
  lemma {:induction false} ExpandFolders(st: State, routes: seq<Route>, workspaceId: string, suffix: nat -> string)
    ensures Folders(ExpandAll(st, routes, workspaceId, suffix).resources)
         == Folders(st.resources) + Capitalized(NewSegments(st.folderMap.Keys, routes), workspaceId)
    decreases |routes|
  {
    if routes != [] {
      var st2 := RouteStep(st, routes[0], workspaceId, suffix);
      ExpandFolders(st2, routes[1..], workspaceId, suffix);
      RouteStepFolders(st, routes[0], workspaceId, suffix);
      NewFolderHeads(Folders(st.resources), Folders(st2.resources), st.folderMap.Keys, st2.folderMap.Keys, routes, workspaceId);
    }
  }

  /** The folder keys and folders after one route. */
  lemma RouteStepFolders(st: State, route: Route, workspaceId: string, suffix: nat -> string)
    ensures var seg := GetPrimarySegment(route.path);
      var r := RouteStep(st, route, workspaceId, suffix);
      && r.folderMap.Keys == (if seg in st.folderMap then st.folderMap.Keys else st.folderMap.Keys + {seg})
      && Folders(r.resources) == Folders(st.resources) + (if seg in st.folderMap then [] else [(Capitalize(seg), workspaceId)])
  {
    RouteStepEffect(st, route, GetPrimarySegment(route.path), workspaceId, suffix);
  }

  lemma AppendAssoc<T>(a: seq<T>, b: seq<T>, c: seq<T>)
    ensures (a + b) + c == a + (b + c)
  {
  }

  /**
   * The first route's folder, when its segment is new, heads the folders that the routes add;
   * a known segment adds none.
   */
  lemma NewFolderHeads(folders: seq<(string, string)>, folders2: seq<(string, string)>, known: set<string>,
                       known2: set<string>, routes: seq<Route>, workspaceId: string)
    requires routes != []
    requires var seg := GetPrimarySegment(routes[0].path);
      && known2 == (if seg in known then known else known + {seg})
      && folders2 == folders + (if seg in known then [] else [(Capitalize(seg), workspaceId)])
    ensures folders2 + Capitalized(NewSegments(known2, routes[1..]), workspaceId)
         == folders + Capitalized(NewSegments(known, routes), workspaceId)
  {
    var seg := GetPrimarySegment(routes[0].path);
    var rest := NewSegments(known2, routes[1..]);
    if seg in known {
      assert folders2 == folders;
    } else {
      assert NewSegments(known, routes) == [seg] + rest;
      CapitalizedCons([seg] + rest, workspaceId);
      assert ([seg] + rest)[1..] == rest;
      AppendAssoc(folders, [(Capitalize(seg), workspaceId)], Capitalized(rest, workspaceId));
    }
  }

  /**
   * Expanding routes appends the requests of the routes in order, and of each route's methods in
   * order, each under the folder of its route's primary segment.
   */
  lemma {:induction false} ExpandRequests(st: State, routes: seq<Route>, workspaceId: string, suffix: nat -> string)
    ensures var r := ExpandAll(st, routes, workspaceId, suffix);
      && (forall k | 0 <= k < |routes| :: GetPrimarySegment(routes[k].path) in r.folderMap)
      && RequestViews(r.resources) == RequestViews(st.resources) + AllExpected(routes, r.folderMap)
    decreases |routes|
  {
    AllSegmentsFoldered(st, routes, workspaceId, suffix);
    if routes != [] {
      var seg := GetPrimarySegment(routes[0].path);
      var st2 := RouteStep(st, routes[0], workspaceId, suffix);
      RouteStepEffect(st, routes[0], seg, workspaceId, suffix);
      ExpandRequests(st2, routes[1..], workspaceId, suffix);
      ExpandFolderMap(st2, routes[1..], workspaceId, suffix);
      var r := ExpandAll(st, routes, workspaceId, suffix);
      assert r == ExpandAll(st2, routes[1..], workspaceId, suffix);
      assert r.folderMap[seg] == st2.folderMap[seg];
    }
  }

  /** The new segments are as many as the segments not already known. */
  lemma {:induction false} NewSegmentsCount(known: set<string>, routes: seq<Route>)
    ensures |NewSegments(known, routes)| == |Segments(routes) - known|
    decreases |routes|
  {
    if routes != [] {
      var seg := GetPrimarySegment(routes[0].path);
      SegmentsCons(routes);
      if seg in known {
        NewSegmentsCount(known, routes[1..]);
        RemoveKnown(Segments(routes), Segments(routes[1..]), known, seg);
      } else {
        NewSegmentsCount(known + {seg}, routes[1..]);
        RemoveKnown(Segments(routes), Segments(routes[1..]), known, seg);
      }
    }
  }

  lemma RemoveKnown(all: set<string>, rest: set<string>, known: set<string>, seg: string)
    requires all == {seg} + rest
    ensures seg in known ==> all - known == rest - known
    ensures seg !in known ==> |all - known| == 1 + |rest - (known + {seg})|
  {
    if seg !in known {
      assert all - known == {seg} + (rest - (known + {seg}));
    }
  }

  /** No element of `ns` is repeated. */
  predicate Distinct(ns: seq<string>) {
    forall i, j | 0 <= i < j < |ns| :: ns[i] != ns[j]
  }

  lemma {:induction false} NewSegmentsDistinct(known: set<string>, routes: seq<Route>)
    ensures Distinct(NewSegments(known, routes))
    ensures forall i | 0 <= i < |NewSegments(known, routes)| :: NewSegments(known, routes)[i] !in known
    decreases |routes|
  {
    if routes != [] {
      var seg := GetPrimarySegment(routes[0].path);
      if seg in known {
        NewSegmentsDistinct(known, routes[1..]);
        assert NewSegments(known, routes) == NewSegments(known, routes[1..]);
      } else {
        NewSegmentsDistinct(known + {seg}, routes[1..]);
        var rest := NewSegments(known + {seg}, routes[1..]);
        var ns := NewSegments(known, routes);
        assert ns == [seg] + rest;
        forall i, j | 0 <= i < j < |ns| ensures ns[i] != ns[j] {
          assert ns[j] == rest[j - 1];
          if i > 0 { assert ns[i] == rest[i - 1]; }
        }
        forall i | 0 <= i < |ns| ensures ns[i] !in known {
          if i > 0 { assert ns[i] == rest[i - 1]; }
        }
      }
    }
  }

  /**
   * From a fresh export the folder count is the number of distinct primary segments, and there
   * is one request per (route, method).
   */
  lemma FolderAndRequestCounts(routes: seq<Route>, suffix: nat -> string)
    ensures var r := ExpandAll(Initial(suffix), routes, IdOf("wrk_", suffix, 0), suffix);
      |Folders(r.resources)| == |Segments(routes)| && |RequestViews(r.resources)| == MethodCount(routes)
  {
    FolderCount(routes, suffix);
    RequestCount(routes, suffix);
  }

  lemma FolderCount(routes: seq<Route>, suffix: nat -> string)
    ensures |Folders(ExpandAll(Initial(suffix), routes, IdOf("wrk_", suffix, 0), suffix).resources)| == |Segments(routes)|
  {
    var st := Initial(suffix);
    var ws := IdOf("wrk_", suffix, 0);
    ExpandFolders(st, routes, ws, suffix);
    InitialHasNoFoldersOrRequests(suffix);
    assert st.folderMap.Keys == {};
    NewSegmentsFromNone(routes);
    assert |Capitalized(NewSegments({}, routes), ws)| == |Segments(routes)|;
  }

  lemma NewSegmentsFromNone(routes: seq<Route>)
    ensures |NewSegments({}, routes)| == |Segments(routes)|
  {
    NewSegmentsCount({}, routes);
    assert Segments(routes) - {} == Segments(routes);
  }

  lemma RequestCount(routes: seq<Route>, suffix: nat -> string)
    ensures |RequestViews(ExpandAll(Initial(suffix), routes, IdOf("wrk_", suffix, 0), suffix).resources)| == MethodCount(routes)
  {
    var st := Initial(suffix);
    var ws := IdOf("wrk_", suffix, 0);
    ExpandRequests(st, routes, ws, suffix);
    InitialHasNoFoldersOrRequests(suffix);
    AllExpectedCount(routes, ExpandAll(st, routes, ws, suffix).folderMap);
  }

  lemma {:induction false} AllExpectedCount(routes: seq<Route>, folderMap: map<string, string>)
    requires forall k | 0 <= k < |routes| :: GetPrimarySegment(routes[k].path) in folderMap
    ensures |AllExpected(routes, folderMap)| == MethodCount(routes)
    decreases |routes|
  {
    if routes != [] {
      AllExpectedCount(routes[1..], folderMap);
    }
  }

  /** The export built by the script: workspace, environment, then the expansion of the routes. */
  class Builder {
    const suffix: nat -> string
    const workspaceId: string
    var resources: seq<Resource>
    var folderMap: map<string, string>
    var calls: nat

    function Snapshot(): State
      reads this
    {
      State(resources, folderMap, calls)
    }

    /** The workspace and base environment, pushed in that order. */
    constructor(suffix: nat -> string)
      ensures this.suffix == suffix && workspaceId == IdOf("wrk_", suffix, 0)
      ensures Snapshot() == Initial(suffix)
      ensures resources[1].parentId == workspaceId
    {
      this.suffix := suffix;
      var wid := IdOf("wrk_", suffix, 0);
      workspaceId := wid;
      var workspace := Workspace(wid, "NestJS Routes", "Workspace gerado automaticamente", "collection");
      var baseEnvironment := Environment(IdOf("env_", suffix, 1), wid, "Base Environment");
      resources := [workspace];
      resources := resources + [baseEnvironment];
      folderMap := map[];
      calls := 2;
    }

    /** `getOrCreateFolderForPrefix(prefix)`. */
    method GetOrCreateFolderForPrefix(prefix: string) returns (folderId: string)
      modifies this
      ensures (Snapshot(), folderId) == FolderStep(old(Snapshot()), prefix, workspaceId, suffix)
      ensures prefix in old(folderMap) ==> folderId == old(folderMap)[prefix] && resources == old(resources)
      ensures prefix !in old(folderMap) ==>
        resources == old(resources) + [RequestGroup(folderId, workspaceId, Capitalize(prefix))]
      ensures prefix in folderMap && folderMap[prefix] == folderId
    {
      if prefix in folderMap {
        return folderMap[prefix];
      }
      folderId := IdOf("fld_", suffix, calls);
      calls := calls + 1;
      resources := resources + [RequestGroup(folderId, workspaceId, Capitalize(prefix))];
      folderMap := folderMap[prefix := folderId];
    }

    /** `methods.forEach(...)` for one route: one request per method, in order. */
    method AddRequests(folderId: string, path: string, methods: seq<string>)
      modifies this
      ensures resources == old(resources) + Requests(folderId, path, methods, old(calls), suffix)
      ensures folderMap == old(folderMap) && calls == old(calls) + |methods|
    {
      var j := 0;
      while j < |methods|
        invariant 0 <= j <= |methods|
        invariant folderMap == old(folderMap) && calls == old(calls) + j
        invariant resources + Requests(folderId, path, methods[j..], calls, suffix)
               == old(resources) + Requests(folderId, path, methods, old(calls), suffix)
      {
        assert methods[j..][1..] == methods[j + 1..];
        var requestId := IdOf("req_", suffix, calls);
        calls := calls + 1;
        resources := resources + [RequestFor(requestId, folderId, path, methods[j])];
        j := j + 1;
      }
      assert methods[j..] == [];
    }

    /** `routes.forEach(({ path, methods }) => ...)`. */
    method AddRoutes(routes: seq<Route>)
      modifies this
      ensures Snapshot() == ExpandAll(old(Snapshot()), routes, workspaceId, suffix)
    {
      var i := 0;
      while i < |routes|
        invariant 0 <= i <= |routes|
        invariant ExpandAll(old(Snapshot()), routes, workspaceId, suffix)
               == ExpandAll(Snapshot(), routes[i..], workspaceId, suffix)
      {
        assert routes[i..][1..] == routes[i + 1..];
        ghost var before := Snapshot();
        var primarySegment := GetPrimarySegment(routes[i].path);
        var folderId := GetOrCreateFolderForPrefix(primarySegment);
        ghost var afterFolder := Snapshot();
        assert (afterFolder, folderId) == FolderStep(before, primarySegment, workspaceId, suffix);
        AddRequests(folderId, routes[i].path, routes[i].methods);
        RouteStepParts(before, routes[i], workspaceId, suffix);
        assert Snapshot() == RouteStep(before, routes[i], workspaceId, suffix);
        assert ExpandAll(before, routes[i..], workspaceId, suffix)
            == ExpandAll(Snapshot(), routes[i + 1..], workspaceId, suffix);
        i := i + 1;
      }
      assert routes[i..] == [];
    }
  }

  /**
   * A fresh export of a single route holds one folder, named after the route's segment, and the
   * route's requests in that folder.
   */
  lemma SingleRoute(route: Route, suffix: nat -> string)
    ensures var ws := IdOf("wrk_", suffix, 0);
      var r := ExpandAll(Initial(suffix), [route], ws, suffix);
      && Folders(r.resources) == [(Capitalize(GetPrimarySegment(route.path)), ws)]
      && RequestViews(r.resources) == ExpectedRequests(IdOf("fld_", suffix, 2), route.path, route.methods)
  {
    var ws := IdOf("wrk_", suffix, 0);
    var st := Initial(suffix);
    RouteStepEffect(st, route, GetPrimarySegment(route.path), ws, suffix);
    var r := RouteStep(st, route, ws, suffix);
    assert ExpandAll(st, [route], ws, suffix) == ExpandAll(r, [], ws, suffix) == r;
    InitialHasNoFoldersOrRequests(suffix);
  }
}
