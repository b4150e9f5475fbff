/** The budgeted depth-first scans of a parsed JSON response: for embedded media URLs, and for the
    node that holds the tracks of a DASH manifest. */
module JsonScan {
  import opened Prelude

  /** A JSON value. `link` is what the URL library makes of a text: the absolute URL it stands for
      next to the response's own, if that is an http URL of downloadable media. */
  datatype Json =
    | Null
    | Bool(b: bool)
    | Num(n: real)
    | Str(text: string, link: Option<string>)
    | Arr(items: seq<Json>)
    | Obj(fields: seq<(string, Json)>)

  function Values(fields: seq<(string, Json)>): (vs: seq<Json>)
    ensures |vs| == |fields|
  {
    if fields == [] then [] else [fields[0].1] + Values(fields[1..])
  }

  function Children(v: Json): seq<Json> {
    match v
    case Arr(items) => items
    case Obj(fields) => Values(fields)
    case _ => []
  }

  /** The nodes no deeper than `limit`, parents before children, children in order; `depth` is that
      of the root. */
  function Preorder(v: Json, depth: nat, limit: nat): seq<Json>
    decreases limit + 1 - depth, 0
  {
    if depth > limit then [] else [v] + PreorderAll(Children(v), depth + 1, limit)
  }

  function PreorderAll(vs: seq<Json>, depth: nat, limit: nat): seq<Json>
    requires depth <= limit + 1
    decreases limit + 1 - depth, 1 + |vs|
  {
    if vs == [] then [] else Preorder(vs[0], depth, limit) + PreorderAll(vs[1..], depth, limit)
  }

  // ---------- what preorder reaches ----------

  /** The node a path of child positions leads to. */
  function Reach(v: Json, path: seq<nat>): Option<Json>
    decreases |path|
  {
    if path == [] then Some(v)
    else if path[0] < |Children(v)| then Reach(Children(v)[path[0]], path[1..])
    else None
  }

  lemma {:induction false} PathIsListed(v: Json, path: seq<nat>, depth: nat, limit: nat)
    requires Reach(v, path).Some? && depth + |path| <= limit
    ensures Reach(v, path).value in Preorder(v, depth, limit)
    decreases |path|
  {
    if path != [] {
      var child := Children(v)[path[0]];
      PathIsListed(child, path[1..], depth + 1, limit);
      ChildIsListed(Children(v), path[0], depth + 1, limit, Reach(v, path).value);
    }
  }

  lemma {:induction false} ChildIsListed(vs: seq<Json>, i: nat, depth: nat, limit: nat, x: Json)
    requires depth <= limit + 1 && i < |vs| && x in Preorder(vs[i], depth, limit)
    ensures x in PreorderAll(vs, depth, limit)
    decreases i
  {
    if i > 0 {
      ChildIsListed(vs[1..], i - 1, depth, limit, x);
    }
  }

  lemma {:induction false} ListedHasPath(v: Json, depth: nat, limit: nat, x: Json) returns (path: seq<nat>)
    requires x in Preorder(v, depth, limit)
    ensures Reach(v, path) == Some(x) && depth + |path| <= limit
    decreases limit + 1 - depth, 0
  {
    if x == v {
      path := [];
    } else {
      var i, rest := ListedInChild(Children(v), depth + 1, limit, x);
      path := [i] + rest;
    }
  }

  lemma {:induction false} ListedInChild(vs: seq<Json>, depth: nat, limit: nat, x: Json)
    returns (i: nat, path: seq<nat>)
    requires depth <= limit + 1 && x in PreorderAll(vs, depth, limit)
    ensures i < |vs| && Reach(vs[i], path) == Some(x) && depth + |path| <= limit
    decreases limit + 1 - depth, 1 + |vs|
  {
    if x in Preorder(vs[0], depth, limit) {
      i := 0;
      path := ListedHasPath(vs[0], depth, limit, x);
    } else {
      i, path := ListedInChild(vs[1..], depth, limit, x);
      i := i + 1;
    }
  }

  /** The list holds exactly the nodes at most `limit` steps from the root. */
  lemma PreorderIffReachable(v: Json, limit: nat, x: Json)
    ensures x in Preorder(v, 0, limit) <==> exists path: seq<nat> :: |path| <= limit && Reach(v, path) == Some(x)
  {
    if x in Preorder(v, 0, limit) {
      var path := ListedHasPath(v, 0, limit, x);
    }
    if path: seq<nat> :| |path| <= limit && Reach(v, path) == Some(x) {
      PathIsListed(v, path, 0, limit);
    }
  }

  // ---------- the budget ----------

  function Min(a: nat, b: nat): nat {
    if a < b then a else b
  }

  /** The first `n` nodes, or all of them. */
  function Take(nodes: seq<Json>, n: nat): seq<Json> {
    nodes[..Min(|nodes|, n)]
  }

  /** A counter that has stood at `count` after these nodes: it stops one past the budget. */
  function Counted(count: nat, nodes: nat, budget: nat): nat {
    Min(count + nodes, budget + 1)
  }

  lemma TakeAppend(a: seq<Json>, b: seq<Json>, n: nat)
    ensures Take(a + b, n) == if |a| >= n then Take(a, n) else a + Take(b, n - |a|)
  {
  }

  // ---------- media URLs ----------

  const MEDIA_DEPTH := 20
  const MEDIA_NODES := 5000
  const MAX_STRING_LEN := 4096

  /** The URL a leaf contributes. */
  function Hit(v: Json): Option<string> {
    if v.Str? && |v.text| <= MAX_STRING_LEN && '/' in v.text then v.link else None
  }

  function Add(found: seq<string>, v: Json): seq<string> {
    var hit := Hit(v);
    if hit.None? || hit.value in found then found else found + [hit.value]
  }

  function Collect(found: seq<string>, nodes: seq<Json>): seq<string>
    decreases |nodes|
  {
    if nodes == [] then found else Collect(Add(found, nodes[0]), nodes[1..])
  }

  lemma {:induction false} CollectAppend(found: seq<string>, a: seq<Json>, b: seq<Json>)
    ensures Collect(found, a + b) == Collect(Collect(found, a), b)
    decreases |a|
  {
    if a == [] {
      assert a + b == b;
    } else {
      assert (a + b)[1..] == a[1..] + b;
      CollectAppend(Add(found, a[0]), a[1..], b);
    }
  }

  lemma {:induction false} CollectHolds(found: seq<string>, nodes: seq<Json>, url: string)
    ensures url in Collect(found, nodes) <==> url in found || exists v <- nodes :: Hit(v) == Some(url)
    decreases |nodes|
  {
    if nodes != [] {
      CollectHolds(Add(found, nodes[0]), nodes[1..], url);
      assert nodes == [nodes[0]] + nodes[1..];
    }
  }

  predicate Distinct(found: seq<string>) {
    forall i, j :: 0 <= i < j < |found| ==> found[i] != found[j]
  }

  lemma {:induction false} CollectDistinct(found: seq<string>, nodes: seq<Json>)
    requires Distinct(found)
    ensures Distinct(Collect(found, nodes))
    decreases |nodes|
  {
    if nodes != [] {
      CollectDistinct(Add(found, nodes[0]), nodes[1..]);
    }
  }

  /** What the scan returns. */
  function MediaUrls(root: Json): seq<string> {
    Collect([], Take(Preorder(root, 0, MEDIA_DEPTH), MEDIA_NODES))
  }

  /** A text of at most 4096 characters, with a slash, that the URL library turns into this media URL. */
  predicate IsMediaLeaf(v: Json, url: string) {
    v.Str? && |v.text| <= 4096 && (exists i :: 0 <= i < |v.text| && v.text[i] == '/') && v.link == Some(url)
  }

  /** The path leads to a leaf that contributes the URL. */
  predicate Leads(root: Json, path: seq<nat>, url: string) {
    Reach(root, path).Some? && IsMediaLeaf(Reach(root, path).value, url)
  }

  lemma HitIff(v: Json, url: string)
    ensures Hit(v) == Some(url) <==> IsMediaLeaf(v, url)
  {
  }

  /** The scan lists no URL twice and only URLs of leaves at most twenty steps down; and all of them
      when the nodes that near number at most five thousand. */
  lemma MediaUrlsAre(root: Json, url: string)
    ensures Distinct(MediaUrls(root))
    ensures url in MediaUrls(root) ==> exists path: seq<nat> :: |path| <= 20 && Leads(root, path, url)
    ensures |Preorder(root, 0, 20)| <= 5000 ==>
      (exists path: seq<nat> :: |path| <= 20 && Leads(root, path, url)) ==> url in MediaUrls(root)
  {
    var all := Preorder(root, 0, MEDIA_DEPTH);
    var seen := Take(all, MEDIA_NODES);
    CollectDistinct([], seen);
    CollectHolds([], seen, url);
    if url in MediaUrls(root) {
      var v :| v in seen && Hit(v) == Some(url);
      assert v in all;
      var path := ListedHasPath(root, 0, MEDIA_DEPTH, v);
      HitIff(v, url);
      assert Leads(root, path, url);
    }
    if path: seq<nat> :| |path| <= 20 && Leads(root, path, url) {
      PathIsListed(root, path, 0, MEDIA_DEPTH);
      HitIff(Reach(root, path).value, url);
      if |all| <= MEDIA_NODES {
        assert seen == all;
      }
    }
  }


  class MediaScan {
    var nodes: nat
    var found: seq<string>

    constructor ()
      ensures nodes == 0 && found == []
    {
      nodes, found := 0, [];
    }

    method Visit(value: Json, depth: nat)
      requires nodes <= MEDIA_NODES && depth <= MEDIA_DEPTH + 1
      modifies this
      ensures nodes == Counted(old(nodes), |Preorder(value, depth, MEDIA_DEPTH)|, MEDIA_NODES)
      ensures found == Collect(old(found), Take(Preorder(value, depth, MEDIA_DEPTH), MEDIA_NODES - old(nodes)))
      decreases MEDIA_DEPTH + 1 - depth, 0
    {
      if depth > MEDIA_DEPTH {
        return;
      }
      nodes := nodes + 1;
      if nodes > MEDIA_NODES {
        return;
      }
      ghost var below := PreorderAll(Children(value), depth + 1, MEDIA_DEPTH);
      TakeAppend([value], below, MEDIA_NODES - old(nodes));
      CollectAppend(found, [value], Take(below, MEDIA_NODES - nodes));
      assert Collect(found, [value]) == Add(found, value) by {
        assert [value][1..] == [];
      }
      if value.Str? {
        if |value.text| > MAX_STRING_LEN || '/' !in value.text {
          return;
        }
        if value.link.Some? && value.link.value !in found {
          found := found + [value.link.value];
        }
        return;
      }
      VisitAll(Children(value), depth + 1);
    }

    method VisitAll(values: seq<Json>, depth: nat)
      requires nodes <= MEDIA_NODES && depth <= MEDIA_DEPTH + 1
      modifies this
      ensures nodes == Counted(old(nodes), |PreorderAll(values, depth, MEDIA_DEPTH)|, MEDIA_NODES)
      ensures found == Collect(old(found), Take(PreorderAll(values, depth, MEDIA_DEPTH), MEDIA_NODES - old(nodes)))
      decreases MEDIA_DEPTH + 1 - depth, 1 + |values|
    {
      if values == [] || nodes > MEDIA_NODES {
        return;
      }
      ghost var first, rest := Preorder(values[0], depth, MEDIA_DEPTH), PreorderAll(values[1..], depth, MEDIA_DEPTH);
      ghost var room := MEDIA_NODES - nodes;
      TakeAppend(first, rest, room);
      Visit(values[0], depth);
      if nodes > MEDIA_NODES {
        return;
      }
      assert Take(first, room) == first;
      CollectAppend(old(found), first, Take(rest, room - |first|));
      VisitAll(values[1..], depth);
    }
  }

  method ScanForMediaUrls(root: Json) returns (urls: seq<string>)
    ensures urls == MediaUrls(root)
  {
    var scan := new MediaScan();
    scan.Visit(root, 0);
    urls := scan.found;
  }

  // ---------- DASH tracks ----------

  const DASH_DEPTH := 12
  const DASH_NODES := 3000

  function Field(fields: seq<(string, Json)>, name: string): Option<Json> {
    if fields == [] then None else if fields[0].0 == name then Some(fields[0].1) else Field(fields[1..], name)
  }

  predicate IsText(f: Option<Json>) {
    f.Some? && f.value.Str?
  }

  predicate IsNumber(f: Option<Json>) {
    f.Some? && f.value.Num?
  }

  predicate IsTrackLike(v: Json) {
    && v.Obj?
    && (IsText(Field(v.fields, "baseUrl")) || IsText(Field(v.fields, "base_url")) || IsText(Field(v.fields, "url")))
    && (IsNumber(Field(v.fields, "bandwidth")) || IsText(Field(v.fields, "codecs")) || Field(v.fields, "id").Some?
        || IsNumber(Field(v.fields, "width")) || IsNumber(Field(v.fields, "height")))
  }

  predicate HasTracks(f: Option<Json>) {
    f.Some? && f.value.Arr? && exists item <- f.value.items :: IsTrackLike(item)
  }

  predicate IsDashNode(v: Json) {
    v.Obj? && (HasTracks(Field(v.fields, "video")) || HasTracks(Field(v.fields, "audio")))
  }

  /** Exactly which nodes are taken for a DASH manifest's: objects whose "video" or "audio" is a list with
      an object in it that has a text for its URL, under one of three names, and one more field of a track. */
  lemma DashNodeIff(v: Json)
    ensures IsDashNode(v) <==> v.Obj? && exists kind, item :: IsTrackOf(v.fields, kind, item)
  {
    if v.Obj? {
      if exists kind, item :: IsTrackOf(v.fields, kind, item) {
        var kind, item :| IsTrackOf(v.fields, kind, item);
        TrackLikeIff(item);
      }
      if HasTracks(Field(v.fields, "video")) {
        var item :| item in Field(v.fields, "video").value.items && IsTrackLike(item);
        TrackLikeIff(item);
        assert IsTrackOf(v.fields, "video", item);
      }
      if HasTracks(Field(v.fields, "audio")) {
        var item :| item in Field(v.fields, "audio").value.items && IsTrackLike(item);
        TrackLikeIff(item);
        assert IsTrackOf(v.fields, "audio", item);
      }
    }
  }

  ghost predicate IsTrackOf(fields: seq<(string, Json)>, kind: string, item: Json) {
    && kind in {"video", "audio"}
    && match Field(fields, kind)
       case Some(Arr(items)) => item in items && LooksLikeTrack(item)
       case _ => false
  }

  ghost predicate HasText(item: Json, name: string)
    requires item.Obj?
  {
    exists text, link :: Field(item.fields, name) == Some(Str(text, link))
  }

  ghost predicate HasNumber(item: Json, name: string)
    requires item.Obj?
  {
    exists n :: Field(item.fields, name) == Some(Num(n))
  }

  ghost predicate LooksLikeTrack(item: Json) {
    && item.Obj?
    && (exists name <- {"baseUrl", "base_url", "url"} :: HasText(item, name))
    && (|| (exists name <- {"bandwidth", "width", "height"} :: HasNumber(item, name))
        || HasText(item, "codecs") || Field(item.fields, "id") != None)
  }

  lemma HasIff(item: Json, name: string)
    requires item.Obj?
    ensures HasText(item, name) <==> IsText(Field(item.fields, name))
    ensures HasNumber(item, name) <==> IsNumber(Field(item.fields, name))
  {
    match Field(item.fields, name)
    case Some(Str(text, link)) => assert HasText(item, name);
    case Some(Num(n)) => assert HasNumber(item, name);
    case _ =>
  }

  lemma TrackLikeIff(item: Json)
    ensures IsTrackLike(item) <==> LooksLikeTrack(item)
  {
    if item.Obj? {
      forall name ensures HasText(item, name) <==> IsText(Field(item.fields, name)) { HasIff(item, name); }
      forall name ensures HasNumber(item, name) <==> IsNumber(Field(item.fields, name)) { HasIff(item, name); }
    }
  }

  /** The field that is taken for a track's URL: the first of the three that is neither absent nor null. */
  function RawUrl(v: Json): Option<Json>
    requires v.Obj?
  {
    var a, b := Field(v.fields, "baseUrl"), Field(v.fields, "base_url");
    if a.Some? && !a.value.Null? then a else if b.Some? && !b.value.Null? then b else Field(v.fields, "url")
  }

  /** A track-like item need not have its text taken for the URL: it is exactly when no earlier field
      of the three holds something other than a text. */
  lemma TrackUrlIsTextIff(v: Json)
    requires IsTrackLike(v)
    ensures var a, b := Field(v.fields, "baseUrl"), Field(v.fields, "base_url");
      IsText(RawUrl(v)) <==>
        && (a.None? || a.value.Null? || a.value.Str?)
        && (a.None? || a.value.Null? ==> b.None? || b.value.Null? || b.value.Str?)
  {
  }

  /** A number in `baseUrl` passes for the URL although `url` has a proper one. */
  lemma NumberTakenForUrl(n: real, url: string, link: Option<string>)
    ensures var v := Obj([("baseUrl", Num(n)), ("url", Str(url, link)), ("id", Num(n))]);
      IsTrackLike(v) && RawUrl(v) == Some(Num(n))
  {
    var v := Obj([("baseUrl", Num(n)), ("url", Str(url, link)), ("id", Num(n))]);
    assert v.fields[1..] == [("url", Str(url, link)), ("id", Num(n))];
    assert v.fields[1..][1..] == [("id", Num(n))];
    assert Field(v.fields[1..], "url") == Some(Str(url, link));
    assert Field(v.fields[1..][1..], "id") == Some(Num(n));
    assert Field(v.fields[1..], "id") == Some(Num(n));
  }

  function FirstDash(nodes: seq<Json>): Option<Json> {
    if nodes == [] then None else if IsDashNode(nodes[0]) then Some(nodes[0]) else FirstDash(nodes[1..])
  }

  lemma {:induction false} FirstDashAppend(a: seq<Json>, b: seq<Json>)
    ensures FirstDash(a + b) == if FirstDash(a).Some? then FirstDash(a) else FirstDash(b)
  {
    if a == [] {
      assert a + b == b;
    } else {
      assert (a + b)[1..] == a[1..] + b;
      FirstDashAppend(a[1..], b);
    }
  }

  predicate FirstDashAt(nodes: seq<Json>, i: nat)
    requires i < |nodes|
  {
    IsDashNode(nodes[i]) && forall j :: 0 <= j < i ==> !IsDashNode(nodes[j])
  }

  lemma {:induction false} FirstDashIs(nodes: seq<Json>)
    ensures match FirstDash(nodes)
      case None => forall v <- nodes :: !IsDashNode(v)
      case Some(v) =>
        exists i :: 0 <= i < |nodes| && FirstDashAt(nodes, i) && nodes[i] == v
  {
    if nodes != [] && !IsDashNode(nodes[0]) {
      FirstDashIs(nodes[1..]);
      var f := FirstDash(nodes[1..]);
      if f.Some? {
        var i :| 0 <= i < |nodes[1..]| && FirstDashAt(nodes[1..], i) && nodes[1..][i] == f.value;
        assert forall j :: 1 <= j < i + 1 ==> nodes[j] == nodes[1..][j - 1];
        assert FirstDashAt(nodes, i + 1) && nodes[i + 1] == f.value;
      }
    } else if nodes != [] {
      assert FirstDashAt(nodes, 0);
    }
  }

  /** What the search returns: the first fitting node of the first three thousand. */
  function DashNode(root: Json): Option<Json> {
    FirstDash(Take(Preorder(root, 0, DASH_DEPTH), DASH_NODES))
  }

  /** A node is found whenever there is one near enough and the near nodes fit the budget, and what is
      found is near. */
  lemma DashNodeIs(root: Json)
    ensures DashNode(root).Some? ==>
      && IsDashNode(DashNode(root).value)
      && exists path: seq<nat> :: |path| <= 12 && Reach(root, path) == DashNode(root)
    ensures DashNode(root).None? && |Preorder(root, 0, 12)| <= 3000 ==>
      forall path: seq<nat> :: |path| <= 12 && Reach(root, path).Some? ==> !IsDashNode(Reach(root, path).value)
  {
    var all := Preorder(root, 0, DASH_DEPTH);
    FirstDashIs(Take(all, DASH_NODES));
    if DashNode(root).Some? {
      assert DashNode(root).value in all;
      var path := ListedHasPath(root, 0, DASH_DEPTH, DashNode(root).value);
    } else if |all| <= DASH_NODES {
      assert Take(all, DASH_NODES) == all;
      forall path: seq<nat> | |path| <= 12 && Reach(root, path).Some?
        ensures !IsDashNode(Reach(root, path).value)
      {
        PathIsListed(root, path, 0, DASH_DEPTH);
      }
    }
  }

  class DashScan {
    var count: nat

    constructor ()
      ensures count == 0
    {
      count := 0;
    }

    method Find(value: Json, depth: nat) returns (r: Option<Json>)
      requires count <= DASH_NODES && depth <= DASH_DEPTH + 1
      modifies this
      ensures r == FirstDash(Take(Preorder(value, depth, DASH_DEPTH), DASH_NODES - old(count)))
      ensures r.None? ==> count == Counted(old(count), |Preorder(value, depth, DASH_DEPTH)|, DASH_NODES)
      ensures count <= DASH_NODES + 1
      decreases DASH_DEPTH + 1 - depth, 0
    {
      if depth > DASH_DEPTH {
        return None;
      }
      count := count + 1;
      if count > DASH_NODES {
        return None;
      }
      ghost var below := PreorderAll(Children(value), depth + 1, DASH_DEPTH);
      TakeAppend([value], below, DASH_NODES - old(count));
      FirstDashAppend([value], Take(below, DASH_NODES - count));
      assert FirstDash([value]) == if IsDashNode(value) then Some(value) else None by {
        assert [value][1..] == [];
      }
      if !value.Arr? && !value.Obj? {
        return None;
      }
      if IsDashNode(value) {
        return Some(value);
      }
      r := FindAll(Children(value), depth + 1);
    }

    method FindAll(values: seq<Json>, depth: nat) returns (r: Option<Json>)
      requires count <= DASH_NODES && depth <= DASH_DEPTH + 1
      modifies this
      ensures r == FirstDash(Take(PreorderAll(values, depth, DASH_DEPTH), DASH_NODES - old(count)))
      ensures r.None? ==> count == Counted(old(count), |PreorderAll(values, depth, DASH_DEPTH)|, DASH_NODES)
      ensures count <= DASH_NODES + 1
      decreases DASH_DEPTH + 1 - depth, 1 + |values|
    {
      if values == [] || count > DASH_NODES {
        return None;
      }
      ghost var first, rest := Preorder(values[0], depth, DASH_DEPTH), PreorderAll(values[1..], depth, DASH_DEPTH);
      ghost var room := DASH_NODES - count;
      TakeAppend(first, rest, room);
      r := Find(values[0], depth);
      if |first| <= room {
        assert Take(first, room) == first;
        FirstDashAppend(first, Take(rest, room - |first|));
      }
      if r.Some? || count > DASH_NODES {
        return;
      }
      r := FindAll(values[1..], depth);
    }
  }

  method FindDashNode(root: Json) returns (r: Option<Json>)
    ensures r == DashNode(root)
  {
    var scan := new DashScan();
    r := scan.Find(root, 0);
  }
}
