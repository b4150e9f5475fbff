/** The extension's per-tab list of detected resources: merging by canonical URL, a cap with
    eviction, and the sorted listing. */
module ResourceStore {
  import opened Prelude

  datatype Kind = Video | Audio | Document | Archive | Image | Executable | Torrent | Stream | Subtitle | Magnet | Other
  datatype Detection =
    WebRequest | DomScan | MutationObserver | FetchIntercept | XhrIntercept | BlobIntercept | MseIntercept
  datatype Confidence = High | Medium | Low

  const MAX_RESOURCES_PER_TAB := 500

  /** Absent and empty texts are one: every test on them is for truthiness. An unknown size is -1. */
  datatype Resource = Resource(
    id: string, url: string, filename: string, kind: Kind, size: int, mimeType: string, quality: string,
    detectedBy: Detection, detectedAt: int, pageUrl: string, confidence: Confidence, isAttachment: bool,
    cookies: string, headers: map<string, string>)

  datatype Payload = Payload(
    url: string, kind: Kind, filename: string, size: Option<int>, mimeType: string, quality: string,
    detectedBy: Detection, pageUrl: string, isAttachment: bool)

  /** What the tables and the URL library say: the canonical URL, the noise test, the kind by
      extension and MIME type, and the file name in a URL. */
  datatype Rules = Rules(
    key: string -> string, noise: string -> bool, classify: (string, string) -> Kind, filename: string -> string)

  /** The rest of a call: the page, the captured credentials and the time. */
  datatype Context = Context(pageUrl: string, cookies: string, headers: map<string, string>, now: int)

  // ---------- confidence ----------

  function Threshold(k: Kind): int {
    match k
    case Video => 500 * 1024
    case Audio => 100 * 1024
    case Image => 100 * 1024
    case Other => 50 * 1024
    case _ => -1
  }

  function ComputeConfidence(kind: Kind, size: int, detectedBy: Detection, isAttachment: bool): Confidence {
    if isAttachment then High
    else if kind.Stream? then High
    else if kind.Torrent? || kind.Executable? || kind.Subtitle? || kind.Magnet? then High
    else
      var threshold := Threshold(kind);
      if !kind.Other? && !kind.Image? then
        if size > 0 && threshold > 0 && size >= threshold then High
        else if size <= 0 then Medium
        else Low
      else if kind.Image? then
        if size > 0 && size >= (if threshold > 0 then threshold else 100 * 1024) then Medium else Low
      else if size > 0 && size >= 1024 * 1024 then Medium
      else if size > 0 && size >= (if threshold > 0 then threshold else 50 * 1024) then Low
      else if detectedBy.BlobIntercept? then Low
      else Low
  }

  function Rank(c: Confidence): nat {
    match c
    case High => 3
    case Medium => 2
    case Low => 1
  }

  predicate IsWorthShowing(r: Resource, rules: Rules) {
    if r.kind.Magnet? then true
    else if "blob:" <= r.url || "data:" <= r.url then false
    else if rules.noise(r.url) then false
    else if r.size > 0 && Threshold(r.kind) > 0 && r.size < Threshold(r.kind) && !r.isAttachment then false
    else !(r.kind.Image? && r.size > 0 && r.size < 10 * 1024)
  }

  /** Exactly when a resource is rated high. Documents and archives never are without an attachment
      header, although the doc comment promises it for large ones: they have no threshold. */
  lemma HighIff(kind: Kind, size: int, detectedBy: Detection, isAttachment: bool)
    ensures ComputeConfidence(kind, size, detectedBy, isAttachment) == High <==>
      || isAttachment
      || kind in {Stream, Torrent, Executable, Subtitle, Magnet}
      || (kind == Video && size >= 512000) || (kind == Audio && size >= 102400)
  {
  }

  /** And exactly when it is rated medium: an unknown size can do no better for most kinds, while an image or
      an unknown kind needs a good one. */
  lemma MediumIff(kind: Kind, size: int, detectedBy: Detection)
    ensures ComputeConfidence(kind, size, detectedBy, false) == Medium <==>
      || (kind in {Video, Audio, Document, Archive} && size <= 0)
      || (kind == Image && size >= 102400) || (kind == Other && size >= 1048576)
  {
  }

  /** Learning the size of a document or archive lowers its rating, whatever the size. */
  lemma KnownSizeLowers(kind: Kind, size: int, detectedBy: Detection)
    requires kind.Document? || kind.Archive?
    ensures ComputeConfidence(kind, size, detectedBy, false) == if size > 0 then Low else Medium
  {
  }

  /** The display filter and the rating agree on media: what is shown with a known size is high. */
  lemma ShownMediaIsHigh(r: Resource, rules: Rules)
    requires IsWorthShowing(r, rules) && (r.kind.Video? || r.kind.Audio?) && r.size > 0
    ensures ComputeConfidence(r.kind, r.size, r.detectedBy, r.isAttachment) == High
  {
  }

  // ---------- one tab ----------

  /** A tab's map, in insertion order. */
  type Tab = seq<Resource>

  predicate Unique(tab: Tab) {
    forall i, j :: 0 <= i < j < |tab| ==> tab[i].id != tab[j].id
  }

  predicate Holds(tab: Tab, id: string) {
    exists r <- tab :: r.id == id
  }

  /** Filed under its own canonical URL, no noise, and no in-page URL unless it is a magnet's. */
  predicate Filed(r: Resource, rules: Rules) {
    r.id == rules.key(r.url) && !rules.noise(r.url) && ("blob:" <= r.url || "data:" <= r.url ==> r.kind.Magnet?)
  }

  predicate TabOk(tab: Tab, rules: Rules) {
    |tab| <= MAX_RESOURCES_PER_TAB && Unique(tab) && forall r <- tab :: Filed(r, rules)
  }

  /** Rated lower, or equal and older. */
  predicate Worse(a: Resource, b: Resource) {
    Rank(a.confidence) < Rank(b.confidence) || (a.confidence == b.confidence && a.detectedAt < b.detectedAt)
  }

  /** The first of the worst. */
  predicate IsVictim(tab: Tab, v: nat) {
    && v < |tab|
    && (forall i :: 0 <= i < |tab| ==> !Worse(tab[i], tab[v]))
    && (forall i :: 0 <= i < v ==> Worse(tab[v], tab[i]))
  }

  function Victim(tab: Tab): (v: nat)
    requires tab != []
    ensures IsVictim(tab, v)
  {
    var last := |tab| - 1;
    if last == 0 then 0
    else
      var v := Victim(tab[..last]);
      assert forall i :: 0 <= i < last ==> tab[..last][i] == tab[i];
      if Worse(tab[last], tab[v]) then last else v
  }

  lemma VictimUnique(tab: Tab, v: nat, w: nat)
    requires IsVictim(tab, v) && IsVictim(tab, w)
    ensures v == w
  {
    assert !Worse(tab[v], tab[w]) && !Worse(tab[w], tab[v]);
  }

  function Evict(tab: Tab): Tab {
    if tab == [] then tab else var v := Victim(tab); tab[..v] + tab[v + 1..]
  }

  function Find(tab: Tab, id: string): (i: Option<nat>)
    ensures i.Some? ==> i.value < |tab| && tab[i.value].id == id
    ensures i.None? ==> forall r <- tab :: r.id != id
  {
    if tab == [] then None
    else if tab[0].id == id then Some(0)
    else match Find(tab[1..], id) case None => None case Some(i) => Some(i + 1)
  }

  function Merge(r: Resource, p: Payload, c: Context): Resource {
    var kind := if r.kind.Other? && !p.kind.Other? then p.kind else r.kind;
    var size := if r.size <= 0 && p.size.Some? && p.size.value > 0 then p.size.value else r.size;
    var isAttachment := r.isAttachment || p.isAttachment;
    var rated := ComputeConfidence(kind, size, r.detectedBy, isAttachment);
    r.(kind := kind,
       filename := if r.filename == "" then p.filename else r.filename,
       size := size,
       mimeType := if r.mimeType == "" then p.mimeType else r.mimeType,
       quality := if r.quality == "" then p.quality else r.quality,
       isAttachment := isAttachment,
       cookies := if r.cookies == "" then c.cookies else r.cookies,
       headers := if r.headers == map[] then c.headers else r.headers,
       confidence := if Rank(rated) > Rank(r.confidence) then rated else r.confidence)
  }

  function Fresh(p: Payload, c: Context, rules: Rules): Resource {
    var kind := if !p.kind.Other? then p.kind else rules.classify(p.url, p.mimeType);
    var size := if p.size.Some? then p.size.value else -1;
    Resource(rules.key(p.url), p.url, if p.filename != "" then p.filename else rules.filename(p.url),
      kind, size, p.mimeType, p.quality, p.detectedBy, c.now, if p.pageUrl != "" then p.pageUrl else c.pageUrl,
      ComputeConfidence(kind, size, p.detectedBy, p.isAttachment), p.isAttachment, c.cookies, c.headers)
  }

  function Insert(tab: Tab, r: Resource): Tab {
    (if |tab| >= MAX_RESOURCES_PER_TAB then Evict(tab) else tab) + [r]
  }

  function AddOne(tab: Tab, p: Payload, c: Context, rules: Rules): Tab {
    if rules.noise(p.url) then tab
    else
      match Find(tab, rules.key(p.url))
      case Some(i) => tab[i := Merge(tab[i], p, c)]
      case None =>
        var r := Fresh(p, c, rules);
        if IsWorthShowing(r, rules) then Insert(tab, r) else tab
  }

  /** Whether the payload makes a new entry, which is what the call counts. */
  predicate Adds(tab: Tab, p: Payload, c: Context, rules: Rules) {
    !rules.noise(p.url) && Find(tab, rules.key(p.url)).None? && IsWorthShowing(Fresh(p, c, rules), rules)
  }

  /** A payload with what its call and the clock give it. */
  datatype Sighting = Sighting(payload: Payload, context: Context)

  function After(tab: Tab, ss: seq<Sighting>, rules: Rules): Tab {
    if ss == [] then tab
    else AddOne(After(tab, ss[..|ss| - 1], rules), ss[|ss| - 1].payload, ss[|ss| - 1].context, rules)
  }

  function CountAdds(tab: Tab, ss: seq<Sighting>, rules: Rules): nat {
    if ss == [] then 0
    else
      var before, last := ss[..|ss| - 1], ss[|ss| - 1];
      var adds := Adds(After(tab, before, rules), last.payload, last.context, rules);
      CountAdds(tab, before, rules) + (if adds then 1 else 0)
  }

  /** Eviction loses the victim and nothing else. */
  lemma OthersStay(tab: Tab, r: Resource)
    requires Unique(tab) && r in tab
    ensures r in Evict(tab) <==> r != tab[Victim(tab)]
  {
  }

  lemma InsertOk(tab: Tab, r: Resource, rules: Rules)
    requires TabOk(tab, rules) && Filed(r, rules) && forall x <- tab :: x.id != r.id
    ensures TabOk(Insert(tab, r), rules)
  {
  }

  /** Every payload keeps the cap, the uniqueness of keys, and every entry properly filed. */
  lemma AddOneOk(tab: Tab, p: Payload, c: Context, rules: Rules)
    requires TabOk(tab, rules)
    ensures TabOk(AddOne(tab, p, c, rules), rules)
  {
    var found := Find(tab, rules.key(p.url));
    if Adds(tab, p, c, rules) {
      InsertOk(tab, Fresh(p, c, rules), rules);
    } else if !rules.noise(p.url) && found.Some? {
      assert tab[found.value] in tab && Filed(tab[found.value], rules);
      assert Filed(Merge(tab[found.value], p, c), rules);
    }
  }

  /** Every run keeps them. */
  lemma {:induction false} EveryRunIsFiled(tab: Tab, ss: seq<Sighting>, rules: Rules)
    requires TabOk(tab, rules)
    ensures TabOk(After(tab, ss, rules), rules)
  {
    if ss != [] {
      EveryRunIsFiled(tab, ss[..|ss| - 1], rules);
      AddOneOk(After(tab, ss[..|ss| - 1], rules), ss[|ss| - 1].payload, ss[|ss| - 1].context, rules);
    }
  }

  lemma EntryAfterInsert(tab: Tab, r: Resource, a: Resource, b: Resource)
    requires Unique(tab) && forall x <- tab :: x.id != r.id
    requires a in tab && b in Insert(tab, r) && a.id == b.id
    ensures a == b
  {
    assert b != r;
    if |tab| >= MAX_RESOURCES_PER_TAB {
      assert b in Evict(tab);
      EvictKeeps(tab, b);
    }
    SameEntry(tab, a, b);
  }

  lemma EvictKeeps(tab: Tab, b: Resource)
    requires b in Evict(tab)
    ensures b in tab
  {
  }

  lemma SameEntry(tab: Tab, a: Resource, b: Resource)
    requires Unique(tab) && a in tab && b in tab && a.id == b.id
    ensures a == b
  {
  }

  lemma EntryAfterMerge(tab: Tab, i: nat, m: Resource, a: Resource, b: Resource)
    requires Unique(tab) && i < |tab| && m.id == tab[i].id
    requires a in tab && b in tab[i := m] && a.id == b.id
    ensures if a.id == m.id then a == tab[i] && b == m else a == b
  {
  }

  /** What a payload does to an entry that is there before and after: it keeps its place in time
      and its origin, and its rating never falls. */
  lemma EntryNeverFalls(tab: Tab, p: Payload, c: Context, rules: Rules, a: Resource, b: Resource)
    requires TabOk(tab, rules)
    requires a in tab && b in AddOne(tab, p, c, rules) && a.id == b.id
    ensures Rank(a.confidence) <= Rank(b.confidence)
    ensures b.url == a.url && b.detectedAt == a.detectedAt && b.detectedBy == a.detectedBy && b.pageUrl == a.pageUrl
    ensures a.isAttachment ==> b.isAttachment
    ensures a.id != rules.key(p.url) ==> b == a
  {
    var found := Find(tab, rules.key(p.url));
    if Adds(tab, p, c, rules) {
      EntryAfterInsert(tab, Fresh(p, c, rules), a, b);
    } else if !rules.noise(p.url) && found.Some? {
      EntryAfterMerge(tab, found.value, Merge(tab[found.value], p, c), a, b);
    } else {
      SameEntry(tab, a, b);
    }
  }

  /** A payload takes an entry away only when the tab is full, and then it takes the one that is
      worst: of the lowest rating, and of those the oldest. */
  lemma OnlyWorstIsLost(tab: Tab, p: Payload, c: Context, rules: Rules, a: Resource)
    requires TabOk(tab, rules) && a in tab
    ensures (forall b <- AddOne(tab, p, c, rules) :: b.id != a.id) ==>
      |tab| == MAX_RESOURCES_PER_TAB && Adds(tab, p, c, rules) && forall r <- tab :: !Worse(r, a)
  {
    var next := AddOne(tab, p, c, rules);
    if Adds(tab, p, c, rules) {
      if |tab| >= MAX_RESOURCES_PER_TAB {
        OthersStay(tab, a);
      } else {
        assert a in next;
      }
    } else if !rules.noise(p.url) && Find(tab, rules.key(p.url)).Some? {
      var k :| 0 <= k < |tab| && tab[k] == a;
      assert next[k].id == a.id && next[k] in next;
    }
  }

  /** So no entry is lost while a lower rated one, or one as low and older, is there: one rated high only
      from a list of nothing else, one rated medium only if none is low. */
  lemma HighIsLostLast(tab: Tab, p: Payload, c: Context, rules: Rules, a: Resource, r: Resource)
    requires TabOk(tab, rules) && a in tab && r in tab && !Holds(AddOne(tab, p, c, rules), a.id)
    ensures |tab| == 500
    ensures a.confidence == High ==> r.confidence == High
    ensures a.confidence == Medium ==> r.confidence != Low
    ensures r.confidence == a.confidence ==> a.detectedAt <= r.detectedAt
  {
    OnlyWorstIsLost(tab, p, c, rules, a);
    assert !Worse(r, a);
  }

  // ---------- whole runs ----------

  /** Over every run an entry that is never evicted keeps its origin, and its rating never falls. */
  lemma {:induction false} KeptEntryNeverFalls(tab: Tab, ss: seq<Sighting>, rules: Rules, a: Resource, b: Resource)
    requires TabOk(tab, rules)
    requires forall n :: 0 <= n <= |ss| ==> Holds(After(tab, ss[..n], rules), a.id)
    requires a in tab && b in After(tab, ss, rules) && a.id == b.id
    ensures TabOk(After(tab, ss, rules), rules)
    ensures Rank(a.confidence) <= Rank(b.confidence)
    ensures b.url == a.url && b.detectedAt == a.detectedAt && b.detectedBy == a.detectedBy && b.pageUrl == a.pageUrl
  {
    if ss == [] {
      SameEntry(tab, a, b);
    } else {
      var before, last := ss[..|ss| - 1], ss[|ss| - 1];
      assert forall n :: 0 <= n <= |before| ==> before[..n] == ss[..n];
      assert Holds(After(tab, ss[..|before|], rules), a.id);
      var m :| m in After(tab, before, rules) && m.id == a.id;
      KeptEntryNeverFalls(tab, before, rules, a, m);
      AddOneOk(After(tab, before, rules), last.payload, last.context, rules);
      EntryNeverFalls(After(tab, before, rules), last.payload, last.context, rules, m, b);
    }
  }

  lemma MergeTwice(r: Resource, p: Payload, c: Context)
    ensures Merge(Merge(r, p, c), p, c) == Merge(r, p, c)
  {
  }

  lemma MergeFresh(p: Payload, c: Context, rules: Rules, later: Context)
    requires later.cookies == c.cookies && later.headers == c.headers
    ensures Merge(Fresh(p, c, rules), p, later) == Fresh(p, c, rules)
  {
  }

  lemma FindUnique(tab: Tab, i: nat)
    requires Unique(tab) && i < |tab|
    ensures Find(tab, tab[i].id) == Some(i)
  {
  }

  /** Seeing the same payload again, with the same credentials and at any later time, changes nothing. */
  lemma AddTwice(tab: Tab, p: Payload, c: Context, rules: Rules, now: int)
    requires TabOk(tab, rules)
    ensures AddOne(AddOne(tab, p, c, rules), p, c.(now := now), rules) == AddOne(tab, p, c, rules)
  {
    var next, later := AddOne(tab, p, c, rules), c.(now := now);
    AddOneOk(tab, p, c, rules);
    if Adds(tab, p, c, rules) {
      var r := Fresh(p, c, rules);
      FindUnique(next, |next| - 1);
      MergeFresh(p, c, rules, later);
    } else if !rules.noise(p.url) && Find(tab, rules.key(p.url)).Some? {
      var i := Find(tab, rules.key(p.url)).value;
      FindUnique(next, i);
      MergeTwice(tab[i], p, c);
      assert Merge(next[i], p, later) == Merge(next[i], p, c);
    }
  }

  /** The size from which on a resource of a kind is shown. */
  function ShownFrom(k: Kind): int {
    if k == Video then 512000 else if k == Audio || k == Image then 102400 else if k == Other then 51200 else 0
  }

  /** Of a resource seen for the first time, what kind it is taken for. */
  function KindOf(p: Payload, rules: Rules): Kind {
    if p.kind == Other then rules.classify(p.url, p.mimeType) else p.kind
  }

  /** A resource not yet in the list is listed, and counted as new, exactly if its URL is no noise and it is
      a magnet link, or an ordinary URL whose size is unknown, large enough for its kind or sent as an
      attachment, though no image under 10 KiB. */
  lemma ListedIff(tab: Tab, p: Payload, c: Context, rules: Rules)
    requires !Holds(tab, rules.key(p.url))
    ensures var kind, size := KindOf(p, rules), if p.size.Some? then p.size.value else 0;
      Holds(AddOne(tab, p, c, rules), rules.key(p.url)) <==>
        && !rules.noise(p.url)
        && (|| kind == Magnet
            || (&& !("blob:" <= p.url) && !("data:" <= p.url)
                && (size <= 0 || ((p.isAttachment || size >= ShownFrom(kind)) && !(kind == Image && size < 10240)))))
    ensures Adds(tab, p, c, rules) <==> Holds(AddOne(tab, p, c, rules), rules.key(p.url))
  {
    var f := Fresh(p, c, rules);
    assert Find(tab, rules.key(p.url)).None?;
    if IsWorthShowing(f, rules) && !rules.noise(p.url) {
      assert f in Insert(tab, f) && f.id == rules.key(p.url);
    }
  }

  /** The `i`th sighting puts an entry into the list under a key that was not there. */
  predicate IsNew(tab: Tab, ss: seq<Sighting>, rules: Rules, i: nat)
    requires i < |ss|
  {
    var key := rules.key(ss[i].payload.url);
    !Holds(After(tab, ss[..i], rules), key) && Holds(After(tab, ss[..i + 1], rules), key)
  }

  function NewOnes(tab: Tab, ss: seq<Sighting>, rules: Rules): set<nat> {
    set i: nat | i < |ss| && IsNew(tab, ss, rules, i)
  }

  /** The count is the number of new entries. */
  lemma {:induction false} CountIsNewOnes(tab: Tab, ss: seq<Sighting>, rules: Rules)
    ensures CountAdds(tab, ss, rules) == |NewOnes(tab, ss, rules)|
  {
    if ss == [] {
      assert NewOnes(tab, ss, rules) == {};
    } else {
      var n := |ss| - 1;
      var before := ss[..n];
      CountIsNewOnes(tab, before, rules);
      NewOnesLast(tab, ss, rules);
      LastIsNewIff(tab, ss, rules);
    }
  }

  lemma NewOnesLast(tab: Tab, ss: seq<Sighting>, rules: Rules)
    requires ss != []
    ensures var n := |ss| - 1;
      NewOnes(tab, ss, rules) == NewOnes(tab, ss[..n], rules) + if IsNew(tab, ss, rules, n) then {n} else {}
  {
    var n := |ss| - 1;
    forall i: nat | i < n ensures IsNew(tab, ss[..n], rules, i) == IsNew(tab, ss, rules, i) {
      assert ss[..n][..i] == ss[..i] && ss[..n][..i + 1] == ss[..i + 1];
    }
  }

  lemma LastIsNewIff(tab: Tab, ss: seq<Sighting>, rules: Rules)
    requires ss != []
    ensures var n := |ss| - 1;
      IsNew(tab, ss, rules, n) <==> Adds(After(tab, ss[..n], rules), ss[n].payload, ss[n].context, rules)
  {
    var n := |ss| - 1;
    var key, now := rules.key(ss[n].payload.url), After(tab, ss[..n], rules);
    assert ss[..n + 1] == ss;
    if !Holds(now, key) {
      ListedIff(now, ss[n].payload, ss[n].context, rules);
    }
  }

  /** A new entry has the sighting's facts, and the rating they deserve. */
  lemma NewEntryIs(tab: Tab, p: Payload, c: Context, rules: Rules, r: Resource)
    requires !Holds(tab, rules.key(p.url)) && r in AddOne(tab, p, c, rules) && r.id == rules.key(p.url)
    ensures r.url == p.url && r.kind == KindOf(p, rules) && r.size == (if p.size.Some? then p.size.value else -1)
    ensures r.detectedAt == c.now && r.detectedBy == p.detectedBy && r.isAttachment == p.isAttachment
    ensures r.mimeType == p.mimeType && r.quality == p.quality && r.cookies == c.cookies && r.headers == c.headers
    ensures r.filename == (if p.filename != "" then p.filename else rules.filename(p.url))
    ensures r.pageUrl == (if p.pageUrl != "" then p.pageUrl else c.pageUrl)
    ensures r.confidence == High <==>
      || r.isAttachment || r.kind in {Stream, Torrent, Executable, Subtitle, Magnet}
      || (r.kind == Video && r.size >= 512000) || (r.kind == Audio && r.size >= 102400)
  {
    assert Find(tab, rules.key(p.url)).None?;
    assert r == Fresh(p, c, rules);
    HighIff(r.kind, r.size, r.detectedBy, r.isAttachment);
  }

  /** A known entry that is seen again keeps what it knew, learns what the payload knows, and is rated at
      least what the two together deserve. */
  lemma SeenAgainLearns(tab: Tab, p: Payload, c: Context, rules: Rules, a: Resource, b: Resource)
    requires TabOk(tab, rules) && !rules.noise(p.url)
    requires a in tab && b in AddOne(tab, p, c, rules) && a.id == b.id == rules.key(p.url)
    ensures b.size == if a.size > 0 then a.size else if p.size.Some? && p.size.value > 0 then p.size.value else a.size
    ensures b.kind == if a.kind == Other then p.kind else a.kind
    ensures b.isAttachment == (a.isAttachment || p.isAttachment)
    ensures b.filename == (if a.filename != "" then a.filename else p.filename)
    ensures b.mimeType == (if a.mimeType != "" then a.mimeType else p.mimeType)
    ensures b.quality == (if a.quality != "" then a.quality else p.quality)
    ensures b.cookies == (if a.cookies != "" then a.cookies else c.cookies)
    ensures b.headers == (if a.headers != map[] then a.headers else c.headers)
    ensures b.confidence == High <==>
      || a.confidence == High || b.isAttachment || b.kind in {Stream, Torrent, Executable, Subtitle, Magnet}
      || (b.kind == Video && b.size >= 512000) || (b.kind == Audio && b.size >= 102400)
    ensures Rank(b.confidence) >= Rank(ComputeConfidence(b.kind, b.size, b.detectedBy, b.isAttachment))
    ensures b.confidence == a.confidence
         || b.confidence == ComputeConfidence(b.kind, b.size, b.detectedBy, b.isAttachment)
  {
    var i := Find(tab, rules.key(p.url)).value;
    EntryAfterMerge(tab, i, Merge(tab[i], p, c), a, b);
    HighIff(b.kind, b.size, b.detectedBy, b.isAttachment);
  }

  predicate SizeKnown(p: Payload) {
    p.size.Some? && p.size.value > 0
  }

  /** An image that is hidden for its size even as an attachment. */
  predicate TinyAttachment(p: Payload) {
    p.isAttachment && SizeKnown(p) && p.size.value < 10 * 1024
  }

  /** Two sightings whose order decides the rating: a document or archive seen once with its size and
      once without, or an image seen once as a tiny attachment and once as no attachment. */
  predicate Clash(p: Payload, q: Payload) {
    || ((p.kind.Document? || p.kind.Archive?) && !p.isAttachment && !q.isAttachment && SizeKnown(p) != SizeKnown(q))
    || (p.kind.Image? && ((TinyAttachment(p) && !q.isAttachment) || (TinyAttachment(q) && !p.isAttachment)))
  }

  function Pair(p: Payload, c: Context, q: Payload, d: Context, rules: Rules): Tab {
    AddOne(AddOne([], p, c, rules), q, d, rules)
  }

  /** What two sightings leave: the first, with the second merged, if it is shown; else the second, if
      that is. */
  lemma PairIs(p: Payload, c: Context, q: Payload, d: Context, rules: Rules)
    requires p.url == q.url && !rules.noise(p.url)
    ensures var r, t := Fresh(p, c, rules), Fresh(q, d, rules);
      Pair(p, c, q, d, rules) ==
        if IsWorthShowing(r, rules) then [Merge(r, q, d)] else if IsWorthShowing(t, rules) then [t] else []
  {
    var r := Fresh(p, c, rules);
    if IsWorthShowing(r, rules) {
      assert AddOne([], p, c, rules) == [r];
      FindUnique([r], 0);
    }
  }

  lemma ImagePair(p: Payload, c: Context, q: Payload, d: Context, rules: Rules)
    requires p.url == q.url && p.kind == q.kind == Image
    requires !rules.noise(p.url) && !("blob:" <= p.url) && !("data:" <= p.url)
    ensures var first, second := Pair(p, c, q, d, rules), Pair(q, d, p, c, rules);
      && |first| == |second| <= 1
      && (|first| == 1 ==> (first[0].confidence != second[0].confidence <==> Clash(p, q)))
  {
    PairIs(p, c, q, d, rules);
    PairIs(q, d, p, c, rules);
    if p.isAttachment {
    } else {
    }
  }

  lemma OtherPair(p: Payload, c: Context, q: Payload, d: Context, rules: Rules)
    requires p.url == q.url && p.kind == q.kind && p.kind != Other && p.kind != Image
    requires !rules.noise(p.url) && !("blob:" <= p.url) && !("data:" <= p.url)
    ensures var first, second := Pair(p, c, q, d, rules), Pair(q, d, p, c, rules);
      && |first| == |second| <= 1
      && (|first| == 1 ==> (first[0].confidence != second[0].confidence <==> Clash(p, q)))
  {
    PairIs(p, c, q, d, rules);
    PairIs(q, d, p, c, rules);
    if p.isAttachment {
    } else if q.isAttachment {
    } else if p.kind.Document? || p.kind.Archive? {
      assert Threshold(p.kind) == -1;
    } else {
    }
  }

  /** Two sightings of one resource, of one kind: whether it is listed does not depend on their order,
      and its rating does exactly if they clash. */
  lemma OrderMattersIff(p: Payload, c: Context, q: Payload, d: Context, rules: Rules)
    requires p.url == q.url && p.kind == q.kind && !p.kind.Other?
    requires !rules.noise(p.url) && !("blob:" <= p.url) && !("data:" <= p.url)
    ensures var first, second := Pair(p, c, q, d, rules), Pair(q, d, p, c, rules);
      && |first| == |second| <= 1
      && (|first| == 1 ==> (first[0].confidence != second[0].confidence <==> Clash(p, q)))
  {
    if p.kind.Image? {
      ImagePair(p, c, q, d, rules);
    } else {
      OtherPair(p, c, q, d, rules);
    }
  }

  /** A document first seen without its size stays medium, the same two sightings the other way round
      leave it low. */
  lemma OrderMatters(p: Payload, c: Context, rules: Rules)
    requires p.kind.Document? && !p.isAttachment && !rules.noise(p.url) && !("blob:" <= p.url) && !("data:" <= p.url)
    ensures var sized := p.(size := Some(1000));
      var bare := p.(size := None);
      var first, second := Pair(bare, c, sized, c, rules), Pair(sized, c, bare, c, rules);
      && |first| == 1 && first[0].confidence == Medium && first[0].size == 1000
      && |second| == 1 && second[0].confidence == Low && second[0].size == 1000
  {
    PairIs(p.(size := None), c, p.(size := Some(1000)), c, rules);
    PairIs(p.(size := Some(1000)), c, p.(size := None), c, rules);
  }

  /** A tiny image sent as an attachment is not listed, but raises one that is listed already. */
  lemma TinyAttachmentRaises(p: Payload, c: Context, rules: Rules)
    requires p.kind.Image? && TinyAttachment(p) && !rules.noise(p.url) && !("blob:" <= p.url) && !("data:" <= p.url)
    ensures var plain := p.(size := None, isAttachment := false);
      var first, second := Pair(p, c, plain, c, rules), Pair(plain, c, p, c, rules);
      |first| == |second| == 1 && first[0].confidence == Low && second[0].confidence == High
  {
    PairIs(p, c, p.(size := None, isAttachment := false), c, rules);
    PairIs(p.(size := None, isAttachment := false), c, p, c, rules);
  }

  // ---------- the listing ----------

  function Place(r: Resource, s: seq<Resource>): seq<Resource> {
    if s == [] || !Worse(r, s[0]) then [r] + s else [s[0]] + Place(r, s[1..])
  }

  /** The stable sort: best first. */
  function Listing(tab: Tab): seq<Resource> {
    if tab == [] then [] else Place(tab[0], Listing(tab[1..]))
  }

  predicate BestFirst(s: seq<Resource>) {
    forall i, j :: 0 <= i < j < |s| ==> !Worse(s[i], s[j])
  }

  /** The entries of one rating and time, in order. */
  function Alike(s: seq<Resource>, c: Confidence, at: int): seq<Resource> {
    if s == [] then []
    else (if s[0].confidence == c && s[0].detectedAt == at then [s[0]] else []) + Alike(s[1..], c, at)
  }

  lemma PlaceLater(r: Resource, s: seq<Resource>, k: nat)
    requires k < |s| && Worse(r, s[k])
    ensures s[..k] + Place(r, s[k..]) == s[..k + 1] + Place(r, s[k + 1..])
  {
    assert s[k..][1..] == s[k + 1..];
    assert Place(r, s[k..]) == [s[k]] + Place(r, s[k + 1..]);
  }

  lemma PlaceHere(r: Resource, s: seq<Resource>, k: nat)
    requires k <= |s| && (k < |s| ==> !Worse(r, s[k]))
    ensures s[..k] + Place(r, s[k..]) == s[..k] + [r] + s[k..]
  {
    assert Place(r, s[k..]) == [r] + s[k..];
  }

  lemma {:induction false} PlaceHolds(r: Resource, s: seq<Resource>)
    ensures multiset(Place(r, s)) == multiset(s) + multiset{r}
  {
    if s == [] || !Worse(r, s[0]) {
    } else {
      PlaceHolds(r, s[1..]);
      assert s == [s[0]] + s[1..];
    }
  }

  lemma {:induction false} PlaceSorts(r: Resource, s: seq<Resource>)
    requires BestFirst(s)
    ensures BestFirst(Place(r, s))
  {
    if s == [] {
    } else if !Worse(r, s[0]) {
      assert forall j :: 0 <= j < |s| ==> !Worse(s[0], s[j]) || j == 0;
      assert forall j :: 0 <= j < |s| ==> !Worse(r, s[j]);
    } else {
      var rest := Place(r, s[1..]);
      PlaceSorts(r, s[1..]);
      PlaceHolds(r, s[1..]);
      forall j | 0 <= j < |rest| ensures !Worse(s[0], rest[j]) {
        assert rest[j] in multiset(rest);
        if rest[j] != r {
          assert rest[j] in s[1..];
        }
      }
    }
  }

  lemma {:induction false} PlaceAlike(r: Resource, s: seq<Resource>, c: Confidence, at: int)
    ensures Alike(Place(r, s), c, at) == (if r.confidence == c && r.detectedAt == at then [r] else []) + Alike(s, c, at)
  {
    if s == [] || !Worse(r, s[0]) {
      assert ([r] + s)[1..] == s;
    } else {
      var rest := Place(r, s[1..]);
      PlaceAlike(r, s[1..], c, at);
      assert ([s[0]] + rest)[1..] == rest;
    }
  }

  /** The listing holds every entry once, the best first. */
  lemma {:induction false} ListingIsSorted(tab: Tab)
    ensures BestFirst(Listing(tab)) && multiset(Listing(tab)) == multiset(tab)
  {
    if tab != [] {
      ListingIsSorted(tab[1..]);
      PlaceSorts(tab[0], Listing(tab[1..]));
      PlaceHolds(tab[0], Listing(tab[1..]));
      assert tab == [tab[0]] + tab[1..];
    }
  }

  /** High before medium before low, and the later first among those that are rated alike. */
  lemma HighComesFirst(tab: Tab, i: nat, j: nat)
    requires i < j < |Listing(tab)|
    ensures var a, b := Listing(tab)[i], Listing(tab)[j];
      && (b.confidence == High ==> a.confidence == High) && (a.confidence == Low ==> b.confidence == Low)
      && (a.confidence == b.confidence ==> a.detectedAt >= b.detectedAt)
  {
    ListingIsSorted(tab);
    assert !Worse(Listing(tab)[i], Listing(tab)[j]);
  }

  /** Entries of one rating and time are listed in the order they came. */
  lemma {:induction false} ListingIsStable(tab: Tab, c: Confidence, at: int)
    ensures Alike(Listing(tab), c, at) == Alike(tab, c, at)
  {
    if tab != [] {
      ListingIsStable(tab[1..], c, at);
      PlaceAlike(tab[0], Listing(tab[1..]), c, at);
    }
  }

  /** What a full tab gives up is as bad as the last line of its listing. */
  lemma EvictedRanksLast(tab: Tab)
    requires tab != []
    ensures Listing(tab) != []
    ensures var last := Listing(tab)[|Listing(tab)| - 1];
      last.confidence == tab[Victim(tab)].confidence && last.detectedAt == tab[Victim(tab)].detectedAt
  {
    ListingIsSorted(tab);
    SameElements(Listing(tab), tab, Victim(tab));
  }

  /** Of two arrangements of the same entries, one best first: its last entry and any entry that none
      is worse than agree in rating and time. */
  lemma SameElements(all: seq<Resource>, tab: Tab, v: nat)
    requires BestFirst(all) && multiset(all) == multiset(tab) && v < |tab|
    requires forall i :: 0 <= i < |tab| ==> !Worse(tab[i], tab[v])
    ensures all != []
    ensures var last := all[|all| - 1]; last.confidence == tab[v].confidence && last.detectedAt == tab[v].detectedAt
  {
    assert tab[v] in multiset(tab);
    assert tab[v] in multiset(all);
    var k :| 0 <= k < |all| && all[k] == tab[v];
    var last := all[|all| - 1];
    assert last in multiset(all);
    assert last in multiset(tab);
    var i :| 0 <= i < |tab| && tab[i] == last;
    assert !Worse(last, tab[v]);
    if k < |all| - 1 {
      assert !Worse(tab[v], last);
    }
  }

  // ---------- the store ----------

  class Store {
    var tabs: map<int, Tab>

    constructor ()
      ensures tabs == map[]
    {
      tabs := map[];
    }

    ghost predicate Valid(rules: Rules)
      reads this
    {
      forall t <- tabs :: TabOk(tabs[t], rules)
    }

    method EvictLowest(tab: Tab) returns (r: Tab)
      ensures r == Evict(tab)
    {
      if tab == [] {
        return tab;
      }
      var victim := 0;
      for i := 1 to |tab|
        invariant IsVictim(tab[..i], victim)
      {
        assert tab[..i + 1][..i] == tab[..i];
        if Rank(tab[i].confidence) < Rank(tab[victim].confidence)
          || (Rank(tab[i].confidence) == Rank(tab[victim].confidence) && tab[i].detectedAt < tab[victim].detectedAt) {
          victim := i;
        }
      }
      assert tab[..|tab|] == tab;
      VictimUnique(tab, victim, Victim(tab));
      r := tab[..victim] + tab[victim + 1..];
    }

    /** One turn of the loop over the payloads. */
    method AddPayload(tab: Tab, p: Payload, c: Context, rules: Rules) returns (r: Tab, added: nat)
      ensures r == AddOne(tab, p, c, rules) && added == if Adds(tab, p, c, rules) then 1 else 0
    {
      r, added := tab, 0;
      if rules.noise(p.url) {
        return;
      }
      var existing := Find(tab, rules.key(p.url));
      if existing.Some? {
        r := tab[existing.value := Merge(tab[existing.value], p, c)];
        return;
      }
      var resource := Fresh(p, c, rules);
      if IsWorthShowing(resource, rules) {
        if |tab| >= MAX_RESOURCES_PER_TAB {
          r := EvictLowest(tab);
        }
        r, added := r + [resource], 1;
      }
    }

    method AddPayloads(start: Tab, ss: seq<Sighting>, rules: Rules) returns (tab: Tab, newCount: nat)
      ensures tab == After(start, ss, rules) && newCount == CountAdds(start, ss, rules)
    {
      tab, newCount := start, 0;
      for i := 0 to |ss|
        invariant tab == After(start, ss[..i], rules)
        invariant newCount == CountAdds(start, ss[..i], rules)
      {
        assert ss[..i + 1][..i] == ss[..i];
        var next, added := AddPayload(tab, ss[i].payload, ss[i].context, rules);
        tab, newCount := next, newCount + added;
      }
      assert ss[..|ss|] == ss;
    }

    method AddResources(tabId: int, ss: seq<Sighting>, rules: Rules) returns (newCount: nat)
      requires Valid(rules)
      modifies this
      ensures Valid(rules)
      ensures tabs == old(tabs)[tabId := After(if tabId in old(tabs) then old(tabs)[tabId] else [], ss, rules)]
      ensures newCount == CountAdds(if tabId in old(tabs) then old(tabs)[tabId] else [], ss, rules)
    {
      var tab := if tabId in tabs then tabs[tabId] else [];
      EveryRunIsFiled(tab, ss, rules);
      tab, newCount := AddPayloads(tab, ss, rules);
      tabs := tabs[tabId := tab];
    }

    /** Puts an entry in its place in a sorted list, before those that rank the same. */
    method InsertSorted(r: Resource, s: seq<Resource>) returns (t: seq<Resource>)
      ensures t == Place(r, s)
    {
      var k := 0;
      assert s[..0] + Place(r, s[0..]) == Place(r, s) by {
        assert s[0..] == s;
      }
      while k < |s| && Worse(r, s[k])
        invariant k <= |s| && Place(r, s) == s[..k] + Place(r, s[k..])
      {
        PlaceLater(r, s, k);
        k := k + 1;
      }
      PlaceHere(r, s, k);
      t := s[..k] + [r] + s[k..];
    }

    method GetResourcesForTab(tabId: int) returns (r: seq<Resource>)
      ensures tabId !in tabs ==> r == []
      ensures tabId in tabs ==>
        && BestFirst(r) && multiset(r) == multiset(tabs[tabId])
        && forall c: Confidence, at: int :: Alike(r, c, at) == Alike(tabs[tabId], c, at)
    {
      r := [];
      if tabId in tabs {
        var tab := tabs[tabId];
        for i := |tab| downto 0
          invariant r == Listing(tab[i..])
        {
          assert tab[i..][0] == tab[i] && tab[i..][1..] == tab[i + 1..];
          r := InsertSorted(tab[i], r);
        }
        assert tab[0..] == tab;
        ListingIsSorted(tab);
        forall c: Confidence, at: int ensures Alike(r, c, at) == Alike(tab, c, at) {
          ListingIsStable(tab, c, at);
        }
      }
    }

    method ClearResourcesForTab(tabId: int)
      modifies this
      ensures tabs == old(tabs) - {tabId}
    {
      tabs := tabs - {tabId};
    }
  }
}
