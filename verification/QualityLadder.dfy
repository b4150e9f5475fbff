/** The yt-dlp plugin's choice of qualities: the best audio track, the best video at or below a
    height, and the ladder of variants built from them. */
module QualityLadder {
  import opened Prelude

  /** An entry of the format list. `present` is false for a null entry and for one without a URL;
      missing rates and sizes are 0, a missing extension is empty, an unknown height is 0. */
  datatype Format = Format(
    present: bool, url: string, hasAudio: bool, hasVideo: bool, ext: string,
    abr: real, tbr: real, size: real, height: nat)

  datatype Variant = Variant(url: string, audioUrl: string, bytes: real, height: nat, container: string)

  const VARIANT_HEIGHT_TIERS: seq<nat> := [2160, 1440, 1080, 720, 480]
  const MAX_VARIANTS := 10

  // ---------- scores ----------

  function LowerChar(c: char): char {
    if 'A' <= c <= 'Z' then c - 'A' + 'a' else c
  }

  function Lower(s: string): string {
    seq(|s|, i requires 0 <= i < |s| => LowerChar(s[i]))
  }

  function AudioScore(f: Format, preferMp4: bool, wantExt: Option<string>): Option<real> {
    if !f.present || !f.hasAudio || f.hasVideo then None
    else if wantExt.Some? && Lower(f.ext) != wantExt.value then None
    else
      Some((if f.abr != 0.0 then f.abr else f.tbr) * 1000.0 + f.size / 1000000.0
           + (if wantExt.None? && preferMp4 && f.ext == "m4a" then 1000000000.0 else 0.0))
  }

  function VideoScore(f: Format, target: nat, preferMp4: bool, needMuxedAudio: bool): Option<real> {
    if !f.present || !f.hasVideo || f.height == 0 || f.height > target || (needMuxedAudio && !f.hasAudio) then None
    else Some(f.height as real * 1000000.0 + f.tbr + (if preferMp4 && f.ext == "mp4" then 1000000000000.0 else 0.0))
  }

  type Scores = seq<Option<real>>

  function AudioScores(formats: seq<Format>, preferMp4: bool, wantExt: Option<string>): (s: Scores)
    ensures |s| == |formats|
  {
    if formats == [] then []
    else
      AudioScores(formats[..|formats| - 1], preferMp4, wantExt)
      + [AudioScore(formats[|formats| - 1], preferMp4, wantExt)]
  }

  function VideoScores(formats: seq<Format>, target: nat, preferMp4: bool, needMuxedAudio: bool): (s: Scores)
    ensures |s| == |formats|
  {
    if formats == [] then []
    else
      VideoScores(formats[..|formats| - 1], target, preferMp4, needMuxedAudio)
      + [VideoScore(formats[|formats| - 1], target, preferMp4, needMuxedAudio)]
  }

  lemma {:induction false} AudioScoresAre(formats: seq<Format>, preferMp4: bool, wantExt: Option<string>)
    ensures forall i :: 0 <= i < |formats| ==>
      AudioScores(formats, preferMp4, wantExt)[i] == AudioScore(formats[i], preferMp4, wantExt)
  {
    if formats != [] {
      AudioScoresAre(formats[..|formats| - 1], preferMp4, wantExt);
    }
  }

  lemma {:induction false} VideoScoresAre(formats: seq<Format>, target: nat, preferMp4: bool, needMuxedAudio: bool)
    ensures forall i :: 0 <= i < |formats| ==>
      VideoScores(formats, target, preferMp4, needMuxedAudio)[i]
        == VideoScore(formats[i], target, preferMp4, needMuxedAudio)
  {
    if formats != [] {
      VideoScoresAre(formats[..|formats| - 1], target, preferMp4, needMuxedAudio);
    }
  }

  // ---------- the first best ----------

  /** The running best starts at -1, so a score must beat that. */
  predicate Counts(x: Option<real>) {
    x.Some? && x.value > -1.0
  }

  predicate IsFirstBest(s: Scores, b: Option<nat>) {
    match b
    case None => forall i :: 0 <= i < |s| ==> !Counts(s[i])
    case Some(k) =>
      && k < |s| && Counts(s[k])
      && (forall i :: 0 <= i < |s| && Counts(s[i]) ==> s[i].value <= s[k].value)
      && (forall i :: 0 <= i < k && Counts(s[i]) ==> s[i].value < s[k].value)
  }

  function FirstBest(s: Scores): (b: Option<nat>)
    ensures b.Some? ==> b.value < |s| && s[b.value].Some?
  {
    if s == [] then None
    else
      var last := |s| - 1;
      var b := FirstBest(s[..last]);
      if Counts(s[last]) && (b.None? || s[last].value > s[b.value].value) then Some(last) else b
  }

  lemma {:induction false} FirstBestIs(s: Scores)
    ensures IsFirstBest(s, FirstBest(s))
  {
    if s != [] {
      var last := |s| - 1;
      FirstBestIs(s[..last]);
      assert forall i :: 0 <= i < last ==> s[..last][i] == s[i];
    }
  }

  lemma FirstBestUnique(s: Scores, a: Option<nat>, b: Option<nat>)
    requires IsFirstBest(s, a) && IsFirstBest(s, b)
    ensures a == b
  {
  }

  /** The first best of all is still the first best of any part it belongs to. */
  lemma NestedBest(s: Scores, part: Scores)
    requires |part| == |s| && forall i :: 0 <= i < |s| ==> part[i] == None || part[i] == s[i]
    requires FirstBest(s).Some? ==> part[FirstBest(s).value] == s[FirstBest(s).value]
    ensures FirstBest(part) == FirstBest(s)
  {
    FirstBestIs(s);
    FirstBestIs(part);
    assert IsFirstBest(part, FirstBest(s));
    FirstBestUnique(part, FirstBest(part), FirstBest(s));
  }

  // ---------- the ladder ----------

  function AudioExtFor(videoExt: string): Option<string> {
    var e := Lower(videoExt);
    if e == "webm" then Some("webm") else if e == "mp4" || e == "m4v" || e == "mov" then Some("m4a") else None
  }

  function BestAudio(formats: seq<Format>, preferMp4: bool, wantExt: Option<string>): (b: Option<nat>)
    ensures b.Some? ==> b.value < |formats|
  {
    FirstBest(AudioScores(formats, preferMp4, wantExt))
  }

  function BestVideo(formats: seq<Format>, target: nat, preferMp4: bool): (b: Option<nat>)
    ensures b.Some? ==> b.value < |formats|
  {
    FirstBest(VideoScores(formats, target, preferMp4, BestAudio(formats, preferMp4, None).None?))
  }

  function Container(f: Format): string {
    if f.ext != "" then f.ext else "mp4"
  }

  /** The audio track a video-only format is paired with. */
  function PairAudio(formats: seq<Format>, preferMp4: bool, f: Format): (b: Option<nat>)
    ensures b.Some? ==> b.value < |formats|
  {
    var matching := BestAudio(formats, preferMp4, AudioExtFor(Container(f)));
    if f.hasAudio then None else if matching.Some? then matching else BestAudio(formats, preferMp4, None)
  }

  function VideoVariant(formats: seq<Format>, preferMp4: bool, f: Format): Variant {
    var pair := PairAudio(formats, preferMp4, f);
    Variant(f.url, if pair.Some? then formats[pair.value].url else "",
      f.size + (if pair.Some? then formats[pair.value].size else 0.0), f.height, Container(f))
  }

  /** What a tier contributes, given the heights already listed. */
  function Rung(formats: seq<Format>, preferMp4: bool, tier: nat, seen: set<nat>): (r: Option<Format>)
    ensures r.Some? ==> r.value.height !in seen
  {
    var best := BestVideo(formats, tier, preferMp4);
    if best.None? || formats[best.value].height in seen then None else Some(formats[best.value])
  }

  /** The loop's state: the formats chosen, the list they make, the heights listed. */
  datatype Progress = Progress(rungs: seq<Format>, list: seq<Variant>, seen: set<nat>)

  function Climb(formats: seq<Format>, preferMp4: bool, p: Progress, tier: nat): Progress {
    var rung := Rung(formats, preferMp4, tier, p.seen);
    if rung.None? then p
    else
      var f := rung.value;
      Progress(p.rungs + [f], p.list + [VideoVariant(formats, preferMp4, f)], p.seen + {f.height})
  }

  /** The state after the first `n` tiers. */
  function After(formats: seq<Format>, preferMp4: bool, tiers: seq<nat>, default: Variant, n: nat): Progress
    requires n <= |tiers|
  {
    if n == 0 then Progress([], [default], Seen(default))
    else Climb(formats, preferMp4, After(formats, preferMp4, tiers, default, n - 1), tiers[n - 1])
  }

  function AudioVariant(f: Format): Variant {
    Variant(f.url, "", f.size, 0, if f.ext != "" then f.ext else "m4a")
  }

  function Seen(default: Variant): set<nat> {
    if default.height != 0 then {default.height} else {}
  }

  function Ladder(formats: seq<Format>, preferMp4: bool, default: Variant): Progress {
    After(formats, preferMp4, VARIANT_HEIGHT_TIERS, default, |VARIANT_HEIGHT_TIERS|)
  }

  function Variants(formats: seq<Format>, preferMp4: bool, default: Variant, audioOnly: bool): seq<Variant> {
    var audio := BestAudio(formats, preferMp4, None);
    Ladder(formats, preferMp4, default).list
    + (if audio.Some? && !audioOnly then [AudioVariant(formats[audio.value])] else [])
  }

  // ---------- what the ladder is ----------

  lemma BestVideoFits(formats: seq<Format>, target: nat, preferMp4: bool)
    ensures var b := BestVideo(formats, target, preferMp4);
      b.Some? ==> 0 < formats[b.value].height <= target
  {
    var b, need := BestVideo(formats, target, preferMp4), BestAudio(formats, preferMp4, None).None?;
    VideoScoresAre(formats, target, preferMp4, need);
  }

  /** Lowering the tier either keeps the choice or moves strictly below it. */
  lemma LowerTier(formats: seq<Format>, high: nat, low: nat, preferMp4: bool)
    requires low <= high
    ensures var a, b := BestVideo(formats, high, preferMp4), BestVideo(formats, low, preferMp4);
      && (a.None? ==> b.None?)
      && (a.Some? && formats[a.value].height <= low ==> b == a)
      && (a.Some? && b.Some? ==> b == a || formats[b.value].height <= low < formats[a.value].height)
  {
    var need := BestAudio(formats, preferMp4, None).None?;
    var s, part := VideoScores(formats, high, preferMp4, need), VideoScores(formats, low, preferMp4, need);
    VideoScoresAre(formats, high, preferMp4, need);
    VideoScoresAre(formats, low, preferMp4, need);
    var a := FirstBest(s);
    BestVideoFits(formats, high, preferMp4);
    BestVideoFits(formats, low, preferMp4);
    if a.None? || formats[a.value].height <= low {
      NestedBest(s, part);
    }
  }

  predicate Falling(tiers: seq<nat>) {
    forall i, j :: 0 <= i < j < |tiers| ==> tiers[i] >= tiers[j]
  }

  /** A format chosen for one tier is what any lower tier would choose, or higher than that. */
  lemma {:induction false} RungDominates(formats: seq<Format>, preferMp4: bool, tiers: seq<nat>, default: Variant,
                                         n: nat, k: nat, low: nat)
    requires Falling(tiers) && 0 < n <= |tiers| && low <= tiers[n - 1]
    requires k < |After(formats, preferMp4, tiers, default, n).rungs|
    ensures var f, b := After(formats, preferMp4, tiers, default, n).rungs[k], BestVideo(formats, low, preferMp4);
      b.Some? ==> formats[b.value] == f || formats[b.value].height < f.height
  {
    var before := After(formats, preferMp4, tiers, default, n - 1);
    if k < |before.rungs| {
      RungDominates(formats, preferMp4, tiers, default, n - 1, k, low);
    } else {
      LowerTier(formats, tiers[n - 1], low, preferMp4);
    }
  }

  predicate Descending(rungs: seq<Format>) {
    forall i, j :: 0 <= i < j < |rungs| ==> rungs[i].height > rungs[j].height
  }

  predicate Fresh(p: Progress, default: Variant) {
    forall i :: 0 <= i < |p.rungs| ==> 0 < p.rungs[i].height != default.height && p.rungs[i].height in p.seen
  }

  lemma PushRung(p: Progress, f: Format, default: Variant, v: Variant)
    requires Descending(p.rungs) && Fresh(p, default) && Seen(default) <= p.seen
    requires forall k :: 0 <= k < |p.rungs| ==> f.height < p.rungs[k].height
    requires 0 < f.height && f.height !in p.seen
    ensures var q := Progress(p.rungs + [f], p.list + [v], p.seen + {f.height});
      Descending(q.rungs) && Fresh(q, default) && Seen(default) <= q.seen
  {
  }

  /** Over falling tiers the heights chosen fall strictly and avoid the default's. */
  lemma {:induction false} LadderDescends(
    formats: seq<Format>, preferMp4: bool, tiers: seq<nat>, default: Variant, n: nat)
    requires Falling(tiers) && n <= |tiers|
    ensures var p := After(formats, preferMp4, tiers, default, n);
      Descending(p.rungs) && Fresh(p, default) && Seen(default) <= p.seen
  {
    if n > 0 {
      var p, tier := After(formats, preferMp4, tiers, default, n - 1), tiers[n - 1];
      LadderDescends(formats, preferMp4, tiers, default, n - 1);
      BestVideoFits(formats, tier, preferMp4);
      var rung := Rung(formats, preferMp4, tier, p.seen);
      if rung.Some? {
        forall k | 0 <= k < |p.rungs| ensures rung.value.height < p.rungs[k].height {
          RungDominates(formats, preferMp4, tiers, default, n - 1, k, tier);
        }
        PushRung(p, rung.value, default, VideoVariant(formats, preferMp4, rung.value));
      }
    }
  }

  /** A listed format can be heard: it carries its own audio, or a track is paired with it, of the
      container that fits whenever the list has one. */
  predicate Audible(formats: seq<Format>, preferMp4: bool, f: Format) {
    var pair := PairAudio(formats, preferMp4, f);
    f.hasAudio || (
      && pair.Some?
      && var t := formats[pair.value];
      && t.present && t.hasAudio && !t.hasVideo
      && (AudioExtFor(Container(f)).Some?
          && (exists i :: 0 <= i < |formats| && Counts(AudioScore(formats[i], preferMp4, AudioExtFor(Container(f)))))
          ==> Lower(t.ext) == AudioExtFor(Container(f)).value))
  }

  lemma BestVideoAudible(formats: seq<Format>, target: nat, preferMp4: bool)
    ensures var b := BestVideo(formats, target, preferMp4);
      b.Some? ==> Audible(formats, preferMp4, formats[b.value])
  {
    var b := BestVideo(formats, target, preferMp4);
    if b.Some? && !formats[b.value].hasAudio {
      var f := formats[b.value];
      var any := BestAudio(formats, preferMp4, None);
      var need := any.None?;
      VideoScoresAre(formats, target, preferMp4, need);
      assert any.Some?;
      AudioScoresAre(formats, preferMp4, None);
      AudioScoresAre(formats, preferMp4, AudioExtFor(Container(f)));
      FirstBestIs(AudioScores(formats, preferMp4, AudioExtFor(Container(f))));
    }
  }

  /** Every chosen format is one of the list, has sound, and makes the entry after the one before it. */
  lemma {:induction false} LadderAudible(
    formats: seq<Format>, preferMp4: bool, tiers: seq<nat>, default: Variant, n: nat)
    requires n <= |tiers|
    ensures var p := After(formats, preferMp4, tiers, default, n);
      && |p.rungs| <= n && |p.list| == |p.rungs| + 1 && p.list[0] == default
      && forall i :: 0 <= i < |p.rungs| ==>
        && p.rungs[i] in formats && Audible(formats, preferMp4, p.rungs[i])
        && p.list[i + 1] == VideoVariant(formats, preferMp4, p.rungs[i])
  {
    if n > 0 {
      LadderAudible(formats, preferMp4, tiers, default, n - 1);
      BestVideoAudible(formats, tiers[n - 1], preferMp4);
    }
  }

  predicate Listed(rungs: seq<Format>, default: Variant, height: nat) {
    height == default.height || exists i :: 0 <= i < |rungs| && rungs[i].height == height
  }

  lemma ListedStays(rungs: seq<Format>, f: Format, default: Variant, height: nat)
    requires Listed(rungs, default, height) || height == f.height
    ensures Listed(rungs + [f], default, height)
  {
    if height == f.height {
      assert (rungs + [f])[|rungs|].height == height;
    } else if height != default.height {
      var i :| 0 <= i < |rungs| && rungs[i].height == height;
      assert (rungs + [f])[i].height == height;
    }
  }

  lemma {:induction false} SeenIsListed(formats: seq<Format>, preferMp4: bool, tiers: seq<nat>, default: Variant,
                                        n: nat, h: nat)
    requires n <= |tiers| && h in After(formats, preferMp4, tiers, default, n).seen
    ensures Listed(After(formats, preferMp4, tiers, default, n).rungs, default, h)
  {
    if n > 0 {
      var p := After(formats, preferMp4, tiers, default, n - 1);
      var rung := Rung(formats, preferMp4, tiers[n - 1], p.seen);
      if h in p.seen {
        SeenIsListed(formats, preferMp4, tiers, default, n - 1, h);
      }
      if rung.Some? {
        ListedStays(p.rungs, rung.value, default, h);
      }
    }
  }

  lemma ClimbSees(formats: seq<Format>, preferMp4: bool, p: Progress, tier: nat)
    ensures p.seen <= Climb(formats, preferMp4, p, tier).seen
    ensures var b := BestVideo(formats, tier, preferMp4);
      b.Some? ==> formats[b.value].height in Climb(formats, preferMp4, p, tier).seen
  {
  }

  lemma {:induction false} TierIsSeen(formats: seq<Format>, preferMp4: bool, tiers: seq<nat>, default: Variant,
                                      n: nat, j: nat)
    requires j < n <= |tiers|
    ensures var b := BestVideo(formats, tiers[j], preferMp4);
      b.Some? ==> formats[b.value].height in After(formats, preferMp4, tiers, default, n).seen
  {
    ClimbSees(formats, preferMp4, After(formats, preferMp4, tiers, default, n - 1), tiers[n - 1]);
    if j < n - 1 {
      TierIsSeen(formats, preferMp4, tiers, default, n - 1, j);
    }
  }

  /** The ladder leaves nothing out: the height chosen for each of the tiers is the default's or that of
      an entry. */
  lemma EveryTierIsListed(formats: seq<Format>, preferMp4: bool, default: Variant, audioOnly: bool, tier: nat)
    requires tier in {2160, 1440, 1080, 720, 480}
    ensures var b, list := BestVideo(formats, tier, preferMp4), Variants(formats, preferMp4, default, audioOnly);
      b.Some? ==>
        || formats[b.value].height == default.height
        || exists i :: 1 <= i < |list| && list[i].height == formats[b.value].height
  {
    var tiers := VARIANT_HEIGHT_TIERS;
    var j := if tier == 2160 then 0 else if tier == 1440 then 1 else if tier == 1080 then 2 else if tier == 720 then 3
             else 4;
    assert tiers[j] == tier;
    var b := BestVideo(formats, tier, preferMp4);
    TierIsSeen(formats, preferMp4, tiers, default, |tiers|, j);
    if b.Some? && formats[b.value].height != default.height {
      var p := Ladder(formats, preferMp4, default);
      SeenIsListed(formats, preferMp4, tiers, default, |tiers|, formats[b.value].height);
      var i :| 0 <= i < |p.rungs| && p.rungs[i].height == formats[b.value].height;
      LadderAudible(formats, preferMp4, tiers, default, |tiers|);
      assert Variants(formats, preferMp4, default, audioOnly)[i + 1] == VideoVariant(formats, preferMp4, p.rungs[i]);
    }
  }

  /** A format is what a tier would choose. */
  predicate Chosen(formats: seq<Format>, preferMp4: bool, tier: nat, f: Format) {
    var b := BestVideo(formats, tier, preferMp4);
    b.Some? && formats[b.value] == f
  }

  lemma ClimbAt(formats: seq<Format>, preferMp4: bool, p: Progress, tier: nat, k: nat)
    requires k < |Climb(formats, preferMp4, p, tier).rungs|
    ensures var f := Climb(formats, preferMp4, p, tier).rungs[k];
      if k < |p.rungs| then f == p.rungs[k] else Chosen(formats, preferMp4, tier, f)
  {
  }

  /** And it makes nothing up: a format listed was some tier's choice. */
  lemma {:induction false} EveryRungIsChosen(formats: seq<Format>, preferMp4: bool, tiers: seq<nat>, default: Variant,
                                             n: nat, k: nat)
    requires n <= |tiers| && k < |After(formats, preferMp4, tiers, default, n).rungs|
    ensures var f := After(formats, preferMp4, tiers, default, n).rungs[k];
      exists j :: 0 <= j < n && Chosen(formats, preferMp4, tiers[j], f)
  {
    if n > 0 {
      var p := After(formats, preferMp4, tiers, default, n - 1);
      ClimbAt(formats, preferMp4, p, tiers[n - 1], k);
      if k < |p.rungs| {
        EveryRungIsChosen(formats, preferMp4, tiers, default, n - 1, k);
      }
    }
  }

  /** A list of `n` video entries after the default: they fall strictly in height, have a height,
      and it is not the default's; at most one entry follows them, without a height. */
  predicate IsLadder(vs: seq<Variant>, n: nat, default: Variant) {
    && n + 1 <= |vs| <= n + 2
    && vs[0] == default
    && (forall i :: 1 <= i <= n ==> 0 < vs[i].height != default.height)
    && (forall i, j :: 1 <= i < j <= n ==> vs[i].height > vs[j].height)
    && (|vs| == n + 2 ==> vs[n + 1].height == 0)
  }

  lemma RungsMakeLadder(p: Progress, default: Variant, tail: seq<Variant>)
    requires Descending(p.rungs) && Fresh(p, default)
    requires |p.list| == |p.rungs| + 1 && p.list[0] == default
    requires forall i :: 0 <= i < |p.rungs| ==> p.list[i + 1].height == p.rungs[i].height
    requires |tail| <= 1 && (tail != [] ==> tail[0].height == 0)
    ensures IsLadder(p.list + tail, |p.rungs|, default)
  {
    var vs := p.list + tail;
    forall i | 1 <= i <= |p.rungs| ensures vs[i].height == p.rungs[i - 1].height {
      assert p.list[(i - 1) + 1].height == p.rungs[i - 1].height;
    }
  }

  lemma BestAudioIff(formats: seq<Format>, preferMp4: bool)
    ensures BestAudio(formats, preferMp4, None).Some? <==> exists f <- formats :: Counts(AudioScore(f, preferMp4, None))
  {
    var s := AudioScores(formats, preferMp4, None);
    AudioScoresAre(formats, preferMp4, None);
    FirstBestIs(s);
    if f :| f in formats && Counts(AudioScore(f, preferMp4, None)) {
      var i :| 0 <= i < |formats| && formats[i] == f;
      assert Counts(s[i]);
    }
  }

  lemma TiersFall()
    ensures Falling(VARIANT_HEIGHT_TIERS) && |VARIANT_HEIGHT_TIERS| == 5
  {
  }

  /** The list a user chooses from: the default first, then at most five video entries of strictly
      falling heights, none of them the default's, then an audio entry if there is a track and the
      default is not one already; so one to seven entries, and the limit of ten never cuts any off. */
  lemma VariantsAreALadder(formats: seq<Format>, preferMp4: bool, default: Variant, audioOnly: bool)
    ensures var n := |Ladder(formats, preferMp4, default).rungs|;
      && n <= 5 && IsLadder(Variants(formats, preferMp4, default, audioOnly), n, default)
      && (|Variants(formats, preferMp4, default, audioOnly)| == n + 2 <==>
            !audioOnly && exists f <- formats :: Counts(AudioScore(f, preferMp4, None)))
    ensures 1 <= |Variants(formats, preferMp4, default, audioOnly)| < MAX_VARIANTS
  {
    var tiers := VARIANT_HEIGHT_TIERS;
    TiersFall();
    LadderAudible(formats, preferMp4, tiers, default, |tiers|);
    LadderDescends(formats, preferMp4, tiers, default, |tiers|);
    var audio := BestAudio(formats, preferMp4, None);
    BestAudioIff(formats, preferMp4);
    var tail := if audio.Some? && !audioOnly then [AudioVariant(formats[audio.value])] else [];
    RungsMakeLadder(Ladder(formats, preferMp4, default), default, tail);
  }

  /** The text is `lower`, which has no capitals, but for the case of its letters. */
  predicate Matches(s: string, lower: string) {
    && |s| == |lower|
    && forall i :: 0 <= i < |s| ==> s[i] == lower[i] || ('A' <= s[i] <= 'Z' && s[i] as int + 32 == lower[i] as int)
  }

  lemma LowerMatches(s: string, lower: string)
    requires forall c <- lower :: !('A' <= c <= 'Z')
    ensures Lower(s) == lower <==> Matches(s, lower)
  {
    if Lower(s) == lower {
      forall i | 0 <= i < |s| ensures s[i] == lower[i] || ('A' <= s[i] <= 'Z' && s[i] as int + 32 == lower[i] as int) {
        assert Lower(s)[i] == LowerChar(s[i]);
      }
    }
    if Matches(s, lower) {
      forall i | 0 <= i < |s| ensures Lower(s)[i] == lower[i] {
        assert lower[i] in lower;
      }
    }
  }

  predicate IsTrack(t: Format) {
    t.present && t.hasAudio && !t.hasVideo
  }

  /** The track's container is the one that can be joined with the video's without conversion. */
  predicate Fits(t: Format, container: string) {
    || (Matches(container, "webm") && Matches(t.ext, "webm"))
    || ((Matches(container, "mp4") || Matches(container, "m4v") || Matches(container, "mov")) && Matches(t.ext, "m4a"))
  }

  predicate Sensible(t: Format) {
    0.0 <= t.abr && 0.0 <= t.tbr && 0.0 <= t.size
  }

  lemma FitsIff(t: Format, container: string)
    ensures Fits(t, container) <==> AudioExtFor(container).Some? && Lower(t.ext) == AudioExtFor(container).value
  {
    LowerMatches(container, "webm");
    LowerMatches(container, "mp4");
    LowerMatches(container, "m4v");
    LowerMatches(container, "mov");
    LowerMatches(t.ext, "webm");
    LowerMatches(t.ext, "m4a");
  }

  /** An entry for a video-only format: its URL and size are the format's and a track's, which fits if one
      of the list does. */
  predicate Paired(formats: seq<Format>, f: Format, v: Variant, t: Format) {
    && IsTrack(t) && v.audioUrl == t.url && v.bytes == f.size + t.size
    && (Fits(t, v.container) || forall w <- formats :: IsTrack(w) && Sensible(w) ==> !Fits(w, v.container))
  }

  /** A video entry: a format of the list, with its own sound or paired with a track of the list. */
  predicate VideoEntry(formats: seq<Format>, f: Format, v: Variant) {
    && f.present && f.hasVideo && v.url == f.url && v.height == f.height
    && v.container == (if f.ext != "" then f.ext else "mp4")
    && if f.hasAudio then v.audioUrl == "" && v.bytes == f.size else exists t <- formats :: Paired(formats, f, v, t)
  }

  lemma BestAudioIsTrack(formats: seq<Format>, preferMp4: bool, wantExt: Option<string>)
    ensures var b := BestAudio(formats, preferMp4, wantExt);
      b.Some? ==> IsTrack(formats[b.value]) && (wantExt.Some? ==> Lower(formats[b.value].ext) == wantExt.value)
  {
    AudioScoresAre(formats, preferMp4, wantExt);
  }

  lemma SomeTrackIsFound(formats: seq<Format>, preferMp4: bool, wantExt: Option<string>, w: Format)
    requires w in formats && IsTrack(w) && Sensible(w) && (wantExt.Some? ==> Lower(w.ext) == wantExt.value)
    ensures BestAudio(formats, preferMp4, wantExt).Some?
  {
    var s := AudioScores(formats, preferMp4, wantExt);
    AudioScoresAre(formats, preferMp4, wantExt);
    FirstBestIs(s);
    var i :| 0 <= i < |formats| && formats[i] == w;
    assert Counts(s[i]);
  }

  lemma PairIsPaired(formats: seq<Format>, preferMp4: bool, f: Format)
    requires !f.hasAudio && PairAudio(formats, preferMp4, f).Some?
    ensures var t := formats[PairAudio(formats, preferMp4, f).value];
      Paired(formats, f, VideoVariant(formats, preferMp4, f), t)
  {
    var want := AudioExtFor(Container(f));
    var t := formats[PairAudio(formats, preferMp4, f).value];
    BestAudioIsTrack(formats, preferMp4, want);
    BestAudioIsTrack(formats, preferMp4, None);
    FitsIff(t, Container(f));
    if !Fits(t, Container(f)) {
      forall w | w in formats && IsTrack(w) && Sensible(w) ensures !Fits(w, Container(f)) {
        FitsIff(w, Container(f));
        if Fits(w, Container(f)) {
          SomeTrackIsFound(formats, preferMp4, want, w);
        }
      }
    }
  }

  lemma ChosenIsVideo(formats: seq<Format>, target: nat, preferMp4: bool)
    ensures var b := BestVideo(formats, target, preferMp4);
      b.Some? ==> formats[b.value].present && formats[b.value].hasVideo
  {
    VideoScoresAre(formats, target, preferMp4, BestAudio(formats, preferMp4, None).None?);
  }

  /** Every video entry of the list stands for a video format of the list, whose fields it has, and can be
      heard: it brings its own sound, or that of a track, of the fitting container if the list has one. */
  lemma VariantsHaveSound(formats: seq<Format>, preferMp4: bool, default: Variant, audioOnly: bool, i: nat)
    requires 1 <= i <= |Ladder(formats, preferMp4, default).rungs|
    ensures i < |Variants(formats, preferMp4, default, audioOnly)|
    ensures exists f <- formats :: VideoEntry(formats, f, Variants(formats, preferMp4, default, audioOnly)[i])
  {
    var tiers := VARIANT_HEIGHT_TIERS;
    LadderAudible(formats, preferMp4, tiers, default, |tiers|);
    var p := Ladder(formats, preferMp4, default);
    var f := p.rungs[i - 1];
    assert p.list[(i - 1) + 1] == VideoVariant(formats, preferMp4, f);
    EveryRungIsChosen(formats, preferMp4, tiers, default, |tiers|, i - 1);
    var j :| 0 <= j < |tiers| && Chosen(formats, preferMp4, tiers[j], f);
    ChosenIsVideo(formats, tiers[j], preferMp4);
    if !f.hasAudio {
      PairIsPaired(formats, preferMp4, f);
    }
    assert VideoEntry(formats, f, VideoVariant(formats, preferMp4, f));
  }

  /** The entry after them, if there is one, is a track of the list. */
  lemma LastEntryIsTrack(formats: seq<Format>, preferMp4: bool, default: Variant, audioOnly: bool)
    requires |Variants(formats, preferMp4, default, audioOnly)| == |Ladder(formats, preferMp4, default).rungs| + 2
    ensures var v := Variants(formats, preferMp4, default, audioOnly)[|Ladder(formats, preferMp4, default).rungs| + 1];
      exists t <- formats :: IsTrack(t)
        && v == Variant(t.url, "", t.size, 0, if t.ext != "" then t.ext else "m4a")
  {
    var tiers := VARIANT_HEIGHT_TIERS;
    LadderAudible(formats, preferMp4, tiers, default, |tiers|);
    BestAudioIsTrack(formats, preferMp4, None);
  }

  /** The rate by which tracks are compared: the audio rate, or the total one if that is unknown. */
  function RateOf(t: Format): real {
    if t.abr == 0.0 then t.tbr else t.abr
  }

  /** A track is never chosen over one that is its equal in rate and size and better in one of them, unless
      it is m4a, that is preferred, and the other is not. */
  lemma BestTrackIsNotOutdone(formats: seq<Format>, preferMp4: bool, wantExt: Option<string>, w: Format)
    requires w in formats && IsTrack(w) && Sensible(w) && (wantExt.Some? ==> Lower(w.ext) == wantExt.value)
    ensures var b := BestAudio(formats, preferMp4, wantExt);
      && b.Some?
      && var t := formats[b.value];
      && (wantExt.None? && preferMp4 && t.ext == "m4a" ==> w.ext == "m4a") ==>
           !(RateOf(t) <= RateOf(w) && t.size <= w.size && (RateOf(t) < RateOf(w) || t.size < w.size))
  {
    var s := AudioScores(formats, preferMp4, wantExt);
    SomeTrackIsFound(formats, preferMp4, wantExt, w);
    AudioScoresAre(formats, preferMp4, wantExt);
    FirstBestIs(s);
    var i :| 0 <= i < |formats| && formats[i] == w;
    assert Counts(s[i]) && s[i].value <= s[BestAudio(formats, preferMp4, wantExt).value].value;
  }

  /** With mp4 preferred an m4a track is chosen whenever there is one, at ordinary rates and sizes. */
  lemma M4aComesFirst(formats: seq<Format>, w: Format)
    requires forall t <- formats :: Sensible(t) && t.abr <= 100000.0 && t.tbr <= 100000.0 && t.size <= 100000000000000.0
    requires w in formats && IsTrack(w) && w.ext == "m4a"
    ensures var b := BestAudio(formats, true, None); b.Some? && formats[b.value].ext == "m4a"
  {
    var s := AudioScores(formats, true, None);
    SomeTrackIsFound(formats, true, None, w);
    AudioScoresAre(formats, true, None);
    FirstBestIs(s);
    var i :| 0 <= i < |formats| && formats[i] == w;
    assert Counts(s[i]) && s[i].value >= 1000000000.0;
    var t := formats[BestAudio(formats, true, None).value];
    assert t in formats;
  }

  // ---------- what "best" means ----------

  predicate Mp4(f: Format, preferMp4: bool) {
    preferMp4 && f.ext == "mp4"
  }

  /** The container first if mp4 is preferred, then the height, then the rate. */
  predicate Below(f: Format, g: Format, preferMp4: bool) {
    || (!Mp4(f, preferMp4) && Mp4(g, preferMp4))
    || (Mp4(f, preferMp4) == Mp4(g, preferMp4) && (f.height < g.height || (f.height == g.height && f.tbr < g.tbr)))
  }

  /** For rates under a million the score orders eligible formats lexicographically, and the mp4
      bonus outweighs any difference in height. */
  lemma ScoreIsLexicographic(f: Format, g: Format, target: nat, preferMp4: bool, needMuxedAudio: bool)
    requires target <= 2160 && 0.0 <= f.tbr < 1000000.0 && 0.0 <= g.tbr < 1000000.0
    requires VideoScore(f, target, preferMp4, needMuxedAudio).Some?
    requires VideoScore(g, target, preferMp4, needMuxedAudio).Some?
    ensures VideoScore(f, target, preferMp4, needMuxedAudio).value
          < VideoScore(g, target, preferMp4, needMuxedAudio).value
      <==> Below(f, g, preferMp4)
  {
  }

  predicate Eligible(formats: seq<Format>, f: Format, target: nat, preferMp4: bool) {
    f in formats && VideoScore(f, target, preferMp4, BestAudio(formats, preferMp4, None).None?).Some?
  }

  /** No eligible format is higher. */
  ghost predicate Nearest(formats: seq<Format>, g: Format, target: nat, preferMp4: bool) {
    forall f :: Eligible(formats, f, target, preferMp4) ==> f.height <= g.height
  }

  /** No eligible format's score is greater than that of the choice. */
  lemma ChoiceIsGreatest(formats: seq<Format>, target: nat, preferMp4: bool, f: Format)
    requires target <= 2160 && forall f <- formats :: 0.0 <= f.tbr < 1000000.0
    requires Eligible(formats, f, target, preferMp4)
    ensures var b := BestVideo(formats, target, preferMp4);
      b.Some? && Eligible(formats, formats[b.value], target, preferMp4) && !Below(formats[b.value], f, preferMp4)
  {
    var need := BestAudio(formats, preferMp4, None).None?;
    var s := VideoScores(formats, target, preferMp4, need);
    VideoScoresAre(formats, target, preferMp4, need);
    FirstBestIs(s);
    var k :| 0 <= k < |formats| && formats[k] == f;
    assert s[k] == VideoScore(f, target, preferMp4, need) && Counts(s[k]);
    var g := formats[BestVideo(formats, target, preferMp4).value];
    ScoreIsLexicographic(g, f, target, preferMp4, need);
  }

  /** Without a preference the choice for a tier is the nearest height at or below it. */
  lemma NearestHeight(formats: seq<Format>, target: nat, k: nat)
    requires target <= 2160 && forall f <- formats :: 0.0 <= f.tbr < 1000000.0
    requires k < |formats|
    requires VideoScore(formats[k], target, false, BestAudio(formats, false, None).None?).Some?
    ensures BestVideo(formats, target, false).Some?
    ensures formats[k].height <= formats[BestVideo(formats, target, false).value].height
  {
    ChoiceIsGreatest(formats, target, false, formats[k]);
  }

  /** With mp4 preferred the choice is still the nearest height exactly if no eligible format is an
      mp4, or some eligible mp4 has that height. */
  lemma NearestWithMp4Iff(formats: seq<Format>, target: nat)
    requires target <= 2160 && forall f <- formats :: 0.0 <= f.tbr < 1000000.0
    requires BestVideo(formats, target, true).Some?
    ensures Nearest(formats, formats[BestVideo(formats, target, true).value], target, true) <==>
      || (forall f :: Eligible(formats, f, target, true) ==> f.ext != "mp4")
      || (exists f :: Eligible(formats, f, target, true) && f.ext == "mp4" && Nearest(formats, f, target, true))
  {
    var g := formats[BestVideo(formats, target, true).value];
    VideoScoresAre(formats, target, true, BestAudio(formats, true, None).None?);
    assert Eligible(formats, g, target, true);
    forall f | Eligible(formats, f, target, true) ensures !Below(g, f, true) {
      ChoiceIsGreatest(formats, target, true, f);
    }
  }

  /** With mp4 preferred, a low mp4 displaces a much higher format of another container: the
      preference is not limited to equal conditions, as the comment has it. */
  lemma Mp4BeatsHeight(low: Format, high: Format)
    requires low.present && low.hasVideo && low.hasAudio && low.tbr == 0.0
    requires high.present && high.hasVideo && high.hasAudio && high.tbr == 0.0
    requires low.ext == "mp4" && low.height == 360 && high.ext == "webm" && high.height == 2160
    ensures BestVideo([high, low], 2160, true) == Some(1) && BestVideo([high, low], 2160, false) == Some(0)
  {
    var formats := [high, low];
    AudioScoresAre(formats, true, None);
    AudioScoresAre(formats, false, None);
    VideoScoresAre(formats, 2160, true, true);
    VideoScoresAre(formats, 2160, false, true);
    assert BestAudio(formats, true, None).None? && BestAudio(formats, false, None).None?;
    ScoreIsLexicographic(high, low, 2160, true, true);
    ScoreIsLexicographic(low, high, 2160, false, true);
    var t, f := VideoScores(formats, 2160, true, true), VideoScores(formats, 2160, false, true);
    FirstBestIs(t);
    FirstBestIs(f);
    assert IsFirstBest(t, Some(1));
    FirstBestUnique(t, FirstBest(t), Some(1));
    assert IsFirstBest(f, Some(0));
    FirstBestUnique(f, FirstBest(f), Some(0));
  }

  // ---------- the loops ----------

  method PickBestAudio(formats: seq<Format>, preferMp4: bool, wantExt: Option<string>) returns (best: Option<nat>)
    ensures best == BestAudio(formats, preferMp4, wantExt)
  {
    ghost var scores := AudioScores(formats, preferMp4, wantExt);
    AudioScoresAre(formats, preferMp4, wantExt);
    best := None;
    var bestScore := -1.0;
    for i := 0 to |formats|
      invariant IsFirstBest(scores[..i], best)
      invariant bestScore == if best.Some? then scores[best.value].value else -1.0
    {
      assert scores[..i + 1] == scores[..i] + [scores[i]];
      var f := formats[i];
      if !f.present || !f.hasAudio || f.hasVideo {
        continue;
      }
      if wantExt.Some? && Lower(f.ext) != wantExt.value {
        continue;
      }
      var score := (if f.abr != 0.0 then f.abr else f.tbr) * 1000.0 + f.size / 1000000.0;
      if wantExt.None? && preferMp4 && f.ext == "m4a" {
        score := score + 1000000000.0;
      }
      if score > bestScore {
        best, bestScore := Some(i), score;
      }
    }
    assert scores[..|formats|] == scores;
    FirstBestIs(scores);
    FirstBestUnique(scores, best, FirstBest(scores));
  }

  method PickVideoAtOrBelow(formats: seq<Format>, target: nat, preferMp4: bool, needMuxedAudio: bool)
    returns (best: Option<nat>)
    ensures best == FirstBest(VideoScores(formats, target, preferMp4, needMuxedAudio))
  {
    ghost var scores := VideoScores(formats, target, preferMp4, needMuxedAudio);
    VideoScoresAre(formats, target, preferMp4, needMuxedAudio);
    best := None;
    var bestScore := -1.0;
    for i := 0 to |formats|
      invariant IsFirstBest(scores[..i], best)
      invariant bestScore == if best.Some? then scores[best.value].value else -1.0
    {
      assert scores[..i + 1] == scores[..i] + [scores[i]];
      var f := formats[i];
      if !f.present || !f.hasVideo {
        continue;
      }
      if f.height == 0 || f.height > target {
        continue;
      }
      if needMuxedAudio && !f.hasAudio {
        continue;
      }
      var score := f.height as real * 1000000.0 + f.tbr;
      if preferMp4 && f.ext == "mp4" {
        score := score + 1000000000000.0;
      }
      if score > bestScore {
        best, bestScore := Some(i), score;
      }
    }
    assert scores[..|formats|] == scores;
    FirstBestIs(scores);
    FirstBestUnique(scores, best, FirstBest(scores));
  }

  method PairFor(formats: seq<Format>, preferMp4: bool, f: Format, bestAudio: Option<nat>) returns (pair: Option<nat>)
    requires bestAudio == BestAudio(formats, preferMp4, None)
    ensures pair == PairAudio(formats, preferMp4, f)
  {
    if f.hasAudio {
      return None;
    }
    pair := PickBestAudio(formats, preferMp4, AudioExtFor(Container(f)));
    if pair.None? {
      pair := bestAudio;
    }
  }

  /** The choice for one tier, and the entry it makes. For the formats that get this far the pairing
      never fails, so the branch that would drop a silent entry is dead. */
  method TierVariant(formats: seq<Format>, preferMp4: bool, tier: nat, seen: set<nat>, bestAudio: Option<nat>)
    returns (rung: Option<Format>, v: Variant)
    requires bestAudio == BestAudio(formats, preferMp4, None)
    ensures rung == Rung(formats, preferMp4, tier, seen)
    ensures rung.Some? ==> v == VideoVariant(formats, preferMp4, rung.value)
  {
    v := Variant("", "", 0.0, 0, "");
    var vf := PickVideoAtOrBelow(formats, tier, preferMp4, bestAudio.None?);
    if vf.None? {
      return None, v;
    }
    var f := formats[vf.value];
    if f.height in seen {
      return None, v;
    }
    var pair := PairFor(formats, preferMp4, f, bestAudio);
    BestVideoAudible(formats, tier, preferMp4);
    if !f.hasAudio && pair.None? {
      assert false;
    }
    rung := Some(f);
    v := Variant(f.url, if pair.Some? then formats[pair.value].url else "",
      f.size + (if pair.Some? then formats[pair.value].size else 0.0), f.height, Container(f));
  }

  method BuildLadder(formats: seq<Format>, preferMp4: bool, tiers: seq<nat>, default: Variant, bestAudio: Option<nat>)
    returns (list: seq<Variant>)
    requires bestAudio == BestAudio(formats, preferMp4, None) && |tiers| < MAX_VARIANTS
    ensures list == After(formats, preferMp4, tiers, default, |tiers|).list
  {
    list := [default];
    var seenHeights: set<nat> := Seen(default);
    var i := 0;
    ghost var p := After(formats, preferMp4, tiers, default, 0);
    while i < |tiers| && |list| < MAX_VARIANTS
      invariant i <= |tiers| && |list| <= i + 1
      invariant p == After(formats, preferMp4, tiers, default, i) && list == p.list && seenHeights == p.seen
    {
      var rung, variant := TierVariant(formats, preferMp4, tiers[i], seenHeights, bestAudio);
      ghost var next := Climb(formats, preferMp4, p, tiers[i]);
      assert next == After(formats, preferMp4, tiers, default, i + 1);
      if rung.Some? {
        seenHeights := seenHeights + {rung.value.height};
        list := list + [variant];
      }
      p, i := next, i + 1;
    }
  }

  method BuildVariants(formats: seq<Format>, preferMp4: bool, default: Variant, audioOnly: bool)
    returns (list: seq<Variant>)
    ensures list == Variants(formats, preferMp4, default, audioOnly)
  {
    TiersFall();
    VariantsAreALadder(formats, preferMp4, default, true);
    var bestAudio := PickBestAudio(formats, preferMp4, None);
    list := BuildLadder(formats, preferMp4, VARIANT_HEIGHT_TIERS, default, bestAudio);
    if bestAudio.Some? && !audioOnly && |list| < MAX_VARIANTS {
      list := list + [AudioVariant(formats[bestAudio.value])];
    }
  }
}
