/** Sending a download to the App over the native-messaging port, with the guarded retry, the batch
    loop with its legacy form, and the routing between the App and a remote server. */
module Delivery {
  import opened BatchChunks
  import opened Prelude
  import Port = RequestTable

  type Response = Port.Response

  const AppNotRunning := Port.Response(false, "app_not_running")

  datatype Frame = Ping | Download(item: Item) | Batch(items: seq<Item>)

  /** What becomes of one message. `reached` says whether the App got it; the host answers
      "app_not_running" both when it could not connect and when the App's reply was lost. */
  datatype Outcome =
    | Unconnected
    | PostThrew
    | Expired(reached: bool)
    | Dropped(reached: bool)
    | HostAnswers(reached: bool)
    | AppAnswers(success: bool, message: string)

  function Reply(o: Outcome): Response {
    match o
    case Unconnected => Port.NoPort
    case PostThrew => Port.PostFailed
    case Expired(_) => Port.TimedOut
    case Dropped(_) => Port.PortLost
    case HostAnswers(_) => AppNotRunning
    case AppAnswers(success, message) => Port.Response(success, message)
  }

  predicate Reached(o: Outcome) {
    match o
    case Expired(reached) => reached
    case Dropped(reached) => reached
    case HostAnswers(reached) => reached
    case AppAnswers(_, _) => true
    case _ => false
  }

  /** The App may have created tasks for the message: it got it and did not refuse it. */
  predicate Handled(o: Outcome) {
    Reached(o) && !(o.AppAnswers? && !o.success)
  }

  /** What the environment does to the up to three messages of one guarded send. */
  datatype Tries = Tries(first: Outcome, ping: Outcome, again: Outcome)

  predicate Retryable(m: string) {
    || m == Port.PortLost.message
    || m == Port.PostFailed.message
    || m == AppNotRunning.message
    || m == Port.TimedOut.message
  }

  predicate MaybeDelivered(m: string) {
    m == Port.PortLost.message || m == Port.TimedOut.message || m == AppNotRunning.message
  }

  predicate Unreachable(r: Response) {
    && !r.success
    && (r.message == Port.NoPort.message || r.message == Port.TimedOut.message || r.message == Port.PortLost.message
        || r.message == Port.PostFailed.message || r.message == AppNotRunning.message)
  }

  /** Refusals by the App do not borrow the texts the extension and the host use for lost messages. */
  predicate Sane(o: Outcome) {
    o.AppAnswers? && !o.success ==> !Unreachable(Reply(o))
  }

  predicate SaneTries(t: Tries) {
    Sane(t.first) && Sane(t.ping) && Sane(t.again)
  }

  /** A message and what became of it; one whose outcome is `Unconnected` never left the extension. */
  type Post = (Frame, Outcome)

  const DeliveredEarlier := Port.Response(true, "delivered (reconnected after transient failure)")

  predicate Stops(t: Tries) {
    Reply(t.first).success || !Retryable(Reply(t.first).message)
  }

  predicate Asks(frame: Frame, t: Tries) {
    !Stops(t) && MaybeDelivered(Reply(t.first).message) && !frame.Ping?
  }

  function Verdict(frame: Frame, t: Tries): Response {
    if Stops(t) then Reply(t.first)
    else if Asks(frame, t) && Reply(t.ping).success then DeliveredEarlier
    else Reply(t.again)
  }

  function Attempts(frame: Frame, t: Tries): seq<Post> {
    if Stops(t) then [(frame, t.first)]
    else if !Asks(frame, t) then [(frame, t.first), (frame, t.again)]
    else if Reply(t.ping).success then [(frame, t.first), (Ping, t.ping)]
    else [(frame, t.first), (Ping, t.ping), (frame, t.again)]
  }

  predicate Carries(frame: Frame, item: Item) {
    match frame
    case Ping => false
    case Download(i) => i == item
    case Batch(items) => item in items
  }

  /** How often the App got `item`, and how often it may have acted on it. */
  function Receipts(posts: seq<Post>, item: Item): nat {
    if posts == [] then 0
    else (if Carries(posts[0].0, item) && Reached(posts[0].1) then 1 else 0) + Receipts(posts[1..], item)
  }

  function Handlings(posts: seq<Post>, item: Item): nat {
    if posts == [] then 0
    else (if Carries(posts[0].0, item) && Handled(posts[0].1) then 1 else 0) + Handlings(posts[1..], item)
  }

  lemma {:induction false} HandlingsAppend(a: seq<Post>, b: seq<Post>, item: Item)
    ensures Handlings(a + b, item) == Handlings(a, item) + Handlings(b, item)
  {
    if a == [] {
      assert a + b == b;
    } else {
      assert (a + b)[1..] == a[1..] + b;
      HandlingsAppend(a[1..], b, item);
    }
  }

  // ---------- one guarded send ----------

  function One(b: bool): nat { if b then 1 else 0 }

  lemma AttemptCounts(frame: Frame, t: Tries, item: Item)
    requires !frame.Ping? && Carries(frame, item)
    ensures var again := !Stops(t) && !(Asks(frame, t) && Reply(t.ping).success);
      && Receipts(Attempts(frame, t), item) == One(Reached(t.first)) + One(again && Reached(t.again))
      && Handlings(Attempts(frame, t), item) == One(Handled(t.first)) + One(again && Handled(t.again))
  {
    var a := Attempts(frame, t);
    if Stops(t) {
      assert a[1..] == [];
    } else if !Asks(frame, t) {
      LastCounts(frame, t.again, item);
      assert a[1..] == [(frame, t.again)];
    } else if Reply(t.ping).success {
      LastCounts(Ping, t.ping, item);
      assert a[1..] == [(Ping, t.ping)];
    } else {
      LastCounts(frame, t.again, item);
      assert a[1..] == [(Ping, t.ping), (frame, t.again)] && a[1..][1..] == [(frame, t.again)];
    }
  }

  lemma LastCounts(frame: Frame, o: Outcome, item: Item)
    ensures Receipts([(frame, o)], item) == One(Carries(frame, item) && Reached(o))
    ensures Handlings([(frame, o)], item) == One(Carries(frame, item) && Handled(o))
  {
  }

  /** The App gets the same request twice exactly when it got the first message without its answer
      coming back, the ping that followed failed, and the repeated message arrived too. */
  lemma ReceivedTwiceIff(frame: Frame, t: Tries, item: Item)
    requires SaneTries(t) && !frame.Ping? && Carries(frame, item)
    ensures Receipts(Attempts(frame, t), item) <= 2
    ensures Receipts(Attempts(frame, t), item) == 2 <==>
      !t.first.AppAnswers? && Reached(t.first) && !Reply(t.ping).success && Reached(t.again)
  {
    AttemptCounts(frame, t, item);
  }

  /** Success is reported for a request the App never got exactly when the first message was lost
      on the way, in a form that may also mean a lost answer, and the App then answered a ping. */
  lemma HollowSuccessIff(frame: Frame, t: Tries, item: Item)
    requires SaneTries(t) && !frame.Ping? && Carries(frame, item)
    ensures Verdict(frame, t).success && Receipts(Attempts(frame, t), item) == 0 <==>
      (t.first.Expired? || t.first.Dropped? || t.first.HostAnswers?) && !t.first.reached && Reply(t.ping).success
  {
    AttemptCounts(frame, t, item);
  }

  /** The host launches the App for a download, gives up waiting, and by the time of the ping the
      App is up: the download is reported as delivered and is gone. */
  lemma LaunchedTooLate(item: Item, again: Outcome)
    ensures var t := Tries(HostAnswers(false), AppAnswers(true, "pong"), again);
      Verdict(Download(item), t).success && Receipts(Attempts(Download(item), t), item) == 0
  {
    AttemptCounts(Download(item), Tries(HostAnswers(false), AppAnswers(true, "pong"), again), item);
  }

  // ---------- batches ----------

  const UNKNOWN_ACTION := "unknown action"

  predicate PartAt(s: string, part: string, i: nat) {
    i + |part| <= |s| && s[i..i + |part|] == part
  }

  predicate Contains(s: string, part: string) {
    exists i: nat | i <= |s| :: PartAt(s, part, i)
  }

  function Digits(n: nat): string {
    (if n < 10 then "" else Digits(n / 10)) + [(n % 10) as char + '0']
  }

  const NoItems := Port.Response(false, "No items")

  function Partial(sent: nat, total: nat, r: Response): Response {
    Port.Response(false, "partial batch: " + Digits(sent) + "/" + Digits(total) + " chunks sent, then: " + r.message)
  }

  function AllSent(items: seq<Item>): Response {
    Port.Response(true, Digits(|items|) + " items sent")
  }

  /** What happens to the guarded sends in turn; past its end the port cannot be opened. */
  type Script = seq<Tries>

  function At(script: Script, k: nat): Tries {
    if k < |script| then script[k] else Tries(Unconnected, Unconnected, Unconnected)
  }

  /** The first chunk from `k` on that is not acknowledged, or the number of chunks. */
  function FirstFailure(chunks: seq<seq<Item>>, script: Script, k: nat): (f: nat)
    requires k <= |chunks|
    ensures k <= f <= |chunks|
    ensures forall j :: k <= j < f ==> Verdict(Batch(chunks[j]), At(script, j)).success
    ensures f < |chunks| ==> !Verdict(Batch(chunks[f]), At(script, f)).success
    decreases |chunks| - k
  {
    if k == |chunks| || !Verdict(Batch(chunks[k]), At(script, k)).success then k
    else FirstFailure(chunks, script, k + 1)
  }

  function ChunkPosts(chunks: seq<seq<Item>>, script: Script, end: nat): seq<Post>
    requires end <= |chunks|
  {
    if end == 0 then [] else ChunkPosts(chunks, script, end - 1) + Attempts(Batch(chunks[end - 1]), At(script, end - 1))
  }

  function LegacyPosts(items: seq<Item>, script: Script, end: nat): seq<Post>
    requires end <= |items|
  {
    if end == 0 then []
    else LegacyPosts(items, script, end - 1) + Attempts(Download(items[end - 1]), At(script, end - 1))
  }

  function Results(items: seq<Item>, script: Script, end: nat): (results: seq<Response>)
    requires end <= |items|
    ensures |results| == end
  {
    if end == 0 then []
    else Results(items, script, end - 1) + [Verdict(Download(items[end - 1]), At(script, end - 1))]
  }

  function Succeeded(results: seq<Response>): (n: nat)
    ensures n <= |results|
    ensures n > 0 <==> exists r <- results :: r.success
  {
    if results == [] then 0 else One(results[0].success) + Succeeded(results[1..])
  }

  function FirstError(results: seq<Response>): Response
    requires results != []
  {
    if !results[0].success || |results| == 1 then results[0] else FirstError(results[1..])
  }

  /** The legacy form's summary: success as soon as one item got through. */
  function Summary(results: seq<Response>): (r: Response)
    requires results != []
    ensures r.success <==> exists x <- results :: x.success
    ensures !Unreachable(r)
  {
    var sent := Succeeded(results);
    if sent == 0 then
      var r := Port.Response(false, "Batch failed: " + FirstError(results).message);
      assert r.message[0] == 'B';
      r
    else if sent < |results| then
      var failed := |results| - sent;
      Port.Response(true, Digits(sent) + "/" + Digits(|results|) + " items sent (" + Digits(failed) + " failed)")
    else Port.Response(true, Digits(sent) + " items sent")
  }

  /** The batch turns to the legacy form: the App refuses the very first chunk as unknown. */
  predicate TurnsLegacy(chunks: seq<seq<Item>>, script: Script) {
    && chunks != []
    && !Verdict(Batch(chunks[0]), At(script, 0)).success
    && Contains(Verdict(Batch(chunks[0]), At(script, 0)).message, UNKNOWN_ACTION)
  }

  /** Everything posted for the batch, in order. */
  function BatchPosts(chunks: seq<seq<Item>>, items: seq<Item>, script: Script, legacy: Script): seq<Post> {
    var f := FirstFailure(chunks, script, 0);
    ChunkPosts(chunks, script, if f < |chunks| then f + 1 else f)
    + (if TurnsLegacy(chunks, script) then LegacyPosts(items, legacy, |items|) else [])
  }

  function BatchVerdict(chunks: seq<seq<Item>>, items: seq<Item>, script: Script, legacy: Script): Response
    requires items != []
  {
    var f := FirstFailure(chunks, script, 0);
    if f == |chunks| then AllSent(items)
    else if f > 0 then Partial(f, |chunks|, Verdict(Batch(chunks[f]), At(script, f)))
    else if TurnsLegacy(chunks, script) then Summary(Results(items, legacy, |items|))
    else Verdict(Batch(chunks[0]), At(script, 0))
  }

  lemma StopsLater(chunks: seq<seq<Item>>, items: seq<Item>, script: Script, legacy: Script, k: nat)
    requires items != [] && 0 < k < |chunks| && FirstFailure(chunks, script, 0) == k
    ensures BatchPosts(chunks, items, script, legacy) == ChunkPosts(chunks, script, k + 1)
    ensures BatchVerdict(chunks, items, script, legacy)
         == Partial(k, |chunks|, Verdict(Batch(chunks[k]), At(script, k)))
  {
  }

  lemma StopsLegacy(chunks: seq<seq<Item>>, items: seq<Item>, script: Script, legacy: Script)
    requires items != [] && chunks != [] && FirstFailure(chunks, script, 0) == 0
    requires Contains(Verdict(Batch(chunks[0]), At(script, 0)).message, UNKNOWN_ACTION)
    ensures BatchPosts(chunks, items, script, legacy)
         == ChunkPosts(chunks, script, 1) + LegacyPosts(items, legacy, |items|)
    ensures BatchVerdict(chunks, items, script, legacy) == Summary(Results(items, legacy, |items|))
  {
  }

  lemma StopsRefused(chunks: seq<seq<Item>>, items: seq<Item>, script: Script, legacy: Script)
    requires items != [] && chunks != [] && FirstFailure(chunks, script, 0) == 0
    requires !Contains(Verdict(Batch(chunks[0]), At(script, 0)).message, UNKNOWN_ACTION)
    ensures BatchPosts(chunks, items, script, legacy) == ChunkPosts(chunks, script, 1)
    ensures BatchVerdict(chunks, items, script, legacy) == Verdict(Batch(chunks[0]), At(script, 0))
  {
  }

  lemma NeverStops(chunks: seq<seq<Item>>, items: seq<Item>, script: Script, legacy: Script)
    requires items != [] && FirstFailure(chunks, script, 0) == |chunks|
    ensures BatchPosts(chunks, items, script, legacy) == ChunkPosts(chunks, script, |chunks|)
    ensures BatchVerdict(chunks, items, script, legacy) == AllSent(items)
  {
  }

  // ---------- routing ----------

  datatype Mode = Off | Always | Fallback
  datatype Channel = Local | Remote

  function EffectiveMode(mode: Mode, hasRemote: bool): Mode {
    if hasRemote then mode else Off
  }

  /** Whether the request goes to the remote server, given what the local channel answered. */
  predicate GoesRemote(mode: Mode, local: Response) {
    mode == Always || (mode == Fallback && Unreachable(local))
  }

  // ---------- what a batch can and cannot cause ----------

  lemma UnreachableTexts(r: Response)
    requires Unreachable(r)
    ensures !Contains(r.message, UNKNOWN_ACTION)
  {
    var m := r.message;
    forall i: nat | i <= |m| ensures !PartAt(m, UNKNOWN_ACTION, i) {
      if i + 14 <= |m| {
        assert m[i] != 'u';
        assert m[i..i + 14][0] == m[i];
      }
    }
  }

  /** The remote server is tried after the local channel exactly when the first chunk's guarded
      send ends in one of the unreachable texts: later failures and the legacy form never cause it. */
  lemma RemoteIff(chunks: seq<seq<Item>>, items: seq<Item>, script: Script, legacy: Script)
    requires items != [] && Flatten(chunks) == items
    ensures chunks != []
    ensures Unreachable(BatchVerdict(chunks, items, script, legacy)) <==>
      Unreachable(Verdict(Batch(chunks[0]), At(script, 0)))
  {
    var f := FirstFailure(chunks, script, 0);
    var v := Verdict(Batch(chunks[0]), At(script, 0));
    if f == |chunks| {
    } else if f > 0 {
      var r := Partial(f, |chunks|, Verdict(Batch(chunks[f]), At(script, f)));
      assert r.message[..2] == "pa";
    } else if TurnsLegacy(chunks, script) {
      if Unreachable(v) {
        UnreachableTexts(v);
      }
    }
  }

  lemma {:induction false} ChunkFrames(chunks: seq<seq<Item>>, script: Script, end: nat)
    requires end <= |chunks|
    ensures forall p <- ChunkPosts(chunks, script, end) :: !p.0.Download?
  {
    if end > 0 {
      ChunkFrames(chunks, script, end - 1);
    }
  }

  lemma NoLegacyPosts(chunks: seq<seq<Item>>, items: seq<Item>, script: Script, legacy: Script)
    requires !TurnsLegacy(chunks, script)
    ensures forall p <- BatchPosts(chunks, items, script, legacy) :: !p.0.Download?
  {
    var f := FirstFailure(chunks, script, 0);
    var end := if f < |chunks| then f + 1 else f;
    ChunkFrames(chunks, script, end);
    assert BatchPosts(chunks, items, script, legacy) == ChunkPosts(chunks, script, end) + [];
    assert BatchPosts(chunks, items, script, legacy) == ChunkPosts(chunks, script, end);
  }

  /** Once a chunk has been acknowledged, nothing of the batch is posted item by item and the
      remote server is not tried, whatever happens to the other chunks. */
  lemma AcknowledgedNeverResent(chunks: seq<seq<Item>>, items: seq<Item>, script: Script, legacy: Script)
    requires items != [] && Flatten(chunks) == items && FirstFailure(chunks, script, 0) > 0
    ensures forall p <- BatchPosts(chunks, items, script, legacy) :: !p.0.Download?
    ensures !GoesRemote(Fallback, BatchVerdict(chunks, items, script, legacy))
  {
    assert Verdict(Batch(chunks[0]), At(script, 0)).success;
    NoLegacyPosts(chunks, items, script, legacy);
    RemoteIff(chunks, items, script, legacy);
  }

  predicate Distinct(items: seq<Item>) {
    forall i, j :: 0 <= i < j < |items| ==> items[i] != items[j]
  }

  /** Every ping sent after a lost message was answered. */
  predicate Quiet(t: Tries) {
    !Stops(t) && MaybeDelivered(Reply(t.first).message) ==> Reply(t.ping).success
  }

  lemma {:induction false} InFlatten(chunks: seq<seq<Item>>, i: nat, item: Item)
    requires i < |chunks| && item in chunks[i]
    ensures item in Flatten(chunks)
  {
    if i > 0 {
      InFlatten(chunks[1..], i - 1, item);
    }
  }

  lemma DistinctParts(a: seq<Item>, b: seq<Item>, item: Item)
    requires Distinct(a + b)
    ensures Distinct(b)
    ensures item in a ==> item !in b
  {
    assert forall y :: 0 <= y < |b| ==> b[y] == (a + b)[|a| + y];
    assert forall x :: 0 <= x < |a| ==> a[x] == (a + b)[x];
  }

  lemma {:induction false} ChunksApart(chunks: seq<seq<Item>>, i: nat, j: nat, item: Item)
    requires Distinct(Flatten(chunks)) && i < j < |chunks| && item in chunks[i]
    ensures item !in chunks[j]
  {
    DistinctParts(chunks[0], Flatten(chunks[1..]), item);
    if i > 0 {
      ChunksApart(chunks[1..], i - 1, j - 1, item);
    } else if item in chunks[j] {
      InFlatten(chunks[1..], j - 1, item);
    }
  }

  lemma AttemptsOnce(frame: Frame, t: Tries, item: Item)
    requires !frame.Ping? && Quiet(t) && SaneTries(t)
    ensures Handlings(Attempts(frame, t), item) <= One(Carries(frame, item))
    ensures !Verdict(frame, t).success && !Unreachable(Verdict(frame, t)) ==> Handlings(Attempts(frame, t), item) == 0
  {
    if Carries(frame, item) {
      AttemptCounts(frame, t, item);
    } else {
      NothingCarried(Attempts(frame, t), item);
    }
  }

  lemma {:induction false} NothingCarried(posts: seq<Post>, item: Item)
    requires forall p <- posts :: !Carries(p.0, item)
    ensures Handlings(posts, item) == 0
  {
    if posts != [] {
      NothingCarried(posts[1..], item);
    }
  }

  lemma {:induction false} ChunksOnce(chunks: seq<seq<Item>>, script: Script, end: nat, item: Item)
    requires end <= |chunks| && Distinct(Flatten(chunks))
    requires forall k: nat :: Quiet(At(script, k)) && SaneTries(At(script, k))
    ensures Handlings(ChunkPosts(chunks, script, end), item) <= 1
    ensures (forall j | 0 <= j < end :: item !in chunks[j]) ==> Handlings(ChunkPosts(chunks, script, end), item) == 0
  {
    if end > 0 {
      var frame, t := Batch(chunks[end - 1]), At(script, end - 1);
      ChunksOnce(chunks, script, end - 1, item);
      AttemptsOnce(frame, t, item);
      HandlingsAppend(ChunkPosts(chunks, script, end - 1), Attempts(frame, t), item);
      forall j | 0 <= j < end - 1 && item in chunks[end - 1] ensures item !in chunks[j] {
        if item in chunks[j] {
          ChunksApart(chunks, j, end - 1, item);
        }
      }
    }
  }

  lemma {:induction false} LegacyOnce(items: seq<Item>, script: Script, end: nat, item: Item)
    requires end <= |items| && Distinct(items)
    requires forall k: nat :: Quiet(At(script, k)) && SaneTries(At(script, k))
    ensures Handlings(LegacyPosts(items, script, end), item) <= 1
    ensures item !in items[..end] ==> Handlings(LegacyPosts(items, script, end), item) == 0
  {
    if end > 0 {
      var frame, t := Download(items[end - 1]), At(script, end - 1);
      LegacyOnce(items, script, end - 1, item);
      AttemptsOnce(frame, t, item);
      HandlingsAppend(LegacyPosts(items, script, end - 1), Attempts(frame, t), item);
      assert items[..end] == items[..end - 1] + [items[end - 1]];
    }
  }

  /** If no ping goes unanswered, the App acts on each item of a batch at most once, counting the
      chunks, the retries and the legacy form together. */
  lemma HandledAtMostOnce(chunks: seq<seq<Item>>, items: seq<Item>, script: Script, legacy: Script, item: Item)
    requires Flatten(chunks) == items && Distinct(items)
    requires forall k: nat :: Quiet(At(script, k)) && SaneTries(At(script, k))
    requires forall k: nat :: Quiet(At(legacy, k)) && SaneTries(At(legacy, k))
    ensures Handlings(BatchPosts(chunks, items, script, legacy), item) <= 1
  {
    var f := FirstFailure(chunks, script, 0);
    var end := if f < |chunks| then f + 1 else f;
    ChunksOnce(chunks, script, end, item);
    if TurnsLegacy(chunks, script) {
      var v := Verdict(Batch(chunks[0]), At(script, 0));
      if Unreachable(v) {
        UnreachableTexts(v);
      }
      AttemptsOnce(Batch(chunks[0]), At(script, 0), item);
      assert ChunkPosts(chunks, script, 1) == Attempts(Batch(chunks[0]), At(script, 0));
      LegacyOnce(items, legacy, |items|, item);
      HandlingsAppend(ChunkPosts(chunks, script, 1), LegacyPosts(items, legacy, |items|), item);
    } else {
      assert BatchPosts(chunks, items, script, legacy) == ChunkPosts(chunks, script, end);
    }
  }

  /** In fallback mode an item goes to the remote server although the App may have acted on it
      exactly when it is in the first chunk, that chunk was sent again without the App's ping
      answering in between, the repeat ended in an unreachable text, and one of the two arrived. */
  lemma BothChannelsIff(chunks: seq<seq<Item>>, items: seq<Item>, script: Script, legacy: Script, item: Item)
    requires items != [] && Flatten(chunks) == items && Distinct(items) && item in items
    requires SaneTries(At(script, 0))
    ensures chunks != []
    ensures
      (GoesRemote(Fallback, BatchVerdict(chunks, items, script, legacy))
       && Handlings(BatchPosts(chunks, items, script, legacy), item) > 0)
      <==>
      var t := At(script, 0);
      && item in chunks[0]
      && !t.first.AppAnswers? && !t.first.Unconnected?
      && (t.first.PostThrew? || !Reply(t.ping).success)
      && Unreachable(Reply(t.again))
      && (Reached(t.first) || Reached(t.again))
  {
    RemoteIff(chunks, items, script, legacy);
    var t := At(script, 0);
    var frame := Batch(chunks[0]);
    if Unreachable(Verdict(frame, t)) {
      UnreachableTexts(Verdict(frame, t));
      assert ChunkPosts(chunks, script, 1) == Attempts(frame, t);
      assert BatchPosts(chunks, items, script, legacy) == Attempts(frame, t);
      if item in chunks[0] {
        AttemptCounts(frame, t, item);
      } else {
        NothingCarried(Attempts(frame, t), item);
      }
    }
  }

  /** The first write fails, the repeat is accepted by the App but answered too late: the whole
      first chunk is sent to the remote server as well. */
  lemma DuplicatedAcrossChannels(item: Item, script: Script, legacy: Script)
    requires At(script, 0) == Tries(PostThrew, Unconnected, Expired(true))
    ensures GoesRemote(Fallback, BatchVerdict([[item]], [item], script, legacy))
    ensures Handlings(BatchPosts([[item]], [item], script, legacy), item) == 1
  {
    assert Flatten([[item]]) == [item] by {
      assert [[item]][1..] == [];
    }
    RemoteIff([[item]], [item], script, legacy);
    UnreachableTexts(Port.TimedOut);
    StopsRefused([[item]], [item], script, legacy);
    var a := Attempts(Batch([item]), At(script, 0));
    assert ChunkPosts([[item]], script, 1) == [] + a == a;
    AttemptCounts(Batch([item]), At(script, 0), item);
  }

  // ---------- what a batch must cause ----------

  predicate Posted(posts: seq<Post>, frame: Frame) {
    exists p <- posts :: p.0 == frame
  }

  /** A guarded send posts its message first of all. */
  lemma AttemptsPost(frame: Frame, t: Tries)
    ensures Posted(Attempts(frame, t), frame) && Attempts(frame, t)[0] == (frame, t.first)
  {
    assert Attempts(frame, t)[0].0 == frame;
  }

  lemma {:induction false} ChunkIsPosted(chunks: seq<seq<Item>>, script: Script, end: nat, k: nat)
    requires k < end <= |chunks|
    ensures Posted(ChunkPosts(chunks, script, end), Batch(chunks[k]))
  {
    if k < end - 1 {
      ChunkIsPosted(chunks, script, end - 1, k);
    } else {
      AttemptsPost(Batch(chunks[k]), At(script, k));
    }
  }

  lemma {:induction false} ItemIsPosted(items: seq<Item>, script: Script, end: nat, k: nat)
    requires k < end <= |items|
    ensures Posted(LegacyPosts(items, script, end), Download(items[k]))
  {
    if k < end - 1 {
      ItemIsPosted(items, script, end - 1, k);
    } else {
      AttemptsPost(Download(items[k]), At(script, k));
    }
  }

  /** Every chunk up to and including the first that fails is posted; and when the App refuses the first
      one as unknown, every item is posted on its own. */
  lemma NothingIsSkipped(chunks: seq<seq<Item>>, items: seq<Item>, script: Script, legacy: Script)
    ensures forall k :: 0 <= k < |chunks| && k <= FirstFailure(chunks, script, 0) ==>
      Posted(BatchPosts(chunks, items, script, legacy), Batch(chunks[k]))
    ensures chunks != [] ==>
      var first := Verdict(Batch(chunks[0]), At(script, 0));
      !first.success && Contains(first.message, "unknown action") ==>
        forall k :: 0 <= k < |items| ==> Posted(BatchPosts(chunks, items, script, legacy), Download(items[k]))
  {
    var f := FirstFailure(chunks, script, 0);
    forall k | 0 <= k < |chunks| && k <= f
      ensures Posted(BatchPosts(chunks, items, script, legacy), Batch(chunks[k]))
    {
      ChunkIsPosted(chunks, script, if f < |chunks| then f + 1 else f, k);
    }
    if TurnsLegacy(chunks, script) {
      forall k | 0 <= k < |items|
        ensures Posted(BatchPosts(chunks, items, script, legacy), Download(items[k]))
      {
        ItemIsPosted(items, legacy, |items|, k);
      }
    }
  }

  /** The batch is reported sent in full: every chunk acknowledged, or every item of the legacy form. */
  predicate AllAcknowledged(chunks: seq<seq<Item>>, items: seq<Item>, script: Script, legacy: Script) {
    || (forall k :: 0 <= k < |chunks| ==> Verdict(Batch(chunks[k]), At(script, k)).success)
    || (TurnsLegacy(chunks, script)
        && forall k :: 0 <= k < |items| ==> Verdict(Download(items[k]), At(legacy, k)).success)
  }

  /** Success is reported exactly when every chunk was acknowledged, or an item of the legacy form was. */
  lemma BatchSucceedsIff(chunks: seq<seq<Item>>, items: seq<Item>, script: Script, legacy: Script)
    requires items != []
    ensures BatchVerdict(chunks, items, script, legacy).success <==>
      || (forall k :: 0 <= k < |chunks| ==> Verdict(Batch(chunks[k]), At(script, k)).success)
      || (TurnsLegacy(chunks, script)
          && exists k :: 0 <= k < |items| && Verdict(Download(items[k]), At(legacy, k)).success)
  {
    ResultsAre(items, legacy, |items|);
  }

  lemma {:induction false} ResultsAre(items: seq<Item>, script: Script, end: nat)
    requires end <= |items|
    ensures forall k :: 0 <= k < end ==> Results(items, script, end)[k] == Verdict(Download(items[k]), At(script, k))
  {
    if end > 0 {
      ResultsAre(items, script, end - 1);
    }
  }

  /** What a decimal digit stands for. */
  function DigitValue(c: char): int {
    c as int - '0' as int
  }

  predicate AllDigits(s: string) {
    forall i :: 0 <= i < |s| ==> 0 <= DigitValue(s[i]) < 10
  }

  function ReadDigits(s: string): int {
    if s == "" then 0 else 10 * ReadDigits(s[..|s| - 1]) + DigitValue(s[|s| - 1])
  }

  /** A number is written in decimal digits that read as the number. */
  lemma {:induction false} DigitsRead(n: nat)
    ensures AllDigits(Digits(n)) && ReadDigits(Digits(n)) == n
  {
    var front, last := if n < 10 then "" else Digits(n / 10), (n % 10) as char + '0';
    assert Digits(n) == front + [last] && DigitValue(last) == n % 10;
    assert (front + [last])[..|front|] == front;
    if n >= 10 {
      DigitsRead(n / 10);
    }
  }

  lemma {:induction false} SucceededAll(results: seq<Response>)
    ensures Succeeded(results) == |results| <==> forall k :: 0 <= k < |results| ==> results[k].success
  {
    if results != [] {
      SucceededAll(results[1..]);
      assert forall k :: 1 <= k < |results| ==> results[k] == results[1..][k - 1];
    }
  }

  /** The answer names the full number of items exactly when all of them were acknowledged. */
  lemma AllSentIff(chunks: seq<seq<Item>>, items: seq<Item>, script: Script, legacy: Script)
    requires items != []
    ensures BatchVerdict(chunks, items, script, legacy) == AllSent(items) <==>
      AllAcknowledged(chunks, items, script, legacy)
  {
    BatchSucceedsIff(chunks, items, script, legacy);
    var f, results := FirstFailure(chunks, script, 0), Results(items, legacy, |items|);
    if f < |chunks| && f == 0 && TurnsLegacy(chunks, script) {
      ResultsAre(items, legacy, |items|);
      SucceededAll(results);
      if 0 < Succeeded(results) < |results| {
        PartialTextDiffers(Succeeded(results), |results|, |results| - Succeeded(results), |items|);
      }
    }
  }

  /** A text with a slash is not one without. */
  lemma SlashDiffers(front: string, mid: string, x: string, last: string, y: string, plain: string)
    requires '/' !in plain
    ensures front + "/" + mid + x + last + y != plain
  {
    assert (front + "/" + mid + x + last + y)[|front|] == '/';
  }

  lemma NoSlash(all: nat, text: string)
    requires '/' !in text
    ensures '/' !in Digits(all) + text
  {
    DigitsRead(all);
    assert DigitValue('/') == -1;
  }

  lemma PartialTextDiffers(sent: nat, total: nat, failed: nat, all: nat)
    ensures Digits(sent) + "/" + Digits(total) + " items sent (" + Digits(failed) + " failed)"
         != Digits(all) + " items sent"
  {
    NoSlash(all, " items sent");
    SlashDiffers(Digits(sent), Digits(total), " items sent (", Digits(failed), " failed)", Digits(all) + " items sent");
  }

  /** A send that is acknowledged although its message was lost: see `HollowSuccessIff`. */
  predicate Hollow(t: Tries) {
    (t.first.Expired? || t.first.Dropped? || t.first.HostAnswers?) && !t.first.reached && Reply(t.ping).success
  }

  lemma {:induction false} ReceiptsAppend(a: seq<Post>, b: seq<Post>, item: Item)
    ensures Receipts(a + b, item) == Receipts(a, item) + Receipts(b, item)
  {
    if a == [] {
      assert a + b == b;
    } else {
      assert (a + b)[1..] == a[1..] + b;
      ReceiptsAppend(a[1..], b, item);
    }
  }

  lemma SendIsReceived(frame: Frame, t: Tries, item: Item)
    requires SaneTries(t) && !frame.Ping? && Carries(frame, item) && Verdict(frame, t).success && !Hollow(t)
    ensures Receipts(Attempts(frame, t), item) >= 1
  {
    HollowSuccessIff(frame, t, item);
  }

  lemma {:induction false} ChunkIsReceived(chunks: seq<seq<Item>>, script: Script, end: nat, k: nat, item: Item)
    requires k < end <= |chunks| && item in chunks[k] && SaneTries(At(script, k))
    requires Verdict(Batch(chunks[k]), At(script, k)).success && !Hollow(At(script, k))
    ensures Receipts(ChunkPosts(chunks, script, end), item) >= 1
  {
    var frame, t := Batch(chunks[end - 1]), At(script, end - 1);
    ReceiptsAppend(ChunkPosts(chunks, script, end - 1), Attempts(frame, t), item);
    if k < end - 1 {
      ChunkIsReceived(chunks, script, end - 1, k, item);
    } else {
      SendIsReceived(frame, t, item);
    }
  }

  lemma {:induction false} ItemIsReceived(items: seq<Item>, script: Script, end: nat, k: nat)
    requires k < end <= |items| && SaneTries(At(script, k))
    requires Verdict(Download(items[k]), At(script, k)).success && !Hollow(At(script, k))
    ensures Receipts(LegacyPosts(items, script, end), items[k]) >= 1
  {
    var frame, t := Download(items[end - 1]), At(script, end - 1);
    ReceiptsAppend(LegacyPosts(items, script, end - 1), Attempts(frame, t), items[k]);
    if k < end - 1 {
      ItemIsReceived(items, script, end - 1, k);
    } else {
      SendIsReceived(frame, t, items[k]);
    }
  }

  lemma {:induction false} InSomeChunk(chunks: seq<seq<Item>>, item: Item) returns (k: nat)
    requires item in Flatten(chunks)
    ensures k < |chunks| && item in chunks[k]
  {
    if item in chunks[0] {
      k := 0;
    } else {
      k := InSomeChunk(chunks[1..], item);
      k := k + 1;
    }
  }

  /** What is reported sent in full has been received in full, unless a lost message was taken for a
      delivered one. */
  lemma SuccessIsReceived(chunks: seq<seq<Item>>, items: seq<Item>, script: Script, legacy: Script, item: Item)
    requires items != [] && Flatten(chunks) == items && item in items
    requires forall k: nat :: SaneTries(At(script, k)) && !Hollow(At(script, k))
    requires forall k: nat :: SaneTries(At(legacy, k)) && !Hollow(At(legacy, k))
    requires BatchVerdict(chunks, items, script, legacy) == AllSent(items)
    ensures Receipts(BatchPosts(chunks, items, script, legacy), item) >= 1
  {
    AllSentIff(chunks, items, script, legacy);
    var f := FirstFailure(chunks, script, 0);
    var end := if f < |chunks| then f + 1 else f;
    var tail := if TurnsLegacy(chunks, script) then LegacyPosts(items, legacy, |items|) else [];
    ReceiptsAppend(ChunkPosts(chunks, script, end), tail, item);
    if f == |chunks| {
      var k := InSomeChunk(chunks, item);
      ChunkIsReceived(chunks, script, end, k, item);
    } else {
      var k :| 0 <= k < |items| && items[k] == item;
      ItemIsReceived(items, legacy, |items|, k);
    }
  }

  // ---------- where a request goes ----------

  /** A request goes to the remote server exactly if there is one, and either it always does or, in
      fallback mode, the local channel failed with one of the texts of a lost message. */
  lemma GoesRemoteIff(mode: Mode, hasRemote: bool, local: Response)
    ensures GoesRemote(EffectiveMode(mode, hasRemote), local) <==>
      && hasRemote
      && (|| mode == Always
          || (&& mode == Fallback && !local.success
              && local.message in {"native_messaging_unavailable", "timeout", "port disconnected",
                                   "postMessage failed", "app_not_running"}))
  {
  }

  /** What the table of requests answers a call with is what `Reply` makes of its outcome. */
  lemma TableReplies(events: seq<Port.Event>, id: nat, success: bool, message: string)
    ensures var t := Port.Run(Port.FreshTable, events);
      && (t.port.None? ==> Port.Step(t, Port.Call(false, true)).settled == t.settled + [(None, Reply(Unconnected))])
      && Port.Step(t, Port.Call(true, false)).settled == t.settled + [(Some(t.nextId), Reply(PostThrew))]
      && (id in t.pending ==>
            && Port.Step(t, Port.Timer(id)).settled == t.settled + [(Some(id), Reply(Expired(false)))]
            && Port.Step(t, Port.Message(id, Port.Response(success, message))).settled
               == t.settled + [(Some(id), Reply(AppAnswers(success, message)))]
            && (Some(id), Reply(Dropped(false))) in Port.Step(t, Port.Lost).settled)
  {
    var t := Port.Run(Port.FreshTable, events);
    Port.CallIsAnswered(events, true, false);
    Port.CallIsAnswered(events, false, true);
    if id in t.pending {
      Port.WaitingIsAnswered(events, id, Port.Response(success, message));
    }
  }

  // ---------- the sender ----------

  class Sender {
    var mode: Mode
    var hasRemote: bool
    var posts: seq<Post>
    var remotePosts: seq<seq<Item>>

    constructor (mode: Mode, hasRemote: bool)
      ensures this.mode == mode && this.hasRemote == hasRemote && posts == [] && remotePosts == []
    {
      this.mode, this.hasRemote, posts, remotePosts := mode, hasRemote, [], [];
    }

    method Send(frame: Frame, o: Outcome) returns (r: Response)
      modifies `posts
      ensures posts == old(posts) + [(frame, o)] && r == Reply(o)
    {
      posts := posts + [(frame, o)];
      r := Reply(o);
    }

    method SendWithRetry(frame: Frame, t: Tries) returns (r: Response)
      modifies `posts
      ensures posts == old(posts) + Attempts(frame, t) && r == Verdict(frame, t)
    {
      var result := Send(frame, t.first);
      if result.success {
        return result;
      }
      if !Retryable(result.message) {
        return result;
      }
      if MaybeDelivered(result.message) && frame != Ping {
        var pingResult := Send(Ping, t.ping);
        if pingResult.success {
          return DeliveredEarlier;
        }
      }
      r := Send(frame, t.again);
    }

    method SendItems(items: seq<Item>, legacy: Script) returns (results: seq<Response>)
      modifies `posts
      ensures posts == old(posts) + LegacyPosts(items, legacy, |items|)
      ensures results == Results(items, legacy, |items|)
    {
      results := [];
      for i := 0 to |items|
        invariant posts == old(posts) + LegacyPosts(items, legacy, i)
        invariant results == Results(items, legacy, i)
      {
        var result := SendWithRetry(Download(items[i]), At(legacy, i));
        results := results + [result];
      }
    }

    method SendLegacy(items: seq<Item>, legacy: Script) returns (r: Response)
      requires items != []
      modifies `posts
      ensures posts == old(posts) + LegacyPosts(items, legacy, |items|)
      ensures r == Summary(Results(items, legacy, |items|))
    {
      var results := SendItems(items, legacy);
      r := Summary(results);
    }

    /** The chunks in order, up to the first that is not acknowledged. */
    method SendChunks(chunks: seq<seq<Item>>, script: Script) returns (sentChunks: nat, result: Response)
      modifies `posts
      ensures sentChunks == FirstFailure(chunks, script, 0)
      ensures sentChunks == |chunks| ==> posts == old(posts) + ChunkPosts(chunks, script, sentChunks)
      ensures sentChunks < |chunks| ==>
        && posts == old(posts) + ChunkPosts(chunks, script, sentChunks + 1)
        && result == Verdict(Batch(chunks[sentChunks]), At(script, sentChunks))
    {
      sentChunks, result := 0, NoItems;
      while sentChunks < |chunks|
        invariant sentChunks <= |chunks|
        invariant posts == old(posts) + ChunkPosts(chunks, script, sentChunks)
        invariant FirstFailure(chunks, script, 0) == FirstFailure(chunks, script, sentChunks)
      {
        result := SendWithRetry(Batch(chunks[sentChunks]), At(script, sentChunks));
        ghost var now := Attempts(Batch(chunks[sentChunks]), At(script, sentChunks));
        assert old(posts) + ChunkPosts(chunks, script, sentChunks + 1)
            == old(posts) + ChunkPosts(chunks, script, sentChunks) + now;
        if !result.success {
          return;
        }
        sentChunks := sentChunks + 1;
      }
    }

    method SendFrames(frames: seq<seq<Item>>, items: seq<Item>, script: Script, legacy: Script) returns (r: Response)
      requires items != [] && frames != []
      modifies `posts
      ensures posts == old(posts) + BatchPosts(frames, items, script, legacy)
      ensures r == BatchVerdict(frames, items, script, legacy)
    {
      var sentChunks, result := SendChunks(frames, script);
      if sentChunks == |frames| {
        NeverStops(frames, items, script, legacy);
        r := AllSent(items);
      } else if sentChunks > 0 {
        StopsLater(frames, items, script, legacy, sentChunks);
        r := Partial(sentChunks, |frames|, result);
      } else if Contains(result.message, UNKNOWN_ACTION) {
        StopsLegacy(frames, items, script, legacy);
        r := SendLegacy(items, legacy);
      } else {
        StopsRefused(frames, items, script, legacy);
        r := result;
      }
    }

    method SendBatch(items: seq<Item>, script: Script, legacy: Script)
      returns (r: Response, ghost chunks: seq<seq<Item>>)
      modifies `posts
      ensures items == [] ==> r == NoItems && posts == old(posts)
      ensures items != [] ==>
        && Flatten(chunks) == items && AllFit(chunks) && Tight(chunks)
        && posts == old(posts) + BatchPosts(chunks, items, script, legacy)
        && r == BatchVerdict(chunks, items, script, legacy)
    {
      if items == [] {
        chunks := [];
        return NoItems, chunks;
      }
      var frames := ChunkBatchWireItems(items);
      assert frames != [];
      chunks := frames;
      r := SendFrames(frames, items, script, legacy);
    }

    method PostRemote(items: seq<Item>, reply: Response) returns (r: Response)
      modifies `remotePosts
      ensures remotePosts == old(remotePosts) + [items] && r == reply
    {
      remotePosts := remotePosts + [items];
      r := reply;
    }

    /** A single routed download. */
    method DispatchOne(item: Item, t: Tries, remoteReply: Response) returns (r: Response, channel: Channel)
      modifies `posts, `remotePosts
      ensures var m := EffectiveMode(mode, hasRemote);
        var remote := GoesRemote(m, Verdict(Download(item), t));
        && posts == old(posts) + (if m == Always then [] else Attempts(Download(item), t))
        && remotePosts == old(remotePosts) + (if remote then [[item]] else [])
        && channel == (if remote then Remote else Local)
        && r == (if remote then remoteReply else Verdict(Download(item), t))
      ensures !hasRemote || mode == Off ==> remotePosts == old(remotePosts) && channel == Local
      ensures hasRemote && mode == Always ==> posts == old(posts) && remotePosts == old(remotePosts) + [[item]]
    {
      var m := EffectiveMode(mode, hasRemote);
      if m == Always {
        r := PostRemote([item], remoteReply);
        channel := Remote;
        return;
      }
      r := SendWithRetry(Download(item), t);
      channel := Local;
      if m == Fallback && Unreachable(r) {
        r := PostRemote([item], remoteReply);
        channel := Remote;
      }
    }

    /** The routed batch: the local posts, whether the remote server was asked, and which channel
        the answer is stamped with. */
    method DispatchBatch(items: seq<Item>, script: Script, legacy: Script, remoteReply: Response)
      returns (r: Response, channel: Channel, ghost chunks: seq<seq<Item>>)
      modifies `posts, `remotePosts
      ensures var m := EffectiveMode(mode, hasRemote);
        var local := if items == [] then NoItems
                     else if Flatten(chunks) == items then BatchVerdict(chunks, items, script, legacy) else NoItems;
        && (m != Always && items != [] ==> Flatten(chunks) == items && AllFit(chunks) && Tight(chunks))
        && posts == old(posts) + (if m == Always || items == [] then [] else BatchPosts(chunks, items, script, legacy))
        && remotePosts == old(remotePosts) + (if GoesRemote(m, local) then [items] else [])
        && channel == (if GoesRemote(m, local) then Remote else Local)
        && r == (if GoesRemote(m, local) then remoteReply else local)
      ensures !hasRemote || mode == Off ==> remotePosts == old(remotePosts) && channel == Local
      ensures hasRemote && mode == Always ==> posts == old(posts) && remotePosts == old(remotePosts) + [items]
    {
      var m := EffectiveMode(mode, hasRemote);
      chunks := [];
      if m == Off {
        r, chunks := SendBatch(items, script, legacy);
        channel := Local;
        return;
      }
      if m == Always {
        r := PostRemote(items, remoteReply);
        channel := Remote;
        return;
      }
      r, chunks := SendBatch(items, script, legacy);
      if r.success || !Unreachable(r) {
        channel := Local;
        return;
      }
      r := PostRemote(items, remoteReply);
      channel := Remote;
    }
  }
}
