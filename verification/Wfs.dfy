/** Paged imports from a WFS 2.0 service (plugins/gis/src/grafy_plugin_gis/wfs.py:125-305).
    The service is a function from the request to its reply and may behave arbitrarily. */
module Wfs {
  import opened Text
  import opened Artifacts
  import opened Json
  import F = FeatureCollections

  const MAX_FEATURES := 10_000
  const MAX_TOTAL_BYTES := 16 * 1024 * 1024

  datatype Page = Page(kind: string, features: seq<Fields>, matched: Option<int>, returned: Option<int>)

  datatype Reply = Failure | Body(content: Bytes)

  /** `reply` takes the round, `startIndex` and `count`. */
  datatype Server = Server(reply: (nat, nat, nat) -> Reply, parse: Bytes -> Option<Page>, digest: Bytes -> string)

  datatype Limits = Limits(pageSize: int, maxPageBytes: int, maxFeatures: int)

  datatype WfsError =
    | BadPageSize | BadMaxFeatures | TooManyFeatures | BadPageBytes | PageBytesTooLarge
    | TransportFailed | PageTooLarge | TotalTooLarge | InvalidJson | WrongType | WrongCount | Overfull | RepeatedPage | InvalidCollection

  /** What the loop carries from page to page. */
  datatype Progress = Progress(round: nat, features: seq<Fields>, previous: Option<string>, total: nat)

  datatype Turned = Stop(features: seq<Fields>, total: nat) | Go(next: Progress)

  predicate Sane(l: Limits) {
    1 <= l.pageSize <= l.maxFeatures <= MAX_FEATURES && 1 <= l.maxPageBytes <= MAX_TOTAL_BYTES
  }

  function Accept(server: Server, l: Limits, s: Progress, count: nat, content: Bytes): Result<Turned, WfsError> {
    if |content| > l.maxPageBytes then Err(PageTooLarge)
    else if s.total + |content| > MAX_TOTAL_BYTES then Err(TotalTooLarge)
    else
      var parsed := server.parse(content);
      if parsed.None? then Err(InvalidJson)
      else
        var page := parsed.value;
        if page.kind != "FeatureCollection" then Err(WrongType)
        else if page.returned.Some? && page.returned.value != |page.features| then Err(WrongCount)
        else if |page.features| > count then Err(Overfull)
        else if page.features == [] then Ok(Stop(s.features, s.total))
        else if s.previous == Some(server.digest(content)) then Err(RepeatedPage)
        else
          var features, total := s.features + page.features, s.total + |content|;
          if (page.matched.Some? && |features| >= page.matched.value) || |page.features| < count then Ok(Stop(features, total))
          else Ok(Go(Progress(s.round + 1, features, Some(server.digest(content)), total)))
  }

  /** One round; the number of features so far is the next `startIndex`. */
  function Turn(server: Server, l: Limits, s: Progress): Result<Turned, WfsError>
    requires Sane(l) && |s.features| < l.maxFeatures
  {
    var count := Min(l.pageSize, l.maxFeatures - |s.features|);
    var reply := server.reply(s.round, |s.features|, count);
    if reply.Failure? then Err(TransportFailed) else Accept(server, l, s, count, reply.content)
  }

  function Import(server: Server, l: Limits, s: Progress): Result<seq<Fields>, WfsError>
    requires Sane(l)
    decreases l.maxFeatures - |s.features|
  {
    if |s.features| >= l.maxFeatures then Ok(s.features)
    else
      var turned := Turn(server, l, s);
      if turned.Err? then Err(turned.error)
      else match turned.value
        case Stop(features, _) => Ok(features)
        case Go(next) => Import(server, l, next)
  }

  const START := Progress(0, [], None, 0)

  function Checked(l: Limits): Result<Limits, WfsError> {
    if l.pageSize < 1 then Err(BadPageSize)
    else if l.maxFeatures < 1 then Err(BadMaxFeatures)
    else if l.maxFeatures > MAX_FEATURES then Err(TooManyFeatures)
    else if l.maxPageBytes < 1 then Err(BadPageBytes)
    else if l.maxPageBytes > MAX_TOTAL_BYTES then Err(PageBytesTooLarge)
    else Ok(l.(pageSize := Min(l.pageSize, l.maxFeatures)))
  }

  /** Against any server: at most `maxFeatures` rounds, and both caps are kept. */
  method FetchPages(server: Server, l: Limits) returns (r: Result<seq<Fields>, WfsError>, rounds: nat, total: nat)
    requires Sane(l)
    ensures r == Import(server, l, START)
    ensures rounds <= l.maxFeatures && total <= MAX_TOTAL_BYTES
    ensures r.Ok? ==> |r.value| <= l.maxFeatures
  {
    var features: seq<Fields> := [];
    var startIndex: nat := 0;
    var previous: Option<string> := None;
    rounds, total := 0, 0;
    ghost var whole := Import(server, l, START);
    while |features| < l.maxFeatures
      invariant startIndex == |features| && rounds <= |features| <= l.maxFeatures && total <= MAX_TOTAL_BYTES
      invariant Import(server, l, Progress(rounds, features, previous, total)) == whole
      decreases l.maxFeatures - |features|
    {
      var count := Min(l.pageSize, l.maxFeatures - |features|);
      var reply := server.reply(rounds, startIndex, count);
      rounds := rounds + 1;
      if reply.Failure? {
        return Err(TransportFailed), rounds, total;
      }
      var content := reply.content;
      if |content| > l.maxPageBytes {
        return Err(PageTooLarge), rounds, total;
      }
      var prospective := total + |content|;
      if prospective > MAX_TOTAL_BYTES {
        return Err(TotalTooLarge), rounds, total;
      }
      var page := server.parse(content);
      if page.None? {
        return Err(InvalidJson), rounds, total;
      }
      if page.value.kind != "FeatureCollection" {
        return Err(WrongType), rounds, total;
      }
      if page.value.returned.Some? && page.value.returned.value != |page.value.features| {
        return Err(WrongCount), rounds, total;
      }
      if |page.value.features| > count {
        return Err(Overfull), rounds, total;
      }
      if page.value.features == [] {
        break;
      }
      var hash := server.digest(content);
      if previous == Some(hash) {
        return Err(RepeatedPage), rounds, total;
      }
      previous := Some(hash);
      features := features + page.value.features;
      total := prospective;
      startIndex := startIndex + |page.value.features|;
      if page.value.matched.Some? && startIndex >= page.value.matched.value {
        break;
      }
      if |page.value.features| < count {
        break;
      }
    }
    return Ok(features), rounds, total;
  }

  /** The limits are sane, every page is acceptable, and so are the features together. */
  ghost predicate Importable(server: Server, limits: Limits, sourceName: string) {
    && Checked(limits).Ok? && Import(server, Checked(limits).value, START).Ok?
    && F.ValidName(sourceName) && forall f :: f in Import(server, Checked(limits).value, START).value ==> F.ValidFeature(f)
  }

  /** The whole import. */
  method FetchFeatureCollection(server: Server, limits: Limits, sourceName: string)
    returns (r: Result<F.Collection, WfsError>, rounds: nat, total: nat)
    ensures rounds <= MAX_FEATURES && total <= MAX_TOTAL_BYTES
    ensures r.Ok? <==> Importable(server, limits, sourceName)
    ensures r.Ok? ==> r.value.features == Import(server, Checked(limits).value, START).value && |r.value.features| <= limits.maxFeatures
    ensures r.Ok? ==> F.Bounding(r.value.features, r.value.bounds)
  {
    var checked := Checked(limits);
    if checked.Err? {
      return Err(checked.error), 0, 0;
    }
    var features;
    features, rounds, total := FetchPages(server, checked.value);
    if features.Err? {
      return Err(features.error), rounds, total;
    }
    var collection := F.FromFeatures(features.value, sourceName);
    if collection.Err? {
      return Err(InvalidCollection), rounds, total;
    }
    return Ok(collection.value), rounds, total;
  }

  // ---------------------------------------------------------------- a server that answers exactly

  ghost predicate Answers(server: Server, all: seq<Fields>, round: nat, start: nat, count: nat) {
    var reply := server.reply(round, start, count);
    && reply.Body? && server.parse(reply.content).Some?
    && var page := server.parse(reply.content).value;
       && page.kind == "FeatureCollection"
       && page.features == all[Min(start, |all|)..Min(start + count, |all|)]
       && (page.returned.Some? ==> page.returned.value == |page.features|)
       && (page.matched.Some? ==> page.matched.value == |all|)
  }

  /** Every request is answered with the slice that `startIndex` and `count` name. */
  ghost predicate Honest(server: Server, all: seq<Fields>) {
    forall round: nat, start: nat, count: nat :: Answers(server, all, round, start, count)
  }

  function Wanted(all: seq<Fields>, max: nat): seq<Fields> { all[..Min(max, |all|)] }

  lemma {:induction false} HonestTurn(server: Server, l: Limits, all: seq<Fields>, s: Progress)
    requires Sane(l) && Honest(server, all) && |s.features| < l.maxFeatures && |s.features| <= |all| && s.features == all[..|s.features|]
    requires Turn(server, l, s).Ok?
    ensures match Turn(server, l, s).value
            case Stop(features, _) => features == Wanted(all, l.maxFeatures)
            case Go(next) => |next.features| <= |all| && next.features == all[..|next.features|] && |next.features| <= l.maxFeatures
  {
    var start, count := |s.features|, Min(l.pageSize, l.maxFeatures - |s.features|);
    assert Answers(server, all, s.round, start, count);
    var end := Min(start + count, |all|);
    assert all[..start] + all[start..end] == all[..end];
  }

  /** An import that succeeds holds the first `maxFeatures` features, in order. */
  lemma {:induction false} HonestImportIsPrefix(server: Server, l: Limits, all: seq<Fields>, s: Progress)
    requires Sane(l) && Honest(server, all) && |s.features| <= l.maxFeatures && |s.features| <= |all| && s.features == all[..|s.features|]
    requires Import(server, l, s).Ok?
    ensures Import(server, l, s).value == Wanted(all, l.maxFeatures)
    decreases l.maxFeatures - |s.features|
  {
    if |s.features| < l.maxFeatures {
      HonestTurn(server, l, all, s);
      var turned := Turn(server, l, s).value;
      if turned.Go? { HonestImportIsPrefix(server, l, all, turned.next); }
    }
  }

  lemma {:induction false} HonestImport(server: Server, l: Limits, all: seq<Fields>)
    requires Sane(l) && Honest(server, all) && Import(server, l, START).Ok?
    ensures Import(server, l, START).value == Wanted(all, l.maxFeatures)
  {
    HonestImportIsPrefix(server, l, all, START);
  }

  // ---------------------------------------------------------------- when an exact server is refused

  /** The only refusals left against an exact server: a page or the total over its byte
      limit, or two pages in a row with the same digest. */
  lemma {:induction false} HonestRefusals(server: Server, l: Limits, all: seq<Fields>, s: Progress)
    requires Sane(l) && Honest(server, all) && Import(server, l, s).Err?
    ensures Import(server, l, s).error in {PageTooLarge, TotalTooLarge, RepeatedPage}
    decreases l.maxFeatures - |s.features|
  {
    var count := Min(l.pageSize, l.maxFeatures - |s.features|);
    assert Answers(server, all, s.round, |s.features|, count);
    var turned := Turn(server, l, s);
    if turned.Ok? && turned.value.Go? { HonestRefusals(server, l, all, turned.value.next); }
  }

  // ---------------------------------------------------------------- the requests an import makes

  function StartAt(l: Limits, k: nat): nat
    requires Sane(l)
  {
    if k == 0 then 0 else StartAt(l, k - 1) + l.pageSize
  }

  function CountAt(l: Limits, k: nat): nat
    requires Sane(l) && StartAt(l, k) < l.maxFeatures
  {
    Min(l.pageSize, l.maxFeatures - StartAt(l, k))
  }

  /** The bytes of page `k`. */
  function BodyAt(server: Server, l: Limits, k: nat): Bytes
    requires Sane(l) && StartAt(l, k) < l.maxFeatures
  {
    var reply := server.reply(k, StartAt(l, k), CountAt(l, k));
    if reply.Body? then reply.content else []
  }

  /** The server says with page `k` how many features there are. */
  predicate TellsTotal(server: Server, l: Limits, k: nat)
    requires Sane(l) && StartAt(l, k) < l.maxFeatures
  {
    var page := server.parse(BodyAt(server, l, k));
    page.Some? && page.value.matched.Some?
  }

  /** Page `k` is the last: it is short of what was asked, or reaches the announced total. */
  ghost predicate IsLast(server: Server, l: Limits, all: seq<Fields>, k: nat)
    requires Sane(l) && StartAt(l, k) < l.maxFeatures
  {
    var end := StartAt(l, k) + CountAt(l, k);
    end > |all| || (end == |all| && TellsTotal(server, l, k))
  }

  /** The import asks for page `k`. */
  ghost predicate Requested(server: Server, l: Limits, all: seq<Fields>, k: nat)
    requires Sane(l)
  {
    StartAt(l, k) < l.maxFeatures && (k > 0 ==> Requested(server, l, all, k - 1) && !IsLast(server, l, all, k - 1))
  }

  function BytesBefore(server: Server, l: Limits, k: nat): nat
    requires Sane(l)
  {
    if k == 0 then 0
    else BytesBefore(server, l, k - 1) + if StartAt(l, k - 1) < l.maxFeatures then |BodyAt(server, l, k - 1)| else 0
  }

  /** Page `k` keeps both byte caps and, if it holds features, differs from the one before. */
  ghost predicate PageFine(server: Server, l: Limits, all: seq<Fields>, k: nat)
    requires Sane(l) && StartAt(l, k) < l.maxFeatures
  {
    && |BodyAt(server, l, k)| <= l.maxPageBytes
    && BytesBefore(server, l, k) + |BodyAt(server, l, k)| <= MAX_TOTAL_BYTES
    && (k > 0 && StartAt(l, k) < |all| ==> server.digest(BodyAt(server, l, k)) != server.digest(BodyAt(server, l, k - 1)))
  }

  /** Every page from `k` on that is asked for is fine. */
  ghost predicate FineFrom(server: Server, l: Limits, all: seq<Fields>, k: nat)
    requires Sane(l)
  {
    forall j :: j >= k && Requested(server, l, all, j) ==> PageFine(server, l, all, j)
  }

  lemma {:induction false} NothingAfter(server: Server, l: Limits, all: seq<Fields>, k: nat, j: nat)
    requires Sane(l) && StartAt(l, k) < l.maxFeatures && (IsLast(server, l, all, k) || StartAt(l, k + 1) >= l.maxFeatures) && j > k
    ensures !Requested(server, l, all, j)
  {
    if j > k + 1 { NothingAfter(server, l, all, k, j - 1); }
  }

  lemma {:induction false} LastPageFine(server: Server, l: Limits, all: seq<Fields>, k: nat)
    requires Sane(l) && StartAt(l, k) < l.maxFeatures && (IsLast(server, l, all, k) || StartAt(l, k + 1) >= l.maxFeatures)
    requires PageFine(server, l, all, k)
    ensures FineFrom(server, l, all, k)
  {
    forall j | j >= k && Requested(server, l, all, j) ensures PageFine(server, l, all, j) {
      if j > k { NothingAfter(server, l, all, k, j); }
    }
  }

  lemma {:induction false} FineFromNext(server: Server, l: Limits, all: seq<Fields>, k: nat)
    requires Sane(l) && StartAt(l, k) < l.maxFeatures && PageFine(server, l, all, k)
    ensures FineFrom(server, l, all, k) <==> FineFrom(server, l, all, k + 1)
  {
  }

  /** The loop before page `k`. */
  ghost function ProgressAt(server: Server, l: Limits, all: seq<Fields>, k: nat): Progress
    requires Sane(l) && Requested(server, l, all, k) && StartAt(l, k) <= |all|
  {
    Progress(k, all[..StartAt(l, k)], if k == 0 then None else Some(server.digest(BodyAt(server, l, k - 1))), BytesBefore(server, l, k))
  }

  lemma {:induction false} TurnAt(server: Server, l: Limits, all: seq<Fields>, k: nat)
    requires Sane(l) && Honest(server, all) && Requested(server, l, all, k) && StartAt(l, k) <= |all|
    ensures var turned := Turn(server, l, ProgressAt(server, l, all, k));
            && (turned.Ok? <==> PageFine(server, l, all, k))
            && (turned.Ok? && IsLast(server, l, all, k) ==> turned.value.Stop?)
            && (turned.Ok? && !IsLast(server, l, all, k) ==> turned.value == Go(ProgressAfter(server, l, all, k)))
  {
    var start, count := StartAt(l, k), CountAt(l, k);
    assert Answers(server, all, k, start, count);
    var end := Min(start + count, |all|);
    assert all[..start] + all[start..end] == all[..end];
  }

  lemma {:induction false} ImportTurns(server: Server, l: Limits, s: Progress, turned: Result<Turned, WfsError>)
    requires Sane(l) && |s.features| < l.maxFeatures && Turn(server, l, s) == turned
    ensures Import(server, l, s).Ok? <==> turned.Ok? && (turned.value.Go? ==> Import(server, l, turned.value.next).Ok?)
  {
  }

  /** The loop after page `k`, when it goes on. */
  ghost function ProgressAfter(server: Server, l: Limits, all: seq<Fields>, k: nat): Progress
    requires Sane(l) && StartAt(l, k) < l.maxFeatures && StartAt(l, k) + CountAt(l, k) <= |all|
  {
    Progress(k + 1, all[..StartAt(l, k) + CountAt(l, k)], Some(server.digest(BodyAt(server, l, k))), BytesBefore(server, l, k + 1))
  }

  /** One page of an import: it is refused, it is the last, or the import goes on after it. */
  lemma {:induction false} ImportAt(server: Server, l: Limits, all: seq<Fields>, k: nat)
    requires Sane(l) && Honest(server, all) && Requested(server, l, all, k) && StartAt(l, k) <= |all|
    ensures Import(server, l, ProgressAt(server, l, all, k)).Ok? <==>
            && PageFine(server, l, all, k)
            && (!IsLast(server, l, all, k) ==> Import(server, l, ProgressAfter(server, l, all, k)).Ok?)
  {
    TurnAt(server, l, all, k);
    var s := ProgressAt(server, l, all, k);
    ImportTurns(server, l, s, Turn(server, l, s));
  }

  lemma {:induction false} FullImport(server: Server, l: Limits, s: Progress)
    requires Sane(l) && |s.features| >= l.maxFeatures
    ensures Import(server, l, s).Ok?
  {
  }

  /** After a page that is not the last comes the next. */
  lemma {:induction false} NextPage(server: Server, l: Limits, all: seq<Fields>, k: nat)
    requires Sane(l) && Requested(server, l, all, k) && !IsLast(server, l, all, k) && StartAt(l, k + 1) < l.maxFeatures
    ensures Requested(server, l, all, k + 1) && StartAt(l, k) < StartAt(l, k + 1) <= |all|
    ensures ProgressAfter(server, l, all, k) == ProgressAt(server, l, all, k + 1)
  {
  }

  lemma {:induction false} ImportFrom(server: Server, l: Limits, all: seq<Fields>, k: nat)
    requires Sane(l) && Honest(server, all) && Requested(server, l, all, k) && StartAt(l, k) <= |all|
    ensures Import(server, l, ProgressAt(server, l, all, k)).Ok? <==> FineFrom(server, l, all, k)
    decreases l.maxFeatures - StartAt(l, k)
  {
    ImportAt(server, l, all, k);
    if PageFine(server, l, all, k) {
      if IsLast(server, l, all, k) {
        LastPageFine(server, l, all, k);
      } else if StartAt(l, k + 1) >= l.maxFeatures {
        LastPageFine(server, l, all, k);
        FullImport(server, l, ProgressAfter(server, l, all, k));
      } else {
        NextPage(server, l, all, k);
        ImportFrom(server, l, all, k + 1);
        FineFromNext(server, l, all, k);
      }
    }
  }

  /** Against a server that answers exactly, an import succeeds exactly when every page it
      asks for keeps the byte caps and differs from the page before it. */
  lemma {:induction false} HonestImportIff(server: Server, l: Limits, all: seq<Fields>)
    requires Sane(l) && Honest(server, all)
    ensures Import(server, l, START).Ok? <==> forall k: nat :: Requested(server, l, all, k) ==> PageFine(server, l, all, k)
  {
    assert all[..0] == [];
    ImportFrom(server, l, all, 0);
  }
}
