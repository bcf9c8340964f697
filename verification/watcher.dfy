/**
  `BounsBot.main_loop`: remember the token supply read at start-up, then on
  every cycle read it again and, when it has grown, process every new token id
  in ascending order (fetch its URI with retries, unwrap the SVG, rasterise,
  hand it to the publisher), catching each token's failure on its own, and
  finally remember the new supply. A failed supply read is caught for the
  whole cycle.
*/
module Watcher {
  import opened Wrappers
  import opened Metadata
  import opened RetryLoop
  import opened Supply

  /** The collaborators of the loop, as they answer for this run. */
  datatype Env = Env(
    tokenUri: (nat, nat) -> Option<Uri>,   // tokenURI(id).call(), k-th attempt
    codecs: Codecs,                        // what get_svg decodes with
    rasterize: Bytes -> Option<Bytes>)     // cairosvg.svg2png

  /** Why the processing of one token stopped early (the exception the per-token handler logs). */
  datatype TokenError = UriUnavailable | BadMetadata(cause: SvgError)

  /** `Posted(png)`: `post_tweet` was called with `png`, which catches its own failures. */
  datatype TokenResult = Posted(png: Bytes) | Failed(error: TokenError)

  /** What processing token `id` did. */
  datatype Report = Report(id: nat, fetch: Fetch, result: TokenResult)

  /** The body of the per-token `try` of `main_loop`, with its `except`. */
  function Process(env: Env, id: nat): (rep: Report)
    ensures rep.id == id && rep.fetch == Retry(env.tokenUri, id)
    ensures rep.result.Failed? <==> rep.fetch.uri.None? || GetSvg(env.codecs, rep.fetch.uri.value).Err?
  {
    var fetch := Retry(env.tokenUri, id);
    var result :=
      match fetch.uri
      case None => Failed(UriUnavailable)
      case Some(uri) =>
        match GetSvg(env.codecs, uri)
        case Err(e) => Failed(BadMetadata(e))
        case Ok(svg) => Posted(SvgToPng(env.rasterize, svg));
    Report(id, fetch, result)
  }

  /**
    Processing a token fetches its URI with retries; a fetch that gave up, or a
    URI whose metadata cannot be unwrapped, fails that token only; otherwise the
    SVG, rasterised or (if rasterising failed) as it was, goes to `post_tweet`.
  */
  lemma ProcessOutcome(env: Env, id: nat)
    ensures Process(env, id).id == id
    ensures Process(env, id).fetch == Retry(env.tokenUri, id)
    ensures Retry(env.tokenUri, id).uri.None? ==> Process(env, id).result == Failed(UriUnavailable)
    ensures Retry(env.tokenUri, id).uri.Some? ==>
      match GetSvg(env.codecs, Retry(env.tokenUri, id).uri.value)
      case Err(e) => Process(env, id).result == Failed(BadMetadata(e))
      case Ok(svg) =>
        && Process(env, id).result.Posted?
        && (env.rasterize(svg) == Some(Process(env, id).result.png)
            || (env.rasterize(svg).None? && Process(env, id).result.png == svg))
  {
  }

  /** The reports of processing `ids` one after the other. */
  function Reports(env: Env, ids: seq<nat>): (rs: seq<Report>)
    ensures |rs| == |ids|
    ensures forall i :: 0 <= i < |ids| ==> rs[i] == Process(env, ids[i])
  {
    if ids == [] then [] else [Process(env, ids[0])] + Reports(env, ids[1..])
  }

  function Ids(reports: seq<Report>): seq<nat>
  {
    if reports == [] then [] else [reports[0].id] + Ids(reports[1..])
  }

  /** Every id gets exactly one report, in order, whatever happened to the ids before it. */
  lemma {:induction false} ReportsCoverIds(env: Env, ids: seq<nat>)
    ensures |Reports(env, ids)| == |ids|
    ensures Ids(Reports(env, ids)) == ids
  {
    if ids != [] {
      ReportsCoverIds(env, ids[1..]);
      assert Reports(env, ids)[1..] == Reports(env, ids[1..]);
    }
  }

  /**
    Over a run, the reports name exactly the ids above the start-up supply up
    to the final supply, once each and in order, whatever each token's outcome.
  */
  lemma RunReportsCoverIds(env: Env, start: nat, rs: seq<Reading>)
    ensures Ids(Reports(env, RunIds(start, rs))) == Range(start + 1, RunSupply(start, rs) + 1)
  {
    ReportsCoverIds(env, RunIds(start, rs));
    RunIdsRange(start, rs);
  }

  lemma {:induction false} ReportsAppend(env: Env, a: seq<nat>, b: seq<nat>)
    ensures Reports(env, a + b) == Reports(env, a) + Reports(env, b)
  {
    if a != [] {
      assert (a + b)[0] == a[0] && (a + b)[1..] == a[1..] + b;
      ReportsAppend(env, a[1..], b);
    } else {
      assert a + b == b;
    }
  }

  lemma ProcessedOneMore(env: Env, lo: nat, id: nat)
    requires lo <= id
    ensures Reports(env, Range(lo, id + 1)) == Reports(env, Range(lo, id)) + [Process(env, id)]
  {
    RangeSnoc(lo, id);
    ReportsAppend(env, Range(lo, id), [id]);
    assert [id][1..] == [];
  }

  /** The reports of a run: those of its first cycle, then those of the rest. */
  lemma ReportsOfRunStep(env: Env, before: seq<Report>, last: nat, rs: seq<Reading>)
    requires rs != []
    ensures before + Reports(env, RunIds(last, rs))
            == (before + Reports(env, CycleIds(last, rs[0])))
               + Reports(env, RunIds(NextSupply(last, rs[0]), rs[1..]))
    ensures RunSupply(last, rs) == RunSupply(NextSupply(last, rs[0]), rs[1..])
  {
    var cycle, rest := CycleIds(last, rs[0]), RunIds(NextSupply(last, rs[0]), rs[1..]);
    RunStep(last, rs);
    ReportsAppend(env, cycle, rest);
    AppendAssociates(before, Reports(env, cycle), Reports(env, rest));
  }

  lemma AppendAssociates(a: seq<Report>, b: seq<Report>, c: seq<Report>)
    ensures a + (b + c) == (a + b) + c
  {
  }

  /**
    The per-token `try` block, as the loop runs it: the imperative counterpart
    of `Process`, calling the retry loop `FetchTokenUri` where `Process` uses `Retry`.
  */
  method ProcessToken(env: Env, id: nat) returns (rep: Report)
    ensures rep == Process(env, id)
  {
    var fetch := FetchTokenUri(env.tokenUri, id);
    var result: TokenResult;
    match fetch.uri {
      case None =>
        result := Failed(UriUnavailable);
      case Some(uri) =>
        var svg := GetSvg(env.codecs, uri);
        match svg {
          case Err(e) =>
            result := Failed(BadMetadata(e));
          case Ok(svgBytes) =>
            var png := SvgToPng(env.rasterize, svgBytes);
            result := Posted(png);
        }
    }
    rep := Report(id, fetch, result);
  }

  class BounsBot {
    const env: Env
    /** `old_supply` of `main_loop`: the last supply whose new tokens have been processed. */
    var lastSupply: nat
    /** One report per token processed so far, in processing order. */
    var reports: seq<Report>

    /** Start-up: the supply read once before the loop; tokens up to it are never processed. */
    constructor (env: Env, initialSupply: nat)
      ensures this.env == env && lastSupply == initialSupply && reports == []
    {
      this.env := env;
      lastSupply := initialSupply;
      reports := [];
    }

    /** The `for token_id in range(first, stop)` loop: every id processed, one report each, in order. */
    method ProcessTokens(first: nat, stop: nat)
      requires first <= stop
      modifies this`reports
      ensures reports == old(reports) + Reports(env, Range(first, stop))
    {
      for tokenId := first to stop
        invariant reports == old(reports) + Reports(env, Range(first, tokenId))
      {
        var rep := ProcessToken(env, tokenId);
        ProcessedOneMore(env, first, tokenId);
        reports := reports + [rep];
      }
    }

    /** One iteration of the `while True` loop, without the sleep. */
    method Poll(reading: Reading)
      modifies this
      ensures lastSupply == NextSupply(old(lastSupply), reading)
      ensures reports == old(reports) + Reports(env, CycleIds(old(lastSupply), reading))
    {
      ghost var ids := CycleIds(lastSupply, reading);
      match reading {
        case ReadFailed =>
          // the exception is caught for the whole cycle
          assert ids == [];
          assert reports + [] == reports;
        case Supply(newSupply) =>
          if newSupply > lastSupply {
            var first := lastSupply + 1;
            assert ids == Range(first, newSupply + 1);
            ProcessTokens(first, newSupply + 1);
            lastSupply := newSupply;
          } else {
            assert ids == [];
            assert reports + [] == reports;
          }
      }
    }
  }

  /**
    `main_loop` over a finite run: the start-up read `first`, then one cycle
    per reading of `later`. A failed start-up read is not caught, so the bot
    never gets going.
  */
  method MainLoop(env: Env, first: Reading, later: seq<Reading>) returns (bot: BounsBot?)
    ensures first.ReadFailed? ==> bot == null
    ensures first.Supply? ==> bot != null && fresh(bot) && bot.env == env
    ensures first.Supply? ==> bot.lastSupply == RunSupply(first.value, later)
    ensures first.Supply? ==> bot.reports == Reports(env, RunIds(first.value, later))
  {
    if first.ReadFailed? {
      return null;
    }
    bot := new BounsBot(env, first.value);
    assert later[0..] == later;
    for i := 0 to |later|
      invariant bot.env == env
      invariant RunSupply(bot.lastSupply, later[i..]) == RunSupply(first.value, later)
      invariant bot.reports + Reports(env, RunIds(bot.lastSupply, later[i..]))
                == Reports(env, RunIds(first.value, later))
    {
      var reading := later[i];
      ghost var last, before := bot.lastSupply, bot.reports;
      assert later[i..][0] == reading && later[i..][1..] == later[i + 1..];
      ReportsOfRunStep(env, before, last, later[i..]);
      bot.Poll(reading);
    }
    assert later[|later|..] == [];
  }
}
